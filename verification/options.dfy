/** The functional options of fs/config.go (`Mountpoint`, `Target`,
    `CacheDir`, `SetGID`, `SetUID`, `Insecure`, `Debug`) as data, the change
    each one makes to a `Config`, and their application in order. */
module Options {
  import opened Wrappers
  import Strings
  import Paths
  import C = Configuration

  datatype ConfigOption =
    | Mountpoint(path: string)
    | Target(raw: string)
    | CacheDir(path: string)
    | SetGID(gid: C.uint32)
    | SetUID(uid: C.uint32)
    | Insecure
    | Debug

  /** The bucket named by a URL path longer than one character: the first
      '/'-separated piece after the path's first character. */
  function BucketOf(path: string): string
    requires |path| > 1
  {
    Strings.Split(path[1..], '/')[0]
  }

  /** The path inside the bucket: the remaining pieces through `path.Join`. */
  function BasePathOf(path: string): string
    requires |path| > 1
  {
    Paths.Join(Strings.Split(path[1..], '/')[1..])
  }

  /** Applies one option to a configuration. A `Target` whose URL does not
      parse changes nothing; one that parses always stores the URL, and
      replaces bucket and base path only when the URL path is longer than
      one character. */
  function Apply(c: C.Config, o: ConfigOption, parse: C.Parser): (r: C.Config)
    ensures forall f :: C.Get(r, f) == if f in Writes(o, parse) then Written(o, parse, f) else C.Get(c, f)
  {
    match o
    case Mountpoint(p) => c.(mountpoint := p)
    case Target(raw) =>
      (match parse(raw)
       case None => c
       case Some(u) =>
         if |u.path| > 1 then
           var parts := Strings.Split(u.path[1..], '/');
           c.(target := Some(u), bucket := parts[0], basePath := Paths.Join(parts[1..]))
         else
           c.(target := Some(u)))
    case CacheDir(p) => c.(cache := p)
    case SetGID(g) => c.(gid := g)
    case SetUID(u) => c.(uid := u)
    case Insecure => c.(insecure := true)
    case Debug => c.(debug := true)
  }

  /** The fields an option writes, for a given URL parser. */
  function Writes(o: ConfigOption, parse: C.Parser): set<C.Field>
  {
    match o
    case Mountpoint(_) => {C.Mountpoint}
    case Target(raw) =>
      (match parse(raw)
       case None => {}
       case Some(u) => if |u.path| > 1 then {C.TargetUrl, C.Bucket, C.BasePath} else {C.TargetUrl})
    case CacheDir(_) => {C.Cache}
    case SetGID(_) => {C.Gid}
    case SetUID(_) => {C.Uid}
    case Insecure => {C.Insecure}
    case Debug => {C.Debug}
  }

  /** The value an option writes into a field it writes; it does not depend
      on the configuration the option is applied to. */
  function Written(o: ConfigOption, parse: C.Parser, f: C.Field): C.Value
    requires f in Writes(o, parse)
  {
    match o
    case Mountpoint(p) => C.Text(p)
    case Target(raw) =>
      var u := parse(raw).value;
      if f == C.TargetUrl then C.Link(Some(u))
      else if f == C.Bucket then C.Text(BucketOf(u.path))
      else C.Text(BasePathOf(u.path))
    case CacheDir(p) => C.Text(p)
    case SetGID(g) => C.Number(g)
    case SetUID(u) => C.Number(u)
    case Insecure => C.Flag(true)
    case Debug => C.Flag(true)
  }

  /** Applies the options in order, as the caller that builds a `Config`
      does: a left fold, each option seeing the result of the ones before. */
  function Build(c: C.Config, opts: seq<ConfigOption>, parse: C.Parser): C.Config
  {
    if opts == [] then c
    else Apply(Build(c, opts[..|opts| - 1], parse), opts[|opts| - 1], parse)
  }

  /** A configuration assembled from the zero value. */
  function New(opts: seq<ConfigOption>, parse: C.Parser): C.Config
  {
    Build(C.Zero, opts, parse)
  }

  /** The index of the last option that writes `f`, if any. */
  function LastWriter(opts: seq<ConfigOption>, parse: C.Parser, f: C.Field): (k: Option<nat>)
    ensures k.Some? ==> k.value < |opts| && f in Writes(opts[k.value], parse)
    ensures k.Some? ==> forall j :: k.value < j < |opts| ==> f !in Writes(opts[j], parse)
    ensures k.None? ==> forall j :: 0 <= j < |opts| ==> f !in Writes(opts[j], parse)
  {
    if opts == [] then None
    else if f in Writes(opts[|opts| - 1], parse) then Some(|opts| - 1)
    else
      var k := LastWriter(opts[..|opts| - 1], parse, f);
      assert forall j :: 0 <= j < |opts| - 1 ==> opts[j] == opts[..|opts| - 1][j];
      k
  }

  // ----- Target derivation -----

  /** A URL path made of a leading '/' and slash-free pieces: the first piece
      is the bucket, and the rest go through `path.Join`. */
  lemma TargetSegments(segs: seq<string>)
    requires |segs| >= 1
    requires Paths.SlashFree(segs)
    requires |"/" + Strings.Join(segs, '/')| > 1
    ensures BucketOf("/" + Strings.Join(segs, '/')) == segs[0]
    ensures BasePathOf("/" + Strings.Join(segs, '/')) == Paths.Join(segs[1..])
  {
    var path := "/" + Strings.Join(segs, '/');
    assert path[1..] == Strings.Join(segs, '/');
    Strings.SplitJoin(segs, '/');
  }

  /** `/b/p1/p2` names bucket `b` and base path `p1/p2`. */
  lemma TargetBucketAndPath(b: string, p1: string, p2: string)
    requires p1 != "" && p2 != ""
    requires '/' !in b && '/' !in p1 && '/' !in p2
    requires p1 != "." && p1 != ".." && p2 != "." && p2 != ".."
    ensures BucketOf("/" + b + "/" + p1 + "/" + p2) == b
    ensures BasePathOf("/" + b + "/" + p1 + "/" + p2) == p1 + "/" + p2
  {
    var segs := [b, p1, p2];
    assert Strings.Join([p2], '/') == p2;
    assert Strings.Join([p1, p2], '/') == p1 + "/" + p2;
    assert Strings.Join(segs, '/') == b + "/" + (p1 + "/" + p2);
    assert "/" + b + "/" + p1 + "/" + p2 == "/" + Strings.Join(segs, '/');
    TargetSegments(segs);
    var rest := [p1, p2];
    assert segs[1..] == rest;
    Paths.JoinPlain(rest);
    assert rest[..1] == [p1];
    assert Paths.NonEmpty([p1]) == [p1];
    assert Paths.NonEmpty(rest) == [p1, p2];
  }

  /** A trailing '/' adds no base path: `/b/` is bucket `b` at its root. */
  lemma TargetTrailingSlash(b: string)
    requires '/' !in b
    ensures BucketOf("/" + b + "/") == b
    ensures BasePathOf("/" + b + "/") == ""
  {
    var segs := [b, ""];
    assert Strings.Join(segs, '/') == b + "/" + "";
    assert "/" + b + "/" == "/" + Strings.Join(segs, '/');
    TargetSegments(segs);
    assert segs[1..] == [""];
  }

  /** Empty pieces vanish from the base path: `/b//c/` has base path `c`. */
  lemma TargetEmptyPiecesDropped(b: string, c: string)
    requires c != ""
    requires '/' !in b && '/' !in c
    requires c != "." && c != ".."
    ensures BucketOf("/" + b + "//" + c + "/") == b
    ensures BasePathOf("/" + b + "//" + c + "/") == c
  {
    var segs := [b, "", c, ""];
    var rest := ["", c, ""];
    assert Strings.Join([""], '/') == "";
    assert Strings.Join([c, ""], '/') == c + "/";
    assert Strings.Join(rest, '/') == "/" + c + "/";
    assert Strings.Join(segs, '/') == b + "/" + ("/" + c + "/");
    assert "/" + b + "//" + c + "/" == "/" + Strings.Join(segs, '/');
    TargetSegments(segs);
    assert segs[1..] == rest;
    Paths.JoinPlain(rest);
    assert rest[..2] == ["", c];
    assert ["", c][..1] == [""];
    assert Paths.NonEmpty([""]) == [];
    assert Paths.NonEmpty(["", c]) == [c];
    assert Paths.NonEmpty(rest) == [c];
  }

  /** A path starting with two slashes names the empty bucket. */
  lemma TargetDoubleSlashEmptyBucket(x: string)
    requires '/' !in x
    ensures BucketOf("//" + x) == ""
    ensures BasePathOf("//" + x) == Paths.Join([x])
  {
    var segs := ["", x];
    assert Strings.Join(segs, '/') == "" + "/" + x;
    assert "//" + x == "/" + Strings.Join(segs, '/');
    TargetSegments(segs);
    assert segs[1..] == [x];
  }

  /** A target whose URL path is `/bucket/a/b` (as `https://h/bucket/a/b`
      parses) stores the URL, bucket "bucket" and base path
      "a/b". */
  lemma ExampleTarget(c: C.Config, raw: string, parse: C.Parser)
    requires parse(raw).Some?
    requires parse(raw).value.path == "/bucket/a/b"
    ensures Apply(c, Target(raw), parse) == c.(target := parse(raw), bucket := "bucket", basePath := "a/b")
  {
    TargetBucketAndPath("bucket", "a", "b");
    assert parse(raw).value.path == "/" + "bucket" + "/" + "a" + "/" + "b";
  }

  // ----- Single options -----

  /** A target that does not parse leaves the whole configuration as it was. */
  lemma UnparsableTargetChangesNothing(c: C.Config, raw: string, parse: C.Parser)
    requires parse(raw).None?
    ensures Apply(c, Target(raw), parse) == c
  {
  }

  /** A target whose path is "" or "/" replaces the URL but keeps the bucket
      and base path set by an earlier target. */
  lemma RootTargetKeepsBucket(c: C.Config, raw: string, parse: C.Parser)
    requires parse(raw).Some? && |parse(raw).value.path| <= 1
    ensures Apply(c, Target(raw), parse) == c.(target := parse(raw))
  {
  }

  /** Last write wins: an option that writes every field an earlier one wrote
      hides the earlier one completely. So a setter applied twice keeps the
      second value, and `Insecure` and `Debug` are idempotent. */
  lemma LaterOptionOverrides(c: C.Config, o1: ConfigOption, o2: ConfigOption, parse: C.Parser)
    requires Writes(o1, parse) <= Writes(o2, parse)
    ensures Apply(Apply(c, o1, parse), o2, parse) == Apply(c, o2, parse)
  {
    var a := Apply(Apply(c, o1, parse), o2, parse);
    var b := Apply(c, o2, parse);
    forall f
      ensures C.Get(a, f) == C.Get(b, f)
    {
    }
    C.Extensionality(a, b);
  }

  /** Options that write disjoint fields can be applied in either order. */
  lemma DisjointOptionsCommute(c: C.Config, o1: ConfigOption, o2: ConfigOption, parse: C.Parser)
    requires Writes(o1, parse) !! Writes(o2, parse)
    ensures Apply(Apply(c, o1, parse), o2, parse) == Apply(Apply(c, o2, parse), o1, parse)
  {
    var a := Apply(Apply(c, o1, parse), o2, parse);
    var b := Apply(Apply(c, o2, parse), o1, parse);
    forall f
      ensures C.Get(a, f) == C.Get(b, f)
    {
    }
    C.Extensionality(a, b);
  }

  // ----- Sequences of options -----

  /** Each field of the built configuration holds what the last option that
      writes it wrote, or its starting value when no option writes it. */
  lemma {:induction false} BuildField(c: C.Config, opts: seq<ConfigOption>, parse: C.Parser, f: C.Field)
    ensures C.Get(Build(c, opts, parse), f) ==
      match LastWriter(opts, parse, f)
      case None => C.Get(c, f)
      case Some(k) => Written(opts[k], parse, f)
  {
    if opts != [] {
      var init := opts[..|opts| - 1];
      BuildField(c, init, parse, f);
      if f !in Writes(opts[|opts| - 1], parse) {
        var k := LastWriter(init, parse, f);
        assert LastWriter(opts, parse, f) == k;
        if k.Some? {
          assert opts[k.value] == init[k.value];
        }
      }
    }
  }

  /** Applying two lists of options one after the other is applying their
      concatenation. */
  lemma {:induction false} BuildAppend(c: C.Config, xs: seq<ConfigOption>, ys: seq<ConfigOption>, parse: C.Parser)
    ensures Build(c, xs + ys, parse) == Build(Build(c, xs, parse), ys, parse)
  {
    if ys == [] {
      assert xs + ys == xs;
    } else {
      var init := ys[..|ys| - 1];
      BuildAppend(c, xs, init, parse);
      assert (xs + ys)[..|xs + ys| - 1] == xs + init;
      assert (xs + ys)[|xs + ys| - 1] == ys[|ys| - 1];
    }
  }
}
