/** `Config.validate`: the check a built configuration must pass before the
    mount proceeds. */
module Validation {
  import opened Wrappers
  import C = Configuration
  import Options

  const MountpointNotSet := "Mountpoint not set"
  const TargetNotSet := "Target not set"
  const BucketNotSet := "Bucket not set"

  /** The three fields validation looks at. */
  const Checked: set<C.Field> := {C.Mountpoint, C.TargetUrl, C.Bucket}

  /** Checks mountpoint, then target, then bucket, and reports the first one
      missing. */
  function Validate(c: C.Config): (r: Outcome<string>)
    ensures r == Pass <==> c.mountpoint != "" && c.target.Some? && c.bucket != ""
    ensures r == Fail(MountpointNotSet) <==> c.mountpoint == ""
    ensures r == Fail(TargetNotSet) <==> c.mountpoint != "" && c.target.None?
    ensures r == Fail(BucketNotSet) <==> c.mountpoint != "" && c.target.Some? && c.bucket == ""
  {
    if c.mountpoint == "" then Fail(MountpointNotSet)
    else if c.target.None? then Fail(TargetNotSet)
    else if c.bucket == "" then Fail(BucketNotSet)
    else Pass
  }

  /** Validation reads only mountpoint, target and bucket: cache, credentials,
      uid, gid, flags, base path and mode make no difference. */
  lemma ValidateReadsOnlyChecked(a: C.Config, b: C.Config)
    requires forall f :: f in Checked ==> C.Get(a, f) == C.Get(b, f)
    ensures Validate(a) == Validate(b)
  {
  }

  /** No option that leaves the checked fields alone changes the verdict. */
  lemma OtherOptionsKeepVerdict(c: C.Config, o: Options.ConfigOption, parse: C.Parser)
    requires Options.Writes(o, parse) !! Checked
    ensures Validate(Options.Apply(c, o, parse)) == Validate(c)
  {
  }

  /** A target that fails to parse is not reported when the option is
      applied; it surfaces only here: with a mountpoint set and no target
      that parses, validation fails with "Target not set". */
  lemma UnparsedTargetCaughtLate(opts: seq<Options.ConfigOption>, parse: C.Parser)
    requires forall i :: 0 <= i < |opts| && opts[i].Target? ==> parse(opts[i].raw).None?
    requires Options.New(opts, parse).mountpoint != ""
    ensures Validate(Options.New(opts, parse)) == Fail(TargetNotSet)
  {
    Options.BuildField(C.Zero, opts, parse, C.TargetUrl);
  }

  /** The worked example: target, cache directory and uid give bucket
      "bucket", base path "a/b", cache "/tmp/c" and uid 1000; validation
      fails until a mountpoint is added, and passes after. */
  lemma ExampleBuild(parse: C.Parser)
    requires parse("https://h/bucket/a/b").Some?
    requires parse("https://h/bucket/a/b").value.path == "/bucket/a/b"
    ensures var cfg := Options.New([Options.Target("https://h/bucket/a/b"), Options.CacheDir("/tmp/c"), Options.SetUID(1000)], parse);
      && cfg.bucket == "bucket" && cfg.basePath == "a/b"
      && cfg.cache == "/tmp/c" && cfg.uid == 1000
      && Validate(cfg) == Fail(MountpointNotSet)
    ensures Validate(Options.New([Options.Target("https://h/bucket/a/b"), Options.CacheDir("/tmp/c"), Options.SetUID(1000), Options.Mountpoint("/mnt/x")], parse)) == Pass
  {
    var raw := "https://h/bucket/a/b";
    Options.ExampleTarget(C.Zero, raw, parse);
    var c1 := Options.Apply(C.Zero, Options.Target(raw), parse);
    var c2 := Options.Apply(c1, Options.CacheDir("/tmp/c"), parse);
    var c3 := Options.Apply(c2, Options.SetUID(1000), parse);
    var opts := [Options.Target(raw), Options.CacheDir("/tmp/c"), Options.SetUID(1000)];
    var opts4 := opts + [Options.Mountpoint("/mnt/x")];
    assert Options.Build(C.Zero, [], parse) == C.Zero;
    assert opts[..1][..0] == [];
    assert Options.Build(C.Zero, opts[..1], parse) == c1;
    assert opts[..2][..1] == opts[..1];
    assert Options.Build(C.Zero, opts[..2], parse) == c2;
    assert Options.Build(C.Zero, opts, parse) == c3;
    assert opts4[..3] == opts;
    var c4 := Options.Apply(c3, Options.Mountpoint("/mnt/x"), parse);
    assert Options.Build(C.Zero, opts4, parse) == c4;
    assert opts4 == [Options.Target(raw), Options.CacheDir("/tmp/c"), Options.SetUID(1000), Options.Mountpoint("/mnt/x")];
    assert c4.mountpoint == "/mnt/x" && c4.target.Some? && c4.bucket == "bucket";
  }
}
