/** Go's `path.Join`, for elements that contain no '/'. That is the only way
    the configuration code calls it: its elements come from splitting a URL
    path on '/'. `path.Join` drops empty elements, joins the rest with '/' and
    cleans the result lexically; on a relative path without slashes inside
    elements, cleaning works element by element, which `Resolve` models. */
module Paths {
  import Strings

  predicate SlashFree(elems: seq<string>)
  {
    forall i :: 0 <= i < |elems| ==> '/' !in elems[i]
  }

  /** No element is "." or "..", so cleaning only has empty elements to drop. */
  predicate Plain(elems: seq<string>)
  {
    forall i :: 0 <= i < |elems| ==> elems[i] != "." && elems[i] != ".."
  }

  /** The shape of a cleaned relative path: no empty and no "." element, and
      every ".." comes before every ordinary name. */
  predicate Canonical(segs: seq<string>)
  {
    && (forall i :: 0 <= i < |segs| ==> segs[i] != "" && segs[i] != ".")
    && (forall i, j :: 0 <= i < j < |segs| && segs[j] == ".." ==> segs[i] == "..")
  }

  /** The elements of `elems` that are not empty, in order. */
  function NonEmpty(elems: seq<string>): (kept: seq<string>)
    ensures forall i :: 0 <= i < |kept| ==> kept[i] != "" && kept[i] in elems
  {
    if elems == [] then []
    else
      var init := NonEmpty(elems[..|elems| - 1]);
      var last := elems[|elems| - 1];
      if last == "" then init else init + [last]
  }

  /** The lexical processing of path cleaning on a relative path: empty and
      "." elements vanish, ".." removes the preceding name, and a ".." with
      no name left to remove is kept. */
  function Resolve(elems: seq<string>): (out: seq<string>)
    ensures Canonical(out)
    ensures forall i :: 0 <= i < |out| ==> out[i] in elems
  {
    if elems == [] then []
    else
      var out := Resolve(elems[..|elems| - 1]);
      var e := elems[|elems| - 1];
      if e == "" || e == "." then out
      else if e == ".." then
        if |out| > 0 && out[|out| - 1] != ".." then out[..|out| - 1] else out + [".."]
      else out + [e]
  }

  /** `path.Join(elems...)`: "" when every element is empty, otherwise the
      cleaned join, which is "." when nothing survives cleaning. */
  function Join(elems: seq<string>): (p: string)
    requires SlashFree(elems)
    ensures p == "" <==> forall i :: 0 <= i < |elems| ==> elems[i] == ""
  {
    if forall i :: 0 <= i < |elems| ==> elems[i] == "" then ""
    else
      var out := Resolve(elems);
      if out == [] then "." else Strings.Join(out, '/')
  }

  /** A canonical sequence is already clean. */
  lemma {:induction false} ResolveCanonical(segs: seq<string>)
    requires Canonical(segs)
    ensures Resolve(segs) == segs
  {
    if segs != [] {
      var init := segs[..|segs| - 1];
      assert Canonical(init);
      ResolveCanonical(init);
    }
  }

  /** Without "." and ".." elements, cleaning only drops the empty ones. */
  lemma {:induction false} ResolvePlain(elems: seq<string>)
    requires Plain(elems)
    ensures Resolve(elems) == NonEmpty(elems)
  {
    if elems != [] {
      var init := elems[..|elems| - 1];
      assert Plain(init);
      ResolvePlain(init);
    }
  }

  /** Every element is empty exactly when no element survives `NonEmpty`. */
  lemma {:induction false} NonEmptyNil(elems: seq<string>)
    ensures NonEmpty(elems) == [] <==> forall i :: 0 <= i < |elems| ==> elems[i] == ""
  {
    if elems != [] {
      var init := elems[..|elems| - 1];
      NonEmptyNil(init);
      if NonEmpty(elems) == [] {
        assert elems[|elems| - 1] == "";
        forall i | 0 <= i < |elems|
          ensures elems[i] == ""
        {
          if i < |elems| - 1 {
            assert elems[i] == init[i];
          }
        }
      }
    }
  }

  /** For elements without "." and "..", `path.Join` keeps the non-empty
      elements and joins them with '/'. */
  lemma JoinPlain(elems: seq<string>)
    requires SlashFree(elems)
    requires Plain(elems)
    ensures Join(elems) == Strings.Join(NonEmpty(elems), '/')
  {
    ResolvePlain(elems);
    NonEmptyNil(elems);
  }

  /** The joined path is clean: splitting it on '/' gives no empty element,
      and no "." element unless the whole path is ".". */
  lemma JoinIsClean(elems: seq<string>)
    requires SlashFree(elems)
    requires Join(elems) != ""
    ensures var segs := Strings.Split(Join(elems), '/');
      Join(elems) == "." || Canonical(segs)
  {
    var out := Resolve(elems);
    if out != [] {
      assert SlashFree(out);
      Strings.SplitJoin(out, '/');
    }
  }

  /** Joining the pieces of a joined path again changes nothing, as cleaning
      a clean path changes nothing. */
  lemma JoinIdempotent(elems: seq<string>)
    requires SlashFree(elems)
    ensures SlashFree(Strings.Split(Join(elems), '/'))
    ensures Join(Strings.Split(Join(elems), '/')) == Join(elems)
  {
    var p := Join(elems);
    var segs := Strings.Split(p, '/');
    var out := Resolve(elems);
    if p == "" {
      assert segs == [""];
    } else if out == [] {
      assert p == ".";
      Strings.SplitNoSep(p, '/');
      assert segs[0] != "";
      assert Resolve(segs) == Resolve([]);
    } else {
      assert SlashFree(out);
      Strings.SplitJoin(out, '/');
      assert segs == out;
      assert segs[0] != "";
      ResolveCanonical(out);
    }
  }
}
