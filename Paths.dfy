/** Paths as lists of components, their text form, and the order in which
    `sorted()` arranges `pathlib.Path` objects: component by component, each
    component compared as a string (code point by code point). */
module Paths {
  import opened Common

  /** A path as its components: an absolute path without its leading `/`,
      or a path relative to some directory. */
  type Path = seq<string>

  /** `str(p)` for a relative path, with `/` as separator (`.` when empty). */
  function PathStr(p: Path): string
  {
    if p == [] then "." else Join(p, "/")
  }

  /** `PurePath.name`: the last component. */
  function Name(p: Path): string
  {
    if p == [] then "" else p[|p| - 1]
  }

  // ---------------------------------------------------------------------
  // Python's `<` on strings
  // ---------------------------------------------------------------------

  predicate StrLt(a: string, b: string)
    decreases |a|
  {
    if a == [] then b != []
    else if b == [] then false
    else a[0] < b[0] || (a[0] == b[0] && StrLt(a[1..], b[1..]))
  }

  lemma {:induction false} StrLtIrreflexive(a: string)
    ensures !StrLt(a, a)
    decreases |a|
  {
    if a != [] { StrLtIrreflexive(a[1..]); }
  }

  lemma {:induction false} StrLtTransitive(a: string, b: string, c: string)
    requires StrLt(a, b) && StrLt(b, c)
    ensures StrLt(a, c)
    decreases |a|
  {
    if a != [] && b != [] && c != [] && a[0] == b[0] == c[0] {
      StrLtTransitive(a[1..], b[1..], c[1..]);
    }
  }

  lemma {:induction false} StrLtTotal(a: string, b: string)
    requires a != b
    ensures StrLt(a, b) || StrLt(b, a)
    decreases |a|
  {
    if a != [] && b != [] && a[0] == b[0] {
      assert a == [a[0]] + a[1..] && b == [b[0]] + b[1..];
      StrLtTotal(a[1..], b[1..]);
    }
  }

  // ---------------------------------------------------------------------
  // `PurePath.__lt__`: list comparison of the components
  // ---------------------------------------------------------------------

  predicate PathLt(a: Path, b: Path)
    decreases |a|
  {
    if a == [] then b != []
    else if b == [] then false
    else StrLt(a[0], b[0]) || (a[0] == b[0] && PathLt(a[1..], b[1..]))
  }

  lemma {:induction false} PathLtIrreflexive(a: Path)
    ensures !PathLt(a, a)
    decreases |a|
  {
    if a != [] {
      StrLtIrreflexive(a[0]);
      PathLtIrreflexive(a[1..]);
    }
  }

  lemma {:induction false} PathLtTransitive(a: Path, b: Path, c: Path)
    requires PathLt(a, b) && PathLt(b, c)
    ensures PathLt(a, c)
    decreases |a|
  {
    if a != [] && b != [] && c != [] {
      if StrLt(a[0], b[0]) && StrLt(b[0], c[0]) {
        StrLtTransitive(a[0], b[0], c[0]);
      } else if a[0] == b[0] == c[0] {
        PathLtTransitive(a[1..], b[1..], c[1..]);
      }
    }
  }

  lemma {:induction false} PathLtTotal(a: Path, b: Path)
    requires a != b
    ensures PathLt(a, b) || PathLt(b, a)
    decreases |a|
  {
    if a != [] && b != [] {
      if a[0] != b[0] {
        StrLtTotal(a[0], b[0]);
      } else {
        assert a == [a[0]] + a[1..] && b == [b[0]] + b[1..];
        PathLtTotal(a[1..], b[1..]);
      }
    }
  }

  // ---------------------------------------------------------------------
  // Strictly ascending sequences of paths
  // ---------------------------------------------------------------------

  predicate StrictlySorted(s: seq<Path>)
  {
    forall i, j :: 0 <= i < j < |s| ==> PathLt(s[i], s[j])
  }

  /** A strictly ascending sequence holds no path twice. */
  lemma StrictlySortedHasNoDuplicates(s: seq<Path>)
    requires StrictlySorted(s)
    ensures forall i, j :: 0 <= i < j < |s| ==> s[i] != s[j]
  {
    forall i, j | 0 <= i < j < |s| ensures s[i] != s[j] {
      PathLtIrreflexive(s[i]);
    }
  }

  /** Insert a new path into a strictly ascending sequence at its place. */
  function InsertSorted(s: seq<Path>, x: Path): (r: seq<Path>)
    requires StrictlySorted(s) && x !in s
    ensures StrictlySorted(r)
    ensures |r| == |s| + 1
    ensures forall y :: y in r <==> y in s || y == x
    decreases |s|
  {
    if s == [] then [x]
    else if PathLt(x, s[0]) then
      assert forall j :: 0 <= j < |s| ==> PathLt(x, s[j]) by {
        forall j | 0 < j < |s| ensures PathLt(x, s[j]) {
          PathLtTransitive(x, s[0], s[j]);
        }
      }
      [x] + s
    else
      PathLtTotal(x, s[0]);
      var t := InsertSorted(s[1..], x);
      assert forall y :: y in t ==> PathLt(s[0], y) by {
        forall y | y in t ensures PathLt(s[0], y) {
          if y != x {
            var k :| 1 <= k < |s| && s[k] == y;
          }
        }
      }
      [s[0]] + t
  }
}
