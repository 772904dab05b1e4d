/** Shared vocabulary: optional values, results, bytes and the few string
    operations of Python's `str` that the rest of the model relies on. */
module Common {

  datatype Option<+T> = None | Some(value: T)

  datatype Result<+T, +E> = Ok(value: T) | Err(error: E)

  type byte = b: int | 0 <= b < 256

  // ---------------------------------------------------------------------
  // Letter case (ASCII only; see README "Left out")
  // ---------------------------------------------------------------------

  function LowerChar(c: char): char
  {
    if 'A' <= c <= 'Z' then (c as int + 32) as char else c
  }

  /** `str.lower()` restricted to ASCII letters. */
  function Lower(s: string): (r: string)
    ensures |r| == |s|
    ensures forall i :: 0 <= i < |s| ==> r[i] == LowerChar(s[i])
  {
    seq(|s|, i requires 0 <= i < |s| => LowerChar(s[i]))
  }

  lemma LowerIdempotent(s: string)
    ensures Lower(Lower(s)) == Lower(s)
  {
  }

  // ---------------------------------------------------------------------
  // Prefixes, suffixes, substrings
  // ---------------------------------------------------------------------

  predicate StartsWith<T(==)>(s: seq<T>, p: seq<T>)
  {
    |p| <= |s| && s[..|p|] == p
  }

  /** Two prefixes of one sequence agree wherever both are defined. */
  lemma PrefixesAgree<T>(s: seq<T>, p: seq<T>, q: seq<T>, k: nat)
    requires StartsWith(s, p) && StartsWith(s, q)
    requires k < |p| && k < |q|
    ensures p[k] == q[k]
  {
    assert p[k] == s[..|p|][k] == s[k] == s[..|q|][k];
  }

  predicate EndsWith<T(==)>(s: seq<T>, p: seq<T>)
  {
    |p| <= |s| && s[|s| - |p|..] == p
  }

  /** Python's `t in s` for strings: `t` occurs as a contiguous block of `s`. */
  predicate Contains<T(==)>(s: seq<T>, t: seq<T>)
    decreases |s|
  {
    StartsWith(s, t) || (|s| > 0 && Contains(s[1..], t))
  }

  /** `t` occurs in `s` starting at index `i`. */
  predicate OccursAt<T(==)>(s: seq<T>, t: seq<T>, i: int)
  {
    0 <= i && i + |t| <= |s| && s[i..i + |t|] == t
  }

  lemma {:induction false} ContainsAt<T>(s: seq<T>, t: seq<T>)
    ensures Contains(s, t) <==> exists i :: OccursAt(s, t, i)
    decreases |s|
  {
    if StartsWith(s, t) {
      assert OccursAt(s, t, 0);
    }
    if |s| > 0 {
      ContainsAt(s[1..], t);
      if Contains(s[1..], t) {
        var i :| OccursAt(s[1..], t, i);
        assert OccursAt(s, t, i + 1) by {
          assert s[i + 1..i + 1 + |t|] == s[1..][i..i + |t|];
        }
      }
      if exists i :: OccursAt(s, t, i) {
        var i :| OccursAt(s, t, i);
        if i > 0 {
          assert OccursAt(s[1..], t, i - 1) by {
            assert s[1..][i - 1..i - 1 + |t|] == s[i..i + |t|];
          }
        }
      }
    } else {
      if exists i :: OccursAt(s, t, i) {
        var i :| OccursAt(s, t, i);
        assert t == [];
      }
    }
  }

  /** An occurrence inside an occurrence is an occurrence. */
  lemma OccursWithin<T>(s: seq<T>, t: seq<T>, u: seq<T>, i: int, j: int)
    requires OccursAt(s, t, i) && OccursAt(t, u, j)
    ensures OccursAt(s, u, i + j)
  {
    forall m | 0 <= m < |u| ensures s[i + j + m] == u[m] {
      assert t[j + m] == s[i..i + |t|][j + m];
    }
    assert s[i + j..i + j + |u|] == u;
  }

  lemma ContainsWithin<T>(s: seq<T>, t: seq<T>, u: seq<T>)
    requires Contains(s, t) && Contains(t, u)
    ensures Contains(s, u)
  {
    ContainsAt(s, t);
    ContainsAt(t, u);
    var i :| OccursAt(s, t, i);
    var j :| OccursAt(t, u, j);
    OccursWithin(s, t, u, i, j);
    ContainsAt(s, u);
  }

  // ---------------------------------------------------------------------
  // Whitespace and `str.strip()`
  // ---------------------------------------------------------------------

  /** Python's `str.isspace()` for one character. */
  predicate IsPySpace(c: char)
  {
    ('\t' <= c <= '\r') || ('\U{1C}' <= c <= ' ') || c == '\U{85}' || c == '\U{A0}'
    || c == '\U{1680}' || ('\U{2000}' <= c <= '\U{200A}') || c == '\U{2028}' || c == '\U{2029}'
    || c == '\U{202F}' || c == '\U{205F}' || c == '\U{3000}'
  }

  function TrimLeft(s: string): (r: string)
    ensures |r| <= |s| && EndsWith(s, r)
    ensures r != [] ==> !IsPySpace(r[0])
    ensures (forall i :: 0 <= i < |s| ==> IsPySpace(s[i])) <==> r == []
    decreases |s|
  {
    if s != [] && IsPySpace(s[0]) then TrimLeft(s[1..]) else s
  }

  function TrimRight(s: string): (r: string)
    ensures |r| <= |s| && StartsWith(s, r)
    ensures r != [] ==> !IsPySpace(r[|r| - 1])
    ensures (forall i :: 0 <= i < |s| ==> IsPySpace(s[i])) <==> r == []
    decreases |s|
  {
    if s != [] && IsPySpace(s[|s| - 1]) then TrimRight(s[..|s| - 1]) else s
  }

  /** `str.strip()` with no argument. */
  function Strip(s: string): (r: string)
    ensures r == [] <==> forall i :: 0 <= i < |s| ==> IsPySpace(s[i])
    ensures r != [] ==> !IsPySpace(r[0]) && !IsPySpace(r[|r| - 1])
  {
    var l := TrimLeft(s);
    assert (forall i :: 0 <= i < |s| ==> IsPySpace(s[i])) ==> l == [];
    assert l == [] ==> forall i :: 0 <= i < |s| ==> IsPySpace(s[i]);
    TrimRight(l)
  }

  /** `lstrip` removes only whitespace: every character it drops is one. */
  lemma {:induction false} TrimLeftRemovesOnlyWhitespace(s: string)
    ensures forall i :: 0 <= i < |s| - |TrimLeft(s)| ==> IsPySpace(s[i])
    decreases |s|
  {
    if s != [] && IsPySpace(s[0]) {
      TrimLeftRemovesOnlyWhitespace(s[1..]);
      forall i | 1 <= i < |s| - |TrimLeft(s)|
        ensures IsPySpace(s[i])
      {
        assert s[i] == s[1..][i - 1];
      }
    }
  }

  /** `rstrip` removes only whitespace: every character it drops is one. */
  lemma {:induction false} TrimRightRemovesOnlyWhitespace(s: string)
    ensures forall i :: |TrimRight(s)| <= i < |s| ==> IsPySpace(s[i])
    decreases |s|
  {
    if s != [] && IsPySpace(s[|s| - 1]) {
      TrimRightRemovesOnlyWhitespace(s[..|s| - 1]);
      forall i | |TrimRight(s)| <= i < |s| - 1
        ensures IsPySpace(s[i])
      {
        assert s[i] == s[..|s| - 1][i];
      }
    }
  }

  /** `r` is the slice of `s` starting at `i`, and every character of `s`
      outside that slice is whitespace. */
  predicate WhitespaceAround(s: string, r: string, i: nat)
  {
    i + |r| <= |s| && r == s[i..i + |r|]
    && (forall k :: 0 <= k < i ==> IsPySpace(s[k]))
    && (forall k :: i + |r| <= k < |s| ==> IsPySpace(s[k]))
  }

  /** `strip` is the slice of its input left after removing the leading and
      trailing whitespace, and nothing else. */
  lemma StripRemovesOnlyWhitespace(s: string)
    ensures exists i: nat :: WhitespaceAround(s, Strip(s), i)
  {
    var l := TrimLeft(s);
    var r := TrimRight(l);
    TrimLeftRemovesOnlyWhitespace(s);
    TrimRightRemovesOnlyWhitespace(l);
    StripSlice(s, l, r);
    assert WhitespaceAround(s, Strip(s), |s| - |l|);
  }

  lemma StripSlice(s: string, l: string, r: string)
    requires EndsWith(s, l) && StartsWith(l, r)
    requires forall k :: 0 <= k < |s| - |l| ==> IsPySpace(s[k])
    requires forall k :: |r| <= k < |l| ==> IsPySpace(l[k])
    ensures WhitespaceAround(s, r, |s| - |l|)
  {
    var i := |s| - |l|;
    PrefixOfSuffix(s, l, r);
    forall k | i + |r| <= k < |s|
      ensures IsPySpace(s[k])
    {
      assert s[k] == l[k - i];
    }
  }

  /** A prefix of a suffix of `s` is a slice of `s`, and `s` agrees with
      the suffix beyond that slice. */
  lemma PrefixOfSuffix<T>(s: seq<T>, l: seq<T>, r: seq<T>)
    requires EndsWith(s, l) && StartsWith(l, r)
    ensures r == s[|s| - |l|..|s| - |l| + |r|]
    ensures forall k :: |s| - |l| <= k < |s| ==> s[k] == l[k - (|s| - |l|)]
  {
    var i := |s| - |l|;
    assert l == s[i..];
    assert r == l[..|r|];
  }

  /** A string whose first character is not whitespace keeps, after
      stripping, every prefix that itself ends in a non-space character. */
  lemma {:induction false} StripKeepsPrefix(s: string, p: string)
    requires StartsWith(s, p) && p != [] && !IsPySpace(p[|p| - 1])
    requires !IsPySpace(s[0])
    ensures StartsWith(Strip(s), p)
  {
    assert TrimLeft(s) == s;
    TrimRightKeepsPrefix(s, p);
  }

  /** The same with the newline that follows the stripped text. */
  lemma StripNewlineKeepsPrefix(s: string, p: string)
    requires StartsWith(s, p) && p != [] && !IsPySpace(p[|p| - 1])
    requires !IsPySpace(s[0])
    ensures StartsWith(Strip(s) + "\n", p)
  {
    StripKeepsPrefix(s, p);
    var d := Strip(s);
    assert (d + "\n")[..|p|] == d[..|p|];
  }

  /** The same with the newline that follows the stripped text. */
  lemma StripNewlineKeepsInner(s: string, t: string)
    requires Contains(s, t) && t != [] && !IsPySpace(t[0]) && !IsPySpace(t[|t| - 1])
    ensures Contains(Strip(s) + "\n", t)
  {
    StripKeepsInner(s, t);
    var d := Strip(s);
    assert OccursAt(d + "\n", d, 0);
    ContainsAt(d + "\n", d);
    ContainsWithin(d + "\n", d, t);
  }

  /** Text ending in a newline after a non-space character is restored by
      stripping it and appending a newline. */
  lemma StripThenNewline(t: string)
    requires |t| >= 2 && !IsPySpace(t[0]) && t[|t| - 1] == '\n' && !IsPySpace(t[|t| - 2])
    ensures Strip(t) + "\n" == t
  {
    var u := t[..|t| - 1];
    assert t == u + "\n";
    StripFinalNewline(u);
  }

  /** Stripping keeps a leading block of text when more text follows it
      on a line that starts with a non-space character. */
  lemma StripKeepsHeadBeforeText(head: string, tail: string)
    requires head != [] && !IsPySpace(head[0])
    requires tail != [] && !IsPySpace(tail[0])
    ensures StartsWith(Strip(head + "\n" + tail) + "\n", head)
  {
    var joined := head + "\n" + tail;
    var p := head + "\n" + [tail[0]];
    assert joined[..|p|] == p;
    StripNewlineKeepsPrefix(joined, p);
    var d := Strip(joined) + "\n";
    assert d[..|head|] == p[..|head|];
  }

  /** Text that begins and ends with non-space characters loses exactly
      one following newline to stripping. */
  lemma StripFinalNewline(u: string)
    requires u != [] && !IsPySpace(u[0]) && !IsPySpace(u[|u| - 1])
    ensures Strip(u + "\n") == u
  {
    var s := u + "\n";
    assert s[..|u|] == u;
    StripKeepsPrefix(s, u);
    assert TrimLeft(s) == s;
    var r := TrimRight(s);
    assert r == s[..|r|];
  }

  lemma {:induction false} TrimRightKeepsPrefix(s: string, p: string)
    requires StartsWith(s, p) && p != [] && !IsPySpace(p[|p| - 1])
    ensures StartsWith(TrimRight(s), p)
    decreases |s|
  {
    if s != [] && IsPySpace(s[|s| - 1]) {
      assert |p| < |s|;
      assert s[..|s| - 1][..|p|] == p;
      TrimRightKeepsPrefix(s[..|s| - 1], p);
    }
  }

  lemma {:induction false} TrimLeftKeepsInner(s: string, t: string, i: int)
    requires OccursAt(s, t, i) && t != [] && !IsPySpace(t[0])
    ensures exists k :: OccursAt(TrimLeft(s), t, k)
    decreases |s|
  {
    if s != [] && IsPySpace(s[0]) {
      assert i > 0;
      assert OccursAt(s[1..], t, i - 1) by {
        assert s[1..][i - 1..i - 1 + |t|] == s[i..i + |t|];
      }
      TrimLeftKeepsInner(s[1..], t, i - 1);
      assert TrimLeft(s) == TrimLeft(s[1..]);
    } else {
      assert OccursAt(TrimLeft(s), t, i);
    }
  }

  lemma {:induction false} TrimRightKeepsInner(s: string, t: string, i: int)
    requires OccursAt(s, t, i) && t != [] && !IsPySpace(t[|t| - 1])
    ensures exists k :: OccursAt(TrimRight(s), t, k)
    decreases |s|
  {
    if s != [] && IsPySpace(s[|s| - 1]) {
      assert s[i + |t| - 1] == t[|t| - 1];
      assert OccursAt(s[..|s| - 1], t, i) by {
        assert s[..|s| - 1][i..i + |t|] == s[i..i + |t|];
      }
      TrimRightKeepsInner(s[..|s| - 1], t, i);
      assert TrimRight(s) == TrimRight(s[..|s| - 1]);
    } else {
      assert OccursAt(TrimRight(s), t, i);
    }
  }

  /** Stripping keeps every block that begins and ends with a non-space
      character. */
  lemma StripKeepsInner(s: string, t: string)
    requires Contains(s, t) && t != [] && !IsPySpace(t[0]) && !IsPySpace(t[|t| - 1])
    ensures Contains(Strip(s), t)
  {
    ContainsAt(s, t);
    var i :| OccursAt(s, t, i);
    TrimLeftKeepsInner(s, t, i);
    var k :| OccursAt(TrimLeft(s), t, k);
    TrimRightKeepsInner(TrimLeft(s), t, k);
    ContainsAt(Strip(s), t);
  }

  // ---------------------------------------------------------------------
  // Mapping
  // ---------------------------------------------------------------------

  /** `[f(x) for x in xs]`. */
  function MapSeq<T, U>(xs: seq<T>, f: T -> U): (r: seq<U>)
    ensures |r| == |xs|
    ensures forall i :: 0 <= i < |xs| ==> r[i] == f(xs[i])
  {
    seq(|xs|, i requires 0 <= i < |xs| => f(xs[i]))
  }

  /** Mapping a list extended at the end extends the result at the end. */
  lemma MapSnoc<T, U>(xs: seq<T>, x: T, f: T -> U)
    ensures MapSeq(xs + [x], f) == MapSeq(xs, f) + [f(x)]
  {
    var a, b := MapSeq(xs + [x], f), MapSeq(xs, f) + [f(x)];
    forall i | 0 <= i < |a| ensures a[i] == b[i] {
      if i < |xs| {
        assert (xs + [x])[i] == xs[i];
      }
    }
  }

  // ---------------------------------------------------------------------
  // Joining
  // ---------------------------------------------------------------------

  /** `sep.join(parts)`. */
  function Join(parts: seq<string>, sep: string): string
    decreases |parts|
  {
    if parts == [] then []
    else if |parts| == 1 then parts[0]
    else parts[0] + sep + Join(parts[1..], sep)
  }

  lemma JoinTwo(a: string, b: string, sep: string)
    ensures Join([a, b], sep) == a + sep + b
  {
    assert [a, b][1..] == [b];
    assert Join([b], sep) == b;
  }

  lemma JoinThree(a: string, b: string, c: string, sep: string)
    ensures Join([a, b, c], sep) == a + sep + b + sep + c
  {
    assert [a, b, c][1..] == [b, c];
    assert [b, c][1..] == [c];
    assert Join([c], sep) == c;
    assert Join([b, c], sep) == b + sep + c;
  }

  /** The joined text begins with the first part. */
  lemma JoinStartsWithFirst(parts: seq<string>, sep: string)
    requires parts != []
    ensures StartsWith(Join(parts, sep), parts[0])
  {
    if |parts| > 1 {
      assert (parts[0] + sep + Join(parts[1..], sep))[..|parts[0]|] == parts[0];
    }
  }

  /** Every part occurs in the joined text. */
  lemma {:induction false} JoinContainsPart(parts: seq<string>, sep: string, i: nat)
    requires i < |parts|
    ensures Contains(Join(parts, sep), parts[i])
    decreases |parts|
  {
    var j := Join(parts, sep);
    if i == 0 {
      JoinStartsWithFirst(parts, sep);
      assert OccursAt(j, parts[0], 0);
    } else {
      var tail := Join(parts[1..], sep);
      JoinContainsPart(parts[1..], sep, i - 1);
      ContainsAt(tail, parts[i]);
      var k :| OccursAt(tail, parts[i], k);
      var off := |parts[0] + sep|;
      assert j == parts[0] + sep + tail;
      assert |j| == off + |tail|;
      assert forall m :: 0 <= m < |tail| ==> j[off + m] == tail[m];
      assert OccursAt(j, parts[i], off + k) by {
        var w := |parts[i]|;
        assert k + w <= |tail|;
        var lhs, rhs := j[off + k..off + k + w], tail[k..k + w];
        assert forall m :: 0 <= m < w ==> lhs[m] == j[off + (k + m)] && rhs[m] == tail[k + m];
        assert lhs == rhs;
      }
    }
    ContainsAt(j, parts[i]);
  }

  // ---------------------------------------------------------------------
  // Number formatting
  // ---------------------------------------------------------------------

  function DigitChar(d: nat): char
    requires d < 16
  {
    "0123456789abcdef"[d]
  }

  /** `str(n)` for a non-negative integer. */
  function NatToDecimal(n: nat): (r: string)
    ensures |r| >= 1
    ensures forall i :: 0 <= i < |r| ==> '0' <= r[i] <= '9'
    decreases n
  {
    if n < 10 then [DigitChar(n)] else NatToDecimal(n / 10) + [DigitChar(n % 10)]
  }

  /** `"%02x" % b`. */
  function Hex2(b: byte): (r: string)
    ensures |r| == 2
  {
    [DigitChar(b / 16), DigitChar(b % 16)]
  }
}
