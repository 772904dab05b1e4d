/** Line-ending normalisation of decoded text: Python's `str.splitlines()`
    and the re-joining of its lines with `\n`. */
module LineEndings {
  import opened Common

  /** The characters `str.splitlines()` treats as line boundaries
      (`\r\n` counts as one boundary). */
  predicate IsLineBreak(c: char)
  {
    c == '\n' || c == '\r' || c == '\U{0B}' || c == '\U{0C}' || c == '\U{1C}' || c == '\U{1D}'
    || c == '\U{1E}' || c == '\U{85}' || c == '\U{2028}' || c == '\U{2029}'
  }

  predicate BreakFree(s: string)
  {
    forall i :: 0 <= i < |s| ==> !IsLineBreak(s[i])
  }

  /** Index of the first line boundary in `s`, or `|s|`. */
  function FirstBreak(s: string): (k: nat)
    ensures k <= |s|
    ensures k < |s| ==> IsLineBreak(s[k])
    ensures BreakFree(s[..k])
    decreases |s|
  {
    if s == [] || IsLineBreak(s[0]) then 0
    else
      var k := 1 + FirstBreak(s[1..]);
      assert forall i :: 1 <= i < k ==> s[..k][i] == s[1..][..k - 1][i - 1];
      k
  }

  /** Length of the boundary at index `k`: two for `\r\n`, else one. */
  function BreakLen(s: string, k: nat): (n: nat)
    requires k < |s|
    ensures 1 <= n && k + n <= |s|
  {
    if s[k] == '\r' && k + 1 < |s| && s[k + 1] == '\n' then 2 else 1
  }

  /** `s.splitlines()`: the lines without their boundaries; no empty line
      is produced after a final boundary. */
  function SplitLines(s: string): (lines: seq<string>)
    ensures s == [] <==> lines == []
    ensures forall i :: 0 <= i < |lines| ==> BreakFree(lines[i])
    decreases |s|
  {
    if s == [] then []
    else
      var k := FirstBreak(s);
      if k == |s| then [s]
      else [s[..k]] + SplitLines(s[k + BreakLen(s, k)..])
  }

  /** `"\n".join(s.splitlines())`. */
  function Normalize(s: string): string
  {
    Join(SplitLines(s), "\n")
  }

  // ---------------------------------------------------------------------
  // Reference: replace every boundary by `\n`, then drop one final `\n`
  // ---------------------------------------------------------------------

  function ReplaceBreaks(s: string): (r: string)
    ensures s != [] ==> r != []
    ensures forall i :: 0 <= i < |r| ==> !IsLineBreak(r[i]) || r[i] == '\n'
    decreases |s|
  {
    if s == [] then []
    else if s[0] == '\r' && |s| > 1 && s[1] == '\n' then "\n" + ReplaceBreaks(s[2..])
    else if IsLineBreak(s[0]) then "\n" + ReplaceBreaks(s[1..])
    else [s[0]] + ReplaceBreaks(s[1..])
  }

  function DropFinalNewline(t: string): string
  {
    if t != [] && t[|t| - 1] == '\n' then t[..|t| - 1] else t
  }

  lemma {:induction false} ReplaceBreakFree(p: string, t: string)
    requires BreakFree(p)
    ensures ReplaceBreaks(p + t) == p + ReplaceBreaks(t)
    decreases |p|
  {
    if p != [] {
      assert (p + t)[0] == p[0] && (p + t)[1..] == p[1..] + t;
      assert BreakFree(p[1..]) by {
        forall i | 0 <= i < |p[1..]| ensures !IsLineBreak(p[1..][i]) {
          assert p[1..][i] == p[i + 1];
        }
      }
      ReplaceBreakFree(p[1..], t);
    } else {
      assert p + t == t;
    }
  }

  lemma ReplaceAtBreak(t: string, n: nat)
    requires t != [] && IsLineBreak(t[0])
    requires n == (if t[0] == '\r' && |t| > 1 && t[1] == '\n' then 2 else 1)
    ensures ReplaceBreaks(t) == "\n" + ReplaceBreaks(t[n..])
  {
  }

  /** Replacing breaks in a break-free line followed by a boundary. */
  lemma ReplaceLineThenBreak(p: string, t: string, n: nat)
    requires BreakFree(p) && t != [] && IsLineBreak(t[0])
    requires n == (if t[0] == '\r' && |t| > 1 && t[1] == '\n' then 2 else 1)
    ensures ReplaceBreaks(p + t) == p + "\n" + ReplaceBreaks(t[n..])
  {
    ReplaceBreakFree(p, t);
    ReplaceAtBreak(t, n);
  }

  lemma DropAfterNonEmpty(p: string, t: string)
    requires t != []
    ensures DropFinalNewline(p + t) == p + DropFinalNewline(t)
  {
    if t[|t| - 1] == '\n' {
      assert (p + t)[..|p + t| - 1] == p + t[..|t| - 1];
    }
  }

  /** Splitting into lines and joining with `\n` is the same as replacing
      every boundary (`\r\n` as one) by `\n` and dropping a final `\n`. */
  lemma {:induction false} NormalizeReplacesBreaks(s: string)
    ensures Normalize(s) == DropFinalNewline(ReplaceBreaks(s))
    decreases |s|
  {
    if s != [] {
      var k := FirstBreak(s);
      if k == |s| {
        assert s[..k] == s;
        ReplaceBreakFree(s, []);
        assert s + [] == s;
      } else {
        var rest := s[k + BreakLen(s, k)..];
        var line := s[..k];
        var t := s[k..];
        assert s == line + t;
        assert t[0] == s[k] && (|t| > 1 ==> t[1] == s[k + 1]);
        ReplaceLineThenBreak(line, t, BreakLen(s, k));
        assert t[BreakLen(s, k)..] == rest;
        if rest == [] {
          assert SplitLines(s) == [line];
          assert (line + "\n" + []) [..|line|] == line;
        } else {
          NormalizeReplacesBreaks(rest);
          var lines := SplitLines(rest);
          assert SplitLines(s) == [line] + lines;
          assert ([line] + lines)[1..] == lines;
          assert Normalize(s) == line + "\n" + Normalize(rest);
          DropAfterNonEmpty(line + "\n", ReplaceBreaks(rest));
        }
      }
    }
  }

  /** After normalisation the only line boundary left is `\n`; in
      particular no `\r` remains. */
  lemma OnlyNewlinesRemain(s: string)
    ensures forall i :: 0 <= i < |Normalize(s)| ==> !IsLineBreak(Normalize(s)[i]) || Normalize(s)[i] == '\n'
  {
    NormalizeReplacesBreaks(s);
  }

  /** Text without any line boundary is left as it is. */
  lemma BreakFreeUnchanged(s: string)
    requires BreakFree(s)
    ensures Normalize(s) == s
  {
    NormalizeReplacesBreaks(s);
    ReplaceBreakFree(s, []);
    assert s + [] == s;
  }

  /** One trailing boundary of any kind is dropped. */
  lemma FinalBreakDropped(s: string, c: char)
    requires BreakFree(s) && IsLineBreak(c)
    ensures Normalize(s + [c]) == s
  {
    NormalizeReplacesBreaks(s + [c]);
    ReplaceBreakFree(s, [c]);
    assert ReplaceBreaks([c]) == "\n";
    assert (s + "\n")[..|s|] == s;
  }
}
