/** Shell-style wildcard matching as done by Python's `fnmatch.fnmatch` on a
    POSIX host: the pattern is translated into a list of tokens (`*`, `?`,
    a bracket class, or a literal character), and the whole name must match
    the whole token list. `*` and `?` match every character, `/` and newline
    included. */
module Glob {
  import opened Common

  datatype ClassItem = Single(c: char) | Range(lo: char, hi: char)

  datatype Token =
    | Star                                           // `*`
    | AnyChar                                        // `?`
    | Class(negated: bool, items: seq<ClassItem>)    // `[...]` / `[!...]`
    | Literal(c: char)

  // ---------------------------------------------------------------------
  // Translation of a pattern into tokens
  // ---------------------------------------------------------------------

  /** Index of the first `]` at or after `j`, or `|pat|` when there is none. */
  function FindClose(pat: string, j: nat): (k: nat)
    requires j <= |pat|
    ensures j <= k <= |pat|
    ensures k < |pat| ==> pat[k] == ']'
    ensures forall m :: j <= m < k ==> pat[m] != ']'
    decreases |pat| - j
  {
    if j == |pat| || pat[j] == ']' then j else FindClose(pat, j + 1)
  }

  /** The members of a bracket class: `a-z` is a range, a `-` that cannot
      start a range (first or last member, or right after a range) is a
      literal. */
  function ParseItems(m: string): seq<ClassItem>
    decreases |m|
  {
    if m == [] then []
    else if |m| >= 3 && m[1] == '-' then [Range(m[0], m[2])] + ParseItems(m[3..])
    else [Single(m[0])] + ParseItems(m[1..])
  }

  /** The text between `[` and `]`; a leading `!` negates the class. */
  function ParseClass(body: string): Token
  {
    if |body| > 0 && body[0] == '!' then Class(true, ParseItems(body[1..]))
    else Class(false, ParseItems(body))
  }

  /** `fnmatch.translate`, as a token list. After `[` an optional `!` and then
      one `]` are taken as members; the class runs to the next `]`. A `[`
      without a closing `]` is an ordinary character. */
  function Translate(pat: string): seq<Token>
    decreases |pat|
  {
    if pat == [] then []
    else if pat[0] == '*' then [Star] + Translate(pat[1..])
    else if pat[0] == '?' then [AnyChar] + Translate(pat[1..])
    else if pat[0] == '[' then
      var j0 := if 1 < |pat| && pat[1] == '!' then 2 else 1;
      var j1 := if j0 < |pat| && pat[j0] == ']' then j0 + 1 else j0;
      var j := FindClose(pat, j1);
      if j == |pat| then [Literal('[')] + Translate(pat[1..])
      else [ParseClass(pat[1..j])] + Translate(pat[j + 1..])
    else [Literal(pat[0])] + Translate(pat[1..])
  }

  // ---------------------------------------------------------------------
  // Matching
  // ---------------------------------------------------------------------

  predicate ItemHas(it: ClassItem, c: char)
  {
    match it
    case Single(x) => c == x
    case Range(lo, hi) => lo <= c <= hi
  }

  predicate ItemsHave(items: seq<ClassItem>, c: char)
    decreases |items|
  {
    items != [] && (ItemHas(items[0], c) || ItemsHave(items[1..], c))
  }

  predicate TokenAccepts(t: Token, c: char)
    requires !t.Star?
  {
    match t
    case AnyChar => true
    case Literal(x) => c == x
    case Class(negated, items) => ItemsHave(items, c) != negated
  }

  /** The whole of `s` matches the whole token list. */
  predicate Matches(ts: seq<Token>, s: string)
    decreases |ts|, |s|
  {
    if ts == [] then s == []
    else if ts[0].Star? then Matches(ts[1..], s) || (s != [] && Matches(ts, s[1..]))
    else s != [] && TokenAccepts(ts[0], s[0]) && Matches(ts[1..], s[1..])
  }

  /** `fnmatch.fnmatch(name, pat)` (on POSIX `os.path.normcase` is the identity). */
  predicate Fnmatch(name: string, pat: string)
  {
    Matches(Translate(pat), name)
  }

  // ---------------------------------------------------------------------
  // What common pattern shapes mean
  // ---------------------------------------------------------------------

  /** A pattern without `*`, `?` or `[`. */
  predicate IsPlain(p: string)
  {
    forall i :: 0 <= i < |p| ==> p[i] != '*' && p[i] != '?' && p[i] != '['
  }

  function Literals(p: string): (ts: seq<Token>)
    ensures |ts| == |p|
    ensures forall i :: 0 <= i < |p| ==> ts[i] == Literal(p[i])
    decreases |p|
  {
    if p == [] then [] else [Literal(p[0])] + Literals(p[1..])
  }

  lemma {:induction false} TranslatePlain(p: string, rest: string)
    requires IsPlain(p)
    ensures Translate(p + rest) == Literals(p) + Translate(rest)
    decreases |p|
  {
    if p != [] {
      var q := p + rest;
      assert q[0] == p[0] && q[0] != '*' && q[0] != '?' && q[0] != '[';
      assert q[1..] == p[1..] + rest;
      assert IsPlain(p[1..]) by {
        forall i | 0 <= i < |p[1..]| ensures p[1..][i] != '*' && p[1..][i] != '?' && p[1..][i] != '[' {
          assert p[1..][i] == p[i + 1];
        }
      }
      TranslatePlain(p[1..], rest);
      calc {
        Translate(q);
        [Literal(p[0])] + Translate(q[1..]);
        [Literal(p[0])] + (Literals(p[1..]) + Translate(rest));
        ([Literal(p[0])] + Literals(p[1..])) + Translate(rest);
      }
    } else {
      assert p + rest == rest;
    }
  }

  lemma {:induction false} MatchesLiterals(p: string, ts: seq<Token>, s: string)
    ensures Matches(Literals(p) + ts, s) <==> StartsWith(s, p) && Matches(ts, s[|p|..])
    decreases |p|
  {
    if p != [] {
      assert (Literals(p) + ts)[1..] == Literals(p[1..]) + ts;
      if s != [] {
        MatchesLiterals(p[1..], ts, s[1..]);
        if |p| <= |s| {
          assert s[1..][|p| - 1..] == s[|p|..];
        }
      }
    } else {
      assert Literals(p) + ts == ts;
    }
  }

  /** A pattern with no wildcard matches exactly itself. */
  lemma PlainPatternMatchesItself(name: string, pat: string)
    requires IsPlain(pat)
    ensures Fnmatch(name, pat) <==> name == pat
  {
    TranslatePlain(pat, []);
    assert pat + [] == pat;
    MatchesLiterals(pat, [], name);
  }

  /** `*` matches every name, `/` included. */
  lemma {:induction false} StarMatchesEverything(name: string)
    ensures Fnmatch(name, "*")
    decreases |name|
  {
    assert Translate("*") == [Star];
    if name != [] {
      StarMatchesEverything(name[1..]);
    }
  }

  lemma {:induction false} StarThenLiterals(p: string, s: string)
    ensures Matches([Star] + Literals(p), s) <==> EndsWith(s, p)
    decreases |s|
  {
    var ts := [Star] + Literals(p);
    assert ts[1..] == Literals(p) + [];
    MatchesLiterals(p, [], s);
    if s != [] {
      StarThenLiterals(p, s[1..]);
      if |s| > |p| {
        assert s[|s| - |p|..] == s[1..][|s[1..]| - |p|..];
      }
    }
  }

  /** `*.py` style: `*` followed by plain text matches exactly the names
      ending in that text, whatever directories they are under. */
  lemma SuffixPattern(name: string, suffix: string)
    requires IsPlain(suffix)
    ensures Fnmatch(name, "*" + suffix) <==> EndsWith(name, suffix)
  {
    assert ("*" + suffix)[1..] == suffix + [];
    TranslatePlain(suffix, []);
    assert Translate("*" + suffix) == [Star] + Literals(suffix);
    StarThenLiterals(suffix, name);
  }

  /** `venv*` style: plain text followed by `*` matches exactly the names
      starting with that text. */
  lemma PrefixPattern(name: string, prefix: string)
    requires IsPlain(prefix)
    ensures Fnmatch(name, prefix + "*") <==> StartsWith(name, prefix)
  {
    TranslatePlain(prefix, "*");
    assert Translate("*") == [Star];
    MatchesLiterals(prefix, [Star], name);
    if StartsWith(name, prefix) {
      StarMatchesEverything(name[|prefix|..]);
    }
  }
}
