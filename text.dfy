/** The .NET `System.String` operations the modelled code relies on, on
    `string` = `seq<char>`: ordinal `StartsWith`/`EndsWith`/`Contains`,
    `Replace(string, string)`, `Trim()` and `Split(char[], RemoveEmptyEntries)`. */
module Text {

  /** `s.StartsWith(p)` (ordinal). */
  predicate StartsWith(s: string, p: string) {
    |p| <= |s| && s[..|p|] == p
  }

  /** `s.EndsWith(p)` (ordinal). */
  predicate EndsWith(s: string, p: string) {
    |p| <= |s| && s[|s| - |p|..] == p
  }

  /** `p` occurs in `s` starting at index `i`. */
  predicate OccursAt(s: string, p: string, i: int) {
    0 <= i && i + |p| <= |s| && s[i..i + |p|] == p
  }

  /** `s.Contains(p)` (ordinal). */
  predicate Contains(s: string, p: string) {
    exists i | 0 <= i <= |s| - |p| :: OccursAt(s, p, i)
  }

  lemma NotContainsTail(s: string, p: string)
    requires s != [] && !Contains(s, p)
    ensures !Contains(s[1..], p)
  {
    forall i ensures !OccursAt(s[1..], p, i) {
      if 0 <= i && i + |p| <= |s| - 1 {
        assert s[1..][i..i + |p|] == s[i + 1..i + 1 + |p|];
        assert !OccursAt(s, p, i + 1);
      }
    }
  }

  /** `s.Replace(pat, rep)`: every occurrence of `pat`, found left to right without
      overlap, replaced by `rep`. .NET refuses an empty `pat`. */
  function ReplaceAll(s: string, pat: string, rep: string): (r: string)
    requires pat != []
    decreases |s|
  {
    if |s| < |pat| then s
    else if s[..|pat|] == pat then rep + ReplaceAll(s[|pat|..], pat, rep)
    else [s[0]] + ReplaceAll(s[1..], pat, rep)
  }

  /** Replacing a one-character pattern by a text without that character leaves no
      occurrence of it. */
  lemma {:induction false} ReplaceAllRemoves(s: string, c: char, rep: string)
    requires c !in rep
    ensures c !in ReplaceAll(s, [c], rep)
    decreases |s|
  {
    if |s| >= 1 {
      ReplaceAllRemoves(s[1..], c, rep);
      if s[..1] != [c] {
        assert s[0] != c by { assert s[..1] == [s[0]]; }
      }
    }
  }

  /** A character in neither the text nor the replacement does not appear. */
  lemma {:induction false} ReplaceAllKeepsOut(s: string, pat: string, rep: string, d: char)
    requires pat != [] && d !in s && d !in rep
    ensures d !in ReplaceAll(s, pat, rep)
    decreases |s|
  {
    if |s| >= |pat| {
      if s[..|pat|] == pat {
        ReplaceAllKeepsOut(s[|pat|..], pat, rep, d);
      } else {
        ReplaceAllKeepsOut(s[1..], pat, rep, d);
      }
    }
  }

  /** Where the pattern does not occur, `Replace` returns its input. */
  lemma {:induction false} ReplaceAllAbsent(s: string, pat: string, rep: string)
    requires pat != [] && !Contains(s, pat)
    ensures ReplaceAll(s, pat, rep) == s
    decreases |s|
  {
    if |s| >= |pat| {
      assert !OccursAt(s, pat, 0);
      assert s[0..|pat|] == s[..|pat|];
      NotContainsTail(s, pat);
      ReplaceAllAbsent(s[1..], pat, rep);
      assert [s[0]] + s[1..] == s;
    }
  }

  /** `char.IsWhiteSpace`: the Unicode space separators, the line and paragraph
      separators, and U+0009 to U+000D, U+0085 and U+00A0. */
  predicate IsWhiteSpace(c: char) {
    || c == ' ' || ('\t' <= c <= '\r') || c == '\U{0085}' || c == '\U{00A0}'
    || c == '\U{1680}' || ('\U{2000}' <= c <= '\U{200A}') || c == '\U{2028}' || c == '\U{2029}'
    || c == '\U{202F}' || c == '\U{205F}' || c == '\U{3000}'
  }

  function TrimStart(s: string): (r: string)
    ensures |r| <= |s| && r == s[|s| - |r|..]
    ensures r != [] ==> !IsWhiteSpace(r[0])
    ensures forall i :: 0 <= i < |s| - |r| ==> IsWhiteSpace(s[i])
    decreases |s|
  {
    if s != [] && IsWhiteSpace(s[0]) then TrimStart(s[1..]) else s
  }

  function TrimEnd(s: string): (r: string)
    ensures |r| <= |s| && r == s[..|r|]
    ensures r != [] ==> !IsWhiteSpace(r[|r| - 1])
    ensures forall i :: |r| <= i < |s| ==> IsWhiteSpace(s[i])
    decreases |s|
  {
    if s != [] && IsWhiteSpace(s[|s| - 1]) then TrimEnd(s[..|s| - 1]) else s
  }

  /** `s.Trim()`: the longest slice that neither starts nor ends with white space. */
  function Trim(s: string): (r: string)
    ensures r != [] ==> !IsWhiteSpace(r[0]) && !IsWhiteSpace(r[|r| - 1])
    ensures exists i :: OccursAt(s, r, i)
  {
    var t := TrimStart(s);
    var r := TrimEnd(t);
    assert r == s[|s| - |t|..|s| - |t| + |r|];
    assert OccursAt(s, r, |s| - |t|);
    r
  }

  /** The index of the first character of `s` in `seps`, or |s|. */
  function FirstOf(s: string, seps: set<char>): (i: nat)
    ensures i <= |s|
    ensures i < |s| ==> s[i] in seps
    ensures forall j :: 0 <= j < i ==> s[j] !in seps
  {
    if s == [] || s[0] in seps then 0 else 1 + FirstOf(s[1..], seps)
  }

  /** `s.Split(seps, StringSplitOptions.RemoveEmptyEntries)`: the non-empty pieces
      between separators, in order. */
  function Split(s: string, seps: set<char>): (r: seq<string>)
    decreases |s|
  {
    if s == [] then []
    else
      var i := FirstOf(s, seps);
      var rest := if i < |s| then Split(s[i + 1..], seps) else [];
      if i == 0 then rest else [s[..i]] + rest
  }

  /** The text with every separator deleted. */
  function Without(s: string, seps: set<char>): string {
    if s == [] then [] else (if s[0] in seps then [] else [s[0]]) + Without(s[1..], seps)
  }

  function Concat(ss: seq<string>): string {
    if ss == [] then [] else ss[0] + Concat(ss[1..])
  }

  lemma {:induction false} WithoutConcat(a: string, b: string, seps: set<char>)
    ensures Without(a + b, seps) == Without(a, seps) + Without(b, seps)
    decreases |a|
  {
    if a != [] {
      WithoutConcat(a[1..], b, seps);
      assert (a + b)[0] == a[0];
      assert (a + b)[1..] == a[1..] + b;
    } else {
      assert a + b == b;
    }
  }

  lemma {:induction false} WithoutNone(s: string, seps: set<char>)
    requires forall j :: 0 <= j < |s| ==> s[j] !in seps
    ensures Without(s, seps) == s
    decreases |s|
  {
    if s != [] {
      WithoutNone(s[1..], seps);
    }
  }

  /** The pieces of `Split` are non-empty, hold no separator, and together are the
      input with its separators deleted. */
  lemma {:induction false} SplitPieces(s: string, seps: set<char>)
    ensures forall k :: 0 <= k < |Split(s, seps)| ==> Split(s, seps)[k] != []
    ensures forall k, j :: 0 <= k < |Split(s, seps)| && 0 <= j < |Split(s, seps)[k]| ==> Split(s, seps)[k][j] !in seps
    ensures Concat(Split(s, seps)) == Without(s, seps)
    decreases |s|
  {
    if s != [] {
      var i := FirstOf(s, seps);
      WithoutNone(s[..i], seps);
      assert s == s[..i] + s[i..];
      WithoutConcat(s[..i], s[i..], seps);
      if i < |s| {
        SplitPieces(s[i + 1..], seps);
        assert s[i..][1..] == s[i + 1..];
        assert Without(s[i..], seps) == Without(s[i + 1..], seps);
        var rest := Split(s[i + 1..], seps);
        if i > 0 {
          assert Split(s, seps) == [s[..i]] + rest;
          assert ([s[..i]] + rest)[1..] == rest;
        }
      } else {
        assert s[i..] == [];
        if i > 0 {
          assert Split(s, seps) == [s[..i]];
          assert Concat([s[..i]]) == s[..i] + Concat([]);
        }
      }
    }
  }
}
