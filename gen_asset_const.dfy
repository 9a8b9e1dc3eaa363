/** The code generator of Assets/Game/Scripts/Core/Editor/Const/GenAssetConstEditor.cs:
    every resource file under a directory tree becomes one `public const string`
    line whose name is the file's path with punctuation replaced or deleted, and
    the lines are spliced into a template. The tree is a value; each file carries
    its path relative to the project folder. */
module AssetConst {
  import opened Text

  datatype FileEntry = FileEntry(name: string, path: string)
  /** A directory: its files, then its subdirectories, in enumeration order. */
  datatype Dir = Dir(files: seq<FileEntry>, dirs: seq<Dir>)

  const ClassName: string := "AssetConst"
  const ContentMarker: string := "#CONSTCONTENT#"
  const ClassMarker: string := "#CLASSNAME#"
  /** The three literal parts of an emitted line `public const string N = @"P";`. */
  const DeclOpen: string := "public const string "
  const DeclMiddle: string := " = @\""
  const DeclClose: string := "\";"

  /** One `Replace(pat, rep)` step of the name chain. */
  datatype Rule = Rule(pat: string, rep: string)

  /** The name chain, in order: backslash, dot and hyphen become `_`; space,
      ASCII and full-width parentheses, braces, lenticular and square brackets
      and `+` are deleted. */
  const NameRules: seq<Rule> := [
    Rule("\\", "_"), Rule(".", "_"), Rule("-", "_"), Rule(" ", ""),
    Rule("(", ""), Rule(")", ""), Rule("\U{FF08}", ""), Rule("\U{FF09}", ""),
    Rule("{", ""), Rule("}", ""), Rule("\U{3010}", ""), Rule("\U{3011}", ""),
    Rule("[", ""), Rule("]", ""), Rule("+", "")]

  predicate SingleChar(rules: seq<Rule>) {
    forall i :: 0 <= i < |rules| ==> |rules[i].pat| == 1 && |rules[i].rep| <= 1
  }

  /** The rules applied one after the other. */
  function Apply(s: string, rules: seq<Rule>): string
    requires SingleChar(rules)
    decreases |rules|
  {
    if rules == [] then s else Apply(ReplaceAll(s, rules[0].pat, rules[0].rep), rules[1..])
  }

  /** The constant name made from a path, as the chain computes it. */
  function Chain(path: string): string {
    Apply(path, NameRules)
  }

  /** What the chain does to one character. */
  function Translate(c: char): string {
    if c in {'\\', '.', '-'} then "_"
    else if c in {' ', '(', ')', '\U{FF08}', '\U{FF09}', '{', '}', '\U{3010}', '\U{3011}', '[', ']', '+'} then ""
    else [c]
  }

  /** The constant name, one character at a time. */
  function Sanitise(path: string): (r: string)
    ensures |r| <= |path|
    decreases |path|
  {
    if path == [] then "" else Translate(path[0]) + Sanitise(path[1..])
  }

  /** A constant name holds none of the characters the chain replaces or deletes. */
  lemma {:induction false} SanitiseClean(path: string, c: char)
    requires c in {'\\', '.', '-', ' ', '(', ')', '\U{FF08}', '\U{FF09}', '{', '}', '\U{3010}', '\U{3011}', '[', ']', '+'}
    ensures c !in Sanitise(path)
    decreases |path|
  {
    if path != [] {
      SanitiseClean(path[1..], c);
    }
  }

  /** A character some rule of the chain replaces. */
  predicate Replaced(rules: seq<Rule>, c: char) {
    exists i :: 0 <= i < |rules| && rules[i].pat == [c]
  }

  /** No replacement text holds a character the chain replaces. */
  predicate Closed(rules: seq<Rule>)
    requires SingleChar(rules)
  {
    forall i, j :: 0 <= i < |rules| && 0 <= j < |rules| ==> rules[j].pat[0] !in rules[i].rep
  }

  lemma NameRulesClosed()
    ensures SingleChar(NameRules) && Closed(NameRules)
  {
  }

  /** The characters the name chain replaces, listed. */
  lemma NameRulesReplace(c: char)
    ensures Replaced(NameRules, c) <==>
      c in {'\\', '.', '-', ' ', '(', ')', '\U{FF08}', '\U{FF09}', '{', '}', '\U{3010}', '\U{3011}', '[', ']', '+'}
  {
    if Replaced(NameRules, c) {
      var i :| 0 <= i < |NameRules| && NameRules[i].pat == [c];
      assert NameRules[i].pat[0] == c;
    } else {
      forall i | 0 <= i < |NameRules| ensures NameRules[i].pat != [c] {}
      assert NameRules[0].pat == ['\\'] && NameRules[1].pat == ['.'] && NameRules[2].pat == ['-'];
      assert NameRules[3].pat == [' '] && NameRules[4].pat == ['('] && NameRules[5].pat == [')'];
      assert NameRules[6].pat == ['\U{FF08}'] && NameRules[7].pat == ['\U{FF09}'];
      assert NameRules[8].pat == ['{'] && NameRules[9].pat == ['}'];
      assert NameRules[10].pat == ['\U{3010}'] && NameRules[11].pat == ['\U{3011}'];
      assert NameRules[12].pat == ['['] && NameRules[13].pat == [']'] && NameRules[14].pat == ['+'];
    }
  }

  lemma ClosedTail(rules: seq<Rule>)
    requires SingleChar(rules) && Closed(rules) && rules != []
    ensures SingleChar(rules[1..]) && Closed(rules[1..])
  {
    forall a, b | 0 <= a < |rules| - 1 && 0 <= b < |rules| - 1
      ensures rules[1..][b].pat[0] !in rules[1..][a].rep
    {
      assert rules[1..][b] == rules[b + 1] && rules[1..][a] == rules[a + 1];
    }
  }

  /** A one-character `Replace` distributes over concatenation. */
  lemma {:induction false} ReplaceAllSplit(u: string, v: string, pat: string, rep: string)
    requires |pat| == 1
    ensures ReplaceAll(u + v, pat, rep) == ReplaceAll(u, pat, rep) + ReplaceAll(v, pat, rep)
    decreases |u|
  {
    if u == [] {
      assert u + v == v;
    } else {
      assert (u + v)[1..] == u[1..] + v;
      assert (u + v)[..1] == u[..1];
      ReplaceAllSplit(u[1..], v, pat, rep);
    }
  }

  lemma {:induction false} ApplySplit(u: string, v: string, rules: seq<Rule>)
    requires SingleChar(rules)
    ensures Apply(u + v, rules) == Apply(u, rules) + Apply(v, rules)
    decreases |rules|
  {
    if rules != [] {
      ReplaceAllSplit(u, v, rules[0].pat, rules[0].rep);
      ApplySplit(ReplaceAll(u, rules[0].pat, rules[0].rep), ReplaceAll(v, rules[0].pat, rules[0].rep), rules[1..]);
    }
  }

  /** A text none of whose characters any rule replaces passes through unchanged. */
  lemma {:induction false} ApplyUntouched(s: string, rules: seq<Rule>)
    requires SingleChar(rules)
    requires forall k :: 0 <= k < |s| ==> !Replaced(rules, s[k])
    ensures Apply(s, rules) == s
    decreases |rules|
  {
    if rules != [] {
      assert !Contains(s, rules[0].pat) by {
        forall i | 0 <= i <= |s| - 1 ensures !OccursAt(s, rules[0].pat, i) {
          assert s[i..i + 1] == [s[i]];
          assert rules[0].pat != [s[i]];
        }
      }
      ReplaceAllAbsent(s, rules[0].pat, rules[0].rep);
      forall k | 0 <= k < |s| ensures !Replaced(rules[1..], s[k]) {
        forall i | 0 <= i < |rules| - 1 ensures rules[1..][i].pat != [s[k]] {
          assert rules[1..][i] == rules[i + 1];
        }
      }
      ApplyUntouched(s, rules[1..]);
    }
  }

  /** In a closed chain, one character comes out as the replacement of a rule
      for it, or unchanged when no rule names it. */
  lemma {:induction false} ApplyOne(x: char, rules: seq<Rule>)
    requires SingleChar(rules) && Closed(rules)
    ensures !Replaced(rules, x) ==> Apply([x], rules) == [x]
    ensures Replaced(rules, x) ==>
      exists i :: 0 <= i < |rules| && rules[i].pat == [x] && Apply([x], rules) == rules[i].rep
    decreases |rules|
  {
    if rules != [] {
      var p := rules[0].pat;
      ClosedTail(rules);
      if p == [x] {
        assert ReplaceAll([x], p, rules[0].rep) == rules[0].rep + ReplaceAll([], p, rules[0].rep);
        assert rules[0].rep + [] == rules[0].rep;
        forall k | 0 <= k < |rules[0].rep| ensures !Replaced(rules[1..], rules[0].rep[k]) {
          forall i | 0 <= i < |rules| - 1 ensures rules[1..][i].pat != [rules[0].rep[k]] {
            assert rules[1..][i] == rules[i + 1];
            assert rules[i + 1].pat[0] != rules[0].rep[k];
          }
        }
        ApplyUntouched(rules[0].rep, rules[1..]);
        assert Apply([x], rules) == rules[0].rep;
      } else {
        assert [x][..1] == [x];
        assert ReplaceAll([x], p, rules[0].rep) == [x] + ReplaceAll([], p, rules[0].rep);
        assert [x] + [] == [x];
        assert Apply([x], rules) == Apply([x], rules[1..]);
        ApplyOne(x, rules[1..]);
        if Replaced(rules, x) {
          var i :| 0 <= i < |rules| && rules[i].pat == [x];
          assert rules[1..][i - 1].pat == [x];
          var j :| 0 <= j < |rules| - 1 && rules[1..][j].pat == [x] && Apply([x], rules[1..]) == rules[1..][j].rep;
          assert rules[1..][j] == rules[j + 1];
        } else {
          forall i | 0 <= i < |rules| - 1 ensures rules[1..][i].pat != [x] {
            assert rules[1..][i] == rules[i + 1];
          }
        }
      }
    }
  }

  /** Each rule of the name chain does to its character what `Translate` does. */
  lemma NameRulesTranslate()
    ensures forall i :: 0 <= i < |NameRules| ==> |NameRules[i].pat| == 1 && NameRules[i].rep == Translate(NameRules[i].pat[0])
  {
  }

  lemma TranslateIsChain(c: char)
    ensures Apply([c], NameRules) == Translate(c)
  {
    NameRulesClosed();
    NameRulesReplace(c);
    NameRulesTranslate();
    ApplyOne(c, NameRules);
    if Replaced(NameRules, c) {
      var i :| 0 <= i < |NameRules| && NameRules[i].pat == [c] && Apply([c], NameRules) == NameRules[i].rep;
      assert NameRules[i].pat[0] == c;
    }
  }

  /** The one-pass translation is the `Replace` chain of the source. */
  lemma {:induction false} SanitiseIsChain(path: string)
    ensures Sanitise(path) == Chain(path)
    decreases |path|
  {
    NameRulesClosed();
    if path == [] {
      ApplyUntouched([], NameRules);
    } else {
      assert path == [path[0]] + path[1..];
      ApplySplit([path[0]], path[1..], NameRules);
      TranslateIsChain(path[0]);
      SanitiseIsChain(path[1..]);
    }
  }

  /** The file is skipped: its name contains ".meta" anywhere. */
  predicate IsMeta(f: FileEntry) {
    Contains(f.name, ".meta")
  }

  /** The files that produce a line: those whose name does not contain ".meta". */
  function Kept(fs: seq<FileEntry>): seq<FileEntry>
    decreases |fs|
  {
    if fs == [] then []
    else
      var init := Kept(fs[..|fs| - 1]);
      if IsMeta(fs[|fs| - 1]) then init else init + [fs[|fs| - 1]]
  }

  lemma {:induction false} KeptMembers(fs: seq<FileEntry>, f: FileEntry)
    ensures f in Kept(fs) <==> f in fs && !IsMeta(f)
    decreases |fs|
  {
    if fs != [] {
      KeptMembers(fs[..|fs| - 1], f);
      assert f in fs <==> f in fs[..|fs| - 1] || f == fs[|fs| - 1] by {
        assert fs == fs[..|fs| - 1] + [fs[|fs| - 1]];
      }
    }
  }

  /** The files of a tree in the order lines are emitted: a directory's own files,
      then each subdirectory in turn. */
  function Listing(d: Dir): seq<FileEntry>
    decreases d, 1
  {
    Kept(d.files) + ListingAll(d, |d.dirs|)
  }

  /** The listings of the first `n` subdirectories of `d`. */
  function ListingAll(d: Dir, n: nat): seq<FileEntry>
    requires n <= |d.dirs|
    decreases d, 0, n
  {
    if n == 0 then [] else ListingAll(d, n - 1) + Listing(d.dirs[n - 1])
  }

  /** `f` is a file somewhere in the tree. */
  predicate InTree(f: FileEntry, d: Dir)
    decreases d
  {
    f in d.files || exists k :: 0 <= k < |d.dirs| && InTree(f, d.dirs[k])
  }

  /** A file is listed iff it lies in the tree and its name does not contain ".meta". */
  lemma {:induction false} ListingMembers(d: Dir, f: FileEntry)
    ensures f in Listing(d) <==> InTree(f, d) && !IsMeta(f)
    decreases d, 1
  {
    KeptMembers(d.files, f);
    ListingAllMembers(d, |d.dirs|, f);
  }

  lemma {:induction false} ListingAllMembers(d: Dir, n: nat, f: FileEntry)
    requires n <= |d.dirs|
    ensures f in ListingAll(d, n) <==>
      (exists k :: 0 <= k < n && InTree(f, d.dirs[k])) && !IsMeta(f)
    decreases d, 0, n
  {
    if n > 0 {
      ListingAllMembers(d, n - 1, f);
      ListingMembers(d.dirs[n - 1], f);
    }
  }

  /** The line emitted for a file, ending with the platform's line terminator `nl`. */
  function ConstLine(f: FileEntry, nl: string): string {
    DeclOpen + Sanitise(f.path) + DeclMiddle + f.path + DeclClose + nl
  }

  /** The line format of `Bridging`. */
  function Line(nl: string): FileEntry -> string {
    f => ConstLine(f, nl)
  }

  /** The emitted lines of a sequence of files, one per file. */
  function Render(fs: seq<FileEntry>, line: FileEntry -> string): (r: seq<string>)
    ensures |r| == |fs|
    decreases |fs|
  {
    if fs == [] then [] else Render(fs[..|fs| - 1], line) + [line(fs[|fs| - 1])]
  }

  /** The text of a sequence of lines. */
  function Join(ls: seq<string>): string
    decreases |ls|
  {
    if ls == [] then "" else Join(ls[..|ls| - 1]) + ls[|ls| - 1]
  }

  function Lines(fs: seq<FileEntry>, line: FileEntry -> string): string {
    Join(Render(fs, line))
  }

  lemma {:induction false} JoinConcat(a: seq<string>, b: seq<string>)
    ensures Join(a + b) == Join(a) + Join(b)
    decreases |b|
  {
    if b == [] {
      assert a + b == a;
    } else {
      var b' := b[..|b| - 1];
      assert (a + b)[..|a + b| - 1] == a + b';
      assert (a + b)[|a + b| - 1] == b[|b| - 1];
      JoinConcat(a, b');
      AppendAssoc(Join(a), Join(b'), b[|b| - 1]);
    }
  }

  lemma {:induction false} RenderConcat(a: seq<FileEntry>, b: seq<FileEntry>, line: FileEntry -> string)
    ensures Render(a + b, line) == Render(a, line) + Render(b, line)
    decreases |b|
  {
    if b == [] {
      assert a + b == a;
    } else {
      var b' := b[..|b| - 1];
      assert (a + b)[..|a + b| - 1] == a + b';
      RenderConcat(a, b', line);
    }
  }

  lemma LinesConcat(a: seq<FileEntry>, b: seq<FileEntry>, line: FileEntry -> string)
    ensures Lines(a + b, line) == Lines(a, line) + Lines(b, line)
  {
    RenderConcat(a, b, line);
    JoinConcat(Render(a, line), Render(b, line));
  }

  /** The step of the file loop of `Bridging`. */
  lemma KeptPush(fs: seq<FileEntry>, k: int, line: FileEntry -> string)
    requires 0 <= k < |fs|
    ensures Lines(Kept(fs[..k + 1]), line) ==
      Lines(Kept(fs[..k]), line) + (if IsMeta(fs[k]) then "" else line(fs[k]))
  {
    assert fs[..k + 1][..k] == fs[..k];
    if !IsMeta(fs[k]) {
      var ks := Kept(fs[..k]) + [fs[k]];
      assert ks[..|ks| - 1] == Kept(fs[..k]);
    }
  }

  lemma AppendAssoc(a: string, b: string, c: string)
    ensures a + b + c == a + (b + c)
  {
  }

  /** The text `Bridging` appends for a directory, following its recursion. */
  function Emitted(d: Dir, line: FileEntry -> string): string
    decreases d, 1
  {
    Lines(Kept(d.files), line) + EmittedAll(d, |d.dirs|, line)
  }

  /** The text appended for the first `n` subdirectories of `d`. */
  function EmittedAll(d: Dir, n: nat, line: FileEntry -> string): string
    requires n <= |d.dirs|
    decreases d, 0, n
  {
    if n == 0 then "" else EmittedAll(d, n - 1, line) + Emitted(d.dirs[n - 1], line)
  }

  /** What `Bridging` appends is the lines of the listing. */
  lemma {:induction false} EmittedListing(d: Dir, line: FileEntry -> string)
    ensures Emitted(d, line) == Lines(Listing(d), line)
    decreases d, 1
  {
    EmittedAllListing(d, |d.dirs|, line);
    LinesConcat(Kept(d.files), ListingAll(d, |d.dirs|), line);
  }

  lemma {:induction false} EmittedAllListing(d: Dir, n: nat, line: FileEntry -> string)
    requires n <= |d.dirs|
    ensures EmittedAll(d, n, line) == Lines(ListingAll(d, n), line)
    decreases d, 0, n
  {
    if n > 0 {
      EmittedAllListing(d, n - 1, line);
      EmittedListing(d.dirs[n - 1], line);
      LinesConcat(ListingAll(d, n - 1), Listing(d.dirs[n - 1]), line);
    }
  }

  /** The file text `Gen` writes: the lines spliced into the template, every
      backslash turned into a slash, then the class name filled in. */
  function Generate(template: string, lines: string): string {
    ReplaceAll(ReplaceAll(ReplaceAll(template, ContentMarker, lines), "\\", "/"), ClassMarker, ClassName)
  }

  /** The generated file contains no backslash, wherever one came from. */
  lemma GenerateNoBackslash(template: string, lines: string)
    ensures '\\' !in Generate(template, lines)
  {
    var t := ReplaceAll(ReplaceAll(template, ContentMarker, lines), "\\", "/");
    ReplaceAllRemoves(ReplaceAll(template, ContentMarker, lines), '\\', "/");
    ReplaceAllKeepsOut(t, ClassMarker, ClassName, '\\');
  }

  /** A template without markers and backslashes is written out unchanged. */
  lemma GeneratePlain(template: string, lines: string)
    requires !Contains(template, ContentMarker) && !Contains(template, ClassMarker) && '\\' !in template
    ensures Generate(template, lines) == template
  {
    ReplaceAllAbsent(template, ContentMarker, lines);
    assert !Contains(template, "\\") by {
      forall i | 0 <= i <= |template| - 1 ensures !OccursAt(template, "\\", i) {
        assert template[i..i + 1] == [template[i]];
      }
    }
    ReplaceAllAbsent(template, "\\", "/");
    ReplaceAllAbsent(template, ClassMarker, ClassName);
  }

  /** The `StringBuilder` that `Bridging` appends to. */
  class ConstWriter {
    var text: string

    constructor ()
      ensures text == ""
    {
      text := "";
    }

    /** The file loop of `Bridging`: one line per file whose name does not
        contain ".meta", in order. */
    method AppendFiles(fs: seq<FileEntry>, line: FileEntry -> string)
      modifies this
      ensures text == old(text) + Lines(Kept(fs), line)
    {
      var k := 0;
      while k < |fs|
        invariant 0 <= k <= |fs|
        invariant text == old(text) + Lines(Kept(fs[..k]), line)
      {
        var f := fs[k];
        KeptPush(fs, k, line);
        if IsMeta(f) {
          k := k + 1;
          continue;
        }
        AppendAssoc(old(text), Lines(Kept(fs[..k]), line), line(f));
        text := text + line(f);
        k := k + 1;
      }
      assert fs[..k] == fs;
    }

    /** `Bridging(ref sb, dir)`: the lines of the directory's own files, then those
        of each subdirectory, recursively. `line` is the format of one line; `Gen`
        passes `Line(nl)`. */
    method Bridging(d: Dir, line: FileEntry -> string)
      modifies this
      ensures text == old(text) + Emitted(d, line)
      decreases d, 1
    {
      AppendFiles(d.files, line);
      var j := 0;
      while j < |d.dirs|
        invariant 0 <= j <= |d.dirs|
        invariant text == old(text) + Lines(Kept(d.files), line) + EmittedAll(d, j, line)
      {
        Bridging(d.dirs[j], line);
        AppendAssoc(old(text) + Lines(Kept(d.files), line), EmittedAll(d, j, line), Emitted(d.dirs[j], line));
        j := j + 1;
      }
      AppendAssoc(old(text), Lines(Kept(d.files), line), EmittedAll(d, |d.dirs|, line));
    }
  }

  /** `Gen`: the text written to the generated file, given the template file's
      text and the resource tree. */
  method Gen(template: string, tree: Dir, nl: string) returns (content: string)
    ensures content == Generate(template, Lines(Listing(tree), Line(nl)))
    ensures '\\' !in content
  {
    var sb := new ConstWriter();
    sb.Bridging(tree, Line(nl));
    EmittedListing(tree, Line(nl));
    assert sb.text == Lines(Listing(tree), Line(nl));
    content := ReplaceAll(ReplaceAll(ReplaceAll(template, ContentMarker, sb.text), "\\", "/"), ClassMarker, ClassName);
    GenerateNoBackslash(template, sb.text);
  }
}
