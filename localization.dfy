/** The string table of Assets/Game/Scripts/Core/Localization/LocalizationModule.cs:
    the line-based "key,value" parser, the lookup with its fallbacks, and the
    checks `SetLanguage` makes before loading a language. */
module Localization {
  import opened Wrappers
  import opened Text

  /** The separators of `ParseLocalizationData`'s line split. */
  const LineBreaks: set<char> := {'\n', '\r'}

  /** The entry a line contributes: none for a `//` comment or a line without a
      comma; otherwise the trimmed text before the first comma as key and the
      trimmed text after it, with each `\"` turned into `"`, as value. */
  function ParseLine(line: string): (r: Option<(string, string)>)
    ensures r.Some? <==> !StartsWith(line, "//") && ',' in line
    ensures r.Some? ==> ',' !in r.value.0
    ensures r.Some? && r.value.0 != [] ==> !IsWhiteSpace(r.value.0[0]) && !IsWhiteSpace(r.value.0[|r.value.0| - 1])
  {
    if StartsWith(line, "//") then None
    else
      var i := FirstOf(line, {','});
      if i == |line| then None
      else
        TrimHasNo(line[..i], ',');
        Some((Trim(line[..i]), ReplaceAll(Trim(line[i + 1..]), "\\\"", "\"")))
  }

  lemma TrimHasNo(s: string, c: char)
    requires c !in s
    ensures c !in Trim(s)
  {
    var r := Trim(s);
    var i :| OccursAt(s, r, i);
    forall j | 0 <= j < |r| ensures r[j] != c {
      assert r[j] == s[i + j];
    }
  }

  /** A line is cut at its first comma only: whatever follows, commas included,
      is the value. */
  lemma ParseLineSplit(k: string, v: string)
    requires ',' !in k && !StartsWith(k + "," + v, "//")
    ensures ParseLine(k + "," + v) == Some((Trim(k), ReplaceAll(Trim(v), "\\\"", "\"")))
  {
    var line := k + "," + v;
    FirstOfPrefix(k, v);
    assert line[..|k|] == k;
    assert line[|k| + 1..] == v;
  }

  lemma {:induction false} FirstOfPrefix(k: string, v: string)
    requires ',' !in k
    ensures FirstOf(k + "," + v, {','}) == |k|
    decreases |k|
  {
    if k != [] {
      assert (k + "," + v)[1..] == k[1..] + "," + v;
      FirstOfPrefix(k[1..], v);
    }
  }

  /** What one line contributes: nothing, or a key and its value. */
  type Entry = Option<(string, string)>

  /** The entry of each line, in order. */
  function Entries(lines: seq<string>): (es: seq<Entry>)
    ensures |es| == |lines|
    decreases |lines|
  {
    if lines == [] then [] else Entries(lines[..|lines| - 1]) + [ParseLine(lines[|lines| - 1])]
  }

  lemma {:induction false} EntriesAt(lines: seq<string>, i: int)
    requires 0 <= i < |lines|
    ensures Entries(lines)[i] == ParseLine(lines[i])
    decreases |lines|
  {
    if i < |lines| - 1 {
      EntriesAt(lines[..|lines| - 1], i);
    }
  }

  lemma EntriesPush(lines: seq<string>, k: int)
    requires 0 <= k < |lines|
    ensures Assign(Entries(lines[..k + 1])) ==
      match ParseLine(lines[k])
      case None => Assign(Entries(lines[..k]))
      case Some(kv) => Assign(Entries(lines[..k]))[kv.0 := kv.1]
  {
    assert lines[..k + 1][..k] == lines[..k];
    var es := Entries(lines[..k + 1]);
    assert es[..k] == Entries(lines[..k]);
  }

  /** Entry `e` gives key `k`. */
  predicate Defines(e: Entry, k: string) {
    e.Some? && e.value.0 == k
  }

  /** The table after the entries are stored in order, each later entry
      overwriting an earlier one with the same key. */
  function Assign(es: seq<Entry>): map<string, string>
    decreases |es|
  {
    if es == [] then map[]
    else
      var t := Assign(es[..|es| - 1]);
      match es[|es| - 1]
      case None => t
      case Some(kv) => t[kv.0 := kv.1]
  }

  /** `ParseLocalizationData(data)`: the whole new table. */
  function Parse(data: Option<string>): map<string, string> {
    if data.None? || data.value == "" then map[] else Assign(Entries(Split(data.value, LineBreaks)))
  }

  /** A key is in the table iff some entry defines it, and its value is the one
      given by the last entry that defines it. */
  lemma {:induction false} AssignEntries(es: seq<Entry>, k: string)
    ensures k in Assign(es) <==> exists i :: 0 <= i < |es| && Defines(es[i], k)
    ensures k in Assign(es) ==>
      exists i :: 0 <= i < |es| && es[i] == Some((k, Assign(es)[k])) &&
        forall j :: i < j < |es| ==> !Defines(es[j], k)
    decreases |es|
  {
    if es != [] {
      var n := |es| - 1;
      var init := es[..n];
      AssignEntries(init, k);
      assert forall i :: 0 <= i < n ==> init[i] == es[i];
      if !Defines(es[n], k) && k in Assign(es) {
        var i :| 0 <= i < n && init[i] == Some((k, Assign(init)[k])) &&
          forall j :: i < j < n ==> !Defines(init[j], k);
        assert es[i] == Some((k, Assign(es)[k]));
      }
    }
  }

  /** Null or empty data gives the empty table; comment lines and lines without a
      comma never add an entry. */
  lemma ParseIgnores(line: string)
    requires StartsWith(line, "//") || ',' !in line
    ensures Parse(None) == map[] && Parse(Some("")) == map[]
    ensures Assign(Entries([line])) == map[]
  {
  }

  /** After parsing, a key that no line defines reads back itself. */
  lemma LookupUndefined(lines: seq<string>, k: string)
    requires k != ""
    requires forall i :: 0 <= i < |lines| ==> !Defines(ParseLine(lines[i]), k)
    ensures Lookup(Assign(Entries(lines)), Some(k)) == k
  {
    var es := Entries(lines);
    AssignEntries(es, k);
    if k in Assign(es) {
      var i :| 0 <= i < |es| && Defines(es[i], k);
      EntriesAt(lines, i);
    }
  }

  /** After parsing, a key reads back the value of the last line that defines it. */
  lemma LookupLast(lines: seq<string>, k: string, i: int)
    requires k != "" && 0 <= i < |lines| && Defines(ParseLine(lines[i]), k)
    requires forall j :: i < j < |lines| ==> !Defines(ParseLine(lines[j]), k)
    ensures Lookup(Assign(Entries(lines)), Some(k)) == ParseLine(lines[i]).value.1
  {
    var es := Entries(lines);
    EntriesAt(lines, i);
    AssignEntries(es, k);
    var i' :| 0 <= i' < |es| && es[i'] == Some((k, Assign(es)[k])) &&
      forall j :: i' < j < |es| ==> !Defines(es[j], k);
    EntriesAt(lines, i');
  }

  /** `GetLocalizedString`: empty for a null or empty key, the stored value for a
      known key, the key itself otherwise. */
  function Lookup(table: map<string, string>, key: Option<string>): (r: string)
    ensures key.None? || key.value == "" ==> r == ""
    ensures key.Some? && key.value != "" && key.value in table ==> r == table[key.value]
    ensures key.Some? && key.value != "" && key.value !in table ==> r == key.value
  {
    if key.None? || key.value == "" then ""
    else if key.value in table then table[key.value]
    else key.value
  }

  /** What `SetLanguage` decided. */
  datatype LanguageOutcome =
    | Rejected               // null or empty code
    | AlreadyCurrent         // the code is the current language
    | Changed                // data loaded, parsed and made current
    | LoadFailed(retryDefault: bool)   // no data; the default is tried next unless this was it

  /** The decision `SetLanguage(code)` takes while the current language is
      `current`; `loaded` says whether the language's data asset loads. */
  function Decide(current: Option<string>, code: Option<string>, defaultLanguage: string, loaded: bool): (r: LanguageOutcome)
    ensures r == Rejected <==> code.None? || code.value == ""
    ensures r == AlreadyCurrent <==> code.Some? && code.value != "" && current == code
    ensures r == Changed <==> code.Some? && code.value != "" && current != code && loaded
    ensures r.LoadFailed? ==> r.retryDefault == (code.value != defaultLanguage)
  {
    if code.None? || code.value == "" then Rejected
    else if current == code then AlreadyCurrent
    else if !loaded then LoadFailed(code.value != defaultLanguage)
    else Changed
  }

  /** A failed load of the default language ends the fallback chain: it is not
      tried again. A failed load of any other language falls back to the default. */
  lemma FallbackStops(current: Option<string>, code: string, defaultLanguage: string)
    requires code != "" && current != Some(code)
    ensures Decide(current, Some(code), defaultLanguage, false) == LoadFailed(code != defaultLanguage)
    ensures Decide(current, Some(defaultLanguage), defaultLanguage, false) != LoadFailed(true)
  {
  }

  /** As written, initialisation makes the default language current before asking
      for the saved one, and the saved language defaults to the default language:
      with nothing saved, `SetLanguage` returns at the "already current" check and
      no table is ever loaded, however loadable the data is. */
  lemma InitializeAsWrittenSkipsDefault(defaultLanguage: string)
    requires defaultLanguage != ""
    ensures Decide(Some(defaultLanguage), Some(defaultLanguage), defaultLanguage, true) == AlreadyCurrent
  {
  }

  /** Without the early assignment, initialisation with any non-empty saved
      language whose data loads takes the loading path. */
  lemma InitializeLoads(saved: string, defaultLanguage: string)
    requires saved != ""
    ensures Decide(None, Some(saved), defaultLanguage, true) == Changed
  {
  }

  class LocalizationModule {
    const defaultLanguage: string
    var currentLanguage: Option<string>
    var localizedStrings: map<string, string>
    /** How many times `LanguageChanged` has been raised. */
    var languageChanges: nat

    constructor (defaultLanguage: string)
      ensures this.defaultLanguage == defaultLanguage
      ensures currentLanguage.None? && localizedStrings == map[] && languageChanges == 0
    {
      this.defaultLanguage := defaultLanguage;
      currentLanguage := None;
      localizedStrings := map[];
      languageChanges := 0;
    }

    /** `ParseLocalizationData`: clear the table, then add the entry of each line. */
    method ParseLocalizationData(data: Option<string>)
      modifies this
      ensures localizedStrings == Parse(data)
      ensures currentLanguage == old(currentLanguage) && languageChanges == old(languageChanges)
    {
      localizedStrings := map[];
      if data.None? || data.value == "" {
        return;
      }
      var lines := Split(data.value, LineBreaks);
      var k := 0;
      while k < |lines|
        invariant 0 <= k <= |lines|
        invariant localizedStrings == Assign(Entries(lines[..k]))
        invariant currentLanguage == old(currentLanguage) && languageChanges == old(languageChanges)
      {
        var line := lines[k];
        EntriesPush(lines, k);
        if StartsWith(line, "//") {
          assert ParseLine(line) == None;
          k := k + 1;
          continue;
        }
        var comma := FirstOf(line, {','});
        if comma < |line| {
          var key := Trim(line[..comma]);
          var value := ReplaceAll(Trim(line[comma + 1..]), "\\\"", "\"");
          assert ParseLine(line) == Some((key, value));
          localizedStrings := localizedStrings[key := value];
        } else {
          assert ParseLine(line) == None;
        }
        k := k + 1;
      }
      assert lines[..|lines|] == lines;
    }

    /** `GetLocalizedString`. */
    function GetLocalizedString(key: Option<string>): (r: string)
      reads this
      ensures r == Lookup(localizedStrings, key)
    {
      if key.None? || key.value == "" then ""
      else if key.value in localizedStrings then localizedStrings[key.value]
      else key.value
    }

    /** `SetLanguage`, with `loaded` the text of the language's data asset (None when
        the load fails). */
    method SetLanguage(languageCode: Option<string>, loaded: Option<string>) returns (r: LanguageOutcome)
      modifies this
      ensures languageCode.None? || languageCode.value == "" ==> r == Rejected && unchanged(this)
      ensures languageCode.Some? && languageCode.value != "" && old(currentLanguage) == languageCode ==>
        r == AlreadyCurrent && unchanged(this)
      ensures languageCode.Some? && languageCode.value != "" && old(currentLanguage) != languageCode && loaded.None? ==>
        r == LoadFailed(languageCode.value != defaultLanguage) && unchanged(this)
      ensures languageCode.Some? && languageCode.value != "" && old(currentLanguage) != languageCode && loaded.Some? ==>
        && r == Changed
        && localizedStrings == Parse(loaded)
        && currentLanguage == languageCode
        && languageChanges == old(languageChanges) + 1
    {
      r := Decide(currentLanguage, languageCode, defaultLanguage, loaded.Some?);
      if r != Changed {
        return;
      }
      ParseLocalizationData(loaded);
      currentLanguage := languageCode;
      languageChanges := languageChanges + 1;
    }

    /** `OnInitialize` as written: the default language is made current first, then
        the saved language (`saved`, which is the default when none was saved) is set. */
    method OnInitializeAsWritten(saved: string, loaded: Option<string>) returns (r: LanguageOutcome)
      modifies this
      ensures saved == defaultLanguage && saved != "" ==>
        r == AlreadyCurrent && localizedStrings == old(localizedStrings) && languageChanges == old(languageChanges)
    {
      currentLanguage := Some(defaultLanguage);
      r := SetLanguage(Some(saved), loaded);
    }

    /** `OnInitialize` as evidently intended: the saved language is set while no
        language is current, so its data is loaded whenever it can be. */
    method OnInitialize(saved: string, loaded: Option<string>) returns (r: LanguageOutcome)
      modifies this
      ensures old(currentLanguage).None? && saved != "" && loaded.Some? ==>
        && r == Changed && localizedStrings == Parse(loaded) && currentLanguage == Some(saved)
        && languageChanges == old(languageChanges) + 1
      ensures old(currentLanguage).None? && saved != "" && loaded.None? ==> r == LoadFailed(saved != defaultLanguage) && unchanged(this)
    {
      r := SetLanguage(Some(saved), loaded);
    }

    /** `OnShutdown`: the table is emptied and the `LanguageChanged` subscribers dropped. */
    method OnShutdown()
      modifies this
      ensures localizedStrings == map[] && currentLanguage == old(currentLanguage) && languageChanges == old(languageChanges)
    {
      localizedStrings := map[];
    }
  }
}
