/**
 * Translation (contexts/LocalizationContext.tsx): the two locales, the key lookup with its
 * fallback chain, `{placeholder}` substitution with JavaScript's string `replace`, and the
 * stored-locale choice at start-up.
 */
module Localization {
  import opened Types
  import opened Text

  datatype Locale = En | ZhTW

  /** The locale's code, as stored under 'pickleball-locale'. */
  function LocaleCode(l: Locale): (code: string)
    ensures code == "en" <==> l == En
    ensures code == "zh-TW" <==> l == ZhTW
  {
    match l
    case En => "en"
    case ZhTW => "zh-TW"
  }

  /** The two translation tables (locales/en.ts and locales/zh-TW.ts are data and enter as values). */
  datatype Tables = Tables(en: map<string, string>, zhTW: map<string, string>)

  function TableOf(tables: Tables, l: Locale): map<string, string> {
    match l
    case En => tables.en
    case ZhTW => tables.zhTW
  }

  /** `table[key]` used as a condition: a missing key (undefined) and an empty string are both falsy. */
  predicate Truthy(table: map<string, string>, key: string) {
    key in table && table[key] != ""
  }

  /**
   * `translations[locale][key] || translations['en'][key] || key`: the current locale's
   * entry, else the English one, else the key itself; an empty entry counts as missing.
   */
  function Lookup(tables: Tables, l: Locale, key: string): (r: string)
    ensures Truthy(TableOf(tables, l), key) ==> r == TableOf(tables, l)[key]
    ensures !Truthy(TableOf(tables, l), key) && Truthy(tables.en, key) ==> r == tables.en[key]
    ensures !Truthy(TableOf(tables, l), key) && !Truthy(tables.en, key) ==> r == key
    ensures r != "" || key == ""
  {
    var current := TableOf(tables, l);
    if Truthy(current, key) then current[key]
    else if Truthy(tables.en, key) then tables.en[key]
    else key
  }

  /** Looking up in English never consults another table: the English entry or the key. */
  lemma EnglishLookup(tables: Tables, key: string)
    ensures Lookup(tables, En, key) == (if Truthy(tables.en, key) then tables.en[key] else key)
  {
  }

  // ---------------------------------------------------------------- String(value)

  /** A replacement value: `string | number` (numbers are integers here). */
  datatype Value = Str(s: string) | Num(n: int)

  /** `String(value)`: a string as is, a number in decimal. */
  function Stringify(v: Value): (r: string)
    ensures v.Str? ==> r == v.s
    ensures v.Num? ==> r == IntToString(v.n) && ParseInt(r) == v.n
  {
    match v
    case Str(s) => s
    case Num(n) =>
      IntRoundTrip(n);
      IntToString(n)
  }

  // ---------------------------------------------------------------- String.prototype.replace with a string pattern

  /** The pattern stands at position q of s. */
  predicate OccursAt(s: string, pat: string, q: int) {
    0 <= q && q + |pat| <= |s| && s[q..q + |pat|] == pat
  }

  /** `s.indexOf(pat, from)`: the first position at or after `from` where the pattern stands. */
  function IndexFrom(s: string, pat: string, from: nat): (r: Option<nat>)
    ensures r.Some? ==> from <= r.value && OccursAt(s, pat, r.value)
    ensures r.Some? ==> forall q :: from <= q < r.value ==> !OccursAt(s, pat, q)
    ensures r.None? ==> forall q :: from <= q ==> !OccursAt(s, pat, q)
    decreases |s| - from
  {
    if from + |pat| > |s| then None
    else if s[from..from + |pat|] == pat then Some(from)
    else IndexFrom(s, pat, from + 1)
  }

  /**
   * GetSubstitution for a match without capture groups: `$$` is a dollar, `$&` the match,
   * `` $` `` the text before it, `$'` the text after it; everything else is copied.
   */
  function Expand(template: string, matched: string, before: string, after: string): (r: string)
    decreases |template|
  {
    if template == [] then []
    else if template[0] == '$' && |template| >= 2 && template[1] == '$' then "$" + Expand(template[2..], matched, before, after)
    else if template[0] == '$' && |template| >= 2 && template[1] == '&' then matched + Expand(template[2..], matched, before, after)
    else if template[0] == '$' && |template| >= 2 && template[1] == '`' then before + Expand(template[2..], matched, before, after)
    else if template[0] == '$' && |template| >= 2 && template[1] == '\'' then after + Expand(template[2..], matched, before, after)
    else [template[0]] + Expand(template[1..], matched, before, after)
  }

  /** A replacement without a dollar sign is inserted verbatim. */
  lemma {:induction false} ExpandVerbatim(template: string, matched: string, before: string, after: string)
    requires '$' !in template
    ensures Expand(template, matched, before, after) == template
    decreases |template|
  {
    if template != [] {
      assert '$' !in template[1..] by {
        assert forall i :: 0 <= i < |template| - 1 ==> template[1..][i] == template[i + 1];
      }
      ExpandVerbatim(template[1..], matched, before, after);
    }
  }

  /** The four special patterns, each on its own. */
  lemma ExpandPatterns(matched: string, before: string, after: string)
    ensures Expand("$$", matched, before, after) == "$"
    ensures Expand("$&", matched, before, after) == matched
    ensures Expand("$`", matched, before, after) == before
    ensures Expand("$'", matched, before, after) == after
  {
    assert "$$"[2..] == [] && "$&"[2..] == [] && "$`"[2..] == [] && "$'"[2..] == [];
  }

  /** The pattern stands at p and nowhere before. */
  predicate FirstAt(s: string, pat: string, p: int) {
    OccursAt(s, pat, p) && forall q :: 0 <= q < p ==> !OccursAt(s, pat, q)
  }

  /** `s.replace(pat, rep)` with a string pattern; without an occurrence the string is unchanged. */
  function ReplaceFirst(s: string, pat: string, rep: string): (r: string)
    ensures (forall q :: 0 <= q ==> !OccursAt(s, pat, q)) ==> r == s
  {
    match IndexFrom(s, pat, 0)
    case None => s
    case Some(p) => s[..p] + Expand(rep, pat, s[..p], s[p + |pat|..]) + s[p + |pat|..]
  }

  /** Only the first occurrence is replaced, by the expanded replacement; the text around it is kept. */
  lemma {:induction false} ReplaceAtFirst(s: string, pat: string, rep: string, p: nat)
    requires FirstAt(s, pat, p)
    ensures ReplaceFirst(s, pat, rep) == s[..p] + Expand(rep, pat, s[..p], s[p + |pat|..]) + s[p + |pat|..]
  {
    var found := IndexFrom(s, pat, 0);
    assert found.Some?;
    assert !(found.value < p) && !(p < found.value);
  }

  /** A dollar-free replacement of the first occurrence at p is inserted verbatim. */
  lemma {:induction false} ReplaceVerbatim(s: string, pat: string, rep: string, p: nat)
    requires '$' !in rep
    requires FirstAt(s, pat, p)
    ensures ReplaceFirst(s, pat, rep) == s[..p] + rep + s[p + |pat|..]
  {
    ReplaceAtFirst(s, pat, rep, p);
    ExpandVerbatim(rep, pat, s[..p], s[p + |pat|..]);
  }

  /** Only the first occurrence goes: a later occurrence that does not overlap it is still there, shifted. */
  lemma {:induction false} LaterOccurrenceSurvives(s: string, pat: string, rep: string, p: nat, q: nat)
    requires '$' !in rep
    requires FirstAt(s, pat, p)
    requires OccursAt(s, pat, q) && q >= p + |pat|
    ensures OccursAt(ReplaceFirst(s, pat, rep), pat, q - |pat| + |rep|)
  {
    ReplaceVerbatim(s, pat, rep, p);
    var r := ReplaceFirst(s, pat, rep);
    var suffix := s[p + |pat|..];
    var j := q - p - |pat|;
    assert r[p + |rep|..] == suffix;
    assert suffix[j..j + |pat|] == s[q..q + |pat|];
    assert r[q - |pat| + |rep|..q + |rep|] == r[p + |rep|..][j..j + |pat|];
  }

  // ---------------------------------------------------------------- t(key, replacements)

  /** The `{name}` placeholder a replacement entry fills. */
  function Placeholder(name: string): (p: string)
    ensures |p| == |name| + 2 && p[0] == '{' && p[|p| - 1] == '}'
  {
    "{" + name + "}"
  }

  /** The replacements, entry by entry in `Object.entries` order, each applied to the result of the ones before. */
  function ApplyAll(t: string, entries: seq<(string, Value)>): (r: string)
    ensures entries == [] ==> r == t
    decreases |entries|
  {
    if entries == [] then t
    else
      var last := entries[|entries| - 1];
      ReplaceFirst(ApplyAll(t, entries[..|entries| - 1]), Placeholder(last.0), Stringify(last.1))
  }

  /** Appending one entry applies it to the result of the ones before. */
  lemma ApplyAllSnoc(t: string, entries: seq<(string, Value)>, e: (string, Value))
    ensures ApplyAll(t, entries + [e]) == ReplaceFirst(ApplyAll(t, entries), Placeholder(e.0), Stringify(e.1))
  {
    var all := entries + [e];
    assert all[..|all| - 1] == entries;
  }

  /** Applying two runs of entries is applying the first run, then the second to its result. */
  lemma {:induction false} ApplyAllSequential(t: string, first: seq<(string, Value)>, second: seq<(string, Value)>)
    ensures ApplyAll(t, first + second) == ApplyAll(ApplyAll(t, first), second)
    decreases |second|
  {
    if second == [] {
      assert first + second == first;
    } else {
      var front := second[..|second| - 1];
      var e := second[|second| - 1];
      assert second == front + [e];
      assert first + second == (first + front) + [e];
      ApplyAllSequential(t, first, front);
      ApplyAllSnoc(t, first + front, e);
      ApplyAllSnoc(ApplyAll(t, first), front, e);
    }
  }

  /** A placeholder absent from the text is skipped: that entry leaves the text unchanged. */
  lemma {:induction false} MissingPlaceholderSkipped(t: string, entries: seq<(string, Value)>, name: string, v: Value)
    requires forall q :: 0 <= q ==> !OccursAt(ApplyAll(t, entries), Placeholder(name), q)
    ensures ApplyAll(t, entries + [(name, v)]) == ApplyAll(t, entries)
  {
    var all := entries + [(name, v)];
    assert all[..|all| - 1] == entries;
  }

  /** What `t` returns: the looked-up text with the replacements applied, if any were given. */
  function Translation(tables: Tables, l: Locale, key: string, replacements: Option<seq<(string, Value)>>): (r: string)
    ensures replacements.None? ==> r == Lookup(tables, l, key)
    ensures replacements == Some([]) ==> r == Lookup(tables, l, key)
  {
    match replacements
    case None => Lookup(tables, l, key)
    case Some(entries) => ApplyAll(Lookup(tables, l, key), entries)
  }

  /** A single text replacement fills the placeholder's first occurrence with the value verbatim. */
  lemma {:induction false} SingleStringReplacement(tables: Tables, l: Locale, key: string, name: string, value: string, p: nat)
    requires '$' !in value
    requires var text := Lookup(tables, l, key);
      FirstAt(text, Placeholder(name), p)
    ensures var text := Lookup(tables, l, key);
      Translation(tables, l, key, Some([(name, Str(value))])) == text[..p] + value + text[p + |name| + 2..]
  {
    var text := Lookup(tables, l, key);
    var entries := [(name, Str(value))];
    assert entries[..0] == [];
    ReplaceVerbatim(text, Placeholder(name), value, p);
  }

  // ---------------------------------------------------------------- the stored locale

  /** What reading 'pickleball-locale' gives: an entry or null, or an exception. */
  datatype StorageRead = Stored(value: Option<string>) | ReadFailed

  /** The initial locale: the stored one if it is "en" or "zh-TW", English otherwise and when storage fails. */
  function InitialLocale(read: StorageRead): (l: Locale)
    ensures l == ZhTW <==> read == Stored(Some("zh-TW"))
    ensures read.Stored? && read.value.Some? && (read.value.value == "en" || read.value.value == "zh-TW") ==>
      LocaleCode(l) == read.value.value
  {
    match read
    case ReadFailed => En
    case Stored(value) =>
      if value == Some("en") then En
      else if value == Some("zh-TW") then ZhTW
      else En
  }

  /** A locale written to storage is the one read back at the next start. */
  lemma LocaleRoundTrip(l: Locale)
    ensures InitialLocale(Stored(Some(LocaleCode(l)))) == l
  {
  }

  /** The provider: the current locale, the 'pickleball-locale' storage entry, and the tables. */
  class LocalizationProvider {
    const tables: Tables
    var locale: Locale
    var storedLocale: Option<string>

    /** The lazy initial state: the locale read from storage. */
    constructor(tables: Tables, read: StorageRead)
      ensures this.tables == tables
      ensures locale == InitialLocale(read)
      ensures storedLocale == (if read.Stored? then read.value else None)
    {
      this.tables := tables;
      locale := InitialLocale(read);
      storedLocale := if read.Stored? then read.value else None;
    }

    /** setLocale: tries to store the code, and switches the locale whether or not the write fails. */
    method SetLocale(newLocale: Locale, writeFails: bool)
      modifies this
      ensures locale == newLocale
      ensures writeFails ==> storedLocale == old(storedLocale)
      ensures !writeFails ==> storedLocale == Some(LocaleCode(newLocale))
    {
      if !writeFails {
        storedLocale := Some(LocaleCode(newLocale));
      }
      locale := newLocale;
    }

    /** `t`: the lookup in the current locale, then each replacement in turn on the evolving text. */
    method Translate(key: string, replacements: Option<seq<(string, Value)>>) returns (translation: string)
      ensures translation == Translation(tables, locale, key, replacements)
    {
      translation := Lookup(tables, locale, key);
      if replacements.Some? {
        var entries := replacements.value;
        for i := 0 to |entries|
          invariant translation == ApplyAll(Lookup(tables, locale, key), entries[..i])
        {
          var (placeholder, value) := entries[i];
          assert entries[..i + 1][..i] == entries[..i];
          translation := ReplaceFirst(translation, Placeholder(placeholder), Stringify(value));
        }
        assert entries[..|entries|] == entries;
      }
    }
  }

  /** A successful write is what the next start reads back. */
  lemma StoredLocaleReadBack(l: Locale, stored: Option<string>)
    requires stored == Some(LocaleCode(l))
    ensures InitialLocale(Stored(stored)) == l
  {
    LocaleRoundTrip(l);
  }
}
