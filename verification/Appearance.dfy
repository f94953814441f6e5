/** The messages of the interface: translations of themes and plugins merged in place, and the locales offered. */
module Appearance {
  import opened Text

  type Entries = map<string, string>

  /** The messages of one locale, shared by whoever holds a reference. */
  class Messages {
    var entries: Entries

    constructor ()
      ensures entries == map[]
    {
      entries := map[];
    }
  }

  datatype Pack = Pack(id: string, defaultLocale: string, lang: string, locales: seq<string>, translations: map<string, Messages>)

  /** A pack as a value: what its translations say at the moment. */
  datatype PackText = PackText(id: string, defaultLocale: string, lang: string, locales: seq<string>, texts: map<string, Entries>)

  function View(pack: Pack): PackText
    reads pack.translations.Values
  {
    PackText(pack.id, pack.defaultLocale, pack.lang, pack.locales,
             map l | l in pack.translations :: pack.translations[l].entries)
  }

  ghost function Objects(packs: seq<Pack>): set<Messages> {
    set i, l | 0 <= i < |packs| && l in packs[i].translations :: packs[i].translations[l]
  }

  function Views(packs: seq<Pack>): (views: seq<PackText>)
    reads Objects(packs)
    ensures |views| == |packs| && forall i :: 0 <= i < |views| ==> views[i] == ViewIn(packs, i)
  {
    seq(|packs|, i requires 0 <= i < |packs| reads Objects(packs) => ViewIn(packs, i))
  }

  function ViewIn(packs: seq<Pack>, i: nat): PackText
    requires i < |packs|
    reads Objects(packs)
  {
    PartOf(packs, i);
    View(packs[i])
  }

  lemma PartOf(packs: seq<Pack>, i: nat)
    requires i < |packs|
    ensures packs[i].translations.Values <= Objects(packs)
  {
  }

  // ---------------------------------------------------------------- lookups

  predicate Blank(s: string) { TrimSpace(s) == "" }

  predicate Says(entries: Entries, key: string) { key in entries && !Blank(entries[key]) }

  function Get(entries: Entries, key: string): Option<string> {
    if key in entries then Some(entries[key]) else None
  }

  function BaseLocale(p: PackText): string {
    if !Blank(p.defaultLocale) then p.defaultLocale
    else if !Blank(p.lang) then p.lang
    else if p.locales != [] then p.locales[0]
    else "en"
  }

  function TextsAt(p: PackText, locale: string): Entries {
    if locale in p.texts then p.texts[locale] else map[]
  }

  /** What a theme has to say in a locale; a blank locale asks for nothing. */
  function Translated(p: PackText, locale: string): Entries {
    if Blank(locale) then map[] else TextsAt(p, locale)
  }

  function FirstSaid(sources: seq<Entries>, key: string): Option<string> {
    if sources == [] then None else if Says(sources[0], key) then Some(sources[0][key]) else FirstSaid(sources[1..], key)
  }

  function InLocale(plugins: seq<PackText>, locale: string): (r: seq<Entries>)
    ensures |r| == |plugins| && forall i :: 0 <= i < |r| ==> r[i] == TextsAt(plugins[i], locale)
  {
    seq(|plugins|, i requires 0 <= i < |plugins| => TextsAt(plugins[i], locale))
  }

  /** Where a message may come from, in order of priority. */
  function Sources(base: PackText, theme: PackText, plugins: seq<PackText>, locale: string): seq<Entries> {
    InLocale(plugins, locale)
    + (if theme.id == base.id then [] else [Translated(theme, locale), TextsAt(theme, BaseLocale(theme))])
    + [Translated(base, locale)]
  }

  /** The message shown for a key: the first nonblank one, else the entry of the default theme as it is. */
  function Lookup(base: PackText, theme: PackText, plugins: seq<PackText>, locale: string, key: string): Option<string> {
    match FirstSaid(Sources(base, theme, plugins, locale), key)
    case Some(text) => Some(text)
    case None => Get(TextsAt(base, BaseLocale(base)), key)
  }

  // ---------------------------------------------------------------- merging

  /** Nonblank entries of `b` over the entries of `a`. */
  function Overlaid(a: Entries, b: Entries): Entries {
    map key | key in a.Keys + b.Keys && (key in a || Says(b, key)) :: if Says(b, key) then b[key] else a[key]
  }

  lemma OverlaidGet(a: Entries, b: Entries, key: string)
    ensures Get(Overlaid(a, b), key) == if Says(b, key) then Some(b[key]) else Get(a, key)
  {
    hide Blank;
  }

  method MergeMessages(target: Messages, source: Messages?)
    requires target != source
    modifies target
    ensures target.entries == Overlaid(old(target.entries), if source == null then map[] else source.entries)
  {
    hide TrimSpace, Overlaid;
    if source == null {
      OverNothing(target.entries);
      return;
    }
    var todo := source.entries.Keys;
    ghost var before, visited: Entries := target.entries, map[];
    OverNothing(before);
    while todo != {}
      invariant todo <= source.entries.Keys && source.entries == old(source.entries)
      invariant visited == Without(source.entries, todo)
      invariant target.entries == Overlaid(before, visited)
    {
      var key :| key in todo;
      assert Without(source.entries, todo - {key}) == visited[key := source.entries[key]];
      OverlaidNext(before, visited, key, source.entries[key]);
      todo := todo - {key};
      visited := visited[key := source.entries[key]];
      if TrimSpace(source.entries[key]) != "" {
        target.entries := target.entries[key := source.entries[key]];
      }
    }
    assert visited == source.entries;
  }

  function Without(entries: Entries, todo: set<string>): Entries {
    map key | key in entries && key !in todo :: entries[key]
  }

  lemma OverlaidNext(a: Entries, b: Entries, key: string, text: string)
    requires key !in b
    ensures Overlaid(a, b[key := text]) == if Blank(text) then Overlaid(a, b) else Overlaid(a, b)[key := text]
  {
    hide Blank;
  }

  method CloneMessages(source: Messages?) returns (cloned: Messages)
    ensures fresh(cloned) && cloned.entries == if source == null then map[] else source.entries
  {
    cloned := new Messages();
    if source == null {
      return;
    }
    var todo := source.entries.Keys;
    while todo != {}
      invariant todo <= source.entries.Keys && source.entries == old(source.entries) && cloned != source
      invariant cloned.entries == map key | key in source.entries && key !in todo :: source.entries[key]
    {
      var key :| key in todo;
      todo := todo - {key};
      cloned.entries := cloned.entries[key := source.entries[key]];
    }
  }

  function EffectiveDefaultLocale(pack: Pack): string {
    if TrimSpace(pack.defaultLocale) != "" then pack.defaultLocale
    else if TrimSpace(pack.lang) != "" then pack.lang
    else if pack.locales != [] then pack.locales[0]
    else "en"
  }

  function Translation(pack: Pack, locale: string): (m: Messages?)
    ensures m != null ==> m in pack.translations.Values
  {
    if locale in pack.translations then pack.translations[locale] else null
  }

  lemma TranslationText(pack: Pack, locale: string)
    ensures TextsAt(View(pack), locale)
         == (var m := Translation(pack, locale); if m == null then map[] else m.entries)
    ensures EffectiveDefaultLocale(pack) == BaseLocale(View(pack))
  {
  }

  /** The messages of one pack: the given locale over the pack's default. */
  function Localized(p: PackText, locale: string): Entries {
    Overlaid(TextsAt(p, BaseLocale(p)), if locale == BaseLocale(p) then map[] else Translated(p, locale))
  }

  lemma OverNothing(a: Entries)
    ensures Overlaid(a, map[]) == a
  {
  }

  method LocalizedPackMessages(pack: Pack, locale: string) returns (messages: Messages)
    ensures fresh(messages) && messages.entries == Localized(View(pack), locale)
  {
    hide TrimSpace, Overlaid;
    var defaultLocale := EffectiveDefaultLocale(pack);
    TranslationText(pack, defaultLocale);
    TranslationText(pack, locale);
    messages := CloneMessages(Translation(pack, defaultLocale));
    OverNothing(messages.entries);
    if TrimSpace(locale) != "" && locale != defaultLocale {
      MergeMessages(messages, Translation(pack, locale));
    }
  }

  /** The theme's messages over those of the default theme. */
  function ThemeEntries(base: PackText, theme: PackText, locale: string, themeLocale: string): Entries {
    if theme.id == base.id then Localized(base, locale)
    else Overlaid(Localized(base, locale), Localized(theme, themeLocale))
  }

  /** Plugin after plugin, the last one first. */
  function WithPlugins(start: Entries, sources: seq<Entries>): Entries {
    if sources == [] then start else Overlaid(WithPlugins(start, sources[1..]), sources[0])
  }

  lemma {:induction false} WithPluginsGet(start: Entries, sources: seq<Entries>, key: string)
    ensures Get(WithPlugins(start, sources), key)
         == match FirstSaid(sources, key) case Some(text) => Some(text) case None => Get(start, key)
  {
    hide Overlaid, Says;
    if sources != [] {
      WithPluginsGet(start, sources[1..], key);
      OverlaidGet(WithPlugins(start, sources[1..]), sources[0], key);
    }
  }

  lemma {:induction false} FirstSaidAppend(a: seq<Entries>, b: seq<Entries>, key: string)
    ensures FirstSaid(a + b, key) == if FirstSaid(a, key).Some? then FirstSaid(a, key) else FirstSaid(b, key)
  {
    if a == [] {
      assert a + b == b;
    } else {
      assert (a + b)[1..] == a[1..] + b;
      FirstSaidAppend(a[1..], b, key);
    }
  }

  lemma LocalizedGet(p: PackText, locale: string, key: string)
    ensures Get(Localized(p, locale), key)
         == if Says(Translated(p, locale), key) then Some(Translated(p, locale)[key]) else Get(TextsAt(p, BaseLocale(p)), key)
  {
    hide Blank, Overlaid;
    OverlaidGet(TextsAt(p, BaseLocale(p)), if locale == BaseLocale(p) then map[] else Translated(p, locale), key);
  }

  /** Merging all of them in place is a lookup by priority. */
  lemma MergingIsLookup(base: PackText, theme: PackText, plugins: seq<PackText>, locale: string, key: string)
    ensures Get(WithPlugins(ThemeEntries(base, theme, locale, locale), InLocale(plugins, locale)), key)
         == Lookup(base, theme, plugins, locale, key)
  {
    hide Says, Overlaid, Localized, Translated, InLocale;
    var own := if theme.id == base.id then [] else [Translated(theme, locale), TextsAt(theme, BaseLocale(theme))];
    WithPluginsGet(ThemeEntries(base, theme, locale, locale), InLocale(plugins, locale), key);
    FirstSaidAppend(InLocale(plugins, locale) + own, [Translated(base, locale)], key);
    FirstSaidAppend(InLocale(plugins, locale), own, key);
    LocalizedGet(base, locale, key);
    LocalizedGet(theme, locale, key);
    OverlaidGet(Localized(base, locale), Localized(theme, locale), key);
    SaysGet(Localized(theme, locale), key);
    SaysGet(TextsAt(theme, BaseLocale(theme)), key);
    SaysGet(Translated(theme, locale), key);
    OneSource(Translated(base, locale), key);
    if own != [] {
      assert own[1..] == [TextsAt(theme, BaseLocale(theme))];
      OneSource(TextsAt(theme, BaseLocale(theme)), key);
    }
  }

  lemma SaysGet(entries: Entries, key: string)
    ensures Says(entries, key) <==> Get(entries, key).Some? && !Blank(Get(entries, key).value)
  {
  }

  lemma OneSource(source: Entries, key: string)
    ensures FirstSaid([source], key) == if Says(source, key) then Some(source[key]) else None
  {
    assert [source][1..] == [];
  }

  // ---------------------------------------------------------------- the locales offered

  /** The keys a theme needs translated. */
  function Required(base: PackText, theme: PackText): Entries {
    ThemeEntries(base, theme, BaseLocale(base), BaseLocale(theme))
  }

  predicate Covers(plugin: PackText, code: string, required: Entries) {
    var locale := TrimSpace(code);
    && locale != ""
    && required != map[]
    && TextsAt(plugin, locale) != map[]
    && forall key :: key in required ==> Says(TextsAt(plugin, locale), key)
  }

  /** `pluginLocaleCoversMessages`: the loop over the keys, which come in any order. */
  method CoversMessages(plugin: PackText, code: string, required: Entries) returns (covers: bool)
    ensures covers == Covers(plugin, code, required)
  {
    hide TrimSpace;
    var locale := TrimSpace(code);
    if locale == "" || |required| == 0 {
      return false;
    }
    var messages := TextsAt(plugin, locale);
    if |messages| == 0 {
      return false;
    }
    assert required != map[] && messages != map[];
    var todo := required.Keys;
    while todo != {}
      invariant todo <= required.Keys
      invariant forall key :: key in required && key !in todo ==> Says(messages, key)
    {
      var key :| key in todo;
      if key !in messages || TrimSpace(messages[key]) == "" {
        return false;
      }
      todo := todo - {key};
    }
    return true;
  }

  predicate Offers(plugins: seq<PackText>, locale: string, required: Entries) {
    exists i :: 0 <= i < |plugins| && OfferedBy(plugins[i], locale, required)
  }

  predicate OfferedBy(plugin: PackText, locale: string, required: Entries) {
    exists k :: 0 <= k < |plugin.locales| && TrimSpace(plugin.locales[k]) == locale && Covers(plugin, plugin.locales[k], required)
  }

  predicate Owns(codes: seq<string>, locale: string) {
    exists k :: 0 <= k < |codes| && TrimSpace(codes[k]) == locale
  }

  ghost predicate Distinct(codes: seq<string>) {
    forall i, j :: 0 <= i < j < |codes| ==> codes[i] != codes[j]
  }

  method AppendLocale(merged: seq<string>, code: string) returns (r: seq<string>)
    requires Distinct(merged)
    ensures Distinct(r) && merged <= r
    ensures forall l :: l in r <==> l in merged || (l == TrimSpace(code) && l != "")
  {
    var locale := TrimSpace(code);
    if locale == "" || locale in merged {
      return merged;
    }
    return merged + [locale];
  }

  /** `mergeActiveLocaleCodes`: the theme's own locales, then those some active plugin covers completely. */
  method MergeActiveLocaleCodes(own: seq<string>, plugins: seq<PackText>, required: Entries) returns (merged: seq<string>)
    ensures Distinct(merged)
    ensures forall l :: l in merged <==> l != "" && (Owns(own, l) || Offers(plugins, l, required))
  {
    hide Covers;
    merged := [];
    for k := 0 to |own|
      invariant Distinct(merged)
      invariant forall l :: l in merged <==> l != "" && Owns(own[..k], l)
    {
      merged := AppendLocale(merged, own[k]);
      forall l { OwnsMore(own, k, l); }
    }
    assert own[..|own|] == own;
    for i := 0 to |plugins|
      invariant Distinct(merged)
      invariant forall l :: l in merged <==> l != "" && (Owns(own, l) || Offers(plugins[..i], l, required))
    {
      ghost var before := merged;
      for k := 0 to |plugins[i].locales|
        invariant Distinct(merged)
        invariant forall l :: l in merged <==>
          (l in before || (l != "" && OfferedBy(plugins[i].(locales := plugins[i].locales[..k]), l, required)))
      {
        forall l { OfferedMore(plugins[i], k, l, required); }
        var covers := CoversMessages(plugins[i], plugins[i].locales[k], required);
        if !covers {
          continue;
        }
        merged := AppendLocale(merged, plugins[i].locales[k]);
      }
      assert plugins[i].(locales := plugins[i].locales[..|plugins[i].locales|]) == plugins[i] by {
        assert plugins[i].locales[..|plugins[i].locales|] == plugins[i].locales;
      }
      forall l { OffersMore(plugins, i, l, required); }
    }
    assert plugins[..|plugins|] == plugins;
  }

  lemma OwnsMore(own: seq<string>, k: nat, l: string)
    requires k < |own|
    ensures Owns(own[..k + 1], l) <==> Owns(own[..k], l) || TrimSpace(own[k]) == l
  {
    if Owns(own[..k], l) {
      var j :| 0 <= j < k && TrimSpace(own[..k][j]) == l;
      assert own[..k + 1][j] == own[..k][j];
    }
    if TrimSpace(own[k]) == l { assert own[..k + 1][k] == own[k]; }
  }

  lemma CoversText(plugin: PackText, locales: seq<string>, code: string, required: Entries)
    ensures Covers(plugin.(locales := locales), code, required) == Covers(plugin, code, required)
  {
    var other := plugin.(locales := locales);
    assert TextsAt(other, TrimSpace(code)) == TextsAt(plugin, TrimSpace(code));
  }

  lemma OfferedMore(plugin: PackText, k: nat, l: string, required: Entries)
    requires k < |plugin.locales|
    ensures OfferedBy(plugin.(locales := plugin.locales[..k + 1]), l, required)
       <==> OfferedBy(plugin.(locales := plugin.locales[..k]), l, required)
            || (TrimSpace(plugin.locales[k]) == l && Covers(plugin, plugin.locales[k], required))
  {
    hide Covers, TrimSpace;
    var longer, shorter := plugin.(locales := plugin.locales[..k + 1]), plugin.(locales := plugin.locales[..k]);
    forall code ensures Covers(longer, code, required) == Covers(plugin, code, required) == Covers(shorter, code, required) {
      CoversText(plugin, plugin.locales[..k + 1], code, required);
      CoversText(plugin, plugin.locales[..k], code, required);
    }
    if OfferedBy(shorter, l, required) {
      var j :| 0 <= j < k && TrimSpace(shorter.locales[j]) == l && Covers(shorter, shorter.locales[j], required);
      assert longer.locales[j] == shorter.locales[j] && Covers(longer, longer.locales[j], required);
    }
    if OfferedBy(longer, l, required) {
      var j :| 0 <= j < k + 1 && TrimSpace(longer.locales[j]) == l && Covers(longer, longer.locales[j], required);
      if j < k { assert shorter.locales[j] == longer.locales[j] && Covers(shorter, shorter.locales[j], required); }
    }
    if TrimSpace(plugin.locales[k]) == l && Covers(plugin, plugin.locales[k], required) {
      assert longer.locales[k] == plugin.locales[k] && Covers(longer, longer.locales[k], required);
    }
  }

  lemma OffersMore(plugins: seq<PackText>, i: nat, l: string, required: Entries)
    requires i < |plugins|
    ensures Offers(plugins[..i + 1], l, required) <==> Offers(plugins[..i], l, required) || OfferedBy(plugins[i], l, required)
  {
    hide OfferedBy;
    if Offers(plugins[..i], l, required) {
      var j :| 0 <= j < i && OfferedBy(plugins[..i][j], l, required);
      assert plugins[..i + 1][j] == plugins[..i][j];
    }
    if OfferedBy(plugins[i], l, required) { assert plugins[..i + 1][i] == plugins[i]; }
  }

  /** `normalizeThemeLocale`. */
  method NormalizeThemeLocale(requested: string, supported: seq<string>, fallback: string) returns (locale: string)
    ensures TrimSpace(requested) != "" && TrimSpace(requested) in supported ==> locale == TrimSpace(requested)
    ensures TrimSpace(requested) == "" || TrimSpace(requested) !in supported ==> locale == fallback
  {
    var asked := TrimSpace(requested);
    if asked == "" {
      return fallback;
    }
    for k := 0 to |supported|
      invariant asked !in supported[..k]
    {
      if supported[k] == asked {
        return asked;
      }
    }
    assert supported[..|supported|] == supported;
    return fallback;
  }

  /** A locale that an active plugin offers is complete: every key the theme needs has a nonblank message, and it
      comes from an active plugin in that very locale. */
  lemma OfferedLocaleIsComplete(base: PackText, theme: PackText, plugins: seq<PackText>, locale: string, key: string)
    requires Offers(plugins, locale, Required(base, theme)) && key in Required(base, theme)
    ensures Lookup(base, theme, plugins, locale, key).Some?
    ensures PluginSays(plugins, locale, key, Lookup(base, theme, plugins, locale, key).value)
  {
    hide Says, Required, BaseLocale;
    var p :| 0 <= p < |plugins| && OfferedBy(plugins[p], locale, Required(base, theme));
    var k :| 0 <= k < |plugins[p].locales| && TrimSpace(plugins[p].locales[k]) == locale
      && Covers(plugins[p], plugins[p].locales[k], Required(base, theme));
    var i := FirstSpeaker(plugins, locale, key, p);
    PluginWins(base, theme, plugins, locale, key);
  }

  /** A plugin says this for the key, in exactly this locale. */
  predicate PluginSays(plugins: seq<PackText>, locale: string, key: string, text: string) {
    exists i :: 0 <= i < |plugins| && Says(TextsAt(plugins[i], locale), key) && TextsAt(plugins[i], locale)[key] == text
  }

  lemma {:induction false} FirstSpeakerIn(sources: seq<Entries>, key: string, p: nat) returns (i: nat)
    requires p < |sources| && Says(sources[p], key)
    ensures i < |sources| && Says(sources[i], key) && FirstSaid(sources, key) == Some(sources[i][key])
  {
    hide Says;
    if Says(sources[0], key) {
      i := 0;
    } else {
      i := FirstSpeakerIn(sources[1..], key, p - 1);
      i := i + 1;
    }
  }

  lemma FirstSpeaker(plugins: seq<PackText>, locale: string, key: string, p: nat) returns (i: nat)
    requires p < |plugins| && Says(TextsAt(plugins[p], locale), key)
    ensures i < |plugins| && Says(TextsAt(plugins[i], locale), key)
    ensures FirstSaid(InLocale(plugins, locale), key) == Some(TextsAt(plugins[i], locale)[key])
  {
    hide Says;
    i := FirstSpeakerIn(InLocale(plugins, locale), key, p);
  }

  lemma PluginWins(base: PackText, theme: PackText, plugins: seq<PackText>, locale: string, key: string)
    requires FirstSaid(InLocale(plugins, locale), key).Some?
    ensures Lookup(base, theme, plugins, locale, key) == FirstSaid(InLocale(plugins, locale), key)
  {
    hide Says, Translated, InLocale;
    var own := if theme.id == base.id then [] else [Translated(theme, locale), TextsAt(theme, BaseLocale(theme))];
    FirstSaidAppend(InLocale(plugins, locale) + own, [Translated(base, locale)], key);
    FirstSaidAppend(InLocale(plugins, locale), own, key);
  }
}
