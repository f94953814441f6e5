/** Loading the catalog: the order of the plugins, what the translation loader guarantees, and the final messages. */
module AppearanceCatalog {
  import opened Text
  import opened Appearance

  // ---------------------------------------------------------------- loading translations

  /** A file of a pack's translation directory: its name without ".json". */
  datatype File = File(stem: string, entries: Entries)

  /** What every loaded pack has: a default locale that is among its locales, which are its translations. */
  ghost predicate Loaded(pack: Pack) {
    && (forall l :: l in pack.locales <==> l in pack.translations)
    && (forall l :: l in pack.translations ==> Trimmed(l) && l != "")
    && pack.defaultLocale in pack.locales
  }

  method SortedLocales(keys: set<string>) returns (locales: seq<string>)
    ensures forall l :: l in locales <==> l in keys
  {
    locales := [];
    var todo := keys;
    while todo != {}
      invariant todo <= keys && forall l :: l in locales <==> l in keys && l !in todo
    {
      var l :| l in todo;
      todo := todo - {l};
      locales := locales + [l];
    }
  }

  ghost predicate NamedBy(files: seq<File>, locale: string) {
    exists k :: 0 <= k < |files| && TrimSpace(files[k].stem) == locale
  }

  /** File number `k` names a locale, and no later file names the same one. */
  ghost predicate LastNamed(files: seq<File>, k: nat)
    requires k < |files|
  {
    TrimSpace(files[k].stem) != "" && forall j :: k < j < |files| ==> TrimSpace(files[j].stem) != TrimSpace(files[k].stem)
  }

  /** The files' entries by locale. */
  function Named(files: seq<File>): map<string, Entries> {
    if files == [] then map[]
    else
      var before, file := Named(files[..|files| - 1]), files[|files| - 1];
      if TrimSpace(file.stem) == "" then before else before[TrimSpace(file.stem) := file.entries]
  }

  lemma {:induction false} NamedKeys(files: seq<File>)
    ensures forall l :: l in Named(files) <==> l != "" && NamedBy(files, l)
    ensures forall l :: l in Named(files) ==> Trimmed(l)
  {
    hide TrimSpace, Trimmed;
    if files != [] {
      var i := |files| - 1;
      NamedKeys(files[..i]);
      NamedMore(files, i);
      TrimIsTrimmed(files[i].stem);
      assert files[..i + 1] == files;
    } else {
      assert forall l :: !NamedBy(files, l);
    }
  }

  /** A locale has the entries of the last file that names it. */
  lemma {:induction false} LastFileWins(files: seq<File>, k: nat)
    requires k < |files| && LastNamed(files, k)
    ensures TrimSpace(files[k].stem) in Named(files) && Named(files)[TrimSpace(files[k].stem)] == files[k].entries
  {
    hide TrimSpace;
    var i := |files| - 1;
    if k < i {
      assert forall j :: k < j < i ==> files[..i][j] == files[j];
      LastFileWins(files[..i], k);
    }
  }

  /** The loop of `loadPackTranslations` over the files. */
  method ReadTranslations(files: seq<File>) returns (translations: map<string, Messages>)
    ensures translations.Keys == Named(files).Keys
    ensures forall l :: l in translations ==> fresh(translations[l]) && translations[l].entries == Named(files)[l]
  {
    hide TrimSpace;
    translations := map[];
    for i := 0 to |files|
      invariant translations.Keys == Named(files[..i]).Keys
      invariant forall l :: l in translations ==> fresh(translations[l]) && translations[l].entries == Named(files[..i])[l]
    {
      assert files[..i + 1][..i] == files[..i];
      var locale := TrimSpace(files[i].stem);
      if locale == "" {
        continue;
      }
      var messages := new Messages();
      messages.entries := files[i].entries;
      translations := translations[locale := messages];
    }
    assert files[..|files|] == files;
  }

  lemma TrimIsTrimmed(s: string)
    ensures Trimmed(TrimSpace(s)) && TrimSpace(TrimSpace(s)) == TrimSpace(s)
  {
  }

  lemma NamedMore(files: seq<File>, i: nat)
    requires i < |files|
    ensures forall l :: NamedBy(files[..i + 1], l) <==> NamedBy(files[..i], l) || TrimSpace(files[i].stem) == l
  {
    hide TrimSpace;
    forall l ensures NamedBy(files[..i + 1], l) <==> NamedBy(files[..i], l) || TrimSpace(files[i].stem) == l {
      if NamedBy(files[..i], l) {
        var k :| 0 <= k < i && TrimSpace(files[..i][k].stem) == l;
        assert files[..i + 1][k] == files[..i][k];
      }
      if TrimSpace(files[i].stem) == l { assert files[..i + 1][i] == files[i]; }
    }
  }

  lemma LastFilesWin(files: seq<File>)
    ensures forall k :: 0 <= k < |files| && LastNamed(files, k) ==>
              TrimSpace(files[k].stem) in Named(files) && Named(files)[TrimSpace(files[k].stem)] == files[k].entries
  {
    forall k | 0 <= k < |files| && LastNamed(files, k)
      ensures TrimSpace(files[k].stem) in Named(files) && Named(files)[TrimSpace(files[k].stem)] == files[k].entries
    {
      LastFileWins(files, k);
    }
  }

  /** The message file of a pack without a translation directory, under the pack's own locale. */
  method OnlyFile(defaultLocale: string, lang: string, entries: Entries) returns (translations: map<string, Messages>)
    ensures var own := if TrimSpace(defaultLocale) != "" then TrimSpace(defaultLocale)
                       else if TrimSpace(lang) != "" then TrimSpace(lang) else "en";
            translations.Keys == {own} && fresh(translations[own]) && translations[own].entries == entries
  {
    hide TrimSpace;
    var locale := TrimSpace(defaultLocale);
    if locale == "" {
      locale := TrimSpace(lang);
    }
    if locale == "" {
      locale := "en";
    }
    var messages := new Messages();
    messages.entries := entries;
    translations := map[locale := messages];
  }

  /** `loadPackTranslations`. `single` is the message file of packs that have no translation directory. */
  method LoadPack(id: string, defaultLocale: string, lang: string, files: seq<File>, single: Option<Entries>) returns (pack: Pack)
    ensures Loaded(pack) && pack.id == id && pack.lang == lang
    ensures fresh(pack.translations.Values)
    ensures forall l :: l != "" && NamedBy(files, l) ==> l in pack.locales
    ensures forall l :: l in pack.locales ==> l == pack.defaultLocale || NamedBy(files, l)
    ensures forall k :: 0 <= k < |files| && LastNamed(files, k) ==>
              TrimSpace(files[k].stem) in pack.translations && pack.translations[TrimSpace(files[k].stem)].entries == files[k].entries
    ensures single.Some? && (forall l :: NamedBy(files, l) ==> l == "") ==> pack.translations[pack.defaultLocale].entries == single.value
    ensures TrimSpace(defaultLocale) != "" ==> pack.defaultLocale == TrimSpace(defaultLocale)
    ensures TrimSpace(defaultLocale) == "" && TrimSpace(lang) != "" ==> pack.defaultLocale == TrimSpace(lang)
  {
    hide TrimSpace, NamedBy, Named, LastNamed, Trimmed;
    TrimIsTrimmed(defaultLocale);
    TrimIsTrimmed(lang);
    var translations := ReadTranslations(files);
    NamedKeys(files);
    LastFilesWin(files);
    if translations == map[] && single.Some? {
      translations := OnlyFile(defaultLocale, lang, single.value);
    }
    var locales := SortedLocales(translations.Keys);
    var default_ := TrimSpace(defaultLocale);
    if default_ == "" {
      default_ := TrimSpace(lang);
    }
    if default_ == "" {
      if |locales| > 0 {
        default_ := locales[0];
        assert default_ in locales;
      } else {
        default_ := "en";
        var empty := new Messages();
        translations := translations[default_ := empty];
        locales := [default_];
      }
    }
    if default_ !in translations {
      var empty := new Messages();
      translations := translations[default_ := empty];
      locales := SortedLocales(translations.Keys);
    }
    EnIsTrimmed();
    pack := Pack(id, default_, lang, locales, translations);
  }

  lemma EnIsTrimmed()
    ensures TrimSpace("en") == "en"
  {
  }

  lemma LoadedOwnsDefault(pack: Pack)
    requires Loaded(pack)
    ensures Owns(pack.locales, BaseLocale(View(pack)))
    ensures forall l :: l in pack.locales <==> Owns(pack.locales, l)
  {
    forall l | l in pack.locales ensures Owns(pack.locales, l) && TrimSpace(l) == l {
      var k :| 0 <= k < |pack.locales| && pack.locales[k] == l;
    }
  }

  // ---------------------------------------------------------------- the order of the plugins

  /** The requested IDs, trimmed, without blanks, unknown ones and repetitions. */
  function Resolved(requested: seq<string>, known: set<string>): (order: seq<string>)
  {
    if requested == [] then []
    else
      var before, id := Resolved(requested[..|requested| - 1], known), TrimSpace(requested[|requested| - 1]);
      if id == "" || id in before || id !in known then before else before + [id]
  }

  /** The order lists exactly the known plugins that are requested, each once, by first mention. */
  lemma {:induction false} ResolvedOrder(requested: seq<string>, known: set<string>)
    ensures var order := Resolved(requested, known);
            && Distinct(order)
            && (forall id :: id in order <==> id != "" && id in known && Owns(requested, id))
  {
    if requested != [] {
      var last := |requested| - 1;
      ResolvedOrder(requested[..last], known);
      assert requested[..last + 1] == requested;
      forall id { OwnsMore(requested, last, id); }
    } else {
      assert forall id :: !Owns([], id);
    }
  }

  ghost predicate ByID(all: seq<Pack>, packMap: map<string, Pack>) {
    && (forall i :: 0 <= i < |all| ==> all[i].id in packMap && packMap[all[i].id] == all[i])
    && (forall id :: id in packMap ==> packMap[id] in all && packMap[id].id == id)
  }

  method ResolvePluginOrder(all: seq<Pack>, packMap: map<string, Pack>, requested: seq<string>)
    returns (active: seq<Pack>, inactive: seq<Pack>, order: seq<string>)
    requires ByID(all, packMap)
    ensures order == Resolved(requested, packMap.Keys)
    ensures |active| == |order| && forall i :: 0 <= i < |active| ==> active[i] in all && active[i].id == order[i]
    ensures forall p :: p in all ==> (p in inactive <==> p.id !in order)
    ensures forall p :: p in inactive ==> p in all
  {
    active, inactive, order := [], [], [];
    for i := 0 to |requested|
      invariant order == Resolved(requested[..i], packMap.Keys)
      invariant |active| == |order| && forall k :: 0 <= k < |active| ==> active[k] in all && active[k].id == order[k]
    {
      assert requested[..i + 1][..i] == requested[..i];
      var id := TrimSpace(requested[i]);
      if id == "" || id in order {
        continue;
      }
      if id !in packMap {
        continue;
      }
      active := active + [packMap[id]];
      order := order + [id];
    }
    assert requested[..|requested|] == requested;
    for i := 0 to |all|
      invariant forall k :: 0 <= k < i ==> (all[k] in inactive <==> all[k].id !in order)
      invariant forall p :: p in inactive ==> p in all && p.id !in order
    {
      if all[i].id in order {
        continue;
      }
      inactive := inactive + [all[i]];
    }
  }

  // ---------------------------------------------------------------- the catalog

  lemma WithPluginsStep(start: Entries, sources: seq<Entries>, i: nat)
    requires i < |sources|
    ensures WithPlugins(start, sources[i..]) == Overlaid(WithPlugins(start, sources[i + 1..]), sources[i])
  {
    assert sources[i..][1..] == sources[i + 1..];
  }

  /** The theme's messages merged over those of the default theme, in a new map. */
  method ThemeMessages(base: Pack, theme: Pack, locale: string, themeLocale: string) returns (messages: Messages)
    requires theme.id == base.id ==> theme == base
    ensures fresh(messages) && messages.entries == ThemeEntries(View(base), View(theme), locale, themeLocale)
  {
    hide Overlaid, Localized;
    messages := LocalizedPackMessages(base, locale);
    if theme.id != base.id {
      var own := LocalizedPackMessages(theme, themeLocale);
      MergeMessages(messages, own);
    }
  }

  /** `requiredThemeMessages`. */
  method RequiredThemeMessages(base: Pack, theme: Pack) returns (messages: Messages)
    requires theme.id == base.id ==> theme == base
    ensures fresh(messages) && messages.entries == Required(View(base), View(theme))
  {
    hide ThemeEntries;
    TranslationText(base, "");
    TranslationText(theme, "");
    messages := ThemeMessages(base, theme, EffectiveDefaultLocale(base), EffectiveDefaultLocale(theme));
  }

  /** The loop of `LoadCatalog` over the active plugins, the last one first. */
  method MergePlugins(messages: Messages, plugins: seq<Pack>, locale: string, ghost texts: seq<PackText>)
    requires messages !in Objects(plugins) && texts == Views(plugins)
    modifies messages
    ensures messages.entries == WithPlugins(old(messages.entries), InLocale(texts, locale))
  {
    hide Overlaid;
    ghost var start, sources := messages.entries, InLocale(texts, locale);
    var index := |plugins|;
    assert sources[index..] == [];
    while index > 0
      invariant 0 <= index <= |plugins|
      invariant texts == Views(plugins)
      invariant messages.entries == WithPlugins(start, sources[index..])
    {
      index := index - 1;
      PartOf(plugins, index);
      assert texts[index] == View(plugins[index]);
      TranslationText(plugins[index], locale);
      WithPluginsStep(start, sources, index);
      MergeMessages(messages, Translation(plugins[index], locale));
    }
    assert sources[0..] == sources;
  }

  /** The final messages. Nothing that existed before is changed. */
  method MergedMessages(base: Pack, theme: Pack, plugins: seq<Pack>, locale: string, ghost texts: seq<PackText>) returns (messages: Messages)
    requires theme.id == base.id ==> theme == base
    requires texts == Views(plugins)
    ensures fresh(messages)
    ensures messages.entries == WithPlugins(ThemeEntries(View(base), View(theme), locale, locale), InLocale(texts, locale))
  {
    hide ThemeEntries, WithPlugins;
    messages := ThemeMessages(base, theme, locale, locale);
    MergePlugins(messages, plugins, locale, texts);
  }

  /** The locales offered for the theme, and the one that is used. */
  method ChooseLocale(base: Pack, theme: Pack, plugins: seq<Pack>, requested: string, ghost texts: seq<PackText>)
    returns (locale: string, locales: seq<string>)
    requires theme.id == base.id ==> theme == base
    requires Loaded(theme) && texts == Views(plugins)
    ensures forall l :: l in locales <==> l != "" && (Owns(theme.locales, l) || Offers(texts, l, Required(View(base), View(theme))))
    ensures TrimSpace(requested) in locales ==> locale == TrimSpace(requested)
    ensures TrimSpace(requested) !in locales ==> locale == BaseLocale(View(theme))
  {
    hide Required, Offers, Loaded;
    TranslationText(theme, "");
    ghost var b, t := View(base), View(theme);
    var required := RequiredThemeMessages(base, theme);
    assert View(base) == b && View(theme) == t && Views(plugins) == texts;
    locales := MergeActiveLocaleCodes(theme.locales, Views(plugins), required.entries);
    locale := NormalizeThemeLocale(requested, locales, EffectiveDefaultLocale(theme));
    assert View(base) == b && View(theme) == t;
  }

  /** The locale asked for is one of the theme's, or some active plugin covers it completely. */
  ghost predicate Asked(theme: Pack, texts: seq<PackText>, requested: string, required: Entries) {
    var locale := TrimSpace(requested);
    locale != "" && (locale in theme.locales || Offers(texts, locale, required))
  }

  /** The tail of `LoadCatalog`: locale and messages for the active theme and plugins. */
  method Catalog(base: Pack, theme: Pack, plugins: seq<Pack>, requested: string, ghost texts: seq<PackText>)
    returns (locale: string, locales: seq<string>, messages: Messages)
    requires theme.id == base.id ==> theme == base
    requires Loaded(theme) && texts == Views(plugins)
    ensures fresh(messages)
    ensures forall l :: l in locales <==> l != "" && (l in theme.locales || Offers(texts, l, Required(View(base), View(theme))))
    ensures locale in locales
    ensures Asked(theme, texts, requested, Required(View(base), View(theme))) ==> locale == TrimSpace(requested)
    ensures !Asked(theme, texts, requested, Required(View(base), View(theme))) ==> locale == theme.defaultLocale
    ensures forall key :: Get(messages.entries, key) == Lookup(View(base), View(theme), texts, locale, key)
    ensures locale !in theme.locales ==>
      forall key :: key in Required(View(base), View(theme)) ==>
        key in messages.entries && PluginSays(texts, locale, key, messages.entries[key])
  {
    hide Required, Offers, PluginSays, Lookup, WithPlugins, ThemeEntries, BaseLocale, InLocale;
    ghost var b, t := View(base), View(theme);
    LoadedOwnsDefault(theme);
    DefaultLocaleUsed(theme);
    locale, locales := ChooseLocale(base, theme, plugins, requested, texts);
    messages := MergedMessages(base, theme, plugins, locale, texts);
    forall key ensures Get(messages.entries, key) == Lookup(b, t, texts, locale, key) {
      MergingIsLookup(b, t, texts, locale, key);
    }
    if locale !in theme.locales {
      forall key | key in Required(b, t)
        ensures key in messages.entries && PluginSays(texts, locale, key, messages.entries[key])
      {
        assert Offers(texts, locale, Required(b, t));
        OfferedLocaleIsComplete(b, t, texts, locale, key);
        assert Get(messages.entries, key) == Lookup(b, t, texts, locale, key);
      }
    }
  }

  lemma DefaultLocaleUsed(theme: Pack)
    requires Loaded(theme)
    ensures BaseLocale(View(theme)) == theme.defaultLocale != ""
  {
  }
}
