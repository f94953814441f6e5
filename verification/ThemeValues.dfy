/** The custom settings of themes, and the migration of two of them out of the keys of the menu locations. */
module ThemeValues {
  import opened Text
  import opened MenuText

  datatype Float = Finite(r: real) | NaN | Infinite(negative: bool)

  /** A stored value: the kind says which of the other fields is meant. */
  datatype Value = Value(kind: string, text: string, integer: int, float: Float)

  type Values = map<string, Value>
  type Custom = map<string, Values>

  function TextValue(text: string): Value { Value("string", text, 0, Finite(0.0)) }

  function NormalizeValue(value: Value): Option<Value> {
    if value.kind == "string" then Some(TextValue(value.text))
    else if value.kind == "integer" then Some(Value("integer", "", value.integer, Finite(0.0)))
    else if value.kind == "float" && value.float.Finite? then Some(Value("float", "", 0, value.float))
    else None
  }

  lemma NormalizedValueKept(value: Value)
    ensures var n := NormalizeValue(value); n.Some? ==> NormalizeValue(n.value) == n
  {
  }

  /** What a stored value says. */
  datatype Setting = Phrase(text: string) | Whole(integer: int) | Fraction(float: real)

  function Meaning(value: Value): Option<Setting> {
    match value.kind
    case "string" => Some(Phrase(value.text))
    case "integer" => Some(Whole(value.integer))
    case "float" => (match value.float case Finite(r) => Some(Fraction(r)) case _ => None)
    case _ => None
  }

  /** A value is kept if it says something; it says the same afterwards, and nothing is left of the other fields. */
  lemma KeptValueMeansTheSame(value: Value)
    ensures NormalizeValue(value).None? <==> Meaning(value).None?
    ensures NormalizeValue(value).Some? ==> Meaning(NormalizeValue(value).value) == Meaning(value)
    ensures forall other :: Meaning(other) == Meaning(value) ==> NormalizeValue(other) == NormalizeValue(value)
  {
  }

  // ---------------------------------------------------------------- one theme

  ghost predicate ValueFrom(values: Values, raw: string, key: string, value: Value) {
    raw in values && NormalizeKey(raw) == key && key != "" && NormalizeValue(values[raw]) == Some(value)
  }

  ghost predicate ValueUsed(values: Values, raw: string) {
    raw in values && NormalizeKey(raw) != "" && NormalizeValue(values[raw]).Some?
  }

  /** Every usable value is kept under its cleaned key; of values that share a key any one may win. */
  ghost predicate ValuesCleaned(values: Values, visited: set<string>, out: Values) {
    && (forall key :: key in out ==> exists raw :: raw in visited && ValueFrom(values, raw, key, out[key]))
    && (forall raw :: raw in visited && ValueUsed(values, raw) ==> NormalizeKey(raw) in out)
  }

  method NormalizeValues(values: Values) returns (out: Values)
    ensures ValuesCleaned(values, values.Keys, out)
  {
    hide NormalizeKey, NormalizeValue;
    out := map[];
    var todo, visited := values.Keys, {};
    while todo != {}
      invariant todo + visited == values.Keys
      invariant ValuesCleaned(values, visited, out)
    {
      var raw :| raw in todo;
      ghost var before, seen := out, visited;
      todo, visited := todo - {raw}, visited + {raw};
      var key := NormalizeKey(raw);
      if key != "" {
        var value := NormalizeValue(values[raw]);
        if value.Some? {
          assert ValueFrom(values, raw, key, value.value);
          out := out[key := value.value];
        }
      }
      forall k | k in out ensures exists r :: r in visited && ValueFrom(values, r, k, out[k]) {
        if k in before && before[k] == out[k] {
          var r :| r in seen && ValueFrom(values, r, k, before[k]);
          assert r in visited;
        }
      }
    }
  }

  ghost predicate NormalValues(values: Values) {
    && values != map[]
    && forall key :: key in values ==> NormalKey(key) && key != "" && NormalizeValue(values[key]) == Some(values[key])
  }

  lemma ValuesCleanedNormal(values: Values, out: Values)
    requires ValuesCleaned(values, values.Keys, out) && out != map[]
    ensures NormalValues(out)
  {
    hide NormalKey, NormalizeKey, NormalizeValue;
    forall key | key in out ensures NormalKey(key) && key != "" && NormalizeValue(out[key]) == Some(out[key]) {
      var raw :| raw in values.Keys && ValueFrom(values, raw, key, out[key]);
      NormalizeKeyNormal(raw);
      NormalizedValueKept(values[raw]);
    }
  }

  lemma NormalValuesKept(values: Values, out: Values)
    requires NormalValues(values) && ValuesCleaned(values, values.Keys, out)
    ensures out == values
  {
    hide NormalKey, NormalizeKey, NormalizeValue;
    forall key | key in values ensures NormalizeKey(key) == key {
      NormalKeyKept(key);
    }
    forall key | key in out ensures key in values && out[key] == values[key] {
      var raw :| raw in values.Keys && ValueFrom(values, raw, key, out[key]);
    }
    forall key | key in values ensures key in out {
      assert ValueUsed(values, key);
    }
  }

  // ---------------------------------------------------------------- all themes

  ghost predicate ThemeFrom(custom: Custom, raw: string, theme: string, out: Values) {
    && raw in custom
    && NormalizeID(raw) == theme
    && theme != ""
    && out != map[]
    && ValuesCleaned(custom[raw], custom[raw].Keys, out)
  }

  ghost predicate ThemeUsed(custom: Custom, raw: string) {
    raw in custom && NormalizeID(raw) != "" && exists key :: ValueUsed(custom[raw], key)
  }

  ghost predicate CustomCleaned(custom: Custom, visited: set<string>, out: Custom) {
    && (forall theme :: theme in out ==> exists raw :: raw in visited && ThemeFrom(custom, raw, theme, out[theme]))
    && (forall raw :: raw in visited && ThemeUsed(custom, raw) ==> NormalizeID(raw) in out)
  }

  method NormalizeCustomSettings(settings: Custom) returns (custom: Custom)
    ensures CustomCleaned(settings, settings.Keys, custom)
  {
    hide NormalizeID, ValueUsed, ValuesCleaned;
    custom := map[];
    var todo, visited := settings.Keys, {};
    while todo != {}
      invariant todo + visited == settings.Keys
      invariant CustomCleaned(settings, visited, custom)
    {
      var raw :| raw in todo;
      ghost var before, seen := custom, visited;
      todo, visited := todo - {raw}, visited + {raw};
      var theme := NormalizeID(raw);
      if theme != "" && settings[raw] != map[] {
        var values := NormalizeValues(settings[raw]);
        UsedShow(settings[raw], values);
        if values != map[] {
          custom := custom[theme := values];
          assert ThemeFrom(settings, raw, theme, values);
        }
      } else {
        NothingUsed(settings[raw]);
      }
      forall t | t in custom ensures exists r :: r in visited && ThemeFrom(settings, r, t, custom[t]) {
        if t in before && before[t] == custom[t] {
          var r :| r in seen && ThemeFrom(settings, r, t, before[t]);
          assert r in visited;
        }
      }
    }
  }

  lemma UsedShow(values: Values, out: Values)
    requires ValuesCleaned(values, values.Keys, out)
    ensures out == map[] ==> forall key :: !ValueUsed(values, key)
  {
  }

  lemma NothingUsed(values: Values)
    ensures values == map[] ==> forall key :: !ValueUsed(values, key)
  {
  }

  ghost predicate NormalCustom(custom: Custom) {
    forall theme :: theme in custom ==> NormalID(theme) && theme != "" && NormalValues(custom[theme])
  }

  lemma CustomCleanedNormal(custom: Custom, out: Custom)
    requires CustomCleaned(custom, custom.Keys, out)
    ensures NormalCustom(out)
  {
    hide NormalID, NormalizeID, ValuesCleaned, NormalValues;
    forall theme | theme in out ensures NormalID(theme) && theme != "" && NormalValues(out[theme]) {
      var raw :| raw in custom.Keys && ThemeFrom(custom, raw, theme, out[theme]);
      NormalizeIDNormal(raw);
      ValuesCleanedNormal(custom[raw], out[theme]);
    }
  }

  lemma NormalValuesUsed(values: Values)
    requires NormalValues(values)
    ensures exists key :: ValueUsed(values, key)
  {
    hide NormalKey, NormalizeKey, NormalizeValue;
    assert values.Keys != {};
    var key :| key in values;
    NormalKeyKept(key);
    assert ValueUsed(values, key);
  }

  lemma NormalCustomKept(custom: Custom, out: Custom)
    requires NormalCustom(custom) && CustomCleaned(custom, custom.Keys, out)
    ensures out == custom
  {
    hide NormalID, NormalizeID, ValuesCleaned, NormalValues, ValueUsed;
    forall theme | theme in custom ensures NormalizeID(theme) == theme && theme in out {
      NormalIDKept(theme);
      NormalValuesUsed(custom[theme]);
      assert ThemeUsed(custom, theme);
    }
    forall theme | theme in out ensures theme in custom && out[theme] == custom[theme] {
      var raw :| raw in custom.Keys && ThemeFrom(custom, raw, theme, out[theme]);
      NormalValuesKept(custom[raw], out[theme]);
    }
  }

  // ---------------------------------------------------------------- the cover texts of Pure White

  const HERO_TITLE := "pure-white-hero-title-"
  const HERO_SUBTITLE := "pure-white-hero-subtitle-"
  const PURE_WHITE := "pure-white"

  /** Locations whose key used to carry an encoded text. `location` is cleaned. */
  predicate HeroLocation(location: string) { HERO_TITLE <= location || HERO_SUBTITLE <= location }

  function HeroKey(location: string): string {
    if HERO_TITLE <= location then "hero_title" else "hero_subtitle"
  }

  /** Hexadecimal text to UTF-8; empty when it is malformed. */
  type Decoder = string -> string

  function HeroText(location: string, decode: Decoder): string
    requires HeroLocation(location)
  {
    decode(location[|if HERO_TITLE <= location then HERO_TITLE else HERO_SUBTITLE|..])
  }

  /** `setDefaultThemeStringSetting` for Pure White: what is set already stays. */
  function SetDefault(custom: Custom, key: string, text: string): Custom {
    var values := if PURE_WHITE in custom then custom[PURE_WHITE] else map[];
    custom[PURE_WHITE := if key in values then values else values[key := TextValue(text)]]
  }

  /** One round of the loop over the locations. */
  function MigrateHero(custom: Custom, raw: string, decode: Decoder): Custom {
    var location := NormalizeID(raw);
    if !HeroLocation(location) then custom
    else if HeroText(location, decode) == "" then custom
    else SetDefault(custom, HeroKey(location), HeroText(location, decode))
  }

  function MigrateHeroes(custom: Custom, order: seq<string>, decode: Decoder): Custom {
    if order == [] then custom
    else MigrateHero(MigrateHeroes(custom, order[..|order| - 1], decode), order[|order| - 1], decode)
  }

  /** An order in which the keys of a map may be visited. */
  ghost predicate Visits(order: seq<string>, keys: set<string>) {
    && (forall i :: 0 <= i < |order| ==> order[i] in keys)
    && (forall k :: k in keys ==> k in order)
    && (forall i, j :: 0 <= i < j < |order| ==> order[i] != order[j])
  }

  ghost predicate Migrated(locations: set<string>, custom: Custom, decode: Decoder, out: Custom) {
    exists order :: Visits(order, locations) && out == MigrateHeroes(custom, order, decode)
  }

  method MigrateLegacyHeroes(locations: set<string>, custom: Custom, decode: Decoder)
    returns (out: Custom)
    ensures Migrated(locations, custom, decode, out)
  {
    hide MigrateHero, MigrateHeroes, Visits;
    ghost var order: seq<string> := [];
    out := custom;
    var todo := locations;
    assert Visits([], locations - todo) && MigrateHeroes(custom, [], decode) == custom by { NothingVisited(custom, decode); assert locations - todo == {}; }
    while todo != {}
      invariant todo <= locations
      invariant Visits(order, locations - todo)
      invariant out == MigrateHeroes(custom, order, decode)
    {
      var raw :| raw in todo;
      VisitNext(order, locations - todo, raw);
      assert locations - (todo - {raw}) == locations - todo + {raw};
      todo := todo - {raw};
      MigrateNext(custom, order, raw, decode);
      out, order := MigrateHero(out, raw, decode), order + [raw];
    }
    assert locations - todo == locations;
  }

  lemma NothingVisited(custom: Custom, decode: Decoder)
    ensures Visits([], {}) && MigrateHeroes(custom, [], decode) == custom
  {
  }

  lemma VisitNext(order: seq<string>, visited: set<string>, raw: string)
    requires Visits(order, visited) && raw !in visited
    ensures Visits(order + [raw], visited + {raw})
  {
  }

  lemma MigrateNext(custom: Custom, order: seq<string>, raw: string, decode: Decoder)
    ensures MigrateHeroes(custom, order + [raw], decode) == MigrateHero(MigrateHeroes(custom, order, decode), raw, decode)
  {
    hide MigrateHero;
    assert (order + [raw])[..|order|] == order;
  }

  lemma {:induction false} MigratedNormal(custom: Custom, order: seq<string>, decode: Decoder)
    requires NormalCustom(custom)
    ensures NormalCustom(MigrateHeroes(custom, order, decode))
  {
    hide MigrateHero, NormalCustom;
    if order != [] {
      MigratedNormal(custom, order[..|order| - 1], decode);
      MigrateOneNormal(MigrateHeroes(custom, order[..|order| - 1], decode), order[|order| - 1], decode);
    }
  }

  lemma HeroNamesNormal()
    ensures NormalID(PURE_WHITE) && NormalKey("hero_title") && NormalKey("hero_subtitle")
  {
  }

  lemma MigrateOneNormal(custom: Custom, raw: string, decode: Decoder)
    requires NormalCustom(custom)
    ensures NormalCustom(MigrateHero(custom, raw, decode))
  {
    hide NormalID, NormalKey, NormalizeID, HeroLocation, HeroText;
    HeroNamesNormal();
  }

  /** A setting that is there already survives, whatever the locations say. */
  lemma {:induction false} ExplicitSettingsWin(custom: Custom, order: seq<string>, decode: Decoder, theme: string, key: string)
    requires theme in custom && key in custom[theme]
    ensures var out := MigrateHeroes(custom, order, decode);
            theme in out && key in out[theme] && out[theme][key] == custom[theme][key]
  {
    hide HeroLocation, HeroText, HeroKey, NormalizeID;
    if order != [] {
      ExplicitSettingsWin(custom, order[..|order| - 1], decode, theme, key);
    }
  }

  /** A decodable location is not lost: its text, or an earlier or explicit one, is in the settings. */
  lemma {:induction false} HeroArrives(custom: Custom, order: seq<string>, decode: Decoder, raw: string)
    requires raw in order && HeroLocation(NormalizeID(raw)) && HeroText(NormalizeID(raw), decode) != ""
    ensures var out := MigrateHeroes(custom, order, decode); PURE_WHITE in out && HeroKey(NormalizeID(raw)) in out[PURE_WHITE]
  {
    hide HeroLocation, HeroText, HeroKey, NormalizeID;
    var last := |order| - 1;
    if raw != order[last] {
      assert order == order[..last] + [order[last]];
      HeroArrives(custom, order[..last], decode, raw);
      var before := MigrateHeroes(custom, order[..last], decode);
      ExplicitSettingsWin(before, [order[last]], decode, PURE_WHITE, HeroKey(NormalizeID(raw)));
      assert [order[last]][..0] == [];
    }
  }

  /** This location carries the text of this setting, encoded. */
  ghost predicate Encodes(raw: string, key: string, hex: string) {
    || (key == "hero_title" && NormalizeID(raw) == "pure-white-hero-title-" + hex)
    || (key == "hero_subtitle" && NormalizeID(raw) == "pure-white-hero-subtitle-" + hex)
  }

  lemma TitleOrSubtitle(location: string)
    ensures !(HERO_TITLE <= location && HERO_SUBTITLE <= location)
  {
    assert HERO_TITLE[16] != HERO_SUBTITLE[16];
  }

  lemma EncodedIs(raw: string, key: string, hex: string, decode: Decoder)
    requires Encodes(raw, key, hex)
    ensures var location := NormalizeID(raw);
            HeroLocation(location) && HeroKey(location) == key && HeroText(location, decode) == decode(hex)
  {
    hide NormalizeID;
    var location := NormalizeID(raw);
    TitleOrSubtitle(location);
    if key == "hero_title" {
      assert location[|HERO_TITLE|..] == hex;
    } else {
      assert location[|HERO_SUBTITLE|..] == hex;
    }
  }

  lemma Encoded(raw: string) returns (hex: string)
    requires HeroLocation(NormalizeID(raw))
    ensures Encodes(raw, HeroKey(NormalizeID(raw)), hex)
  {
    hide NormalizeID;
    var location := NormalizeID(raw);
    hex := location[|if HERO_TITLE <= location then HERO_TITLE else HERO_SUBTITLE|..];
  }

  /** Where a value came from: it was set before, or a location carries it. */
  ghost predicate SetFrom(custom: Custom, order: seq<string>, decode: Decoder, key: string, value: Value) {
    || (PURE_WHITE in custom && key in custom[PURE_WHITE] && custom[PURE_WHITE][key] == value)
    || exists i, hex :: 0 <= i < |order| && Encodes(order[i], key, hex) && decode(hex) != "" && value == TextValue(decode(hex))
  }

  /** The migration sets the two texts of the cover from the locations that carry them, and nothing else. */
  lemma {:induction false} HeroesComeFromLocations(custom: Custom, order: seq<string>, decode: Decoder)
    ensures var out := MigrateHeroes(custom, order, decode);
            && (forall theme :: theme in out && theme != PURE_WHITE ==> theme in custom && out[theme] == custom[theme])
            && (PURE_WHITE in out ==>
                  forall key :: key in out[PURE_WHITE] ==> SetFrom(custom, order, decode, key, out[PURE_WHITE][key]))
  {
    hide HeroLocation, HeroText, HeroKey, NormalizeID, Encodes;
    if order != [] {
      var last := |order| - 1;
      HeroesComeFromLocations(custom, order[..last], decode);
      var before, out := MigrateHeroes(custom, order[..last], decode), MigrateHeroes(custom, order, decode);
      if PURE_WHITE in out {
        forall key | key in out[PURE_WHITE] ensures SetFrom(custom, order, decode, key, out[PURE_WHITE][key]) {
          if PURE_WHITE in before && key in before[PURE_WHITE] {
            SetEarlier(custom, order, decode, key, before[PURE_WHITE][key]);
          } else {
            NewlySet(before, order[last], decode, key);
            var hex := Encoded(order[last]);
            EncodedIs(order[last], key, hex, decode);
          }
        }
      }
    }
  }

  lemma NewlySet(before: Custom, raw: string, decode: Decoder, key: string)
    requires var out := MigrateHero(before, raw, decode);
             PURE_WHITE in out && key in out[PURE_WHITE] && !(PURE_WHITE in before && key in before[PURE_WHITE])
    ensures var location := NormalizeID(raw);
            && HeroLocation(location)
            && HeroKey(location) == key
            && HeroText(location, decode) != ""
            && MigrateHero(before, raw, decode)[PURE_WHITE][key] == TextValue(HeroText(location, decode))
  {
    hide HeroLocation, HeroText, HeroKey, NormalizeID;
  }

  lemma SetEarlier(custom: Custom, order: seq<string>, decode: Decoder, key: string, value: Value)
    requires order != [] && SetFrom(custom, order[..|order| - 1], decode, key, value)
    ensures SetFrom(custom, order, decode, key, value)
  {
    hide Encodes;
    var init := order[..|order| - 1];
    if i, hex :| 0 <= i < |init| && Encodes(init[i], key, hex) && decode(hex) != "" && value == TextValue(decode(hex)) {
      assert order[i] == init[i];
    }
  }

  /** A location that carries a text is not lost: its text, or an earlier or explicit one, is in the settings. */
  lemma EncodedArrives(custom: Custom, order: seq<string>, decode: Decoder, raw: string, key: string, hex: string)
    requires raw in order && Encodes(raw, key, hex) && decode(hex) != ""
    ensures var out := MigrateHeroes(custom, order, decode); PURE_WHITE in out && key in out[PURE_WHITE]
  {
    hide Encodes, HeroText, HeroKey, HeroLocation, MigrateHeroes;
    EncodedIs(raw, key, hex, decode);
    HeroArrives(custom, order, decode, raw);
  }

  /** Without such locations nothing moves. */
  lemma {:induction false} NoHeroNoChange(custom: Custom, order: seq<string>, decode: Decoder)
    requires forall i :: 0 <= i < |order| ==> !HeroLocation(NormalizeID(order[i]))
    ensures MigrateHeroes(custom, order, decode) == custom
  {
    hide HeroLocation, HeroText, NormalizeID;
    if order != [] {
      NoHeroNoChange(custom, order[..|order| - 1], decode);
    }
  }
}
