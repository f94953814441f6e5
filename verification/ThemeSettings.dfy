/** Theme settings as they are read from and written to settings.json. Maps are visited in an order nobody
    controls, so the result is described by relations that hold for every order. */
module ThemeSettings {
  import opened Text
  import opened MenuText
  import opened MenuItems
  import opened MenuLists
  import opened ThemeValues
  import opened Spelling

  /** `sidebar` is absent for the default sidebar and empty for none. */
  datatype Settings = Settings(
    menus: seq<Menu>, locations: map<string, string>, sidebars: seq<Menu>, sidebar: Option<string>, custom: Custom)

  const DEFAULT_MENU := "default-menu"

  // ---------------------------------------------------------------- menu locations

  /** The menu shown at a location: none, the default, or one of the list. */
  function MenuAt(menuID: string, menuIDs: set<string>): Option<string> {
    var id := NormalizeID(menuID);
    if id == "" || id == DEFAULT_MENU || id in menuIDs then Some(id) else None
  }

  predicate UsableLocation(location: string) { location != "" && !HeroLocation(location) }

  ghost predicate LocationFrom(locations: map<string, string>, menuIDs: set<string>, raw: string, location: string, menu: string) {
    raw in locations && NormalizeID(raw) == location && UsableLocation(location) && MenuAt(locations[raw], menuIDs) == Some(menu)
  }

  ghost predicate LocationUsed(locations: map<string, string>, menuIDs: set<string>, raw: string) {
    raw in locations && UsableLocation(NormalizeID(raw)) && MenuAt(locations[raw], menuIDs).Some?
  }

  ghost predicate LocationsCleaned(
    locations: map<string, string>, menuIDs: set<string>, visited: set<string>, out: map<string, string>)
  {
    && (forall l :: l in out ==> exists raw :: raw in visited && LocationFrom(locations, menuIDs, raw, l, out[l]))
    && (forall raw :: raw in visited && LocationUsed(locations, menuIDs, raw) ==> NormalizeID(raw) in out)
  }

  method NormalizeLocations(locations: map<string, string>, menuIDs: set<string>) returns (out: map<string, string>)
    ensures LocationsCleaned(locations, menuIDs, locations.Keys, out)
  {
    hide NormalizeID, HeroLocation;
    out := map[];
    var todo, visited := locations.Keys, {};
    while todo != {}
      invariant todo + visited == locations.Keys
      invariant LocationsCleaned(locations, menuIDs, visited, out)
    {
      var raw :| raw in todo;
      ghost var before, seen := out, visited;
      todo, visited := todo - {raw}, visited + {raw};
      var location, menuID := NormalizeID(raw), NormalizeID(locations[raw]);
      if location == "" || HeroLocation(location) {
      } else if menuID == "" {
        out := out[location := ""];
      } else if menuID == DEFAULT_MENU {
        out := out[location := menuID];
      } else if menuID in menuIDs {
        out := out[location := menuID];
      }
      assert out != before ==> LocationFrom(locations, menuIDs, raw, location, out[location]);
      forall l | l in out ensures exists r :: r in visited && LocationFrom(locations, menuIDs, r, l, out[l]) {
        if l in before && before[l] == out[l] {
          var r :| r in seen && LocationFrom(locations, menuIDs, r, l, before[l]);
          assert r in visited;
        }
      }
    }
  }

  ghost predicate NormalLocations(locations: map<string, string>, menuIDs: set<string>) {
    forall l :: l in locations ==>
      && NormalID(l)
      && UsableLocation(l)
      && (locations[l] == "" || locations[l] == DEFAULT_MENU || locations[l] in menuIDs)
  }

  ghost predicate AllNormal(ids: set<string>) {
    forall id :: id in ids ==> NormalID(id)
  }

  lemma LocationsCleanedNormal(locations: map<string, string>, menuIDs: set<string>, out: map<string, string>)
    requires LocationsCleaned(locations, menuIDs, locations.Keys, out)
    ensures NormalLocations(out, menuIDs)
  {
    hide NormalizeID, NormalID, HeroLocation;
    forall l | l in out
      ensures NormalID(l) && UsableLocation(l) && (out[l] == "" || out[l] == DEFAULT_MENU || out[l] in menuIDs)
    {
      var raw :| raw in locations.Keys && LocationFrom(locations, menuIDs, raw, l, out[l]);
      NormalizeIDNormal(raw);
    }
  }

  lemma FixedIDsKept()
    ensures NormalizeID("") == "" && NormalizeID(DEFAULT_MENU) == DEFAULT_MENU
  {
    NormalIDKept("");
    NormalIDKept(DEFAULT_MENU);
  }

  lemma NormalLocationKept(locations: map<string, string>, menuIDs: set<string>, l: string)
    requires NormalLocations(locations, menuIDs) && AllNormal(menuIDs) && l in locations
    ensures NormalizeID(l) == l && UsableLocation(l) && MenuAt(locations[l], menuIDs) == Some(locations[l])
  {
    hide NormalizeID, NormalID, HeroLocation;
    NormalIDKept(l);
    FixedIDsKept();
    if locations[l] in menuIDs { NormalIDKept(locations[l]); }
  }

  lemma NormalLocationsKept(locations: map<string, string>, menuIDs: set<string>, out: map<string, string>)
    requires NormalLocations(locations, menuIDs) && AllNormal(menuIDs)
    requires LocationsCleaned(locations, menuIDs, locations.Keys, out)
    ensures out == locations
  {
    hide NormalizeID, NormalLocations, HeroLocation, MenuAt, AllNormal;
    forall l | l in locations ensures NormalizeID(l) == l && l in out {
      NormalLocationKept(locations, menuIDs, l);
      assert LocationUsed(locations, menuIDs, l);
    }
    forall l | l in out ensures l in locations && out[l] == locations[l] {
      var raw :| raw in locations.Keys && LocationFrom(locations, menuIDs, raw, l, out[l]);
      NormalLocationKept(locations, menuIDs, raw);
    }
  }

  /** A location that spells the ID of a menu, in whatever case and with whatever between its words, keeps that menu,
      under its own name spelt the same way, unless another location has the same name. */
  lemma LocationKeepsMenu(locations: map<string, string>, menuIDs: set<string>, out: map<string, string>, raw: string)
    requires LocationsCleaned(locations, menuIDs, locations.Keys, out) && raw in locations
    requires UsableLocation(Spelt(Words(raw, Letter), '-')) && Spelt(Words(locations[raw], Letter), '-') in menuIDs
    ensures var location := Spelt(Words(raw, Letter), '-');
            && location in out
            && ((forall other :: other in locations && Words(other, Letter) == Words(raw, Letter) ==> other == raw)
                ==> out[location] == Spelt(Words(locations[raw], Letter), '-'))
  {
    hide NormalizeID, HeroLocation, Words, Spelt, Letter;
    IDSpells(raw);
    IDSpells(locations[raw]);
    var location := NormalizeID(raw);
    assert LocationUsed(locations, menuIDs, raw);
    var from :| from in locations.Keys && LocationFrom(locations, menuIDs, from, location, out[location]);
    IDSpells(from);
    SameSpelling(from, raw);
  }

  lemma SameSpelling(a: string, b: string)
    ensures Spelt(Words(a, Letter), '-') == Spelt(Words(b, Letter), '-') ==> Words(a, Letter) == Words(b, Letter)
  {
    if Spelt(Words(a, Letter), '-') == Spelt(Words(b, Letter), '-') {
      SpellingSplits(a);
      SpellingSplits(b);
    }
  }

  lemma SpellingSplits(a: string)
    ensures Words(a, Letter) != [] ==> SplitOn(Spelt(Words(a, Letter), '-'), '-') == Words(a, Letter)
    ensures Words(a, Letter) == [] <==> Spelt(Words(a, Letter), '-') == ""
  {
    hide SplitOn;
    WordsHaveNo(a, '-');
    if Words(a, Letter) != [] { SplitJoined(Words(a, Letter), '-'); }
  }

  lemma {:induction false} WordsHaveNo(s: string, c: char)
    requires forall d :: Letter(d) != Some(c)
    ensures forall i :: 0 <= i < |Words(s, Letter)| ==> c !in Words(s, Letter)[i]
  {
    hide Letter;
    if s != "" { WordsHaveNo(s[1..], c); }
  }

  // ---------------------------------------------------------------- the sidebar shown

  function Selection(value: Option<string>, sidebarIDs: set<string>): Option<string> {
    match value
    case None => None
    case Some(id) =>
      var normal := NormalizeID(id);
      if normal == "" then Some("") else if normal in sidebarIDs then Some(normal) else None
  }

  predicate NormalSelection(value: Option<string>, sidebarIDs: set<string>) {
    value.None? || value == Some("") || value.value in sidebarIDs
  }

  lemma SelectionSettles(value: Option<string>, sidebarIDs: set<string>)
    requires AllNormal(sidebarIDs)
    ensures NormalSelection(Selection(value, sidebarIDs), sidebarIDs)
    ensures NormalSelection(value, sidebarIDs) ==> Selection(value, sidebarIDs) == value
  {
    hide NormalizeID, NormalID;
    FixedIDsKept();
    if value.Some? && value.value in sidebarIDs { NormalIDKept(value.value); }
  }

  // ---------------------------------------------------------------- everything

  /** `out` is what normalising `s` gives, when the locations happen to be visited in `order`. */
  ghost predicate NormalizedIn(s: Settings, hasHost: HostTest, decode: Decoder, order: seq<string>, cleaned: Custom, out: Settings) {
    && Cleaned(s.menus, Menus, hasHost, out.menus)
    && Cleaned(s.sidebars, Sidebars, hasHost, out.sidebars)
    && LocationsCleaned(s.locations, IDs(out.menus), s.locations.Keys, out.locations)
    && out.sidebar == Selection(s.sidebar, IDs(out.sidebars))
    && CustomCleaned(s.custom, s.custom.Keys, cleaned)
    && Visits(order, s.locations.Keys)
    && out.custom == MigrateHeroes(cleaned, order, decode)
  }

  ghost predicate Normalized(s: Settings, hasHost: HostTest, decode: Decoder, out: Settings) {
    exists order, cleaned :: NormalizedIn(s, hasHost, decode, order, cleaned, out)
  }

  /** Every reference inside the settings leads somewhere. */
  ghost predicate Normal(s: Settings, hasHost: HostTest) {
    && NormalMenus(s.menus, Menus, hasHost)
    && NormalMenus(s.sidebars, Sidebars, hasHost)
    && NormalLocations(s.locations, IDs(s.menus))
    && NormalSelection(s.sidebar, IDs(s.sidebars))
    && NormalCustom(s.custom)
  }

  method NormalizeThemeSettings(s: Settings, hasHost: HostTest, decode: Decoder) returns (out: Settings)
    ensures Normalized(s, hasHost, decode, out)
  {
    hide Cleaned, LocationsCleaned, CustomCleaned, Visits, MigrateHeroes, Selection;
    var menus := NormalizeMenuCollection(s.menus, Menus, hasHost);
    var menuIDs := set i | 0 <= i < |menus| :: menus[i].id;
    var sidebars := NormalizeMenuCollection(s.sidebars, Sidebars, hasHost);
    var sidebarIDs := set i | 0 <= i < |sidebars| :: sidebars[i].id;
    var sidebar := Selection(s.sidebar, sidebarIDs);
    var cleaned := NormalizeCustomSettings(s.custom);
    var custom := MigrateLegacyHeroes(s.locations.Keys, cleaned, decode);
    ghost var order :| Visits(order, s.locations.Keys) && custom == MigrateHeroes(cleaned, order, decode);
    var locations := NormalizeLocations(s.locations, menuIDs);
    out := Settings(menus, locations, sidebars, sidebar, custom);
    assert NormalizedIn(s, hasHost, decode, order, cleaned, out);
  }

  lemma IDsNormal(menus: seq<Menu>, list: List, hasHost: HostTest)
    requires NormalMenus(menus, list, hasHost)
    ensures AllNormal(IDs(menus))
  {
    hide NormalEntries, NormalID;
    forall i | 0 <= i < |menus| ensures NormalID(menus[i].id) {
      assert NormalMenu(menus[i], list, hasHost);
    }
  }

  /** Whatever was stored, the result is in order and all its references are closed. */
  lemma NormalizedIsNormal(s: Settings, hasHost: HostTest, decode: Decoder, out: Settings)
    requires Normalized(s, hasHost, decode, out)
    ensures Normal(out, hasHost)
  {
    hide Cleaned, LocationsCleaned, CustomCleaned, Visits, MigrateHeroes, Selection;
    hide NormalMenus, NormalLocations, NormalSelection, NormalCustom, AllNormal, IDs;
    var order, cleaned :| NormalizedIn(s, hasHost, decode, order, cleaned, out);
    CleanedIsNormal(s.menus, Menus, hasHost, out.menus);
    CleanedIsNormal(s.sidebars, Sidebars, hasHost, out.sidebars);
    LocationsCleanedNormal(s.locations, IDs(out.menus), out.locations);
    IDsNormal(out.sidebars, Sidebars, hasHost);
    SelectionSettles(s.sidebar, IDs(out.sidebars));
    CustomCleanedNormal(s.custom, cleaned);
    MigratedNormal(cleaned, order, decode);
  }

  lemma NoHeroLeft(locations: map<string, string>, menuIDs: set<string>, order: seq<string>)
    requires NormalLocations(locations, menuIDs) && AllNormal(menuIDs) && Visits(order, locations.Keys)
    ensures forall i :: 0 <= i < |order| ==> !HeroLocation(NormalizeID(order[i]))
  {
    hide NormalLocations, AllNormal, HeroLocation, NormalizeID;
    forall i | 0 <= i < |order| ensures !HeroLocation(NormalizeID(order[i])) {
      NormalLocationKept(locations, menuIDs, order[i]);
    }
  }

  /** Settings that are in order are left alone, in whatever order the maps are visited. */
  lemma NormalIsKept(s: Settings, hasHost: HostTest, decode: Decoder, out: Settings)
    requires Normal(s, hasHost) && Normalized(s, hasHost, decode, out)
    ensures out == s
  {
    hide Cleaned, LocationsCleaned, CustomCleaned, Visits, MigrateHeroes, Selection;
    hide NormalMenus, NormalLocations, NormalSelection, NormalCustom, AllNormal, IDs;
    var order, cleaned :| NormalizedIn(s, hasHost, decode, order, cleaned, out);
    NormalMenusKept(s.menus, Menus, hasHost, out.menus);
    NormalMenusKept(s.sidebars, Sidebars, hasHost, out.sidebars);
    IDsNormal(s.menus, Menus, hasHost);
    IDsNormal(s.sidebars, Sidebars, hasHost);
    NormalLocationsKept(s.locations, IDs(s.menus), out.locations);
    SelectionSettles(s.sidebar, IDs(s.sidebars));
    NormalCustomKept(s.custom, cleaned);
    NoHeroLeft(s.locations, IDs(s.menus), order);
    NoHeroNoChange(cleaned, order, decode);
  }

  /** Normalising once is enough: a second time, with maps visited in any other order, changes nothing. */
  lemma NormalizingSettles(s: Settings, hasHost: HostTest, decode: Decoder, once: Settings, twice: Settings)
    requires Normalized(s, hasHost, decode, once) && Normalized(once, hasHost, decode, twice)
    ensures twice == once && Normal(once, hasHost)
  {
    hide Normalized, Normal;
    NormalizedIsNormal(s, hasHost, decode, once);
    NormalIsKept(once, hasHost, decode, twice);
  }
}
