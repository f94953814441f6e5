/** Menu and sidebar items: migration of old forms and normalisation. */
module MenuItems {
  import opened Text
  import opened MenuText

  datatype Item = Item(kind: string, text: string, target: string, url: string, items: seq<Item>)

  // ---------------------------------------------------------------- menu links

  /** Kinds that link to one piece of content, named by its target. */
  predicate ContentKind(kind: string) { kind == "page" || kind == "post" || kind == "tag" }

  /** Kinds that link to a fixed place of the site. */
  predicate PlaceKind(kind: string) {
    kind == "home" || kind == "archive" || kind == "tags" || kind == "search" || kind == "admin"
  }

  function LinkKind(kind: string): string {
    var k := Lower(TrimSpace(kind));
    if k == "tagindex" then "tags" else k
  }

  /** One round of the loop in `normalizeMenuItems`. */
  function NormalizeItem(item: Item, hasHost: HostTest): Option<Item> {
    var kind := LinkKind(item.kind);
    var text, target := TrimSpace(item.text), TrimSpace(item.target);
    if kind == "" then
      if text == "" && target == "" then None else Some(Item("", text, target, "", []))
    else if ContentKind(kind) then
      if target == "" then None else Some(Item(kind, text, target, "", []))
    else if kind == "url" then
      match NormalizeURL(TrimSpace(item.url), hasHost)
      case None => None
      case Some(url) => Some(Item("url", text, "", url, []))
    else if PlaceKind(kind) then Some(Item(kind, text, "", "", []))
    else None
  }

  function Kept(item: Option<Item>): seq<Item> {
    match item case None => [] case Some(i) => [i]
  }

  function NormalizeItems(items: seq<Item>, hasHost: HostTest): (r: seq<Item>)
    ensures |r| <= |items|
  {
    if items == [] then []
    else NormalizeItems(items[..|items| - 1], hasHost) + Kept(NormalizeItem(items[|items| - 1], hasHost))
  }

  method NormalizeMenuItems(items: seq<Item>, hasHost: HostTest) returns (normalized: seq<Item>)
    ensures normalized == NormalizeItems(items, hasHost)
  {
    normalized := [];
    for i := 0 to |items|
      invariant normalized == NormalizeItems(items[..i], hasHost)
    {
      assert items[..i + 1][..i] == items[..i];
      var kept := NormalizeItem(items[i], hasHost);
      if kept.Some? {
        normalized := normalized + [kept.value];
      }
    }
    assert items[..|items|] == items;
  }

  predicate SafeURL(url: string, hasHost: HostTest) {
    ValidMenuURL(url) && NormalizeURL(url, hasHost) == Some(url)
  }

  /** What a stored link looks like once normalised, kind by kind. */
  predicate NormalItem(item: Item, hasHost: HostTest) {
    && Trimmed(item.text)
    && Trimmed(item.target)
    && item.items == []
    && (if item.kind == "" then (item.text != "" || item.target != "") && item.url == ""
        else if ContentKind(item.kind) then item.target != "" && item.url == ""
        else if item.kind == "url" then item.target == "" && SafeURL(item.url, hasHost)
        else PlaceKind(item.kind) && item.target == "" && item.url == "")
  }

  predicate NormalItems(items: seq<Item>, hasHost: HostTest) {
    forall i :: 0 <= i < |items| ==> NormalItem(items[i], hasHost)
  }

  lemma NormalizedItem(item: Item, hasHost: HostTest)
    ensures match NormalizeItem(item, hasHost)
      case Some(n) => NormalItem(n, hasHost) && n.kind == LinkKind(item.kind)
      case None => true
  {
    hide LinkKind, ContentKind, PlaceKind, NormalizeURL, ValidMenuURL, Trimmed;
    NormalizedURL(TrimSpace(item.url), hasHost);
    assert Trimmed("") by { EmptyTrimmed(); }
  }

  lemma EmptyTrimmed()
    ensures Trimmed("") && TrimSpace("") == ""
  {
  }

  lemma KnownKindsKept(kind: string)
    requires kind == "" || kind == "url" || ContentKind(kind) || PlaceKind(kind)
    ensures LinkKind(kind) == kind
  {
    assert Trimmed(kind) && LowerFixed(kind) && kind != "tagindex";
    LowerOfFixed(kind);
  }

  lemma NormalItemKept(item: Item, hasHost: HostTest)
    requires NormalItem(item, hasHost)
    ensures NormalizeItem(item, hasHost) == Some(item)
  {
    hide LinkKind, ContentKind, PlaceKind, NormalizeURL, ValidMenuURL, Trimmed;
    KnownKindsKept(item.kind);
    URLKindIsItsOwn();
    if item.kind == "url" {
      assert NormalizeURL(item.url, hasHost) == Some(item.url);
      SafeURLTrimmed(item.url, hasHost);
    }
  }

  lemma URLKindIsItsOwn()
    ensures !ContentKind("url") && !PlaceKind("url") && !ContentKind("") && !PlaceKind("")
    ensures forall kind :: ContentKind(kind) ==> !PlaceKind(kind)
  {
  }

  lemma SafeURLTrimmed(url: string, hasHost: HostTest)
    requires NormalizeURL(url, hasHost) == Some(url)
    ensures TrimSpace(url) == url
  {
    NormalizedURL(url, hasHost);
  }

  lemma {:induction false} NormalizedItems(items: seq<Item>, hasHost: HostTest)
    ensures NormalItems(NormalizeItems(items, hasHost), hasHost)
  {
    hide NormalizeItem, NormalItem;
    if items != [] {
      NormalizedItems(items[..|items| - 1], hasHost);
      NormalizedItem(items[|items| - 1], hasHost);
    }
  }

  lemma {:induction false} NormalItemsKept(items: seq<Item>, hasHost: HostTest)
    requires NormalItems(items, hasHost)
    ensures NormalizeItems(items, hasHost) == items
  {
    hide NormalizeItem, NormalItem;
    if items != [] {
      NormalItemsKept(items[..|items| - 1], hasHost);
      NormalItemKept(items[|items| - 1], hasHost);
      assert items == items[..|items| - 1] + [items[|items| - 1]];
    }
  }

  lemma {:induction false} NormalizeItemsAppend(a: seq<Item>, b: seq<Item>, hasHost: HostTest)
    ensures NormalizeItems(a + b, hasHost) == NormalizeItems(a, hasHost) + NormalizeItems(b, hasHost)
  {
    hide NormalizeItem;
    if b == [] {
      assert a + b == a;
    } else {
      assert (a + b)[..|a + b| - 1] == a + b[..|b| - 1];
      NormalizeItemsAppend(a, b[..|b| - 1], hasHost);
    }
  }

  // ---------------------------------------------------------------- old custom links

  predicate IsCustom(kind: string) { EqualFoldWord(TrimSpace(kind), "custom") }

  /** Custom links used to be stored with the kind "custom". */
  function Migrate(item: Item): Item {
    item.(kind := if IsCustom(item.kind) then "url" else item.kind, items := MigrateItems(item.items))
  }

  function MigrateItems(items: seq<Item>): (r: seq<Item>)
    ensures |r| == |items| && forall i :: 0 <= i < |r| ==> r[i] == Migrate(items[i])
  {
    if items == [] then [] else MigrateItems(items[..|items| - 1]) + [Migrate(items[|items| - 1])]
  }

  method MigrateLegacyCustomMenuItems(items: seq<Item>) returns (migrated: seq<Item>)
    ensures migrated == MigrateItems(items)
    decreases items
  {
    hide IsCustom;
    if items == [] {
      return items;
    }
    migrated := [];
    for i := 0 to |items|
      invariant |migrated| == i && forall k :: 0 <= k < i ==> migrated[k] == Migrate(items[k])
    {
      var item := items[i];
      if IsCustom(item.kind) {
        item := item.(kind := "url");
      }
      if |item.items| > 0 {
        var below := MigrateLegacyCustomMenuItems(items[i].items);
        item := item.(items := below);
      }
      assert item == Migrate(items[i]);
      migrated := migrated + [item];
    }
    assert migrated == MigrateItems(items);
  }

  // ---------------------------------------------------------------- sidebars

  const CUSTOM := "custom"

  /** A custom entry with an address and nothing below it is an old link, not a section. */
  predicate DirectCustom(item: Item) {
    IsCustom(item.kind) && item.items == [] && (TrimSpace(item.url) != "" || TrimSpace(item.target) != "")
  }

  predicate LinkKindName(kind: string) {
    ContentKind(kind) || PlaceKind(kind) || kind == "url" || kind == "tagindex"
  }

  predicate Direct(item: Item) { DirectCustom(item) || LinkKindName(Lower(TrimSpace(item.kind))) }

  /** All entries are links: a sidebar from before there were sections. */
  predicate Legacy(items: seq<Item>) { items != [] && forall i :: 0 <= i < |items| ==> Direct(items[i]) }

  predicate AutoSection(kind: string) {
    kind == "" || kind == "topics" || kind == "pages" || kind == "feeds" || kind == "recent-posts"
  }

  function SectionType(kind: string): (r: string)
    ensures AutoSection(r) || r == CUSTOM
  {
    var k := Lower(TrimSpace(kind));
    if k == "" || k == "topics" || k == "pages" then k
    else if k == "feeds" || k == "feed" || k == "subscriptions" then "feeds"
    else if k == "recent-posts" || k == "recent" || k == "recent_posts" then "recent-posts"
    else CUSTOM
  }

  /** `normalizeSidebarSectionItems` on one item. */
  function NormalizeSection(item: Item, hasHost: HostTest): Option<Item> {
    var kind, text := SectionType(item.kind), TrimSpace(item.text);
    if kind == CUSTOM then
      var links := NormalizeItems(item.items, hasHost);
      if text == "" && links == [] then None else Some(Item(CUSTOM, text, "", "", links))
    else Some(Item(kind, text, "", "", []))
  }

  function NormalizeLegacy(items: seq<Item>, hasHost: HostTest): seq<Item> {
    NormalizeItems(MigrateItems(items), hasHost)
  }

  /** Links between sections are gathered into a custom section of their own. */
  function Flush(links: seq<Item>, hasHost: HostTest): seq<Item> {
    var kept := NormalizeLegacy(links, hasHost);
    if kept == [] then [] else [Item(CUSTOM, "", "", "", kept)]
  }

  /** The sections so far and the links not yet flushed. */
  function Gather(items: seq<Item>, hasHost: HostTest): (seq<Item>, seq<Item>) {
    if items == [] then ([], [])
    else
      var before := Gather(items[..|items| - 1], hasHost);
      var item := items[|items| - 1];
      if Direct(item) then (before.0, before.1 + [item])
      else (before.0 + Flush(before.1, hasHost) + Kept(NormalizeSection(item, hasHost)), [])
  }

  function NormalizeSidebarItems(items: seq<Item>, hasHost: HostTest): seq<Item> {
    if Legacy(items) then NormalizeLegacy(items, hasHost)
    else
      var end := Gather(items, hasHost);
      end.0 + Flush(end.1, hasHost)
  }

  method FlushLegacyLinks(normalized: seq<Item>, legacyLinks: seq<Item>, hasHost: HostTest) returns (r: seq<Item>)
    ensures r == normalized + Flush(legacyLinks, hasHost)
  {
    var migrated := MigrateLegacyCustomMenuItems(legacyLinks);
    var links := NormalizeMenuItems(migrated, hasHost);
    r := normalized;
    if |links| > 0 {
      r := r + [Item(CUSTOM, "", "", "", links)];
    }
  }

  method NormalizeSidebarCollectionItems(items: seq<Item>, hasHost: HostTest) returns (normalized: seq<Item>)
    ensures normalized == NormalizeSidebarItems(items, hasHost)
  {
    hide Direct, NormalizeSection, Flush, NormalizeItem;
    if Legacy(items) {
      var migrated := MigrateLegacyCustomMenuItems(items);
      normalized := NormalizeMenuItems(migrated, hasHost);
      return;
    }
    normalized := [];
    var legacyLinks: seq<Item> := [];
    for i := 0 to |items|
      invariant Gather(items[..i], hasHost) == (normalized, legacyLinks)
    {
      assert items[..i + 1][..i] == items[..i];
      if Direct(items[i]) {
        legacyLinks := legacyLinks + [items[i]];
      } else {
        normalized := FlushLegacyLinks(normalized, legacyLinks, hasHost);
        legacyLinks := [];
        normalized := normalized + Kept(NormalizeSection(items[i], hasHost));
      }
    }
    assert items[..|items|] == items;
    normalized := FlushLegacyLinks(normalized, legacyLinks, hasHost);
  }

  // ---------------------------------------------------------------- normal sidebars

  predicate NormalSection(item: Item, hasHost: HostTest) {
    && Trimmed(item.text)
    && item.target == ""
    && item.url == ""
    && (if item.kind == CUSTOM then NormalItems(item.items, hasHost) && (item.text != "" || item.items != [])
        else AutoSection(item.kind) && item.items == [])
  }

  predicate NormalSections(items: seq<Item>, hasHost: HostTest) {
    forall i :: 0 <= i < |items| ==> NormalSection(items[i], hasHost)
  }

  predicate NormalLinks(items: seq<Item>, hasHost: HostTest) {
    NormalItems(items, hasHost) && forall i :: 0 <= i < |items| ==> items[i].kind != ""
  }

  /** A normal sidebar holds only sections, or, still in the old form, only links. */
  predicate NormalSidebar(items: seq<Item>, hasHost: HostTest) {
    NormalLinks(items, hasHost) || NormalSections(items, hasHost)
  }

  lemma SectionTypeKept(kind: string)
    requires AutoSection(kind) || kind == CUSTOM
    ensures SectionType(kind) == kind && Lower(TrimSpace(kind)) == kind && !LinkKindName(kind)
  {
    SectionTypeIsClean(kind);
    LowerOfFixed(kind);
    SectionTypesAreNoLinks(kind);
  }

  lemma SectionTypeIsClean(kind: string)
    requires AutoSection(kind) || kind == CUSTOM
    ensures Trimmed(kind) && LowerFixed(kind)
  {
  }

  lemma SectionTypesAreNoLinks(kind: string)
    requires AutoSection(kind) || kind == CUSTOM
    ensures !LinkKindName(kind)
  {
    assert |kind| == 0 || |kind| == 6 || |kind| == 5 || |kind| == 12;
    assert |kind| == 0 || kind[0] == 't' || kind[0] == 'p' || kind[0] == 'f' || kind[0] == 'r' || kind[0] == 'c';
  }

  lemma NormalizedSection(item: Item, hasHost: HostTest)
    ensures match NormalizeSection(item, hasHost)
      case Some(n) => NormalSection(n, hasHost)
      case None => true
  {
    hide SectionType, AutoSection, NormalItems, NormalizeItems, Trimmed;
    NormalizedItems(item.items, hasHost);
  }

  lemma NormalSectionKept(item: Item, hasHost: HostTest)
    requires NormalSection(item, hasHost)
    ensures NormalizeSection(item, hasHost) == Some(item) && !Direct(item)
  {
    hide SectionType, AutoSection, NormalItems, NormalizeItems, Trimmed, LinkKindName, IsCustom;
    SectionTypeKept(item.kind);
    EmptyTrimmed();
    assert !AutoSection(CUSTOM) by { CustomIsNotAuto(); }
    if item.kind == CUSTOM { NormalItemsKept(item.items, hasHost); }
  }

  lemma CustomIsNotAuto()
    ensures !AutoSection(CUSTOM)
  {
  }

  lemma FlushedIsNormal(links: seq<Item>, hasHost: HostTest)
    ensures NormalSections(Flush(links, hasHost), hasHost)
  {
    hide NormalItems, NormalizeItems, AutoSection;
    NormalizedItems(MigrateItems(links), hasHost);
    EmptyTrimmed();
  }

  lemma {:induction false} GatheredIsNormal(items: seq<Item>, hasHost: HostTest)
    ensures NormalSections(Gather(items, hasHost).0, hasHost)
  {
    hide NormalSection, NormalizeSection, Flush, Direct;
    if items != [] {
      GatheredIsNormal(items[..|items| - 1], hasHost);
      FlushedIsNormal(Gather(items[..|items| - 1], hasHost).1, hasHost);
      NormalizedSection(items[|items| - 1], hasHost);
    }
  }

  lemma DirectHasKind(item: Item)
    requires Direct(item)
    ensures LinkKind(Migrate(item).kind) != ""
  {
    hide IsCustom, TrimSpace, Lower;
    if IsCustom(item.kind) {
      KnownKindsKept("url");
    }
  }

  lemma {:induction false} LegacyIsNormal(items: seq<Item>, hasHost: HostTest)
    requires forall i :: 0 <= i < |items| ==> Direct(items[i])
    ensures NormalLinks(NormalizeLegacy(items, hasHost), hasHost)
  {
    hide Direct, NormalizeItem, NormalItem, LinkKind, Migrate;
    NormalizedItems(MigrateItems(items), hasHost);
    if items != [] {
      var last := |items| - 1;
      LegacyIsNormal(items[..last], hasHost);
      assert MigrateItems(items)[..last] == MigrateItems(items[..last]);
      DirectHasKind(items[last]);
      NormalizedItem(Migrate(items[last]), hasHost);
    }
  }

  /** Whatever was stored, a normalised sidebar is a normal one. */
  lemma NormalizedSidebar(items: seq<Item>, hasHost: HostTest)
    ensures NormalSidebar(NormalizeSidebarItems(items, hasHost), hasHost)
  {
    hide Direct, NormalSection, NormalizeLegacy, Flush, NormalItems;
    if Legacy(items) {
      LegacyIsNormal(items, hasHost);
    } else {
      GatheredIsNormal(items, hasHost);
      FlushedIsNormal(Gather(items, hasHost).1, hasHost);
    }
  }

  lemma {:induction false} NormalSectionsGathered(items: seq<Item>, hasHost: HostTest)
    requires NormalSections(items, hasHost)
    ensures Gather(items, hasHost) == (items, [])
  {
    hide NormalSection, NormalizeSection, Direct, NormalizeLegacy;
    LegacyOfNone(hasHost);
    if items != [] {
      var last := |items| - 1;
      NormalSectionsGathered(items[..last], hasHost);
      NormalSectionKept(items[last], hasHost);
      assert items == items[..last] + [] + [items[last]];
    }
  }

  lemma NormalLinkIsDirect(item: Item, hasHost: HostTest)
    requires NormalItem(item, hasHost) && item.kind != ""
    ensures Direct(item) && Migrate(item) == item
  {
    hide ContentKind, PlaceKind;
    KnownKindsKept(item.kind);
    TagIndexIsNoKind();
    assert Lower(TrimSpace(item.kind)) == item.kind;
    KnownKindsNotCustom(item.kind);
  }

  lemma TagIndexIsNoKind()
    ensures !ContentKind("tagindex") && !PlaceKind("tagindex")
  {
  }

  lemma KnownKindsNotCustom(kind: string)
    requires kind == "url" || ContentKind(kind) || PlaceKind(kind)
    ensures !IsCustom(kind)
  {
    assert TrimSpace(kind) == kind;
    assert |kind| != 6 || kind == "search";
  }

  lemma NormalLinksAreLegacy(items: seq<Item>, hasHost: HostTest)
    requires NormalLinks(items, hasHost)
    ensures (items != [] ==> Legacy(items)) && NormalizeLegacy(items, hasHost) == items
  {
    hide NormalItem, Direct, Migrate, NormalizeItems;
    forall i | 0 <= i < |items| ensures Direct(items[i]) && Migrate(items[i]) == items[i] {
      NormalLinkIsDirect(items[i], hasHost);
    }
    assert MigrateItems(items) == items;
    NormalItemsKept(items, hasHost);
  }

  /** A normal sidebar is left alone. */
  lemma NormalSidebarKept(items: seq<Item>, hasHost: HostTest)
    requires NormalSidebar(items, hasHost)
    ensures NormalizeSidebarItems(items, hasHost) == items
  {
    hide Direct, NormalSection, NormalizeLegacy, NormalItems;
    if items != [] && NormalLinks(items, hasHost) {
      NormalLinksAreLegacy(items, hasHost);
    } else {
      NormalSectionsGathered(items, hasHost);
      if items != [] { NormalSectionKept(items[0], hasHost); }
      assert NormalizeLegacy([], hasHost) == [] by { LegacyOfNone(hasHost); }
    }
  }

  lemma LegacyOfNone(hasHost: HostTest)
    ensures NormalizeLegacy([], hasHost) == []
  {
  }

  // ---------------------------------------------------------------- no link is lost

  /** The links a stored item stands for, after the cleaning of each. */
  function LinksOf(item: Item, hasHost: HostTest): seq<Item> {
    if Direct(item) then NormalizeLegacy([item], hasHost)
    else if SectionType(item.kind) == CUSTOM then NormalizeItems(item.items, hasHost)
    else []
  }

  function AllLinks(items: seq<Item>, hasHost: HostTest): seq<Item> {
    if items == [] then [] else AllLinks(items[..|items| - 1], hasHost) + LinksOf(items[|items| - 1], hasHost)
  }

  /** The links in normalised sections. */
  function SectionLinks(sections: seq<Item>): seq<Item> {
    if sections == [] then [] else SectionLinks(sections[..|sections| - 1]) + sections[|sections| - 1].items
  }

  lemma {:induction false} SectionLinksAppend(a: seq<Item>, b: seq<Item>)
    ensures SectionLinks(a + b) == SectionLinks(a) + SectionLinks(b)
  {
    if b == [] {
      assert a + b == a;
    } else {
      assert (a + b)[..|a + b| - 1] == a + b[..|b| - 1];
      SectionLinksAppend(a, b[..|b| - 1]);
    }
  }

  lemma OneSection(section: Item)
    ensures SectionLinks([section]) == section.items
  {
    assert SectionLinks([section][..0]) == [];
  }

  lemma FlushLinks(links: seq<Item>, hasHost: HostTest)
    ensures SectionLinks(Flush(links, hasHost)) == NormalizeLegacy(links, hasHost)
  {
    hide NormalizeLegacy;
    OneSection(Item(CUSTOM, "", "", "", NormalizeLegacy(links, hasHost)));
  }

  lemma SectionHasItsLinks(item: Item, hasHost: HostTest)
    requires !Direct(item)
    ensures SectionLinks(Kept(NormalizeSection(item, hasHost))) == LinksOf(item, hasHost)
  {
    hide Direct, SectionType, NormalizeItems;
    match NormalizeSection(item, hasHost)
    case None =>
    case Some(n) => OneSection(n);
  }

  lemma LegacyAppend(links: seq<Item>, item: Item, hasHost: HostTest)
    ensures NormalizeLegacy(links + [item], hasHost) == NormalizeLegacy(links, hasHost) + NormalizeLegacy([item], hasHost)
  {
    hide NormalizeItems, Migrate;
    assert MigrateItems(links + [item]) == MigrateItems(links) + MigrateItems([item]);
    NormalizeItemsAppend(MigrateItems(links), MigrateItems([item]), hasHost);
  }

  lemma {:induction false} GatherKeepsLinks(items: seq<Item>, hasHost: HostTest)
    ensures var end := Gather(items, hasHost);
            SectionLinks(end.0) + NormalizeLegacy(end.1, hasHost) == AllLinks(items, hasHost)
  {
    hide Direct, NormalizeLegacy, NormalizeSection, Flush, LinksOf;
    LegacyOfNone(hasHost);
    if items != [] {
      var item := items[|items| - 1];
      GatherKeepsLinks(items[..|items| - 1], hasHost);
      var before := Gather(items[..|items| - 1], hasHost);
      if Direct(item) {
        LegacyAppend(before.1, item, hasHost);
        assert LinksOf(item, hasHost) == NormalizeLegacy([item], hasHost) by { LinksOfDirect(item, hasHost); }
      } else {
        FlushLinks(before.1, hasHost);
        SectionHasItsLinks(item, hasHost);
        SectionLinksAppend(before.0, Flush(before.1, hasHost));
        SectionLinksAppend(before.0 + Flush(before.1, hasHost), Kept(NormalizeSection(item, hasHost)));
      }
    }
  }

  lemma LinksOfDirect(item: Item, hasHost: HostTest)
    requires Direct(item)
    ensures LinksOf(item, hasHost) == NormalizeLegacy([item], hasHost)
  {
  }

  lemma {:induction false} LegacyLinks(items: seq<Item>, hasHost: HostTest)
    requires forall i :: 0 <= i < |items| ==> Direct(items[i])
    ensures NormalizeLegacy(items, hasHost) == AllLinks(items, hasHost)
  {
    hide Direct, NormalizeLegacy, LinksOf;
    LegacyOfNone(hasHost);
    if items != [] {
      var item := items[|items| - 1];
      LegacyLinks(items[..|items| - 1], hasHost);
      LegacyAppend(items[..|items| - 1], item, hasHost);
      assert items == items[..|items| - 1] + [item];
      LinksOfDirect(item, hasHost);
    }
  }

  /** Normalising a sidebar, in whatever mix of old links and sections it is, keeps all its links in order. */
  lemma SidebarKeepsLinks(items: seq<Item>, hasHost: HostTest)
    ensures var r := NormalizeSidebarItems(items, hasHost);
            AllLinks(items, hasHost) == if Legacy(items) then r else SectionLinks(r)
  {
    hide Direct, NormalizeLegacy, Flush, LinksOf;
    if Legacy(items) {
      LegacyLinks(items, hasHost);
    } else {
      var end := Gather(items, hasHost);
      GatherKeepsLinks(items, hasHost);
      FlushLinks(end.1, hasHost);
      SectionLinksAppend(end.0, Flush(end.1, hasHost));
    }
  }
}
