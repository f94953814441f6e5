/** The sidebar of the public pages, and what the editor in the administration makes of old sidebars. */
module Sidebar {
  import opened Text
  import opened MenuText
  import opened MenuItems
  import opened MenuLists

  datatype Link = Link(text: string, url: string, count: nat)

  datatype Section = Section(kind: string, title: string, links: seq<Link>)

  /** A page, post or tag that menus can link to. */
  datatype Content = Content(title: string, url: string)

  /** The contents of the site, by slug and in the order the automatic sections list them. */
  datatype Site = Site(
    pages: map<string, Content>, posts: map<string, Content>, tags: map<string, Content>,
    topics: seq<Link>, pageList: seq<Link>, postList: seq<Link>)

  datatype Labels = Labels(
    topics: string, pages: string, feeds: string, recentPosts: string, custom: string, rss: string, sitemap: string)

  const DEFAULT_LABELS := Labels("标签", "页面", "订阅", "最近文章", "自定义区域", "RSS", "站点地图")

  const RECENT_LIMIT := 5

  function OrDefault(value: string, default_: string): string {
    if TrimSpace(value) == "" then default_ else value
  }

  function WithDefaults(l: Labels): Labels {
    var d := DEFAULT_LABELS;
    Labels(OrDefault(l.topics, d.topics), OrDefault(l.pages, d.pages), OrDefault(l.feeds, d.feeds),
           OrDefault(l.recentPosts, d.recentPosts), OrDefault(l.custom, d.custom), OrDefault(l.rss, d.rss),
           OrDefault(l.sitemap, d.sitemap))
  }

  // ---------------------------------------------------------------- links

  function PlaceLink(kind: string): (string, string) {
    if kind == "home" then ("首页", "/")
    else if kind == "archive" then ("归档", "/archive")
    else if kind == "tags" then ("标签", "/tags")
    else if kind == "search" then ("搜索", "/search")
    else ("后台", "/admin")
  }

  function ContentsOf(site: Site, kind: string): map<string, Content> {
    if kind == "page" then site.pages else if kind == "post" then site.posts else site.tags
  }

  /** `resolveMenuItem`. */
  function ResolveItem(item: Item, site: Site, hasHost: HostTest): Option<Link> {
    var text, kind := TrimSpace(item.text), Lower(TrimSpace(item.kind));
    if PlaceKind(kind) then Some(Link(OrElse(text, PlaceLink(kind).0), PlaceLink(kind).1, 0))
    else if ContentKind(kind) then
      var slug := TrimSpace(item.target);
      if slug in ContentsOf(site, kind) then
        var content := ContentsOf(site, kind)[slug];
        Some(Link(OrElse(text, content.title), content.url, 0))
      else None
    else if kind == "url" then
      match NormalizeURL(item.url, hasHost)
      case None => None
      case Some(url) => Some(Link(OrElse(text, url), url, 0))
    else None
  }

  function ResolveItems(items: seq<Item>, site: Site, hasHost: HostTest): seq<Link> {
    if items == [] then []
    else
      ResolveItems(items[..|items| - 1], site, hasHost)
      + (match ResolveItem(items[|items| - 1], site, hasHost) case None => [] case Some(link) => [link])
  }

  // ---------------------------------------------------------------- sections

  function SectionTitle(kind: string, labels: Labels): string {
    if kind == "topics" then labels.topics
    else if kind == "pages" then labels.pages
    else if kind == "feeds" then labels.feeds
    else if kind == "recent-posts" then labels.recentPosts
    else labels.custom
  }

  function FirstOf(links: seq<Link>, n: nat): seq<Link> { if |links| <= n then links else links[..n] }

  function AutoLinks(kind: string, site: Site, labels: Labels): seq<Link> {
    if kind == "topics" then site.topics
    else if kind == "pages" then site.pageList
    else if kind == "feeds" then [Link(labels.rss, "/feed.xml", 0), Link(labels.sitemap, "/sitemap.xml", 0)]
    else FirstOf(site.postList, RECENT_LIMIT)
  }

  predicate Automatic(kind: string) { AutoSection(kind) && kind != "" }

  function ResolveSection(item: Item, site: Site, labels: Labels, hasHost: HostTest): Option<Section> {
    var kind := SectionType(item.kind);
    var title := OrElse(TrimSpace(item.text), SectionTitle(kind, labels));
    var links := if Automatic(kind) then AutoLinks(kind, site, labels) else ResolveItems(item.items, site, hasHost);
    if title == "" || (!Automatic(kind) && links == []) then None else Some(Section(kind, title, links))
  }

  function ResolveSections(items: seq<Item>, site: Site, labels: Labels, hasHost: HostTest): seq<Section> {
    if items == [] then []
    else
      ResolveSections(items[..|items| - 1], site, labels, hasHost)
      + (match ResolveSection(items[|items| - 1], site, labels, hasHost) case None => [] case Some(s) => [s])
  }

  /** A sidebar of old links becomes one section under the sidebar's own name. */
  function ShownItems(menu: Menu, hasHost: HostTest): seq<Item> {
    if Legacy(menu.items) then [Item(CUSTOM, TrimSpace(menu.name), "", "", NormalizeLegacy(menu.items, hasHost))]
    else NormalizeSidebarItems(menu.items, hasHost)
  }

  function Render(menu: Menu, site: Site, labels: Labels, hasHost: HostTest): seq<Section> {
    ResolveSections(ShownItems(menu, hasHost), site, labels, hasHost)
  }

  method ResolveSidebarSectionItem(item: Item, site: Site, labels: Labels, hasHost: HostTest) returns (r: Option<Section>)
    ensures r == ResolveSection(item, site, labels, hasHost)
  {
    hide ResolveItem, SectionType, NormalizeURL;
    var kind := SectionType(item.kind);
    var title := TrimSpace(item.text);
    if title == "" {
      title := SectionTitle(kind, labels);
    }
    var links := [];
    if Automatic(kind) {
      links := AutoLinks(kind, site, labels);
    } else {
      for i := 0 to |item.items|
        invariant links == ResolveItems(item.items[..i], site, hasHost)
      {
        assert item.items[..i + 1][..i] == item.items[..i];
        var link := ResolveItem(item.items[i], site, hasHost);
        if link.Some? {
          links := links + [link.value];
        }
      }
      assert item.items[..|item.items|] == item.items;
      if title == "" || links == [] {
        return None;
      }
    }
    if title == "" {
      return None;
    }
    return Some(Section(kind, title, links));
  }

  /** `SidebarSectionsWithLabels` for the selected sidebar. */
  method SidebarSections(sidebar: Menu, site: Site, labels: Labels, hasHost: HostTest) returns (sections: seq<Section>)
    ensures sections == Render(sidebar, site, WithDefaults(labels), hasHost)
  {
    hide ResolveSection, WithDefaults, Legacy, NormalizeSidebarItems, NormalizeItems, MigrateItems;
    var full := WithDefaults(labels);
    var items := sidebar.items;
    if Legacy(items) {
      var migrated := MigrateLegacyCustomMenuItems(items);
      var links := NormalizeMenuItems(migrated, hasHost);
      items := [Item(CUSTOM, TrimSpace(sidebar.name), "", "", links)];
    } else {
      items := NormalizeSidebarCollectionItems(items, hasHost);
    }
    sections := [];
    for i := 0 to |items|
      invariant sections == ResolveSections(items[..i], site, full, hasHost)
    {
      assert items[..i + 1][..i] == items[..i];
      var section := ResolveSidebarSectionItem(items[i], site, full, hasHost);
      if section.Some? {
        sections := sections + [section.value];
      }
    }
    assert items[..|items|] == items;
  }

  // ---------------------------------------------------------------- normalising and rendering

  /** `out` is the stored form of `raw`. */
  ghost predicate Stored(raw: Menu, out: Menu, hasHost: HostTest) {
    && out.items == NormalizeSidebarItems(raw.items, hasHost)
    && out.id != ""
    && Trimmed(out.id)
    && out.name == if TrimSpace(raw.name) == "" then out.id else TrimSpace(raw.name)
  }

  /** Normalising the list stores every sidebar in this sense. */
  lemma CleanedIsStored(menus: seq<Menu>, hasHost: HostTest, out: seq<Menu>, i: nat)
    requires Cleaned(menus, Sidebars, hasHost, out) && i < |menus|
    ensures Stored(menus[i], out[i], hasHost)
  {
    hide NormalizeSidebarItems, NormalID, Trimmed, BaseID, TrimSpace;
    assert Named(menus[i], i, Prefix(Sidebars), IDs(out[..i]), out[i]);
    NamedIsNormal(menus[i], i, Sidebars, IDs(out[..i]), out[i]);
    NormalIDTrimmed(out[i].id);
  }

  lemma RenderOne(item: Item, site: Site, labels: Labels, hasHost: HostTest)
    ensures ResolveSections([item], site, labels, hasHost)
         == match ResolveSection(item, site, labels, hasHost) case None => [] case Some(s) => [s]
  {
    hide ResolveSection;
    assert [item][..0] == [];
  }

  lemma CustomSectionType()
    ensures SectionType(CUSTOM) == CUSTOM && !Automatic(CUSTOM)
  {
    SectionTypeKept(CUSTOM);
    CustomIsNotAuto();
  }

  /** How a custom section of given links is shown. */
  lemma RenderCustom(title: string, links: seq<Item>, site: Site, labels: Labels, hasHost: HostTest)
    requires labels.custom != ""
    ensures var shown := ResolveItems(links, site, hasHost);
            ResolveSections([Item(CUSTOM, title, "", "", links)], site, labels, hasHost)
            == if shown == [] then [] else [Section(CUSTOM, OrElse(TrimSpace(title), labels.custom), shown)]
  {
    hide ResolveItem, SectionType, Automatic;
    CustomSectionType();
    RenderOne(Item(CUSTOM, title, "", "", links), site, labels, hasHost);
  }

  /** Old links, normalised, are old links again, or nothing. */
  lemma LegacyStored(items: seq<Item>, hasHost: HostTest)
    requires Legacy(items)
    ensures var out := NormalizeLegacy(items, hasHost);
            (out != [] ==> Legacy(out)) && NormalizeLegacy(out, hasHost) == out
  {
    hide Direct, NormalizeLegacy, NormalLinks;
    LegacyIsNormal(items, hasHost);
    NormalLinksAreLegacy(NormalizeLegacy(items, hasHost), hasHost);
  }

  /** Everything else, normalised, is sections only. */
  lemma SectionsStored(items: seq<Item>, hasHost: HostTest)
    requires !Legacy(items)
    ensures var out := NormalizeSidebarItems(items, hasHost);
            !Legacy(out) && NormalizeSidebarItems(out, hasHost) == out
  {
    hide Direct, NormalSection, NormalizeLegacy, Flush, NormalLinks;
    var out := NormalizeSidebarItems(items, hasHost);
    GatheredIsNormal(items, hasHost);
    FlushedIsNormal(Gather(items, hasHost).1, hasHost);
    NormalSidebarKept(out, hasHost);
    if out != [] { NormalSectionKept(out[0], hasHost); }
  }

  /** What the raw sidebar of old links shows, and what its stored form shows. */
  lemma LegacyRendering(raw: Menu, out: Menu, site: Site, labels: Labels, hasHost: HostTest)
    requires Stored(raw, out, hasHost) && Legacy(raw.items) && labels.custom != ""
    ensures var shown := ResolveItems(out.items, site, hasHost);
            && Render(raw, site, labels, hasHost)
               == (if shown == [] then [] else [Section(CUSTOM, OrElse(TrimSpace(raw.name), labels.custom), shown)])
            && Render(out, site, labels, hasHost)
               == (if shown == [] then [] else [Section(CUSTOM, out.name, shown)])
  {
    hide Legacy, NormalizeLegacy, ResolveItem, ResolveSections, Trimmed, TrimSpace;
    var links := NormalizeLegacy(raw.items, hasHost);
    LegacyStored(raw.items, hasHost);
    TrimTwice(raw.name);
    RenderCustom(TrimSpace(raw.name), links, site, labels, hasHost);
    RenderCustom(TrimSpace(out.name), links, site, labels, hasHost);
    TrimTwice(out.name);
    if links == [] { NothingShown(out, site, labels, hasHost); }
  }

  lemma TrimTwice(s: string)
    ensures TrimSpace(TrimSpace(s)) == TrimSpace(s) && (Trimmed(s) ==> TrimSpace(s) == s)
  {
  }

  lemma NothingShown(menu: Menu, site: Site, labels: Labels, hasHost: HostTest)
    requires menu.items == []
    ensures Render(menu, site, labels, hasHost) == []
  {
    assert !Legacy([]);
    LegacyOfNone(hasHost);
    assert NormalizeSidebarItems([], hasHost) == [];
  }

  lemma SectionRendering(raw: Menu, out: Menu, site: Site, labels: Labels, hasHost: HostTest)
    requires Stored(raw, out, hasHost) && !Legacy(raw.items)
    ensures Render(out, site, labels, hasHost) == Render(raw, site, labels, hasHost)
  {
    hide Legacy, NormalizeSidebarItems, ResolveSections, TrimSpace;
    SectionsStored(raw.items, hasHost);
  }

  /** A sidebar with a name looks the same before and after it is normalised. One without a name does exactly
      when it is not a list of old links, or shows nothing, or its new ID happens to be the title used for
      nameless sections. */
  lemma NormalizingKeepsRendering(raw: Menu, out: Menu, site: Site, labels: Labels, hasHost: HostTest)
    requires Stored(raw, out, hasHost)
    ensures var l := WithDefaults(labels);
            Render(out, site, l, hasHost) == Render(raw, site, l, hasHost)
            <==> TrimSpace(raw.name) != "" || !Legacy(raw.items) || ResolveItems(out.items, site, hasHost) == [] || out.id == l.custom
  {
    hide Legacy, Render, ResolveItems, NormalizeSidebarItems;
    var l := WithDefaults(labels);
    LabelsAreShown(labels);
    if Legacy(raw.items) {
      LegacyRendering(raw, out, site, l, hasHost);
    } else {
      SectionRendering(raw, out, site, l, hasHost);
    }
  }

  lemma LabelsAreShown(labels: Labels)
    ensures WithDefaults(labels).custom != ""
  {
  }

  // ---------------------------------------------------------------- the editor

  const DEFAULT_SIDEBAR := "default-sidebar"

  /** `sidebarHasSidebarBlocks`: it compares the trimmed kind as it is, without lowering it. */
  predicate HasBlocks(items: seq<Item>) {
    exists i :: 0 <= i < |items| && (AutoSection(TrimSpace(items[i].kind)) || TrimSpace(items[i].kind) == CUSTOM)
  }

  predicate GeneratedName(name: string, custom: string) {
    var n := TrimSpace(name);
    n == "" || n == TrimSpace(custom) || n == "自定义侧边栏" || n == "Custom Sidebar"
  }

  /** How the editor shows one sidebar; old links appear inside a custom section. */
  function Wrapped(menu: Menu, custom: string, newName: string): Menu {
    if menu.items == [] then
      if GeneratedName(menu.name, custom) then menu.(name := newName) else menu
    else if HasBlocks(menu.items) then menu
    else menu.(items := [Item(CUSTOM, OrElse(TrimSpace(menu.name), custom), "", "", menu.items)])
  }

  function AdminList(sidebars: seq<Menu>, custom: string, newName: string): seq<Menu> {
    if sidebars == [] then []
    else
      AdminList(sidebars[..|sidebars| - 1], custom, newName)
      + (if sidebars[|sidebars| - 1].id == DEFAULT_SIDEBAR then [] else [Wrapped(sidebars[|sidebars| - 1], custom, newName)])
  }

  method SidebarAdminMenus(sidebars: seq<Menu>, default_: Menu, custom: string, newName: string) returns (admin: seq<Menu>)
    ensures admin == [default_] + AdminList(sidebars, custom, newName)
  {
    hide HasBlocks, GeneratedName;
    admin := [default_];
    for i := 0 to |sidebars|
      invariant admin == [default_] + AdminList(sidebars[..i], custom, newName)
    {
      assert sidebars[..i + 1][..i] == sidebars[..i];
      var sidebar := sidebars[i];
      if sidebar.id == DEFAULT_SIDEBAR {
        continue;
      }
      if |sidebar.items| == 0 {
        if GeneratedName(sidebar.name, custom) {
          sidebar := sidebar.(name := newName);
        }
        admin := admin + [sidebar];
        continue;
      }
      if HasBlocks(sidebar.items) {
        admin := admin + [sidebar];
        continue;
      }
      var title := TrimSpace(sidebar.name);
      if title == "" {
        title := custom;
      }
      sidebar := sidebar.(items := [Item(CUSTOM, title, "", "", sidebar.items)]);
      admin := admin + [sidebar];
    }
    assert sidebars[..|sidebars|] == sidebars;
  }

  lemma NormalSectionsHaveBlocks(items: seq<Item>, hasHost: HostTest)
    requires items != [] && NormalSections(items, hasHost)
    ensures HasBlocks(items)
  {
    hide NormalItems, SectionType, AutoSection;
    assert NormalSection(items[0], hasHost);
    SectionTypeIsClean(items[0].kind);
  }

  lemma WrappedIsSection(title: string, items: seq<Item>, hasHost: HostTest)
    requires items != [] && NormalItems(items, hasHost)
    ensures var wrapped := [Item(CUSTOM, title, "", "", items)];
            && !Legacy(wrapped)
            && NormalizeSidebarItems(wrapped, hasHost) == [Item(CUSTOM, TrimSpace(title), "", "", items)]
  {
    hide NormalItems, NormalizeItems, IsCustom;
    var section := Item(CUSTOM, title, "", "", items);
    SectionTypeKept(CUSTOM);
    CustomIsNotAuto();
    NormalItemsKept(items, hasHost);
    assert !Direct(section);
    LegacyOfNone(hasHost);
    assert [section][..0] == [];
    assert Gather([section], hasHost).0 == Kept(NormalizeSection(section, hasHost));
  }

  lemma WrappedLinksRendering(menu: Menu, custom: string, newName: string, site: Site, labels: Labels, hasHost: HostTest)
    requires menu.items != [] && NormalLinks(menu.items, hasHost) && !HasBlocks(menu.items)
    requires TrimSpace(menu.name) != "" && labels.custom != ""
    ensures Render(Wrapped(menu, custom, newName), site, labels, hasHost) == Render(menu, site, labels, hasHost)
  {
    hide Legacy, NormalItems, NormalizeLegacy, NormalizeSidebarItems, ResolveSections, HasBlocks;
    WrappedIsSection(TrimSpace(menu.name), menu.items, hasHost);
    NormalLinksAreLegacy(menu.items, hasHost);
    TrimTwice(menu.name);
  }

  /** A stored sidebar looks the same on the page as what the editor makes of it. */
  lemma EditorKeepsRendering(menu: Menu, custom: string, newName: string, site: Site, labels: Labels, hasHost: HostTest)
    requires NormalMenu(menu, Sidebars, hasHost)
    ensures var l := WithDefaults(labels);
            Render(Wrapped(menu, custom, newName), site, l, hasHost) == Render(menu, site, l, hasHost)
  {
    hide Render, Wrapped, NormalLinks, NormalSections, HasBlocks, NormalID, WithDefaults;
    LabelsAreShown(labels);
    var l := WithDefaults(labels);
    TrimTwice(menu.name);
    if menu.items == [] {
      NothingShown(menu, site, l, hasHost);
      WrappedNothing(menu, custom, newName);
      NothingShown(Wrapped(menu, custom, newName), site, l, hasHost);
    } else if HasBlocks(menu.items) {
      assert Wrapped(menu, custom, newName) == menu by { WrappedBlocks(menu, custom, newName); }
    } else {
      if NormalSections(menu.items, hasHost) {
        NormalSectionsHaveBlocks(menu.items, hasHost);
      } else {
        WrappedLinksRendering(menu, custom, newName, site, l, hasHost);
      }
    }
  }

  lemma WrappedNothing(menu: Menu, custom: string, newName: string)
    requires menu.items == []
    ensures Wrapped(menu, custom, newName).items == []
  {
  }

  lemma WrappedBlocks(menu: Menu, custom: string, newName: string)
    requires menu.items != [] && HasBlocks(menu.items)
    ensures Wrapped(menu, custom, newName) == menu
  {
  }

  lemma {:induction false} AdminListMembers(sidebars: seq<Menu>, custom: string, newName: string, i: nat) returns (k: nat)
    requires i < |sidebars| && sidebars[i].id != DEFAULT_SIDEBAR
    ensures var admin := AdminList(sidebars, custom, newName);
            k < |admin| && admin[k] == Wrapped(sidebars[i], custom, newName)
  {
    hide Wrapped;
    if i < |sidebars| - 1 {
      k := AdminListMembers(sidebars[..|sidebars| - 1], custom, newName, i);
    } else {
      k := |AdminList(sidebars[..i], custom, newName)|;
    }
  }

  lemma LinkKindsAreNoBlocks(kind: string)
    requires kind == "url" || ContentKind(kind) || PlaceKind(kind)
    ensures !AutoSection(TrimSpace(kind)) && TrimSpace(kind) != CUSTOM
  {
    assert Trimmed(kind);
    assert kind[0] == 'u' || kind[0] == 'p' || kind[0] == 't' || kind[0] == 'h' || kind[0] == 'a' || kind[0] == 's';
    assert |kind| <= 7 && (kind[0] == 'p' || kind[0] == 't' ==> |kind| <= 4);
  }

  lemma NormalLinksHaveNoBlocks(items: seq<Item>, hasHost: HostTest)
    requires NormalLinks(items, hasHost)
    ensures !HasBlocks(items)
  {
    hide ContentKind, PlaceKind, AutoSection, SafeURL, Trimmed;
    forall i | 0 <= i < |items| ensures !AutoSection(TrimSpace(items[i].kind)) && TrimSpace(items[i].kind) != CUSTOM {
      assert NormalItem(items[i], hasHost);
      LinkKindsAreNoBlocks(items[i].kind);
    }
  }

  /** The editor leaves no link outside a section. */
  lemma WrappedHasNoLooseLinks(menu: Menu, custom: string, newName: string, hasHost: HostTest)
    requires NormalMenu(menu, Sidebars, hasHost)
    ensures !Legacy(Wrapped(menu, custom, newName).items)
  {
    hide Direct, NormalItems, NormalSection, HasBlocks, NormalID, Trimmed, GeneratedName;
    if menu.items != [] {
      if NormalLinks(menu.items, hasHost) {
        NormalLinksHaveNoBlocks(menu.items, hasHost);
        WrappedIsSection(OrElse(TrimSpace(menu.name), custom), menu.items, hasHost);
      } else {
        NormalSectionsHaveBlocks(menu.items, hasHost);
        NormalSectionKept(menu.items[0], hasHost);
      }
    }
  }

  /** From the stored form of whatever was in the file, through the editor and back into the store: a named
      sidebar still looks as it did. */
  lemma MigrationKeepsRendering(
    raw: Menu, out: Menu, again: Menu, custom: string, newName: string, site: Site, labels: Labels, hasHost: HostTest)
    requires Stored(raw, out, hasHost) && NormalMenu(out, Sidebars, hasHost) && TrimSpace(raw.name) != ""
    requires Stored(Wrapped(out, custom, newName), again, hasHost)
    ensures var l := WithDefaults(labels); Render(again, site, l, hasHost) == Render(raw, site, l, hasHost)
  {
    hide Render, Wrapped, NormalMenu, Stored, WithDefaults, Legacy;
    NormalizingKeepsRendering(raw, out, site, labels, hasHost);
    EditorKeepsRendering(out, custom, newName, site, labels, hasHost);
    WrappedHasNoLooseLinks(out, custom, newName, hasHost);
    NormalizingKeepsRendering(Wrapped(out, custom, newName), again, site, labels, hasHost);
  }

  /** The same for the whole list: every named sidebar of the file, other than one under the reserved ID, has its
      place in the editor's list, and what is stored from there still looks as it did. */
  lemma ListKeepsRendering(
    raw: seq<Menu>, out: seq<Menu>, again: seq<Menu>, default_: Menu, custom: string, newName: string, site: Site,
    labels: Labels, hasHost: HostTest, i: nat) returns (k: nat)
    requires Cleaned(raw, Sidebars, hasHost, out)
    requires Cleaned([default_] + AdminList(out, custom, newName), Sidebars, hasHost, again)
    requires i < |raw| && TrimSpace(raw[i].name) != "" && out[i].id != DEFAULT_SIDEBAR
    ensures var admin, l := [default_] + AdminList(out, custom, newName), WithDefaults(labels);
            && 0 < k < |again| == |admin|
            && admin[k] == Wrapped(out[i], custom, newName)
            && Render(again[k], site, l, hasHost) == Render(raw[i], site, l, hasHost)
  {
    hide Render, Wrapped, NormalMenu, Stored, WithDefaults, Legacy, Named, CleanItems, AdminList;
    CleanedIsStored(raw, hasHost, out, i);
    CleanedIsNormal(raw, Sidebars, hasHost, out);
    var j := AdminListMembers(out, custom, newName, i);
    k := j + 1;
    CleanedIsStored([default_] + AdminList(out, custom, newName), hasHost, again, k);
    MigrationKeepsRendering(raw[i], out[i], again[k], custom, newName, site, labels, hasHost);
  }
}
