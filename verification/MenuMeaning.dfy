/** What the kinds and addresses of menus and sidebars mean, in the words in which they are stored. */
module MenuMeaning {
  import opened Text
  import opened MenuText
  import opened MenuItems
  import opened MenuLists
  import opened Sidebar

  // ---------------------------------------------------------------- addresses

  /** The address has this scheme, in any case. */
  ghost predicate Scheme(address: string, scheme: string) {
    |scheme| < |address| && address[|scheme|] == ':' && Lower(address[..|scheme|]) == scheme
  }

  /** A path of the site, but not the host of another one; a web page; or a mail address. */
  ghost predicate Safe(address: string) {
    || (|address| > 0 && address[0] == '/' && !(|address| > 1 && address[1] == '/'))
    || (Scheme(address, "https") && At(address, 6, "//"))
    || (Scheme(address, "http") && At(address, 5, "//"))
    || Scheme(address, "mailto")
  }

  lemma SchemeIs(address: string, scheme: string, after: string)
    requires forall i :: 0 <= i < |scheme| ==> scheme[i] != ':'
    requires forall i :: 0 <= i < |after| ==> after[i] == '/'
    ensures scheme + ":" + after <= Lower(address)
       <==> Scheme(address, scheme) && At(address, |scheme| + 1, after)
  {
    var n, whole := |scheme|, scheme + ":" + after;
    MarksKeepCase();
    hide LowerChar;
    if whole <= Lower(address) {
      assert Lower(address)[n] == whole[n] == ':';
      SameLetters(address[..n], scheme, address, whole);
      forall j | 0 <= j < |after| ensures address[n + 1 + j] == after[j] {
        assert Lower(address)[n + 1 + j] == whole[n + 1 + j] == '/';
      }
    }
    if Scheme(address, scheme) && At(address, n + 1, after) {
      SchemeLowered(address, scheme, after);
    }
  }

  lemma MarksKeepCase()
    ensures forall c :: (LowerChar(c) == ':' <==> c == ':') && (LowerChar(c) == '/' <==> c == '/')
  {
  }

  lemma SchemeLowered(address: string, scheme: string, after: string)
    requires forall i :: 0 <= i < |after| ==> after[i] == '/'
    requires Scheme(address, scheme) && At(address, |scheme| + 1, after)
    ensures scheme + ":" + after <= Lower(address)
  {
    var n, whole := |scheme|, scheme + ":" + after;
    MarksKeepCase();
    hide LowerChar;
    forall j | 0 <= j < |whole| ensures Lower(address)[j] == whole[j] {
      if j < n {
        assert Lower(address[..n])[j] == LowerChar(address[j]);
      } else if j > n {
        assert address[j] == address[n + 1..n + 1 + |after|][j - n - 1] == after[j - n - 1];
      }
    }
  }

  lemma SameLetters(front: string, scheme: string, address: string, whole: string)
    requires |front| == |scheme| && front <= address && scheme <= whole && whole <= Lower(address)
    ensures Lower(front) == scheme
  {
    forall j | 0 <= j < |front| ensures Lower(front)[j] == scheme[j] {
      assert Lower(address)[j] == whole[j] == scheme[j];
    }
  }

  /** The addresses that menus accept as they are. */
  lemma AcceptedIffSafe(value: string)
    ensures ValidMenuURL(value) <==> Safe(TrimSpace(value))
  {
    hide Lower, TrimSpace, Scheme;
    var v := TrimSpace(value);
    SchemeIs(v, "https", "//");
    SchemeIs(v, "http", "//");
    SchemeIs(v, "mailto", "");
    assert "https" + ":" + "//" == "https://" && "http" + ":" + "//" == "http://" && "mailto" + ":" + "" == "mailto:";
    assert At(v, 7, "") <== |v| >= 7;
    assert "/" <= v <==> |v| > 0 && v[0] == '/';
    assert "//" <= v <==> |v| > 1 && v[0] == '/' && v[1] == '/';
    assert Scheme(v, "mailto") ==> |v| >= 7 by { SchemeLength(v, "mailto"); }
  }

  lemma SchemeLength(address: string, scheme: string)
    ensures Scheme(address, scheme) ==> |address| > |scheme|
  {
  }

  /** A bare host name without white space gets https, if its host is acceptable. */
  ghost predicate BareHost(address: string, hasHost: HostTest) {
    && address != ""
    && address[0] != '/'
    && (forall i :: 0 <= i < |address| ==> address[i] != ' ' && address[i] != '\t' && address[i] != '\r' && address[i] != '\n')
    && hasHost("https://" + address)
  }

  lemma CleanedAddress(value: string, hasHost: HostTest)
    ensures var v := TrimSpace(value);
            NormalizeURL(value, hasHost)
            == if Safe(v) then Some(v) else if BareHost(v, hasHost) then Some("https://" + v) else None
  {
    hide Safe;
    var v := TrimSpace(value);
    AcceptedIffSafe(v);
    assert TrimSpace(v) == v;
    assert v != "" ==> ("/" <= v <==> v[0] == '/');
  }

  // ---------------------------------------------------------------- links

  function Word(kind: string): string { Lower(TrimSpace(kind)) }

  /** Which links of a menu are kept, and as what; "tagindex" is an old word for the list of tags. */
  lemma KeptLinks(item: Item, hasHost: HostTest)
    ensures var kind, text, target := Word(item.kind), TrimSpace(item.text), TrimSpace(item.target);
            NormalizeItem(item, hasHost)
            == if kind in {"home", "archive", "tags", "search", "admin"} then Some(Item(kind, text, "", "", []))
               else if kind == "tagindex" then Some(Item("tags", text, "", "", []))
               else if kind in {"page", "post", "tag"} && target != "" then Some(Item(kind, text, target, "", []))
               else if kind == "url" && NormalizeURL(item.url, hasHost).Some?
                 then Some(Item("url", text, "", NormalizeURL(item.url, hasHost).value, []))
               else if kind == "" && (text != "" || target != "") then Some(Item("", text, target, "", []))
               else None
  {
    hide NormalizeURL, TrimSpace, Lower;
    TrimmedAddress(item.url, hasHost);
  }

  lemma TrimmedAddress(url: string, hasHost: HostTest)
    ensures NormalizeURL(TrimSpace(url), hasHost) == NormalizeURL(url, hasHost)
  {
    hide ValidMenuURL;
    assert TrimSpace(TrimSpace(url)) == TrimSpace(url);
  }

  /** Old custom links are those whose kind spells "custom" in any case, the long s included. */
  lemma OldCustomKind(kind: string)
    ensures var t := TrimSpace(kind);
            IsCustom(kind) <==> |t| == 6 && t[0] in "cC" && t[1] in "uU" && t[2] in ['s', 'S', '\U{017F}'] && t[3] in "tT"
                                && t[4] in "oO" && t[5] in "mM"
  {
    hide TrimSpace;
    var t, w := TrimSpace(kind), "custom";
    assert w[0] == 'c' && w[1] == 'u' && w[2] == 's' && w[3] == 't' && w[4] == 'o' && w[5] == 'm';
  }

  /** The entries of a sidebar that are links, not sections. */
  lemma DirectLinks(item: Item)
    ensures Direct(item)
       <==> || Word(item.kind) in {"page", "post", "tag", "home", "archive", "tags", "search", "admin", "url", "tagindex"}
            || (IsCustom(item.kind) && item.items == [] && !(AllSpace(item.url) && AllSpace(item.target)))
  {
    hide IsCustom, Lower, AllSpace;
  }

  /** The words for the kinds of sections. */
  lemma SectionWords(kind: string)
    ensures var k := Word(kind);
            && SectionType(kind)
               == (if k in {"", "topics", "pages"} then k
                   else if k in {"feeds", "feed", "subscriptions"} then "feeds"
                   else if k in {"recent-posts", "recent", "recent_posts"} then "recent-posts" else "custom")
            && (AutoSection(SectionType(kind)) <==> SectionType(kind) != "custom")
  {
  }

  // ---------------------------------------------------------------- what is shown

  /** What a link shows and where it leads, if it is shown at all. */
  function Shown(item: Item, site: Site, hasHost: HostTest): Option<(string, string)> {
    var kind, target := Word(item.kind), TrimSpace(item.target);
    if kind == "home" then Some(("首页", "/"))
    else if kind == "archive" then Some(("归档", "/archive"))
    else if kind == "tags" then Some(("标签", "/tags"))
    else if kind == "search" then Some(("搜索", "/search"))
    else if kind == "admin" then Some(("后台", "/admin"))
    else if kind == "page" then ShownContent(site.pages, target)
    else if kind == "post" then ShownContent(site.posts, target)
    else if kind == "tag" then ShownContent(site.tags, target)
    else if kind == "url" then match NormalizeURL(item.url, hasHost) case None => None case Some(url) => Some((url, url))
    else None
  }

  function ShownContent(contents: map<string, Content>, slug: string): Option<(string, string)> {
    if slug in contents then Some((contents[slug].title, contents[slug].url)) else None
  }

  /** A link without a text of its own shows the name of what it leads to. */
  lemma LinkShows(item: Item, site: Site, hasHost: HostTest)
    ensures ResolveItem(item, site, hasHost)
         == match Shown(item, site, hasHost)
            case None => None
            case Some((name, url)) => Some(Link(if TrimSpace(item.text) != "" then TrimSpace(item.text) else name, url, 0))
  {
    hide NormalizeURL, TrimSpace, Lower;
  }

  /** The title of a section and what is in it; the automatic ones list the site's own contents. */
  lemma SectionShows(item: Item, site: Site, labels: Labels, hasHost: HostTest)
    requires labels.topics != "" && labels.pages != "" && labels.feeds != "" && labels.recentPosts != "" && labels.custom != ""
    ensures var kind, text := SectionType(item.kind), TrimSpace(item.text);
            match ResolveSection(item, site, labels, hasHost)
            case None => kind in {"", "custom"} && ResolveItems(item.items, site, hasHost) == []
            case Some(section) =>
              && section.kind == kind
              && section.title == (if text != "" then text
                                   else if kind == "topics" then labels.topics
                                   else if kind == "pages" then labels.pages
                                   else if kind == "feeds" then labels.feeds
                                   else if kind == "recent-posts" then labels.recentPosts else labels.custom)
              && (kind == "topics" ==> section.links == site.topics)
              && (kind == "pages" ==> section.links == site.pageList)
              && (kind == "feeds" ==>
                    section.links == [Link(labels.rss, "/feed.xml", 0), Link(labels.sitemap, "/sitemap.xml", 0)])
              && (kind == "recent-posts" ==>
                    section.links <= site.postList
                    && |section.links| == if |site.postList| < 5 then |site.postList| else 5)
              && (kind in {"", "custom"} ==> section.links == ResolveItems(item.items, site, hasHost) != [])
  {
    hide TrimSpace, Lower, ResolveItems;
    SectionWords(item.kind);
  }

  /** A label that is not set has its default. */
  lemma LabelsSet(labels: Labels)
    ensures var l, d := WithDefaults(labels), DEFAULT_LABELS;
            && l.topics == (if AllSpace(labels.topics) then d.topics else labels.topics)
            && l.pages == (if AllSpace(labels.pages) then d.pages else labels.pages)
            && l.feeds == (if AllSpace(labels.feeds) then d.feeds else labels.feeds)
            && l.recentPosts == (if AllSpace(labels.recentPosts) then d.recentPosts else labels.recentPosts)
            && l.custom == (if AllSpace(labels.custom) then d.custom else labels.custom)
            && l.rss == (if AllSpace(labels.rss) then d.rss else labels.rss)
            && l.sitemap == (if AllSpace(labels.sitemap) then d.sitemap else labels.sitemap)
  {
    hide AllSpace;
  }

  /** In the editor an empty sidebar is renamed exactly if its name is blank or was generated. */
  lemma EmptySidebarName(menu: Menu, custom: string, newName: string)
    requires menu.items == []
    ensures Wrapped(menu, custom, newName)
         == if TrimSpace(menu.name) in {"", TrimSpace(custom), "自定义侧边栏", "Custom Sidebar"} then menu.(name := newName) else menu
  {
    hide TrimSpace;
  }

  // ---------------------------------------------------------------- no dead or unsafe link

  ghost predicate Leads(link: Link, site: Site) {
    || link.url in {"/", "/archive", "/tags", "/search", "/admin", "/feed.xml", "/sitemap.xml"}
    || (exists slug :: slug in site.pages && link.url == site.pages[slug].url)
    || (exists slug :: slug in site.posts && link.url == site.posts[slug].url)
    || (exists slug :: slug in site.tags && link.url == site.tags[slug].url)
    || link in site.topics + site.pageList + site.postList
    || Safe(link.url)
  }

  ghost predicate AllLead(links: seq<Link>, site: Site) {
    forall i :: 0 <= i < |links| ==> Leads(links[i], site)
  }

  ghost predicate SectionLinksLead(sections: seq<Section>, site: Site) {
    forall i :: 0 <= i < |sections| ==> AllLead(sections[i].links, site)
  }

  lemma ShownLeads(item: Item, site: Site, hasHost: HostTest)
    ensures match ResolveItem(item, site, hasHost) case None => true case Some(link) => Leads(link, site)
  {
    hide NormalizeURL, ResolveItem, Safe, TrimSpace, Lower;
    LinkShows(item, site, hasHost);
    match NormalizeURL(item.url, hasHost)
    case None =>
    case Some(url) => CleanedIsSafe(item.url, hasHost);
  }

  lemma CleanedIsSafe(value: string, hasHost: HostTest)
    requires NormalizeURL(value, hasHost).Some?
    ensures Safe(NormalizeURL(value, hasHost).value)
  {
    hide Safe, ValidMenuURL, NormalizeURL;
    NormalizedURL(value, hasHost);
    var url := NormalizeURL(value, hasHost).value;
    AcceptedIffSafe(url);
    assert TrimSpace(url) == url;
  }

  lemma {:induction false} ItemsLead(items: seq<Item>, site: Site, hasHost: HostTest)
    ensures AllLead(ResolveItems(items, site, hasHost), site)
  {
    hide ResolveItem, Leads;
    if items != [] {
      ItemsLead(items[..|items| - 1], site, hasHost);
      ShownLeads(items[|items| - 1], site, hasHost);
    }
  }

  lemma SectionLeads(item: Item, site: Site, labels: Labels, hasHost: HostTest)
    ensures match ResolveSection(item, site, labels, hasHost) case None => true case Some(section) => AllLead(section.links, site)
  {
    hide Leads, TrimSpace, SectionType, AutoLinks, AllLead, ResolveItems;
    ItemsLead(item.items, site, hasHost);
    AutoLead(SectionType(item.kind), site, labels);
  }

  lemma AutoLead(kind: string, site: Site, labels: Labels)
    ensures AllLead(AutoLinks(kind, site, labels), site)
  {
    hide Safe;
    forall link | link in site.topics + site.pageList + site.postList ensures Leads(link, site) {}
    assert Leads(Link(labels.rss, "/feed.xml", 0), site) && Leads(Link(labels.sitemap, "/sitemap.xml", 0), site);
    forall i | 0 <= i < |AutoLinks(kind, site, labels)| ensures Leads(AutoLinks(kind, site, labels)[i], site) {
      ListsAreThere(kind, site, labels, i);
    }
  }

  lemma ListsAreThere(kind: string, site: Site, labels: Labels, i: nat)
    requires i < |AutoLinks(kind, site, labels)|
    ensures var link := AutoLinks(kind, site, labels)[i];
            || link in site.topics + site.pageList + site.postList
            || link == Link(labels.rss, "/feed.xml", 0)
            || link == Link(labels.sitemap, "/sitemap.xml", 0)
  {
  }

  lemma {:induction false} SectionsLead(items: seq<Item>, site: Site, labels: Labels, hasHost: HostTest)
    ensures SectionLinksLead(ResolveSections(items, site, labels, hasHost), site)
  {
    hide ResolveSection, AllLead;
    if items != [] {
      var last := |items| - 1;
      SectionsLead(items[..last], site, labels, hasHost);
      SectionLeads(items[last], site, labels, hasHost);
    }
  }

  /** Whatever is stored, every link that a sidebar shows leads to a fixed place of the site, to a content that
      exists, or to a safe address. */
  lemma SidebarLinksLead(menu: Menu, site: Site, labels: Labels, hasHost: HostTest)
    ensures SectionLinksLead(Render(menu, site, WithDefaults(labels), hasHost), site)
  {
    hide ResolveSections, ShownItems, WithDefaults, SectionLinksLead;
    SectionsLead(ShownItems(menu, hasHost), site, WithDefaults(labels), hasHost);
  }
}
