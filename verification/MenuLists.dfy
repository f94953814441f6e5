/** The stored lists of menus and of sidebars: their names, IDs and entries, cleaned from front to back. */
module MenuLists {
  import opened Text
  import opened FreshNames
  import opened MenuText
  import opened MenuItems
  import opened Spelling

  datatype Menu = Menu(id: string, name: string, items: seq<Item>)

  /** Menus hold links, sidebars hold sections. */
  datatype List = Menus | Sidebars

  // ---------------------------------------------------------------- lists of menus

  function Prefix(list: List): string { if list == Menus then "menu" else "sidebar" }

  function CleanItems(list: List, items: seq<Item>, hasHost: HostTest): seq<Item> {
    if list == Menus then NormalizeLegacy(items, hasHost) else NormalizeSidebarItems(items, hasHost)
  }

  /** The ID asked for: the given one, else the name, else the position. */
  function BaseID(menu: Menu, index: nat, prefix: string): string {
    var id, named := NormalizeID(menu.id), NormalizeID(TrimSpace(menu.name));
    if id != "" then id else if named != "" then named else prefix + "-" + Decimal(index + 1)
  }

  ghost function IDs(menus: seq<Menu>): set<string> {
    set i | 0 <= i < |menus| :: menus[i].id
  }

  ghost predicate Named(menu: Menu, index: nat, prefix: string, taken: set<string>, out: Menu) {
    && (exists n :: FirstFree(taken, BaseID(menu, index, prefix), n) && out.id == Candidate(BaseID(menu, index, prefix), n))
    && out.name == if TrimSpace(menu.name) == "" then out.id else TrimSpace(menu.name)
  }

  /** `out` is the cleaned list: same order, IDs made unique from front to back. */
  ghost predicate Cleaned(menus: seq<Menu>, list: List, hasHost: HostTest, out: seq<Menu>) {
    && |out| == |menus|
    && (forall i :: 0 <= i < |out| ==> Named(menus[i], i, Prefix(list), IDs(out[..i]), out[i]))
    && (forall i :: 0 <= i < |out| ==> out[i].items == CleanItems(list, menus[i].items, hasHost))
  }

  lemma IDsAppend(menus: seq<Menu>, menu: Menu)
    ensures IDs(menus + [menu]) == IDs(menus) + {menu.id}
  {
    var all := menus + [menu];
    assert all[|menus|].id == menu.id;
    forall i | 0 <= i < |menus| ensures menus[i].id in IDs(all) {
      assert all[i] == menus[i];
    }
  }

  lemma CleanedAppend(menus: seq<Menu>, list: List, hasHost: HostTest, out: seq<Menu>, i: nat, next: Menu)
    requires i < |menus| && Cleaned(menus[..i], list, hasHost, out)
    requires Named(menus[i], i, Prefix(list), IDs(out), next) && next.items == CleanItems(list, menus[i].items, hasHost)
    ensures Cleaned(menus[..i + 1], list, hasHost, out + [next])
  {
    hide Named, CleanItems, IDs;
    var all, raw := out + [next], menus[..i + 1];
    forall k | 0 <= k < |all|
      ensures Named(raw[k], k, Prefix(list), IDs(all[..k]), all[k]) && all[k].items == CleanItems(list, raw[k].items, hasHost)
    {
      if k < i {
        assert all[..k] == out[..k] && raw[k] == menus[..i][k];
      } else {
        assert all[..k] == out;
      }
    }
  }

  method NormalizeMenuCollection(values: seq<Menu>, list: List, hasHost: HostTest) returns (normalized: seq<Menu>)
    ensures Cleaned(values, list, hasHost, normalized)
  {
    hide Cleaned, NormalizeID, IDs, CleanItems, NormalizeLegacy, NormalizeSidebarItems, FirstFree, Candidate;
    normalized := [];
    var usedIDs: set<string> := {};
    NothingCleaned(values, list, hasHost);
    for i := 0 to |values|
      invariant usedIDs == IDs(normalized)
      invariant Cleaned(values[..i], list, hasHost, normalized)
    {
      var menu := values[i];
      var name := TrimSpace(menu.name);
      var id := NormalizeID(menu.id);
      if id == "" {
        id := NormalizeID(name);
      }
      if id == "" {
        id := Prefix(list) + "-" + Decimal(i + 1);
      }
      assert id == BaseID(menu, i, Prefix(list));
      id := FreeName(usedIDs, id);
      usedIDs := usedIDs + {id};
      if name == "" {
        name := id;
      }
      var items;
      if list == Menus {
        var migrated := MigrateLegacyCustomMenuItems(menu.items);
        items := NormalizeMenuItems(migrated, hasHost);
      } else {
        items := NormalizeSidebarCollectionItems(menu.items, hasHost);
      }
      assert items == CleanItems(list, menu.items, hasHost) by { CleanItemsOf(list, menu.items, hasHost); }
      var next := Menu(id, name, items);
      CleanedAppend(values, list, hasHost, normalized, i, next);
      IDsAppend(normalized, next);
      normalized := normalized + [next];
    }
    assert values[..|values|] == values;
  }

  lemma NothingCleaned(menus: seq<Menu>, list: List, hasHost: HostTest)
    ensures Cleaned(menus[..0], list, hasHost, []) && IDs([]) == {}
  {
  }

  lemma CleanItemsOf(list: List, items: seq<Item>, hasHost: HostTest)
    ensures CleanItems(list, items, hasHost)
      == if list == Menus then NormalizeItems(MigrateItems(items), hasHost) else NormalizeSidebarItems(items, hasHost)
  {
  }

  /** The ID a menu asks for, read off what was stored: the words of its ID, else those of its name, else its place. */
  function AskedID(menu: Menu, index: nat, list: List): string {
    if Words(menu.id, Letter) != [] then Spelt(Words(menu.id, Letter), '-')
    else if Words(menu.name, Letter) != [] then Spelt(Words(menu.name, Letter), '-')
    else match list
      case Menus => "menu-" + Decimal(index + 1)
      case Sidebars => "sidebar-" + Decimal(index + 1)
  }

  lemma BaseIsAsked(menu: Menu, index: nat, list: List)
    ensures BaseID(menu, index, Prefix(list)) == AskedID(menu, index, list)
  {
    hide NormalizeID, Words, TrimSpace, Letter, Spelt, IsSpace;
    IDSpells(menu.id);
    IDSpells(TrimSpace(menu.name));
    SpacesShowNothing();
    WordsOfTrimmed(menu.name, Letter);
    SpeltOrNot(menu.id);
    SpeltOrNot(menu.name);
    assert "menu" + "-" == "menu-" && "sidebar" + "-" == "sidebar-";
  }

  lemma SpeltOrNot(value: string)
    ensures Spelt(Words(value, Letter), '-') == "" <==> Words(value, Letter) == []
  {
  }

  /** Each menu gets the ID it asks for, or the first free one numbered from it; unasked, nobody is numbered. */
  lemma MenusGetAskedIDs(menus: seq<Menu>, list: List, hasHost: HostTest, out: seq<Menu>, i: nat)
    requires Cleaned(menus, list, hasHost, out) && i < |menus|
    ensures var asked, taken := AskedID(menus[i], i, list), IDs(out[..i]);
            && (asked !in taken ==> out[i].id == asked)
            && exists n :: FirstFree(taken, asked, n) && out[i].id == Candidate(asked, n)
  {
    hide CleanItems, BaseID, AskedID, IDs;
    assert Named(menus[i], i, Prefix(list), IDs(out[..i]), out[i]);
    BaseIsAsked(menus[i], i, list);
    var asked, taken := AskedID(menus[i], i, list), IDs(out[..i]);
    var n :| FirstFree(taken, asked, n) && out[i].id == Candidate(asked, n);
    if asked !in taken {
      assert Candidate(asked, 1) == asked;
      assert n == 1;
    }
  }

  predicate NormalEntries(list: List, items: seq<Item>, hasHost: HostTest) {
    if list == Menus then NormalItems(items, hasHost) else NormalSidebar(items, hasHost)
  }

  ghost predicate NormalMenu(menu: Menu, list: List, hasHost: HostTest) {
    && NormalID(menu.id) && menu.id != ""
    && Trimmed(menu.name) && menu.name != ""
    && NormalEntries(list, menu.items, hasHost)
  }

  /** What the stored lists promise: usable entries, and IDs that are normal and unique. */
  ghost predicate NormalMenus(menus: seq<Menu>, list: List, hasHost: HostTest) {
    && (forall i :: 0 <= i < |menus| ==> NormalMenu(menus[i], list, hasHost))
    && (forall i, j :: 0 <= i < j < |menus| ==> menus[i].id != menus[j].id)
  }

  lemma PositionIsNormal(prefix: string, index: nat)
    requires prefix == "menu" || prefix == "sidebar"
    ensures NormalID(prefix + "-" + Decimal(index + 1))
  {
    assert NormalID(prefix) by { assert forall i :: 0 <= i < |prefix| ==> Alphanumeric(prefix[i]); }
    if index == 0 {
      CandidateNormal(prefix, 2);
      OneAndTwo();
      OneDigitNormal(prefix);
    } else {
      CandidateNormal(prefix, index + 1);
    }
  }

  lemma OneAndTwo()
    ensures Decimal(1) == "1" && Decimal(2) == "2"
  {
  }

  lemma OneDigitNormal(prefix: string)
    requires NormalID(prefix + "-" + "2")
    ensures NormalID(prefix + "-" + "1")
  {
    var one, two := prefix + "-" + "1", prefix + "-" + "2";
    assert one[..|prefix| + 1] == two[..|prefix| + 1];
    forall i | 0 <= i < |one| ensures Alphanumeric(one[i]) || one[i] == '-' {
      if i < |prefix| + 1 { assert one[i] == one[..|prefix| + 1][i] == two[i]; }
    }
    forall i | 0 <= i < |one| - 1 ensures !(one[i] == '-' && one[i + 1] == '-') {
      assert one[i] == one[..|prefix| + 1][i] == two[i];
      if i + 1 < |prefix| + 1 { assert one[i + 1] == one[..|prefix| + 1][i + 1] == two[i + 1]; }
    }
    assert one[0] == one[..|prefix| + 1][0] == two[0];
  }

  lemma BaseIsNormal(menu: Menu, index: nat, list: List)
    ensures NormalID(BaseID(menu, index, Prefix(list))) && BaseID(menu, index, Prefix(list)) != ""
  {
    hide NormalizeID, NormalID;
    NormalizeIDNormal(menu.id);
    NormalizeIDNormal(TrimSpace(menu.name));
    PositionIsNormal(Prefix(list), index);
  }

  lemma NamedIsNormal(menu: Menu, index: nat, list: List, taken: set<string>, out: Menu)
    requires Named(menu, index, Prefix(list), taken, out)
    ensures NormalID(out.id) && out.id != "" && Trimmed(out.name) && out.name != "" && out.id !in taken
  {
    hide NormalID, BaseID, Trimmed, TrimSpace;
    var base := BaseID(menu, index, Prefix(list));
    var n :| FirstFree(taken, base, n) && out.id == Candidate(base, n);
    BaseIsNormal(menu, index, list);
    CandidateNormal(base, n);
    assert Trimmed(out.id) by { NormalIDTrimmed(out.id); }
  }

  lemma NormalIDTrimmed(id: string)
    requires NormalID(id)
    ensures Trimmed(id) && TrimSpace(id) == id
  {
    JoinedIsClean(id, '-');
  }

  lemma CleanItemsNormal(list: List, items: seq<Item>, hasHost: HostTest)
    ensures NormalEntries(list, CleanItems(list, items, hasHost), hasHost)
  {
    hide NormalItems, NormalSidebar, NormalizeSidebarItems;
    NormalizedItems(MigrateItems(items), hasHost);
    NormalizedSidebar(items, hasHost);
  }

  lemma CleanedIsNormal(menus: seq<Menu>, list: List, hasHost: HostTest, out: seq<Menu>)
    requires Cleaned(menus, list, hasHost, out)
    ensures NormalMenus(out, list, hasHost)
  {
    hide Named, CleanItems, NormalEntries, NormalID, Trimmed;
    forall i | 0 <= i < |out| ensures NormalMenu(out[i], list, hasHost) && out[i].id !in IDs(out[..i]) {
      NamedIsNormal(menus[i], i, list, IDs(out[..i]), out[i]);
      CleanItemsNormal(list, menus[i].items, hasHost);
    }
    forall i, j | 0 <= i < j < |out| ensures out[i].id != out[j].id {
      assert out[..j][i] == out[i];
      assert out[..j][i].id in IDs(out[..j]);
    }
  }

  lemma NormalItemsMigrated(items: seq<Item>, hasHost: HostTest)
    requires NormalItems(items, hasHost)
    ensures MigrateItems(items) == items
  {
    hide ContentKind, PlaceKind, SafeURL, Trimmed;
    forall i | 0 <= i < |items| ensures Migrate(items[i]) == items[i] {
      assert NormalItem(items[i], hasHost);
      if items[i].kind == "" {
        assert !IsCustom("");
      } else {
        KnownKindsNotCustom(items[i].kind);
      }
    }
  }

  lemma CleanItemsKept(list: List, items: seq<Item>, hasHost: HostTest)
    requires NormalEntries(list, items, hasHost)
    ensures CleanItems(list, items, hasHost) == items
  {
    hide NormalItems, NormalSidebar, NormalizeSidebarItems, NormalizeItems, MigrateItems;
    if list == Menus {
      NormalItemsMigrated(items, hasHost);
      NormalItemsKept(items, hasHost);
    } else {
      NormalSidebarKept(items, hasHost);
    }
  }

  lemma NamedKept(menu: Menu, index: nat, prefix: string, taken: set<string>, out: Menu)
    requires Named(menu, index, prefix, taken, out)
    requires NormalID(menu.id) && menu.id != "" && Trimmed(menu.name) && menu.name != "" && menu.id !in taken
    ensures out.id == menu.id && out.name == menu.name
  {
    hide NormalID, NormalizeID, Trimmed;
    NormalIDKept(menu.id);
    assert BaseID(menu, index, prefix) == menu.id;
    assert FirstFree(taken, menu.id, 1);
    var n :| FirstFree(taken, menu.id, n) && out.id == Candidate(menu.id, n);
    FirstFreeUnique(taken, menu.id, 1, n);
  }

  lemma {:induction false} NormalMenusKeptUpTo(menus: seq<Menu>, list: List, hasHost: HostTest, out: seq<Menu>, n: nat)
    requires NormalMenus(menus, list, hasHost) && Cleaned(menus, list, hasHost, out) && n <= |out|
    ensures out[..n] == menus[..n]
  {
    hide Named, CleanItems, NormalEntries, NormalID, Trimmed;
    if n > 0 {
      var last := n - 1;
      NormalMenusKeptUpTo(menus, list, hasHost, out, last);
      assert NormalMenu(menus[last], list, hasHost);
      assert menus[last].id !in IDs(out[..last]) by {
        forall i | 0 <= i < last ensures out[..last][i].id != menus[last].id {
          assert out[..last][i] == menus[..last][i] == menus[i];
        }
      }
      NamedKept(menus[last], last, Prefix(list), IDs(out[..last]), out[last]);
      CleanItemsKept(list, menus[last].items, hasHost);
      assert out[..n] == out[..last] + [out[last]] && menus[..n] == menus[..last] + [menus[last]];
    }
  }

  /** A list that is in order is left alone. */
  lemma NormalMenusKept(menus: seq<Menu>, list: List, hasHost: HostTest, out: seq<Menu>)
    requires NormalMenus(menus, list, hasHost) && Cleaned(menus, list, hasHost, out)
    ensures out == menus
  {
    hide NormalMenus;
    NormalMenusKeptUpTo(menus, list, hasHost, out, |out|);
    assert out[..|out|] == out && menus[..|out|] == menus;
  }
}
