/** What a compiled menu shows: the entries of its File section, and the core commands by id. */
module NativeMenuLaws {
  import opened Wrappers
  import opened Ordering
  import opened StableId
  import opened NativeMenu
  import Text

  /** The place of one contribution is not after that of another. */
  predicate PlacedBefore(a: Contribution, b: Contribution) {
    && a.order <= b.order
    && (a.order == b.order ==> StringLe(a.moduleId, b.moduleId))
    && (a.order == b.order && a.moduleId == b.moduleId ==> StringLe(a.commandId, b.commandId))
  }

  lemma SortedIsPlaced(contributions: seq<Contribution>, i: nat, j: nat)
    requires i < j < |Sorted(contributions)|
    ensures PlacedBefore(Sorted(contributions)[i], Sorted(contributions)[j])
  {
    assert ByPlace(Sorted(contributions)[i], Sorted(contributions)[j]);
    StringLeRefl(Sorted(contributions)[i].moduleId);
  }

  lemma EntriesOfParts(front: seq<Entry>, middle: seq<Entry>, back: seq<Entry>)
    ensures var all := front + middle + back;
            && |all| == |front| + |middle| + |back|
            && (forall i | 0 <= i < |front| :: all[i] == front[i])
            && (forall i | 0 <= i < |middle| :: all[|front| + i] == middle[i])
            && all[|front| + |middle|..] == back
  {
  }

  lemma NewItemsAre(semanticTerminal: bool)
    ensures var items := NewItems(semanticTerminal); var n := if semanticTerminal then 3 else 2;
            && |items| == n
            && (semanticTerminal ==>
                  items[0] == Command("terminal.new-semantic", "New Semantic Terminal", Some("CmdOrCtrl+T")))
            && items[n - 2] == Command("terminal.new-thin", "New Thin Terminal", Some("CmdOrCtrl+Alt+T"))
            && items[n - 1] == Command("core.new-session", "New Session", Some("CmdOrCtrl+Shift+T"))
  {
  }

  /** The contributed entries are sorted by place and carry their own fields. */
  ghost predicate ListsContributions(entries: seq<Entry>, n: nat, contributions: seq<Contribution>) {
    var sorted := Sorted(contributions);
    && |sorted| == |contributions| && multiset(sorted) == multiset(contributions)
    && (forall i, j | 0 <= i < j < |sorted| :: PlacedBefore(sorted[i], sorted[j]))
    && n + |sorted| <= |entries|
    && forall i | 0 <= i < |sorted| ::
         entries[n + i] == Command(sorted[i].commandId, sorted[i].text, sorted[i].accelerator)
  }

  lemma EntriesList(front: seq<Entry>, contributions: seq<Contribution>, back: seq<Entry>)
    ensures ListsContributions(front + Entries(Sorted(contributions)) + back, |front|, contributions)
  {
    var sorted := Sorted(contributions);
    Permutation(sorted, contributions);
    forall i, j | 0 <= i < j < |sorted|
      ensures PlacedBefore(sorted[i], sorted[j])
    {
      SortedIsPlaced(contributions, i, j);
    }
    EntriesOfParts(front, Entries(sorted), back);
  }

  /** The File section has the new items, then one entry for each contribution, in the order of
      their places, with the contribution's own id, label and accelerator, and then its tail. */
  lemma FileSection(semanticTerminal: bool, contributions: seq<Contribution>)
    ensures var file := MenuOf(semanticTerminal, Sorted(contributions))[1];
            var n := if semanticTerminal then 3 else 2; var m := |contributions|;
            && file.id == File && file.text == "File" && |file.entries| == n + m + 4
            && (semanticTerminal ==>
                  file.entries[0] == Command("terminal.new-semantic", "New Semantic Terminal", Some("CmdOrCtrl+T")))
            && file.entries[n - 2] == Command("terminal.new-thin", "New Thin Terminal", Some("CmdOrCtrl+Alt+T"))
            && file.entries[n - 1] == Command("core.new-session", "New Session", Some("CmdOrCtrl+Shift+T"))
            && ListsContributions(file.entries, n, contributions)
            && file.entries[n + m..] == [Separator,
                 Command("core.open-in-editor", "Open in Editor", Some("CmdOrCtrl+E")),
                 Separator, RoleItem(CloseWindow)]
  {
    var items, sorted := NewItems(semanticTerminal), Sorted(contributions);
    NewItemsAre(semanticTerminal);
    EntriesOfParts(items, Entries(sorted), FILE_TAIL);
    EntriesList(items, contributions, FILE_TAIL);
  }

  /** The section has the command as the given entry, or inside that submenu. */
  predicate HasAt(section: Section, entry: Entry, command: Entry) {
    entry in section.entries && (entry == command || (entry.Submenu? && command in entry.entries))
  }

  /** The menu shows the command, in a section or in a submenu of one. */
  ghost predicate Shows(menu: Menu, id: string, text: string, accelerator: Option<string>) {
    exists section, entry :: section in menu && HasAt(section, entry, Command(id, text, accelerator))
  }

  lemma ShownAt(menu: Menu, section: nat, i: nat, id: string, text: string, accelerator: Option<string>)
    requires section < |menu| && i < |menu[section].entries|
    requires menu[section].entries[i] == Command(id, text, accelerator)
    ensures Shows(menu, id, text, accelerator)
  {
    assert menu[section] in menu;
    assert HasAt(menu[section], menu[section].entries[i], Command(id, text, accelerator));
  }

  lemma ShownIn(menu: Menu, section: nat, i: nat, j: nat, id: string, text: string, accelerator: Option<string>)
    requires section < |menu| && i < |menu[section].entries| && menu[section].entries[i].Submenu?
    requires j < |menu[section].entries[i].entries|
    requires menu[section].entries[i].entries[j] == Command(id, text, accelerator)
    ensures Shows(menu, id, text, accelerator)
  {
    assert menu[section] in menu;
    assert HasAt(menu[section], menu[section].entries[i], Command(id, text, accelerator));
  }

  /** The labels and accelerators of the commands of the App section. */
  lemma AppCommands(semanticTerminal: bool, contributions: seq<Contribution>)
    ensures var menu := MenuOf(semanticTerminal, Sorted(contributions));
            && Shows(menu, "core.settings", "Settings\U{2026}", Some("CmdOrCtrl+,"))
            && Shows(menu, "core.quit", "Quit Shipctl", Some("CmdOrCtrl+Q"))
  {
    var menu := MenuOf(semanticTerminal, Sorted(contributions));
    ShownAt(menu, 0, 2, "core.settings", "Settings\U{2026}", Some("CmdOrCtrl+,"));
    ShownAt(menu, 0, 10, "core.quit", "Quit Shipctl", Some("CmdOrCtrl+Q"));
  }

  lemma ViewSection(semanticTerminal: bool, sorted: seq<Contribution>)
    ensures var menu := MenuOf(semanticTerminal, sorted);
            && |menu| == 6 && menu[3].id == View && |menu[3].entries| >= 5
            && menu[3].entries[0] == TABS[0] && menu[3].entries[1] == TABS[1]
            && menu[3].entries[3] == SIDEBARS && menu[3].entries[4] == PANELS
  {
    assert VIEW_ENTRIES[0] == TABS[0] && VIEW_ENTRIES[1] == TABS[1];
    assert VIEW_ENTRIES[3] == SIDEBARS && VIEW_ENTRIES[4] == PANELS;
  }

  /** The labels and accelerators of the tab and sidebar commands of the View section. */
  lemma TabAndSidebarCommands(menu: Menu)
    requires |menu| == 6 && |menu[3].entries| >= 5
    requires menu[3].entries[0] == TABS[0] && menu[3].entries[1] == TABS[1] && menu[3].entries[3] == SIDEBARS
    ensures Shows(menu, "core.next-tab", "Next Tab", Some("CmdOrCtrl+Tab"))
    ensures Shows(menu, "core.previous-tab", "Previous Tab", Some("CmdOrCtrl+Shift+Tab"))
    ensures Shows(menu, "core.toggle-right-sidebar", "Toggle Right Sidebar", None)
    ensures Shows(menu, "core.toggle-left-sidebar", "Toggle Left Sidebar", Some("CmdOrCtrl+B"))
  {
    ShownAt(menu, 3, 0, "core.next-tab", "Next Tab", Some("CmdOrCtrl+Tab"));
    ShownAt(menu, 3, 1, "core.previous-tab", "Previous Tab", Some("CmdOrCtrl+Shift+Tab"));
    ShownIn(menu, 3, 3, 0, "core.toggle-right-sidebar", "Toggle Right Sidebar", None);
    ShownIn(menu, 3, 3, 1, "core.toggle-left-sidebar", "Toggle Left Sidebar", Some("CmdOrCtrl+B"));
  }

  lemma PanelCommands(menu: Menu)
    requires |menu| == 6 && |menu[3].entries| >= 5 && menu[3].entries[4] == PANELS
    ensures Shows(menu, "core.toggle-usage-panel", "Toggle Usage Panel", None)
    ensures Shows(menu, "core.toggle-agents-panel", "Toggle Agents Panel", None)
    ensures Shows(menu, "core.toggle-git-panel", "Toggle Git Panel", None)
    ensures Shows(menu, "core.toggle-projects-panel", "Toggle Projects Panel", None)
  {
    ShownIn(menu, 3, 4, 0, "core.toggle-usage-panel", "Toggle Usage Panel", None);
    ShownIn(menu, 3, 4, 1, "core.toggle-agents-panel", "Toggle Agents Panel", None);
    ShownIn(menu, 3, 4, 2, "core.toggle-git-panel", "Toggle Git Panel", None);
    ShownIn(menu, 3, 4, 3, "core.toggle-projects-panel", "Toggle Projects Panel", None);
  }

  /** The labels and accelerators of the commands of the View section. */
  lemma ViewCommands(semanticTerminal: bool, contributions: seq<Contribution>)
    ensures var menu := MenuOf(semanticTerminal, Sorted(contributions));
            && Shows(menu, "core.next-tab", "Next Tab", Some("CmdOrCtrl+Tab"))
            && Shows(menu, "core.previous-tab", "Previous Tab", Some("CmdOrCtrl+Shift+Tab"))
            && Shows(menu, "core.toggle-right-sidebar", "Toggle Right Sidebar", None)
            && Shows(menu, "core.toggle-left-sidebar", "Toggle Left Sidebar", Some("CmdOrCtrl+B"))
            && Shows(menu, "core.toggle-usage-panel", "Toggle Usage Panel", None)
            && Shows(menu, "core.toggle-agents-panel", "Toggle Agents Panel", None)
            && Shows(menu, "core.toggle-git-panel", "Toggle Git Panel", None)
            && Shows(menu, "core.toggle-projects-panel", "Toggle Projects Panel", None)
  {
    ViewSection(semanticTerminal, Sorted(contributions));
    TabAndSidebarCommands(MenuOf(semanticTerminal, Sorted(contributions)));
    PanelCommands(MenuOf(semanticTerminal, Sorted(contributions)));
  }

  /** What the error for an invalid contribution says of it. */
  lemma FaultsMean(c: Contribution)
    ensures Fault(c) == Some(InvalidModuleId) <==> !Stable(c.moduleId)
    ensures Fault(c) == Some(InvalidCommandId) <==> Stable(c.moduleId) && !Stable(c.commandId)
    ensures Fault(c) == Some(InvalidLabel) <==>
            Stable(c.moduleId) && Stable(c.commandId) && forall x | x in c.text :: Text.RustSpace(x)
    ensures Fault(c) == Some(InvalidAccelerator) ==>
            c.accelerator.Some? && forall x | x in c.accelerator.value :: Text.RustSpace(x)
    ensures Fault(c).None? ==> && (exists x | x in c.text :: !Text.RustSpace(x))
                               && (c.accelerator.Some? ==> exists x | x in c.accelerator.value :: !Text.RustSpace(x))
  {
    BlankMeans(c.text);
    if c.accelerator.Some? {
      BlankMeans(c.accelerator.value);
    }
  }

  lemma BlankMeans(s: string)
    ensures Text.RustBlank(s) <==> forall x | x in s :: Text.RustSpace(x)
  {
    if forall x | x in s :: Text.RustSpace(x) {
      assert forall i | 0 <= i < |s| :: s[i] in s;
    }
  }
}
