/** The static native-menu compiler. */
module NativeMenu {
  import opened Wrappers
  import opened Ordering
  import opened StableId
  import Text

  /** A declaration from a bundled module. There is one slot, the File menu's new-item group. */
  datatype Contribution = Contribution(moduleId: string, commandId: string, text: string,
                                       accelerator: Option<string>, order: int)

  datatype Role = About | Services | Hide | HideOthers | ShowAll | Quit | CloseWindow | Undo | Redo
                | Cut | Copy | Paste | SelectAll | Fullscreen | Minimize | Maximize

  datatype Entry =
    | Command(id: string, text: string, accelerator: Option<string>)
    | Submenu(id: string, text: string, entries: seq<Entry>)
    | Separator
    | RoleItem(role: Role)

  datatype SectionId = App | File | Edit | View | Window | Help

  datatype Section = Section(id: SectionId, text: string, entries: seq<Entry>)

  type Menu = seq<Section>

  datatype Error = InvalidModuleId | InvalidCommandId | InvalidLabel | InvalidAccelerator | DuplicateCommandId

  // ----- the walk over commands -----

  function CommandIds(entries: seq<Entry>): seq<string>
    decreases entries
  {
    if entries == [] then [] else EntryIds(entries[0]) + CommandIds(entries[1..])
  }

  function EntryIds(entry: Entry): seq<string>
    decreases entry
  {
    match entry
    case Command(id, _, _) => [id]
    case Submenu(_, _, inner) => CommandIds(inner)
    case _ => []
  }

  function MenuCommandIds(menu: Menu): seq<string> {
    if menu == [] then [] else CommandIds(menu[0].entries) + MenuCommandIds(menu[1..])
  }

  lemma {:induction false} CommandIdsAppend(a: seq<Entry>, b: seq<Entry>)
    ensures CommandIds(a + b) == CommandIds(a) + CommandIds(b)
    decreases a
  {
    if a == [] {
      assert a + b == b;
    } else {
      assert (a + b)[1..] == a[1..] + b;
      CommandIdsAppend(a[1..], b);
    }
  }

  lemma CommandIdsSnoc(entries: seq<Entry>, i: nat)
    requires i < |entries|
    ensures CommandIds(entries[..i + 1]) == CommandIds(entries[..i]) + EntryIds(entries[i])
  {
    assert entries[..i + 1] == entries[..i] + [entries[i]];
    CommandIdsAppend(entries[..i], [entries[i]]);
    assert CommandIds([entries[i]]) == EntryIds(entries[i]) + CommandIds([]);
  }

  /** `collect_command_ids`: appends to the ids collected so far, going into submenus. */
  method CollectCommandIds(entries: seq<Entry>, collected: seq<string>) returns (ids: seq<string>)
    ensures ids == collected + CommandIds(entries)
    decreases entries
  {
    ids := collected;
    for i := 0 to |entries|
      invariant ids == collected + CommandIds(entries[..i])
    {
      CommandIdsSnoc(entries, i);
      match entries[i]
      case Command(id, _, _) => ids := ids + [id];
      case Submenu(_, _, inner) => ids := CollectCommandIds(inner, ids);
      case _ =>
    }
    assert entries[..|entries|] == entries;
  }

  // ----- the compiler -----

  /** `(slot, order, module_id, command_id)`, compared as Rust compares tuples. */
  function ByPlace(a: Contribution, b: Contribution): bool {
    || a.order < b.order
    || (a.order == b.order &&
        if a.moduleId == b.moduleId then StringLe(a.commandId, b.commandId) else StringLe(a.moduleId, b.moduleId))
  }

  lemma ByPlaceIsAPreorder()
    ensures Preorder(ByPlace)
  {
    StringLeIsATotalOrder();
  }

  function Sorted(contributions: seq<Contribution>): (r: seq<Contribution>)
    ensures SortedBy(r, ByPlace) && multiset(r) == multiset(contributions)
  {
    ByPlaceIsAPreorder();
    Sort(contributions, ByPlace)
  }

  ghost predicate Valid(c: Contribution) {
    && Stable(c.moduleId)
    && Stable(c.commandId)
    && !Text.RustBlank(c.text)
    && (c.accelerator.Some? ==> !Text.RustBlank(c.accelerator.value))
  }

  ghost function Fault(c: Contribution): Option<Error> {
    if !Stable(c.moduleId) then Some(InvalidModuleId)
    else if !Stable(c.commandId) then Some(InvalidCommandId)
    else if Text.RustBlank(c.text) then Some(InvalidLabel)
    else if c.accelerator.Some? && Text.RustBlank(c.accelerator.value) then Some(InvalidAccelerator)
    else None
  }

  method ValidateContribution(c: Contribution) returns (fault: Option<Error>)
    ensures fault == Fault(c)
    ensures fault.None? <==> Valid(c)
  {
    var moduleIdIsStable := IsStableDottedId(c.moduleId);
    if !moduleIdIsStable {
      return Some(InvalidModuleId);
    }
    var commandIdIsStable := IsStableDottedId(c.commandId);
    if !commandIdIsStable {
      return Some(InvalidCommandId);
    }
    if Text.RustBlank(c.text) {
      return Some(InvalidLabel);
    }
    if c.accelerator.Some? && Text.RustBlank(c.accelerator.value) {
      return Some(InvalidAccelerator);
    }
    return None;
  }

  const SEMANTIC := "terminal.new-semantic"

  function NewIds(semanticTerminal: bool): seq<string> {
    (if semanticTerminal then [SEMANTIC] else []) + ["terminal.new-thin", "core.new-session"]
  }

  const OPEN := "core.open-in-editor"
  const APP_IDS := ["core.settings", "core.quit"]
  const TAB_IDS := ["core.next-tab", "core.previous-tab"]
  const SIDEBAR_IDS := ["core.toggle-right-sidebar", "core.toggle-left-sidebar"]
  const PANEL_IDS := [
    "core.toggle-usage-panel", "core.toggle-agents-panel", "core.toggle-git-panel", "core.toggle-projects-panel"]

  /** `core_command_ids`, as the list it is collected from. */
  function CoreCommandIds(semanticTerminal: bool): seq<string> {
    NewIds(semanticTerminal) + [OPEN] + APP_IDS + (TAB_IDS + SIDEBAR_IDS + PANEL_IDS)
  }

  const NEW_SEMANTIC := Command(SEMANTIC, "New Semantic Terminal", Some("CmdOrCtrl+T"))

  const ALWAYS_NEW: seq<Entry> := [
    Command("terminal.new-thin", "New Thin Terminal", Some("CmdOrCtrl+Alt+T")),
    Command("core.new-session", "New Session", Some("CmdOrCtrl+Shift+T"))]

  function NewItems(semanticTerminal: bool): seq<Entry> {
    (if semanticTerminal then [NEW_SEMANTIC] else []) + ALWAYS_NEW
  }

  const FILE_TAIL: seq<Entry> := [
    Separator,
    Command("core.open-in-editor", "Open in Editor", Some("CmdOrCtrl+E")),
    Separator,
    RoleItem(CloseWindow)]

  const APP_ENTRIES: seq<Entry> := [
    RoleItem(About), Separator,
    Command("core.settings", "Settings\U{2026}", Some("CmdOrCtrl+,")), Separator,
    RoleItem(Services), Separator,
    RoleItem(Hide), RoleItem(HideOthers), RoleItem(ShowAll), Separator,
    Command("core.quit", "Quit Shipctl", Some("CmdOrCtrl+Q"))]

  const EDIT_ENTRIES: seq<Entry> := [
    RoleItem(Undo), RoleItem(Redo), Separator, RoleItem(Cut), RoleItem(Copy), RoleItem(Paste), Separator,
    RoleItem(SelectAll)]

  const SIDEBARS := Submenu("shipctl.view.sidebars", "Sidebars", [
    Command("core.toggle-right-sidebar", "Toggle Right Sidebar", None),
    Command("core.toggle-left-sidebar", "Toggle Left Sidebar", Some("CmdOrCtrl+B"))])

  const PANELS := Submenu("shipctl.view.panels", "Panels", [
    Command("core.toggle-usage-panel", "Toggle Usage Panel", None),
    Command("core.toggle-agents-panel", "Toggle Agents Panel", None),
    Command("core.toggle-git-panel", "Toggle Git Panel", None),
    Command("core.toggle-projects-panel", "Toggle Projects Panel", None)])

  const TABS: seq<Entry> := [
    Command("core.next-tab", "Next Tab", Some("CmdOrCtrl+Tab")),
    Command("core.previous-tab", "Previous Tab", Some("CmdOrCtrl+Shift+Tab")),
    Separator]

  const VIEW_TAIL: seq<Entry> := [Separator, RoleItem(Fullscreen)]

  const VIEW_ENTRIES: seq<Entry> := TABS + ([SIDEBARS, PANELS] + VIEW_TAIL)

  const WINDOW_ENTRIES: seq<Entry> := [RoleItem(Minimize), RoleItem(Maximize), Separator, RoleItem(CloseWindow)]

  function EntryOf(c: Contribution): Entry {
    Command(c.commandId, c.text, c.accelerator)
  }

  function MenuOf(semanticTerminal: bool, sorted: seq<Contribution>): Menu {
    [Section(App, "Shipctl", APP_ENTRIES),
     Section(File, "File", NewItems(semanticTerminal) + Entries(sorted) + FILE_TAIL),
     Section(Edit, "Edit", EDIT_ENTRIES),
     Section(View, "View", VIEW_ENTRIES),
     Section(Window, "Window", WINDOW_ENTRIES),
     Section(Help, "Help", [])]
  }

  function Entries(sorted: seq<Contribution>): seq<Entry> {
    seq(|sorted|, i requires 0 <= i < |sorted| => EntryOf(sorted[i]))
  }

  function Ids(contributions: seq<Contribution>): seq<string> {
    seq(|contributions|, i requires 0 <= i < |contributions| => contributions[i].commandId)
  }

  /** The condition on the input under which a menu with these core commands is compiled. */
  ghost predicate Compiles(core: seq<string>, contributions: seq<Contribution>) {
    && (forall c | c in contributions :: Valid(c) && c.commandId !in core)
    && NoRepeats(Ids(contributions))
  }

  /** Contribution `i` is the first at fault, and `error` says how. */
  ghost predicate FirstFault(core: seq<string>, sorted: seq<Contribution>, i: nat, error: Error)
    requires i < |sorted|
  {
    && Compiles(core, sorted[..i])
    && if Valid(sorted[i]) then error.DuplicateCommandId? && sorted[i].commandId in core + Ids(sorted[..i])
       else Some(error) == Fault(sorted[i])
  }

  lemma CompilesGrows(core: seq<string>, sorted: seq<Contribution>, i: nat)
    requires i < |sorted| && Compiles(core, sorted[..i])
    ensures Ids(sorted[..i + 1]) == Ids(sorted[..i]) + [sorted[i].commandId]
    ensures Compiles(core, sorted[..i + 1]) <==> Valid(sorted[i]) && sorted[i].commandId !in core + Ids(sorted[..i])
  {
    var before, after := sorted[..i], sorted[..i + 1];
    assert after == before + [sorted[i]];
    assert Ids(after) == Ids(before) + [sorted[i].commandId];
    if sorted[i].commandId in Ids(before) {
      var j :| 0 <= j < i && Ids(before)[j] == sorted[i].commandId;
      assert Ids(after)[j] == Ids(after)[i];
    }
  }

  /** The error that walking a sorted list reports, given the ids that are taken. */
  ghost function Report(taken: set<string>, sorted: seq<Contribution>): Option<Error>
    decreases sorted
  {
    if sorted == [] then None
    else if Fault(sorted[0]).Some? then Fault(sorted[0])
    else if sorted[0].commandId in taken then Some(DuplicateCommandId)
    else Report(taken + {sorted[0].commandId}, sorted[1..])
  }

  ghost function IdSet(ids: seq<string>): set<string> {
    set id | id in ids
  }

  lemma {:induction false} ReportAppend(taken: set<string>, a: seq<Contribution>, b: seq<Contribution>)
    ensures Report(taken, a + b) ==
            if Report(taken, a).Some? then Report(taken, a) else Report(taken + IdSet(Ids(a)), b)
    decreases a
  {
    if a == [] {
      assert a + b == b && taken + IdSet(Ids(a)) == taken;
    } else {
      assert (a + b)[1..] == a[1..] + b;
      ReportAppend(taken + {a[0].commandId}, a[1..], b);
      assert Ids(a) == [a[0].commandId] + Ids(a[1..]);
      assert taken + {a[0].commandId} + IdSet(Ids(a[1..])) == taken + IdSet(Ids(a));
    }
  }

  lemma OneReport(taken: set<string>, c: Contribution)
    ensures Report(taken, [c]) ==
            if !Valid(c) then Fault(c) else if c.commandId in taken then Some(DuplicateCommandId) else None
  {
    assert [c][1..] == [];
  }

  /** Nothing is reported exactly when the list compiles. */
  lemma {:induction false} NoReport(core: seq<string>, sorted: seq<Contribution>)
    ensures Report(IdSet(core), sorted).None? <==> Compiles(core, sorted)
  {
    if sorted != [] {
      var n := |sorted| - 1;
      NoReport(core, sorted[..n]);
      assert sorted[..n + 1] == sorted == sorted[..n] + [sorted[n]];
      ReportAppend(IdSet(core), sorted[..n], [sorted[n]]);
      OneReport(IdSet(core) + IdSet(Ids(sorted[..n])), sorted[n]);
      if Compiles(core, sorted[..n]) {
        CompilesGrows(core, sorted, n);
      } else {
        PrefixCompiles(core, sorted, n);
      }
    }
  }

  lemma PrefixCompiles(core: seq<string>, sorted: seq<Contribution>, n: nat)
    requires n <= |sorted|
    ensures Compiles(core, sorted) ==> Compiles(core, sorted[..n])
  {
    assert forall c | c in sorted[..n] :: c in sorted;
    assert forall j | 0 <= j < n :: Ids(sorted[..n])[j] == Ids(sorted)[j];
  }

  /** After a list without a fault, the next contribution decides if it has one. */
  lemma ReportAt(taken: set<string>, front: seq<Contribution>, c: Contribution, back: seq<Contribution>)
    requires Report(taken, front).None? && Report(taken + IdSet(Ids(front)), [c]).Some?
    ensures Report(taken, front + ([c] + back)) == Report(taken + IdSet(Ids(front)), [c])
  {
    ReportAppend(taken, front, [c] + back);
    ReportAppend(taken + IdSet(Ids(front)), [c], back);
  }

  lemma FaultAfter(core: seq<string>, front: seq<Contribution>, c: Contribution, back: seq<Contribution>, error: Error)
    requires Compiles(core, front)
    requires if Valid(c) then error.DuplicateCommandId? && c.commandId in core + Ids(front) else Some(error) == Fault(c)
    ensures Report(IdSet(core), front + ([c] + back)) == Some(error)
  {
    NoReport(core, front);
    OneReport(IdSet(core) + IdSet(Ids(front)), c);
    ReportAt(IdSet(core), front, c, back);
  }

  lemma ReportOfParts(taken: set<string>, s: seq<Contribution>, i: nat)
    requires i < |s|
    ensures Report(taken, s) == Report(taken, s[..i] + ([s[i]] + s[i + 1..]))
  {
    assert s == s[..i] + ([s[i]] + s[i + 1..]);
  }

  /** The first fault is what is reported. */
  lemma FaultIsReported(core: seq<string>, sorted: seq<Contribution>, i: nat, error: Error)
    requires i < |sorted| && FirstFault(core, sorted, i, error)
    ensures Report(IdSet(core), sorted) == Some(error)
  {
    ReportOfParts(IdSet(core), sorted, i);
    FaultAfter(core, sorted[..i], sorted[i], sorted[i + 1..], error);
  }

  lemma FaultStops(core: seq<string>, sorted: seq<Contribution>, i: nat)
    requires i < |sorted| && !Compiles(core, sorted[..i + 1])
    ensures !Compiles(core, sorted)
  {
    var part := sorted[..i + 1];
    assert forall c | c in part :: c in sorted;
    assert forall j | 0 <= j <= i :: Ids(part)[j] == Ids(sorted)[j];
  }

  /** The loop over the sorted contributions. */
  method AddContributions(core: seq<string>, items: seq<Entry>, sorted: seq<Contribution>)
    returns (r: Result<seq<Entry>, Error>)
    ensures r.Success? <==> Compiles(core, sorted)
    ensures r.Success? ==> r.value == items + Entries(sorted)
    ensures r.Failure? ==> exists i | 0 <= i < |sorted| :: FirstFault(core, sorted, i, r.error)
  {
    var commandIds := set id | id in core;
    var entries := items;
    for i := 0 to |sorted|
      invariant Compiles(core, sorted[..i])
      invariant commandIds == set id | id in core + Ids(sorted[..i])
      invariant entries == items + Entries(sorted[..i])
    {
      CompilesGrows(core, sorted, i);
      var fault := ValidateContribution(sorted[i]);
      if fault.Some? {
        assert FirstFault(core, sorted, i, fault.value);
        FaultStops(core, sorted, i);
        return Failure(fault.value);
      }
      if sorted[i].commandId in commandIds {
        assert FirstFault(core, sorted, i, DuplicateCommandId);
        FaultStops(core, sorted, i);
        return Failure(DuplicateCommandId);
      }
      commandIds := commandIds + {sorted[i].commandId};
      entries := entries + [EntryOf(sorted[i])];
    }
    assert sorted[..|sorted|] == sorted;
    r := Success(entries);
  }

  method Compile(semanticTerminal: bool, contributions: seq<Contribution>) returns (r: Result<Menu, Error>)
    ensures r.Success? <==> Compiles(CoreCommandIds(semanticTerminal), Sorted(contributions))
    ensures r.Success? ==> r.value == MenuOf(semanticTerminal, Sorted(contributions))
    ensures r.Failure? ==> exists i | 0 <= i < |Sorted(contributions)| ::
                             FirstFault(CoreCommandIds(semanticTerminal), Sorted(contributions), i, r.error)
    ensures Report(IdSet(CoreCommandIds(semanticTerminal)), Sorted(contributions)) ==
            if r.Success? then None else Some(r.error)
  {
    var core, sorted := CoreCommandIds(semanticTerminal), Sorted(contributions);
    var added := AddContributions(core, NewItems(semanticTerminal), sorted);
    NoReport(core, sorted);
    if added.Failure? {
      ghost var i :| 0 <= i < |sorted| && FirstFault(core, sorted, i, added.error);
      FaultIsReported(core, sorted, i, added.error);
      return Failure(added.error);
    }
    r := Success([
      Section(App, "Shipctl", APP_ENTRIES),
      Section(File, "File", added.value + FILE_TAIL),
      Section(Edit, "Edit", EDIT_ENTRIES),
      Section(View, "View", VIEW_ENTRIES),
      Section(Window, "Window", WINDOW_ENTRIES),
      Section(Help, "Help", [])]);
  }

  // ----- the commands of a compiled menu -----

  lemma {:induction false} EntriesIds(sorted: seq<Contribution>)
    ensures CommandIds(Entries(sorted)) == Ids(sorted)
  {
    if sorted != [] {
      EntriesIds(sorted[1..]);
      assert Entries(sorted)[1..] == Entries(sorted[1..]);
      assert Ids(sorted) == [sorted[0].commandId] + Ids(sorted[1..]);
    }
  }

  lemma AppIds()
    ensures CommandIds(APP_ENTRIES) == APP_IDS
  {
  }

  lemma ViewIds()
    ensures CommandIds(VIEW_ENTRIES) == TAB_IDS + SIDEBAR_IDS + PANEL_IDS
  {
    assert CommandIds(TABS) == TAB_IDS;
    assert EntryIds(SIDEBARS) == SIDEBAR_IDS && EntryIds(PANELS) == PANEL_IDS;
    assert CommandIds([PANELS]) == PANEL_IDS + CommandIds([]);
    assert CommandIds([SIDEBARS, PANELS]) == SIDEBAR_IDS + CommandIds([PANELS]) by {
      assert [SIDEBARS, PANELS][1..] == [PANELS];
    }
    assert CommandIds(VIEW_TAIL) == [];
    CommandIdsAppend([SIDEBARS, PANELS], VIEW_TAIL);
    CommandIdsAppend(TABS, [SIDEBARS, PANELS] + VIEW_TAIL);
  }

  lemma NewItemIds(semanticTerminal: bool)
    ensures CommandIds(NewItems(semanticTerminal)) == NewIds(semanticTerminal)
  {
    assert CommandIds(ALWAYS_NEW) == ["terminal.new-thin", "core.new-session"];
    CommandIdsAppend(if semanticTerminal then [NEW_SEMANTIC] else [], ALWAYS_NEW);
  }

  lemma FileIds(semanticTerminal: bool, sorted: seq<Contribution>)
    ensures CommandIds(NewItems(semanticTerminal) + Entries(sorted) + FILE_TAIL)
         == NewIds(semanticTerminal) + Ids(sorted) + [OPEN]
  {
    CommandIdsAppend(NewItems(semanticTerminal) + Entries(sorted), FILE_TAIL);
    CommandIdsAppend(NewItems(semanticTerminal), Entries(sorted));
    NewItemIds(semanticTerminal);
    EntriesIds(sorted);
    assert CommandIds(FILE_TAIL) == [OPEN];
  }

  lemma SixSections(menu: Menu)
    requires |menu| == 6
    ensures MenuCommandIds(menu) ==
            CommandIds(menu[0].entries) + (CommandIds(menu[1].entries) + (CommandIds(menu[2].entries)
            + (CommandIds(menu[3].entries) + (CommandIds(menu[4].entries) + (CommandIds(menu[5].entries) + [])))))
  {
    assert menu[5..][1..] == [] && menu[4..][1..] == menu[5..] && menu[3..][1..] == menu[4..];
    assert menu[2..][1..] == menu[3..] && menu[1..][1..] == menu[2..];
    assert MenuCommandIds(menu[5..]) == CommandIds(menu[5].entries) + [];
    assert MenuCommandIds(menu[4..]) == CommandIds(menu[4].entries) + MenuCommandIds(menu[5..]);
    assert MenuCommandIds(menu[3..]) == CommandIds(menu[3].entries) + MenuCommandIds(menu[4..]);
    assert MenuCommandIds(menu[2..]) == CommandIds(menu[2].entries) + MenuCommandIds(menu[3..]);
    assert MenuCommandIds(menu[1..]) == CommandIds(menu[1].entries) + MenuCommandIds(menu[2..]);
  }

  /** The walk of a whole menu, submenus included. */
  lemma WalkedIds(semanticTerminal: bool, sorted: seq<Contribution>)
    ensures MenuCommandIds(MenuOf(semanticTerminal, sorted)) ==
            APP_IDS + (NewIds(semanticTerminal) + Ids(sorted) + [OPEN] +
                       ([] + (TAB_IDS + SIDEBAR_IDS + PANEL_IDS + ([] + ([] + [])))))
  {
    SixSections(MenuOf(semanticTerminal, sorted));
    AppIds();
    FileIds(semanticTerminal, sorted);
    ViewIds();
    OtherIds();
  }

  lemma OtherIds()
    ensures CommandIds(EDIT_ENTRIES) == CommandIds(WINDOW_ENTRIES) == CommandIds([]) == []
  {
  }

  /** Lengths and thirteenth characters tell the core ids apart. */
  lemma CoreIdsAreDistinct(semanticTerminal: bool)
    ensures NoRepeats(CoreCommandIds(semanticTerminal))
  {
    var ids := CoreCommandIds(true);
    var lengths := [21, 17, 16, 19, 13, 9, 13, 17, 25, 24, 23, 24, 21, 26];
    assert forall i | 0 <= i < |ids| :: |ids[i]| == lengths[i];
    assert ids[0][12] == '-' && ids[12][12] == 'g';
    assert ids[1][12] == '-' && ids[7][12] == 's';
    assert ids[4][12] == 's' && ids[6][12] == 'b';
    assert ids[9][12] == 'l' && ids[11][12] == 'a';
    forall i, j | 0 <= i < j < |ids|
      ensures ids[i] != ids[j]
    {
      if lengths[i] == lengths[j] {
        assert ids[i][12] != ids[j][12];
      }
    }
    assert CoreCommandIds(false) == ids[1..];
  }

  lemma Rearranged(app: seq<string>, first: seq<string>, added: seq<string>, open: seq<string>, view: seq<string>)
    ensures multiset(app + (first + added + open + ([] + (view + ([] + ([] + []))))))
         == multiset(first + open + app + view) + multiset(added)
  {
  }

  lemma MergedWithoutRepeats(core: seq<string>, added: seq<string>, all: seq<string>)
    requires NoRepeats(core) && NoRepeats(added) && (forall id | id in added :: id !in core)
    requires multiset(all) == multiset(core) + multiset(added)
    ensures NoRepeats(all)
  {
    NoRepeatsCounts(core);
    NoRepeatsCounts(added);
    NoRepeatsCounts(all);
    forall id
      ensures multiset(all)[id] <= 1
    {
      assert id in added <==> id in multiset(added);
      assert id in core <==> id in multiset(core);
    }
  }

  /** The commands of a compiled menu, found by walking its submenus, are the core commands
      and the contributed ones, each exactly once. */
  lemma CompiledCommands(semanticTerminal: bool, sorted: seq<Contribution>)
    requires Compiles(CoreCommandIds(semanticTerminal), sorted)
    ensures var ids := MenuCommandIds(MenuOf(semanticTerminal, sorted));
            && NoRepeats(ids)
            && multiset(ids) == multiset(CoreCommandIds(semanticTerminal)) + multiset(Ids(sorted))
  {
    var core, added, ids := CoreCommandIds(semanticTerminal), Ids(sorted),
        MenuCommandIds(MenuOf(semanticTerminal, sorted));
    WalkedIds(semanticTerminal, sorted);
    Rearranged(APP_IDS, NewIds(semanticTerminal), added, [OPEN], TAB_IDS + SIDEBAR_IDS + PANEL_IDS);
    CoreIdsAreDistinct(semanticTerminal);
    forall id | id in added
      ensures id !in core
    {
      var i :| 0 <= i < |sorted| && sorted[i].commandId == id;
      assert sorted[i] in sorted;
    }
    MergedWithoutRepeats(core, added, ids);
  }

  // ----- order of the input -----

  /** Ids are distinct when contributions are, and no two contributions share one. */
  lemma DistinctIds(a: seq<Contribution>)
    ensures NoRepeats(Ids(a)) <==>
            NoRepeats(a) && forall x, y | x in a && y in a && x.commandId == y.commandId :: x == y
  {
    if NoRepeats(Ids(a)) {
      forall i, j | 0 <= i < j < |a|
        ensures a[i] != a[j]
      {
        assert Ids(a)[i] != Ids(a)[j];
      }
      forall x, y | x in a && y in a && x.commandId == y.commandId
        ensures x == y
      {
        var i :| 0 <= i < |a| && a[i] == x;
        var j :| 0 <= j < |a| && a[j] == y;
        assert Ids(a)[i] == Ids(a)[j];
      }
    } else {
      var i, j :| 0 <= i < j < |a| && Ids(a)[i] == Ids(a)[j];
      assert a[i] in a && a[j] in a;
    }
  }

  /** Permuting the contributions changes neither whether the menu compiles nor the menu. */
  lemma OrderOfContributionsIsForgotten(core: seq<string>, a: seq<Contribution>, b: seq<Contribution>)
    requires multiset(a) == multiset(b)
    ensures Compiles(core, Sorted(a)) <==> Compiles(core, a)
    ensures Compiles(core, a) <==> Compiles(core, b)
    ensures Compiles(core, a) ==> Sorted(a) == Sorted(b)
  {
    Permutation(a, b);
    Permutation(Sorted(a), a);
    Permutation(Sorted(b), b);
    DistinctIds(Sorted(a));
    DistinctIds(a);
    DistinctIds(b);
    if Compiles(core, a) {
      DistinctIdsSortOneWay(Sorted(a), Sorted(b));
    }
  }

  lemma DistinctIdsSortOneWay(a: seq<Contribution>, b: seq<Contribution>)
    requires multiset(a) == multiset(b) && NoRepeats(Ids(a))
    requires SortedBy(a, ByPlace) && SortedBy(b, ByPlace)
    ensures a == b
  {
    Permutation(a, b);
    DistinctIds(a);
    forall x, y | x in a && y in a && ByPlace(x, y) && ByPlace(y, x)
      ensures x == y
    {
      StringLeIsATotalOrder();
    }
    SortedUniquely(a, b, ByPlace);
  }

  lemma StableExample()
    ensures Stable("a.b")
  {
    assert "a.b"[1] == '.';
  }

  lemma PairInOrder(x: Contribution, y: Contribution)
    requires ByPlace(x, y)
    ensures Sorted([x, y]) == [x, y]
  {
    ByPlaceIsAPreorder();
    assert [x, y][1..] == [y];
    assert Sort([y], ByPlace) == [y];
  }

  /** Which error is reported can depend on the order of the input: two contributions for the
      same place keep their order, and the first one at fault is reported. */
  lemma ErrorDependsOnOrder(core: seq<string>) returns (x: Contribution, y: Contribution)
    ensures multiset([x, y]) == multiset([y, x])
    ensures FirstFault(core, Sorted([x, y]), 0, InvalidLabel)
    ensures FirstFault(core, Sorted([y, x]), 0, InvalidAccelerator)
  {
    StableExample();
    x := Contribution("a.b", "a.b", "", None, 0);
    y := Contribution("a.b", "a.b", "b", Some(""), 0);
    StringLeRefl("a.b");
    PairInOrder(x, y);
    PairInOrder(y, x);
    assert "b"[0] == 'b';
  }
}
