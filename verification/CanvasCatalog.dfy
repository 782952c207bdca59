/** The canvas surface catalog: a second layer of validation over the same contributions,
    followed by the indexes and ordered lists that a renderer reads. */
module CanvasCatalog {
  import opened Wrappers
  import opened Ordering
  import opened Contributions
  import opened SurfaceRegistries

  datatype Module = Module(id: string, offers: map<Family, seq<Contribution>>)

  type Contexts = map<string, Activation>

  datatype Targeted = Targeted(entry: Entry, target: Entry)

  datatype Canvas = Canvas(
    panels: map<string, Entry>,
    globalSurfaces: map<string, Entry>,
    orderedPanels: seq<Entry>,
    orderedGlobalSurfaces: seq<Entry>,
    globalNavigation: seq<Entry>,
    sidebar: seq<Targeted>,
    projectNavigation: seq<Targeted>,
    projectLayout: seq<Entry>)

  // ----- entries of one family -----

  function ActivationFor(moduleId: string, contexts: Contexts): Result<string, CanvasError> {
    if moduleId !in contexts then Failure(MissingActivation)
    else if contexts[moduleId].disposed then Failure(DisposedActivation)
    else if contexts[moduleId].moduleId != moduleId then Failure(ActivationOwnerMismatch)
    else Success(contexts[moduleId].activationId)
  }

  function ModuleEntries(m: Module, contributions: seq<Contribution>,
    contexts: Contexts): Result<seq<Entry>, CanvasError> {
    if contributions == [] then Success([])
    else if contributions[0].moduleId != m.id then Failure(ModuleOwnerMismatch)
    else
      var activationId :- ActivationFor(m.id, contexts);
      var rest :- ModuleEntries(m, contributions[1..], contexts);
      Success([Entry(contributions[0], Owner(contributions[0].moduleId, activationId))] + rest)
  }

  function ContributionEntries(modules: seq<Module>, family: Family,
    contexts: Contexts): Result<seq<Entry>, CanvasError> {
    if modules == [] then Success([])
    else
      var first :- ModuleEntries(modules[0], Offered(modules[0].offers, family), contexts);
      var rest :- ContributionEntries(modules[1..], family, contexts);
      Success(first + rest)
  }

  // ----- targets -----

  function OwnerFault(e: Entry, target: Entry): Option<CanvasError> {
    if e.owner != target.owner then Some(TargetOwnerMismatch) else None
  }

  function TargetFault(e: Entry, targets: map<string, Entry>, missing: CanvasError): Option<CanvasError> {
    if e.contribution.targetId !in targets then Some(missing)
    else OwnerFault(e, targets[e.contribution.targetId])
  }

  /** The owner check that navigation gets after registration; a missing target is skipped. */
  function NavigationTargetFault(e: Entry, surfaces: map<string, Entry>): Option<CanvasError> {
    if e.contribution.targetId in surfaces then OwnerFault(e, surfaces[e.contribution.targetId]) else None
  }

  function FirstTargetFault(entries: seq<Entry>, targets: map<string, Entry>,
    missing: CanvasError): Option<CanvasError> {
    FirstFault(entries, (_, e) => TargetFault(e, targets, missing))
  }

  function FirstNavigationFault(entries: seq<Entry>, surfaces: map<string, Entry>): Option<CanvasError> {
    FirstFault(entries, (_, e) => NavigationTargetFault(e, surfaces))
  }

  predicate Resolvable(entries: seq<Entry>, targets: map<string, Entry>) {
    forall i | 0 <= i < |entries| :: entries[i].contribution.targetId in targets
  }

  function Attach(entries: seq<Entry>, targets: map<string, Entry>): seq<Targeted>
    requires Resolvable(entries, targets)
  {
    seq(|entries|, i requires 0 <= i < |entries| => Targeted(entries[i], targets[entries[i].contribution.targetId]))
  }

  lemma {:induction false} NoTargetFault(entries: seq<Entry>, targets: map<string, Entry>, missing: CanvasError)
    ensures FirstTargetFault(entries, targets, missing).None? <==>
            forall e | e in entries :: TargetFault(e, targets, missing).None?
  {
    if entries != [] {
      var front := entries[..|entries| - 1];
      assert entries == front + [entries[|entries| - 1]];
      NoTargetFault(front, targets, missing);
    }
  }

  lemma NoTargetFaultResolves(entries: seq<Entry>, targets: map<string, Entry>, missing: CanvasError)
    requires FirstTargetFault(entries, targets, missing).None?
    ensures Resolvable(Ordered(entries), targets)
  {
    NoTargetFault(entries, targets, missing);
    var ordered := Ordered(entries);
    Permutation(ordered, entries);
    forall i | 0 <= i < |ordered|
      ensures ordered[i].contribution.targetId in targets
    {
      assert ordered[i] in ordered && ordered[i] in entries;
      assert TargetFault(ordered[i], targets, missing).None?;
    }
  }

  lemma {:induction false} NoNavigationFault(entries: seq<Entry>, surfaces: map<string, Entry>)
    ensures FirstNavigationFault(entries, surfaces).None? <==>
            forall e | e in entries :: NavigationTargetFault(e, surfaces).None?
  {
    if entries != [] {
      var front := entries[..|entries| - 1];
      assert entries == front + [entries[|entries| - 1]];
      NoNavigationFault(front, surfaces);
    }
  }

  /** What the errors about targets and activations say. */
  lemma FaultsMean(e: Entry, targets: seq<Entry>, missing: CanvasError)
    requires UniqueIds(targets) && missing != TargetOwnerMismatch
    ensures TargetFault(e, Index(targets), missing) == Some(missing) <==>
            forall t | t in targets :: t.contribution.id != e.contribution.targetId
    ensures TargetFault(e, Index(targets), missing) == Some(TargetOwnerMismatch) <==>
            exists t :: t in targets && t.contribution.id == e.contribution.targetId && t.owner != e.owner
    ensures NavigationTargetFault(e, Index(targets)) ==
            if exists t :: t in targets && t.contribution.id == e.contribution.targetId && t.owner != e.owner
            then Some(TargetOwnerMismatch) else None
  {
    IndexFinds(targets);
  }

  lemma ActivationFaultsMean(moduleId: string, contexts: Contexts)
    ensures var r := ActivationFor(moduleId, contexts);
            && (moduleId !in contexts <==> r == Failure(MissingActivation))
            && (moduleId in contexts && contexts[moduleId].disposed <==> r == Failure(DisposedActivation))
            && (moduleId in contexts && !contexts[moduleId].disposed && contexts[moduleId].moduleId != moduleId <==>
                  r == Failure(ActivationOwnerMismatch))
            && (r.Success? ==> moduleId in contexts && r.value == contexts[moduleId].activationId)
  {
  }

  // ----- the compiler -----

  function ModuleIds(modules: seq<Module>): seq<string> {
    seq(|modules|, i requires 0 <= i < |modules| => modules[i].id)
  }

  /** The first complaint of the two registries. */
  ghost function RegistryFault(panels: seq<Entry>, surfaces: seq<Entry>, navigation: seq<Entry>): Option<CanvasError> {
    var panelFault := FirstFault(panels, PanelFault);
    if panelFault.Some? then panelFault
    else
      var surfaceFault := FirstFault(surfaces, SurfaceFault);
      if surfaceFault.Some? then surfaceFault
      else FirstFault(navigation, (done, e) => NavigationFault(surfaces, done, e))
  }

  ghost function Compile(modules: seq<Module>, contexts: Contexts): Result<Canvas, CanvasError> {
    if !NoRepeats(ModuleIds(modules)) then Failure(DuplicateModule)
    else
      var panels :- ContributionEntries(modules, Panel, contexts);
      var surfaces :- ContributionEntries(modules, GlobalSurface, contexts);
      var navigation :- ContributionEntries(modules, GlobalNavigation, contexts);
      var fault := RegistryFault(panels, surfaces, navigation);
      if fault.Some? then Failure(fault.value) else Resolve(modules, contexts, panels, surfaces, navigation)
  }

  lemma CompileSteps(modules: seq<Module>, contexts: Contexts, panels: seq<Entry>, surfaces: seq<Entry>,
                     navigation: seq<Entry>)
    requires NoRepeats(ModuleIds(modules))
    requires ContributionEntries(modules, Panel, contexts) == Success(panels)
    requires ContributionEntries(modules, GlobalSurface, contexts) == Success(surfaces)
    requires ContributionEntries(modules, GlobalNavigation, contexts) == Success(navigation)
    ensures var fault := RegistryFault(panels, surfaces, navigation);
            Compile(modules, contexts) ==
            if fault.Some? then Failure(fault.value) else Resolve(modules, contexts, panels, surfaces, navigation)
  {
  }

  /** The families that need targets, and the catalog. */
  ghost function Resolve(modules: seq<Module>, contexts: Contexts, panels: seq<Entry>, surfaces: seq<Entry>,
                         navigation: seq<Entry>): Result<Canvas, CanvasError>
  {
    var panelById, surfaceById := Index(Ordered(panels)), Index(OrderedById(surfaces));
    var ownerFault := FirstNavigationFault(navigation, surfaceById);
    if ownerFault.Some? then Failure(ownerFault.value)
    else
      var sidebar :- ContributionEntries(modules, Sidebar, contexts);
      var sidebarFault := FirstTargetFault(sidebar, surfaceById, MissingSurface);
      if sidebarFault.Some? then Failure(sidebarFault.value)
      else
        var projectNavigation :- ContributionEntries(modules, ProjectNavigation, contexts);
        var projectFault := FirstTargetFault(projectNavigation, panelById, MissingPanel);
        if projectFault.Some? then Failure(projectFault.value)
        else
          var projectLayout :- ContributionEntries(modules, ProjectLayout, contexts);
          NoTargetFaultResolves(sidebar, surfaceById, MissingSurface);
          NoTargetFaultResolves(projectNavigation, panelById, MissingPanel);
          Success(CanvasOf(panels, surfaces, navigation, sidebar, surfaceById,
                           projectNavigation, panelById, projectLayout))
  }

  /** The private constructor: indexes and ordered lists. */
  function CanvasOf(panels: seq<Entry>, surfaces: seq<Entry>, navigation: seq<Entry>,
                    sidebar: seq<Entry>, surfaceById: map<string, Entry>,
                    projectNavigation: seq<Entry>, panelById: map<string, Entry>, projectLayout: seq<Entry>): Canvas
    requires Resolvable(Ordered(sidebar), surfaceById) && Resolvable(Ordered(projectNavigation), panelById)
  {
    Canvas(Index(panels), Index(surfaces), Ordered(panels), OrderedById(surfaces), Ordered(navigation),
           Attach(Ordered(sidebar), surfaceById), Attach(Ordered(projectNavigation), panelById), Ordered(projectLayout))
  }

  // ----- when a canvas catalog is compiled -----

  function ActivationId(moduleId: string, contexts: Contexts): string {
    if moduleId in contexts then contexts[moduleId].activationId else ""
  }

  /** A module's contributions of a family are its own, and if it has any it is activated. */
  ghost predicate Activates(m: Module, contributions: seq<Contribution>, contexts: Contexts) {
    contributions == []
    || (ActivationFor(m.id, contexts).Success? && forall c | c in contributions :: c.moduleId == m.id)
  }

  ghost predicate AllActivate(modules: seq<Module>, family: Family, contexts: Contexts) {
    forall m | m in modules :: Activates(m, Offered(m.offers, family), contexts)
  }

  /** Every contribution of a family, with the activation of its module. */
  function OfferedEntries(modules: seq<Module>, family: Family, contexts: Contexts): seq<Entry> {
    if modules == [] then []
    else OwnedBy(Owner(modules[0].id, ActivationId(modules[0].id, contexts)), Offered(modules[0].offers, family))
         + OfferedEntries(modules[1..], family, contexts)
  }

  lemma {:induction false} ModuleEntriesExactly(m: Module, contributions: seq<Contribution>, contexts: Contexts)
    ensures ModuleEntries(m, contributions, contexts).Success? <==> Activates(m, contributions, contexts)
    ensures ModuleEntries(m, contributions, contexts).Success? ==>
              ModuleEntries(m, contributions, contexts).value
              == OwnedBy(Owner(m.id, ActivationId(m.id, contexts)), contributions)
  {
    if contributions != [] {
      var owner := Owner(m.id, ActivationId(m.id, contexts));
      ModuleEntriesExactly(m, contributions[1..], contexts);
      assert contributions == [contributions[0]] + contributions[1..];
      assert OwnedBy(owner, contributions) == [Entry(contributions[0], owner)] + OwnedBy(owner, contributions[1..]);
    }
  }

  lemma {:induction false} EntriesExactly(modules: seq<Module>, family: Family, contexts: Contexts)
    ensures ContributionEntries(modules, family, contexts).Success? <==> AllActivate(modules, family, contexts)
    ensures ContributionEntries(modules, family, contexts).Success? ==>
              && ContributionEntries(modules, family, contexts).value == OfferedEntries(modules, family, contexts)
              && SelfOwned(OfferedEntries(modules, family, contexts))
  {
    if modules != [] {
      ModuleEntriesExactly(modules[0], Offered(modules[0].offers, family), contexts);
      EntriesExactly(modules[1..], family, contexts);
      assert modules == [modules[0]] + modules[1..];
    }
  }

  /** An offered target has the id that the entry names, and its owner. */
  ghost predicate Hits(e: Entry, targets: seq<Entry>) {
    exists t :: t in targets && t.Id() == e.contribution.targetId && t.owner == e.owner
  }

  ghost predicate AllHit(entries: seq<Entry>, targets: seq<Entry>) {
    forall e | e in entries :: Hits(e, targets)
  }

  ghost predicate Registers(entries: seq<Entry>) {
    AllNamespaced(entries) && UniqueIds(entries)
  }

  /** The families of a canvas catalog are activated, panels, surfaces and navigation have
      namespaced and distinct ids, and every target is offered by the owner of its entry. */
  ghost predicate Sound(modules: seq<Module>, contexts: Contexts) {
    var panels, surfaces := OfferedEntries(modules, Panel, contexts), OfferedEntries(modules, GlobalSurface, contexts);
    && NoRepeats(ModuleIds(modules))
    && AllActivate(modules, Panel, contexts) && Registers(panels)
    && AllActivate(modules, GlobalSurface, contexts) && Registers(surfaces)
    && AllActivate(modules, GlobalNavigation, contexts)
    && Registers(OfferedEntries(modules, GlobalNavigation, contexts))
    && AllHit(OfferedEntries(modules, GlobalNavigation, contexts), surfaces)
    && AllActivate(modules, Sidebar, contexts) && AllHit(OfferedEntries(modules, Sidebar, contexts), surfaces)
    && AllActivate(modules, ProjectNavigation, contexts)
    && AllHit(OfferedEntries(modules, ProjectNavigation, contexts), panels)
    && AllActivate(modules, ProjectLayout, contexts)
  }

  lemma {:induction false} NewIds(entries: seq<Entry>)
    ensures UniqueIds(entries) <==> forall i | 0 <= i < |entries| :: entries[i].Id() !in Ids(entries[..i])
  {
    if UniqueIds(entries) {
      forall i | 0 <= i < |entries|
        ensures entries[i].Id() !in Ids(entries[..i])
      {
        assert forall j | 0 <= j < i :: Ids(entries[..i])[j] == Ids(entries)[j] != Ids(entries)[i];
      }
    }
    if forall i | 0 <= i < |entries| :: entries[i].Id() !in Ids(entries[..i]) {
      forall i, j | 0 <= i < j < |entries|
        ensures Ids(entries)[i] != Ids(entries)[j]
      {
        assert Ids(entries[..j])[i] == Ids(entries)[i] && entries[j].Id() !in Ids(entries[..j]);
      }
    }
  }

  lemma PanelsRegister(panels: seq<Entry>)
    ensures FirstFault(panels, PanelFault).None? <==> Registers(panels)
  {
    NoFault(panels, PanelFault);
    NewIds(panels);
    assert forall i | 0 <= i < |panels| :: PanelFault(panels[..i], panels[i]).None? <==>
             Namespaced(panels[i].Id()) && panels[i].Id() !in Ids(panels[..i]);
  }

  lemma SurfacesRegister(surfaces: seq<Entry>)
    ensures FirstFault(surfaces, SurfaceFault).None? <==> Registers(surfaces)
  {
    NoFault(surfaces, SurfaceFault);
    NewIds(surfaces);
    assert forall i | 0 <= i < |surfaces| :: SurfaceFault(surfaces[..i], surfaces[i]).None? <==>
             Namespaced(surfaces[i].Id()) && surfaces[i].Id() !in Ids(surfaces[..i]);
  }

  /** What registration asks of a navigation entry's target: it is there, in the same module. */
  predicate SameModule(e: Entry, surfaces: seq<Entry>) {
    && e.contribution.targetId in Index(surfaces)
    && Index(surfaces)[e.contribution.targetId].contribution.moduleId == e.contribution.moduleId
  }

  lemma NavigationRegisters(surfaces: seq<Entry>, navigation: seq<Entry>)
    ensures FirstFault(navigation, (done, e) => NavigationFault(surfaces, done, e)).None? <==>
            Registers(navigation) && forall e | e in navigation :: SameModule(e, surfaces)
  {
    var check := (done, e) => NavigationFault(surfaces, done, e);
    NoFault(navigation, check);
    NewIds(navigation);
    assert forall i | 0 <= i < |navigation| :: check(navigation[..i], navigation[i]).None? <==>
             && Namespaced(navigation[i].Id()) && navigation[i].Id() !in Ids(navigation[..i])
             && SameModule(navigation[i], surfaces);
    if forall i | 0 <= i < |navigation| :: SameModule(navigation[i], surfaces) {
      assert forall e | e in navigation :: SameModule(e, surfaces);
    }
    if forall e | e in navigation :: SameModule(e, surfaces) {
      assert forall i | 0 <= i < |navigation| :: navigation[i] in navigation;
    }
  }

  lemma HitsByIndex(e: Entry, targets: seq<Entry>)
    requires UniqueIds(targets)
    ensures Hits(e, targets) <==>
            e.contribution.targetId in Index(targets) && Index(targets)[e.contribution.targetId].owner == e.owner
  {
    IndexFinds(targets);
  }

  lemma TargetsHit(entries: seq<Entry>, targets: seq<Entry>, missing: CanvasError)
    requires UniqueIds(targets)
    ensures FirstTargetFault(entries, Index(targets), missing).None? <==> AllHit(entries, targets)
  {
    NoTargetFault(entries, Index(targets), missing);
    forall e
      ensures TargetFault(e, Index(targets), missing).None? <==> Hits(e, targets)
    {
      HitsByIndex(e, targets);
    }
  }

  /** The module check of registration and the later owner check together ask for a hit. */
  lemma NavigationHits(navigation: seq<Entry>, surfaces: seq<Entry>)
    requires UniqueIds(surfaces) && SelfOwned(surfaces) && SelfOwned(navigation)
    ensures AllHit(navigation, surfaces) <==>
            && (forall e | e in navigation :: SameModule(e, surfaces))
            && FirstNavigationFault(navigation, Index(surfaces)).None?
  {
    NoNavigationFault(navigation, Index(surfaces));
    IndexFinds(surfaces);
    forall e | e in navigation
      ensures Hits(e, surfaces) <==> SameModule(e, surfaces) && NavigationTargetFault(e, Index(surfaces)).None?
    {
      HitsByIndex(e, surfaces);
    }
  }

  lemma ResolvesExactly(modules: seq<Module>, contexts: Contexts, panels: seq<Entry>, surfaces: seq<Entry>,
                        navigation: seq<Entry>)
    requires UniqueIds(panels) && UniqueIds(surfaces)
    ensures Resolve(modules, contexts, panels, surfaces, navigation).Success? <==>
            && FirstNavigationFault(navigation, Index(surfaces)).None?
            && AllActivate(modules, Sidebar, contexts) && AllHit(OfferedEntries(modules, Sidebar, contexts), surfaces)
            && AllActivate(modules, ProjectNavigation, contexts)
            && AllHit(OfferedEntries(modules, ProjectNavigation, contexts), panels)
            && AllActivate(modules, ProjectLayout, contexts)
  {
    OneIndex(panels);
    OneIndex(surfaces);
    EntriesExactly(modules, Sidebar, contexts);
    EntriesExactly(modules, ProjectNavigation, contexts);
    EntriesExactly(modules, ProjectLayout, contexts);
    TargetsHit(OfferedEntries(modules, Sidebar, contexts), surfaces, MissingSurface);
    TargetsHit(OfferedEntries(modules, ProjectNavigation, contexts), panels, MissingPanel);
  }

  /** For arbitrary modules and contexts: a canvas catalog is compiled exactly from sound ones. */
  lemma CompilesExactly(modules: seq<Module>, contexts: Contexts)
    ensures Compile(modules, contexts).Success? <==> Sound(modules, contexts)
  {
    EntriesExactly(modules, Panel, contexts);
    EntriesExactly(modules, GlobalSurface, contexts);
    EntriesExactly(modules, GlobalNavigation, contexts);
    if && NoRepeats(ModuleIds(modules))
       && AllActivate(modules, Panel, contexts)
       && AllActivate(modules, GlobalSurface, contexts)
       && AllActivate(modules, GlobalNavigation, contexts)
    {
      var panels := OfferedEntries(modules, Panel, contexts);
      var surfaces := OfferedEntries(modules, GlobalSurface, contexts);
      var navigation := OfferedEntries(modules, GlobalNavigation, contexts);
      CompileSteps(modules, contexts, panels, surfaces, navigation);
      PanelsRegister(panels);
      SurfacesRegister(surfaces);
      NavigationRegisters(surfaces, navigation);
      if Registers(panels) && Registers(surfaces) {
        NavigationHits(navigation, surfaces);
        ResolvesExactly(modules, contexts, panels, surfaces, navigation);
      }
    }
  }

  method AssertUniqueModuleIds(modules: seq<Module>) returns (unique: bool)
    ensures unique <==> NoRepeats(ModuleIds(modules))
  {
    var seen: set<string> := {};
    for i := 0 to |modules|
      invariant seen == set j | 0 <= j < i :: modules[j].id
      invariant forall j, k | 0 <= j < k < i :: modules[j].id != modules[k].id
    {
      if modules[i].id in seen {
        var j :| 0 <= j < i && modules[j].id == modules[i].id;
        assert ModuleIds(modules)[j] == ModuleIds(modules)[i];
        return false;
      }
      seen := seen + {modules[i].id};
    }
    unique := true;
  }

  method Create(modules: seq<Module>, contexts: Contexts) returns (r: Result<Canvas, CanvasError>)
    ensures r == Compile(modules, contexts)
    ensures r.Success? <==> Sound(modules, contexts)
  {
    CompilesExactly(modules, contexts);
    var unique := AssertUniqueModuleIds(modules);
    if !unique {
      return Failure(DuplicateModule);
    }
    var panels :- ContributionEntries(modules, Panel, contexts);
    var surfaces :- ContributionEntries(modules, GlobalSurface, contexts);
    var navigation :- ContributionEntries(modules, GlobalNavigation, contexts);
    var panelRegistry, panelFault := CreatePanelRegistry(panels);
    if panelFault.Some? {
      return Failure(panelFault.value);
    }
    var surfaceRegistry, surfaceFault := CreateGlobalSurfaceRegistry(surfaces, navigation);
    if surfaceFault.Some? {
      return Failure(surfaceFault.value);
    }
    var panelById, surfaceById := Index(panelRegistry.List()), Index(surfaceRegistry.Surfaces());
    r := CreateResolved(modules, contexts, panels, surfaces, navigation, panelById, surfaceById);
  }

  method CreateResolved(modules: seq<Module>, contexts: Contexts, panels: seq<Entry>, surfaces: seq<Entry>,
                        navigation: seq<Entry>, panelById: map<string, Entry>, surfaceById: map<string, Entry>)
    returns (r: Result<Canvas, CanvasError>)
    requires panelById == Index(Ordered(panels)) && surfaceById == Index(OrderedById(surfaces))
    ensures r == Resolve(modules, contexts, panels, surfaces, navigation)
  {
    var ownerFault := CheckNavigationTargets(navigation, surfaceById);
    if ownerFault.Some? {
      return Failure(ownerFault.value);
    }
    var sidebar :- ContributionEntries(modules, Sidebar, contexts);
    var sidebarFault := FirstTargetFault(sidebar, surfaceById, MissingSurface);
    if sidebarFault.Some? {
      return Failure(sidebarFault.value);
    }
    NoTargetFaultResolves(sidebar, surfaceById, MissingSurface);
    var projectNavigation :- ContributionEntries(modules, ProjectNavigation, contexts);
    var projectFault := FirstTargetFault(projectNavigation, panelById, MissingPanel);
    if projectFault.Some? {
      return Failure(projectFault.value);
    }
    NoTargetFaultResolves(projectNavigation, panelById, MissingPanel);
    var projectLayout :- ContributionEntries(modules, ProjectLayout, contexts);
    r := Success(CanvasOf(panels, surfaces, navigation, sidebar, surfaceById,
                           projectNavigation, panelById, projectLayout));
  }

  method CheckNavigationTargets(navigation: seq<Entry>, surfaceById: map<string, Entry>)
    returns (fault: Option<CanvasError>)
    ensures fault == FirstNavigationFault(navigation, surfaceById)
  {
    ghost var check := (_: seq<Entry>, e: Entry) => NavigationTargetFault(e, surfaceById);
    for i := 0 to |navigation|
      invariant FirstFault(navigation[..i], check).None?
    {
      assert navigation[..i + 1][..i] == navigation[..i];
      fault := NavigationTargetFault(navigation[i], surfaceById);
      if fault.Some? {
        FaultIsKept(navigation, i + 1, check);
        return;
      }
    }
    assert navigation[..|navigation|] == navigation;
    fault := None;
  }
}
