/** The workspace catalog checks its sources and then hands them to the canvas catalog, which
    checks them again. The second layer can add only one complaint. */
module CatalogLayers {
  import opened Wrappers
  import opened Ordering
  import opened Contributions
  import opened SurfaceRegistries
  import C = CanvasCatalog
  import opened WorkspaceCatalog

  function FamilyOf(sources: seq<Source>, family: Family): seq<Entry> {
    Ordered(Flat(sources, family))
  }

  /** The checks that the workspace layer makes before it calls the canvas layer. */
  ghost predicate Accepted(sources: seq<Source>) {
    && NoRepeats(ModuleIds(sources))
    && AllLive(sources)
    && (forall family :: Collectable(sources, family))
    && TargetsOwned(FamilyOf(sources, GlobalNavigation), Index(FamilyOf(sources, GlobalSurface)))
    && TargetsOwned(FamilyOf(sources, Sidebar), Index(FamilyOf(sources, GlobalSurface)))
    && TargetsOwned(FamilyOf(sources, ProjectNavigation), Index(FamilyOf(sources, Panel)))
  }

  /** `sources.map(sourceModule)` and the map of activations built beside it. */
  function ModulesOf(sources: seq<Source>): seq<C.Module> {
    seq(|sources|, i requires 0 <= i < |sources| => C.Module(sources[i].moduleId, sources[i].offers))
  }

  function ContextsOf(sources: seq<Source>): C.Contexts {
    if sources == [] then map[]
    else
      var last := sources[|sources| - 1];
      ContextsOf(sources[..|sources| - 1])[last.moduleId := last.activation]
  }

  lemma {:induction false} ContextsFind(sources: seq<Source>)
    requires NoRepeats(ModuleIds(sources))
    ensures forall i | 0 <= i < |sources| ::
              sources[i].moduleId in ContextsOf(sources)
              && ContextsOf(sources)[sources[i].moduleId] == sources[i].activation
  {
    if sources != [] {
      var front, last := sources[..|sources| - 1], |sources| - 1;
      assert forall i | 0 <= i < last :: ModuleIds(front)[i] == ModuleIds(sources)[i];
      ContextsFind(front);
      forall i | 0 <= i < last
        ensures sources[i].moduleId != sources[last].moduleId
      {
        assert ModuleIds(sources)[i] != ModuleIds(sources)[last];
      }
    }
  }

  // ----- the canvas layer's entries are the workspace layer's -----

  lemma {:induction false} SameModuleEntries(source: Source, contributions: seq<Contribution>, contexts: C.Contexts)
    requires Live(source) && source.moduleId in contexts && contexts[source.moduleId] == source.activation
    requires forall i | 0 <= i < |contributions| :: contributions[i].moduleId == source.moduleId
    ensures C.ModuleEntries(C.Module(source.moduleId, source.offers), contributions, contexts)
         == Success(OwnedBy(OwnerOf(source), contributions))
  {
    if contributions != [] {
      SameModuleEntries(source, contributions[1..], contexts);
      assert OwnedBy(OwnerOf(source), contributions)
          == [Entry(contributions[0], OwnerOf(source))] + OwnedBy(OwnerOf(source), contributions[1..]);
    }
  }

  lemma {:induction false} SameEntries(sources: seq<Source>, family: Family, contexts: C.Contexts)
    requires AllLive(sources) && AllOwned(sources, family)
    requires forall i | 0 <= i < |sources| ::
               sources[i].moduleId in contexts && contexts[sources[i].moduleId] == sources[i].activation
    ensures C.ContributionEntries(ModulesOf(sources), family, contexts) == Success(Flat(sources, family))
  {
    if sources != [] {
      assert OwnsAll(sources[0], family);
      SameModuleEntries(sources[0], Offered(sources[0].offers, family), contexts);
      SameEntries(sources[1..], family, contexts);
      assert ModulesOf(sources)[1..] == ModulesOf(sources[1..]);
      assert ModulesOf(sources)[0] == C.Module(sources[0].moduleId, sources[0].offers);
    }
  }

  // ----- the registries complain about nothing but namespaces -----

  lemma NoDuplicates(entries: seq<Entry>, i: nat)
    requires UniqueIds(entries) && i < |entries|
    ensures entries[i].Id() !in Ids(entries[..i])
  {
    assert forall j | 0 <= j < i :: Ids(entries[..i])[j] == Ids(entries)[j] != Ids(entries)[i];
  }

  lemma {:induction false} OnlyNamespaceFaults(entries: seq<Entry>, n: nat,
                                               fault: (seq<Entry>, Entry) -> Option<CanvasError>, invalid: CanvasError)
    requires n <= |entries|
    requires forall i | 0 <= i < |entries| ::
               fault(entries[..i], entries[i]) == if Namespaced(entries[i].Id()) then None else Some(invalid)
    ensures FirstFault(entries[..n], fault) == if AllNamespaced(entries[..n]) then None else Some(invalid)
  {
    if n != 0 {
      assert entries[..n][..n - 1] == entries[..n - 1];
      OnlyNamespaceFaults(entries, n - 1, fault, invalid);
      assert AllNamespaced(entries[..n]) <==> AllNamespaced(entries[..n - 1]) && Namespaced(entries[n - 1].Id()) by {
        assert forall i | 0 <= i < n - 1 :: entries[..n][i] == entries[..n - 1][i];
      }
    }
  }

  lemma PanelFaults(entries: seq<Entry>)
    requires UniqueIds(entries)
    ensures FirstFault(entries, PanelFault) == if AllNamespaced(entries) then None else Some(InvalidPanelId)
  {
    forall i | 0 <= i < |entries|
      ensures PanelFault(entries[..i], entries[i]) == if Namespaced(entries[i].Id()) then None else Some(InvalidPanelId)
    {
      NoDuplicates(entries, i);
    }
    OnlyNamespaceFaults(entries, |entries|, PanelFault, InvalidPanelId);
    assert entries[..|entries|] == entries;
  }

  lemma SurfaceFaults(entries: seq<Entry>)
    requires UniqueIds(entries)
    ensures FirstFault(entries, SurfaceFault) == if AllNamespaced(entries) then None else Some(InvalidSurfaceId)
  {
    forall i | 0 <= i < |entries|
      ensures SurfaceFault(entries[..i], entries[i])
              == if Namespaced(entries[i].Id()) then None else Some(InvalidSurfaceId)
    {
      NoDuplicates(entries, i);
    }
    OnlyNamespaceFaults(entries, |entries|, SurfaceFault, InvalidSurfaceId);
    assert entries[..|entries|] == entries;
  }

  /** An entry's target exists and has its owner; owners name the module of the contribution. */
  ghost predicate WellTargeted(entries: seq<Entry>, targets: map<string, Entry>) {
    forall e | e in entries ::
      && e.contribution.targetId in targets
      && targets[e.contribution.targetId].owner == e.owner
      && targets[e.contribution.targetId].contribution.moduleId == e.contribution.moduleId
  }

  lemma NavigationFaults(surfaces: seq<Entry>, entries: seq<Entry>)
    requires UniqueIds(entries) && WellTargeted(entries, Index(surfaces))
    ensures FirstFault(entries, (done, e) => NavigationFault(surfaces, done, e))
         == if AllNamespaced(entries) then None else Some(InvalidNavigationId)
  {
    var check := (done, e) => NavigationFault(surfaces, done, e);
    forall i | 0 <= i < |entries|
      ensures check(entries[..i], entries[i]) == if Namespaced(entries[i].Id()) then None else Some(InvalidNavigationId)
    {
      NoDuplicates(entries, i);
      assert entries[i] in entries;
    }
    OnlyNamespaceFaults(entries, |entries|, check, InvalidNavigationId);
    assert entries[..|entries|] == entries;
  }

  // ----- targets -----

  lemma {:induction false} FlatOwners(sources: seq<Source>, family: Family)
    requires AllOwned(sources, family)
    ensures SelfOwned(Flat(sources, family))
  {
    if sources != [] {
      assert OwnsAll(sources[0], family);
      FlatOwners(sources[1..], family);
    }
  }

  /** What the workspace layer checked of targets is what the canvas layer asks of them. */
  lemma TargetsAreChecked(entries: seq<Entry>, offered: seq<Entry>)
    requires SelfOwned(entries) && SelfOwned(offered)
    requires TargetsOwned(Ordered(entries), Index(Ordered(offered)))
    ensures WellTargeted(entries, Index(Ordered(offered)))
  {
    var ordered, sorted := Ordered(entries), Ordered(offered);
    Permutation(ordered, entries);
    Permutation(sorted, offered);
    IndexHolds(sorted);
    forall e | e in entries
      ensures e.contribution.targetId in Index(sorted)
      ensures Index(sorted)[e.contribution.targetId].owner == e.owner
      ensures Index(sorted)[e.contribution.targetId].contribution.moduleId == e.contribution.moduleId
    {
      assert e in ordered;
      var i :| 0 <= i < |ordered| && ordered[i] == e;
      assert TargetCode(ordered[i], Index(sorted)).None?;
      assert Index(sorted)[e.contribution.targetId] in offered;
    }
  }

  // ----- the theorem -----

  /** The canvas catalog of accepted sources. */
  ghost function CanvasFrom(sources: seq<Source>): C.Canvas
    requires Accepted(sources)
  {
    var panels, surfaces := Flat(sources, Panel), Flat(sources, GlobalSurface);
    SidebarResolves(sources);
    ProjectNavigationResolves(sources);
    C.CanvasOf(panels, surfaces, Flat(sources, GlobalNavigation),
               Flat(sources, Sidebar), Index(surfaces),
               Flat(sources, ProjectNavigation), Index(panels), Flat(sources, ProjectLayout))
  }

  lemma WellTargetedHasNoFault(entries: seq<Entry>, targets: map<string, Entry>, missing: CanvasError)
    requires WellTargeted(entries, targets)
    ensures C.FirstTargetFault(entries, targets, missing).None?
    ensures C.FirstNavigationFault(entries, targets).None?
    ensures C.Resolvable(Ordered(entries), targets)
  {
    C.NoTargetFault(entries, targets, missing);
    C.NoNavigationFault(entries, targets);
    C.NoTargetFaultResolves(entries, targets, missing);
  }

  lemma FamilyIsSound(sources: seq<Source>, family: Family)
    requires Accepted(sources)
    ensures AllOwned(sources, family) && UniqueIds(Flat(sources, family)) && SelfOwned(Flat(sources, family))
    ensures Index(FamilyOf(sources, family)) == Index(Flat(sources, family))
            == Index(OrderedById(Flat(sources, family)))
  {
    assert Collectable(sources, family);
    FlatOwners(sources, family);
    OneIndex(Flat(sources, family));
  }

  lemma SidebarResolves(sources: seq<Source>)
    requires Accepted(sources)
    ensures C.FirstTargetFault(Flat(sources, Sidebar), Index(Flat(sources, GlobalSurface)), MissingSurface).None?
    ensures C.Resolvable(Ordered(Flat(sources, Sidebar)), Index(Flat(sources, GlobalSurface)))
  {
    FamilyIsSound(sources, Sidebar);
    FamilyIsSound(sources, GlobalSurface);
    TargetsAreChecked(Flat(sources, Sidebar), Flat(sources, GlobalSurface));
    WellTargetedHasNoFault(Flat(sources, Sidebar), Index(Flat(sources, GlobalSurface)), MissingSurface);
  }

  lemma ProjectNavigationResolves(sources: seq<Source>)
    requires Accepted(sources)
    ensures C.FirstTargetFault(Flat(sources, ProjectNavigation), Index(Flat(sources, Panel)), MissingPanel).None?
    ensures C.Resolvable(Ordered(Flat(sources, ProjectNavigation)), Index(Flat(sources, Panel)))
  {
    FamilyIsSound(sources, ProjectNavigation);
    FamilyIsSound(sources, Panel);
    TargetsAreChecked(Flat(sources, ProjectNavigation), Flat(sources, Panel));
    WellTargetedHasNoFault(Flat(sources, ProjectNavigation), Index(Flat(sources, Panel)), MissingPanel);
  }

  lemma NavigationResolves(sources: seq<Source>)
    requires Accepted(sources)
    ensures WellTargeted(Flat(sources, GlobalNavigation), Index(Flat(sources, GlobalSurface)))
    ensures C.FirstNavigationFault(Flat(sources, GlobalNavigation), Index(Flat(sources, GlobalSurface))).None?
  {
    FamilyIsSound(sources, GlobalNavigation);
    FamilyIsSound(sources, GlobalSurface);
    TargetsAreChecked(Flat(sources, GlobalNavigation), Flat(sources, GlobalSurface));
    WellTargetedHasNoFault(Flat(sources, GlobalNavigation), Index(Flat(sources, GlobalSurface)), MissingSurface);
  }

  ghost predicate Namespacing(sources: seq<Source>) {
    && AllNamespaced(Flat(sources, Panel))
    && AllNamespaced(Flat(sources, GlobalSurface))
    && AllNamespaced(Flat(sources, GlobalNavigation))
  }

  /** Which ids lack a namespace: panels are looked at first, then surfaces, then navigation. */
  ghost predicate NamespaceFault(sources: seq<Source>, error: CanvasError) {
    !Namespacing(sources) &&
    error == if !AllNamespaced(Flat(sources, Panel)) then InvalidPanelId
             else if !AllNamespaced(Flat(sources, GlobalSurface)) then InvalidSurfaceId
             else InvalidNavigationId
  }

  lemma CanvasEntries(sources: seq<Source>, family: Family)
    requires Accepted(sources)
    ensures C.ContributionEntries(ModulesOf(sources), family, ContextsOf(sources)) == Success(Flat(sources, family))
  {
    FamilyIsSound(sources, family);
    ContextsFind(sources);
    SameEntries(sources, family, ContextsOf(sources));
  }

  /** The second half of the canvas compiler never fails on accepted sources. */
  lemma CanvasResolves(sources: seq<Source>)
    requires Accepted(sources)
    ensures C.Resolve(ModulesOf(sources), ContextsOf(sources), Flat(sources, Panel), Flat(sources, GlobalSurface),
                      Flat(sources, GlobalNavigation)) == Success(CanvasFrom(sources))
  {
    FamilyIsSound(sources, Panel);
    FamilyIsSound(sources, GlobalSurface);
    NavigationResolves(sources);
    SidebarResolves(sources);
    ProjectNavigationResolves(sources);
    CanvasEntries(sources, Sidebar);
    CanvasEntries(sources, ProjectNavigation);
    CanvasEntries(sources, ProjectLayout);
  }

  lemma RegistriesAskForNamespaces(sources: seq<Source>)
    requires Accepted(sources)
    ensures var fault := C.RegistryFault(Flat(sources, Panel), Flat(sources, GlobalSurface),
                                         Flat(sources, GlobalNavigation));
            && (fault.None? <==> Namespacing(sources))
            && (fault.Some? ==> NamespaceFault(sources, fault.value))
  {
    FamilyIsSound(sources, Panel);
    FamilyIsSound(sources, GlobalSurface);
    FamilyIsSound(sources, GlobalNavigation);
    PanelFaults(Flat(sources, Panel));
    SurfaceFaults(Flat(sources, GlobalSurface));
    NavigationResolves(sources);
    NavigationFaults(Flat(sources, GlobalSurface), Flat(sources, GlobalNavigation));
  }

  /** For sources that pass the workspace layer's checks, the canvas layer fails exactly when a
      panel, surface or navigation id is not namespaced; none of its other errors can occur. */
  lemma CanvasAddsOnlyNamespacing(sources: seq<Source>)
    requires Accepted(sources)
    ensures var r := C.Compile(ModulesOf(sources), ContextsOf(sources));
            && (r.Success? <==> Namespacing(sources))
            && (r.Success? ==> r.value == CanvasFrom(sources))
            && (r.Failure? ==> NamespaceFault(sources, r.error))
  {
    UniqueModules(sources);
    CanvasEntries(sources, Panel);
    CanvasEntries(sources, GlobalSurface);
    CanvasEntries(sources, GlobalNavigation);
    C.CompileSteps(ModulesOf(sources), ContextsOf(sources), Flat(sources, Panel), Flat(sources, GlobalSurface),
                   Flat(sources, GlobalNavigation));
    RegistriesAskForNamespaces(sources);
    CanvasResolves(sources);
  }

  lemma UniqueModules(sources: seq<Source>)
    requires Accepted(sources)
    ensures NoRepeats(C.ModuleIds(ModulesOf(sources)))
  {
    assert C.ModuleIds(ModulesOf(sources)) == ModuleIds(sources);
  }
}
