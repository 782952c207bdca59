/** What a compiled catalog promises its readers, right after compilation and after every run. */
module CatalogLaws {
  import opened Wrappers
  import opened Ordering
  import opened Contributions
  import C = CanvasCatalog
  import opened WorkspaceCatalog
  import opened WorkspaceSnapshot
  import opened CatalogLayers
  import opened CatalogViews
  import opened CatalogCompiler
  import opened CatalogSteps
  import opened CatalogRuns

  // ----- the renderers of a compiled catalog -----

  lemma {:induction false} RendererIndexHolds(renderers: seq<Renderer>)
    ensures RendererIndex(renderers).Keys == set v | v in ViewIds(Definitions(renderers))
    ensures forall v | v in RendererIndex(renderers) ::
              RendererIndex(renderers)[v] in renderers && RendererIndex(renderers)[v].definition.viewTypeId == v
  {
    if renderers != [] {
      var n := |renderers| - 1;
      assert renderers == renderers[..n] + [renderers[n]];
      RenderersGrow(renderers[..n], renderers[n]);
      RendererIndexHolds(renderers[..n]);
    }
  }

  ghost function CompiledRenderers(sources: seq<Source>): Option<seq<Renderer>>
    requires Accepted(sources)
  {
    RendererSeq(CanvasFrom(sources), Gathered(sources))
  }

  /** What a renderer was built from: a surface of the canvas catalog, whose definition it has. */
  ghost predicate BuiltFrom(sources: seq<Source>, r: Renderer) {
    && (r.isPanel ==> r.surface in Flat(sources, Panel) && PanelDefinition(r.surface) == Success(r.definition))
    && (!r.isPanel ==> && r.surface in Flat(sources, GlobalSurface)
                       && r.definition == SurfaceDefinition(r.surface,
                            LabelOf(Labels(FamilyOf(sources, GlobalNavigation)), r.surface.Id())))
  }

  lemma BuiltRenderersAreNamed(sources: seq<Source>, r: Renderer)
    requires BuiltFrom(sources, r)
    ensures r.definition.viewTypeId == r.surface.Id() && r.definition.owner == r.surface.owner
    ensures r.definition.aliases == []
    ensures r.definition.capabilities == if r.isPanel then r.surface.contribution.capabilities else []
  {
  }

  lemma PanelRendererIsBuilt(sources: seq<Source>, panels: seq<Entry>, byId: map<string, Entry>, i: nat)
    requires i < |panels| && Found(panels, byId) && CardinalitiesOk(panels, byId)
    requires byId[panels[i].Id()] == panels[i] && panels[i] in Flat(sources, Panel)
    ensures BuiltFrom(sources, PanelRenderers(panels, byId)[i])
  {
    assert PanelDefinition(byId[panels[i].Id()]).Success?;
  }

  lemma SurfaceRendererIsBuilt(sources: seq<Source>, surfaces: seq<Entry>, byId: map<string, Entry>, i: nat)
    requires i < |surfaces| && Found(surfaces, byId)
    requires byId[surfaces[i].Id()] == surfaces[i] && surfaces[i] in Flat(sources, GlobalSurface)
    ensures BuiltFrom(sources, SurfaceRenderers(surfaces, byId, Labels(FamilyOf(sources, GlobalNavigation)))[i])
  {
  }

  /** Every listed entry is offered by the sources, and its id finds it. */
  ghost predicate Offers(sources: seq<Source>, family: Family, listed: seq<Entry>, byId: map<string, Entry>) {
    Found(listed, byId) && forall e | e in listed :: e in Flat(sources, family) && e.Id() in byId && byId[e.Id()] == e
  }

  lemma ListedRenderersAreBuilt(sources: seq<Source>, panels: seq<Entry>, panelsById: map<string, Entry>,
                                surfaces: seq<Entry>, surfacesById: map<string, Entry>, r: Renderer)
    requires Offers(sources, Panel, panels, panelsById) && Offers(sources, GlobalSurface, surfaces, surfacesById)
    requires CardinalitiesOk(panels, panelsById)
    requires r in PanelRenderers(panels, panelsById)
                  + SurfaceRenderers(surfaces, surfacesById, Labels(FamilyOf(sources, GlobalNavigation)))
    ensures BuiltFrom(sources, r)
  {
    var ofPanels := PanelRenderers(panels, panelsById);
    var ofSurfaces := SurfaceRenderers(surfaces, surfacesById, Labels(FamilyOf(sources, GlobalNavigation)));
    if r in ofPanels {
      var i :| 0 <= i < |panels| && ofPanels[i] == r;
      assert panels[i] in panels;
      PanelRendererIsBuilt(sources, panels, panelsById, i);
    } else {
      var i :| 0 <= i < |surfaces| && ofSurfaces[i] == r;
      assert surfaces[i] in surfaces;
      SurfaceRendererIsBuilt(sources, surfaces, surfacesById, i);
    }
  }

  lemma CanvasOffers(sources: seq<Source>)
    requires Accepted(sources)
    ensures Offers(sources, Panel, CanvasFrom(sources).orderedPanels, Index(Gathered(sources)[Panel]))
    ensures Offers(sources, GlobalSurface, CanvasFrom(sources).orderedGlobalSurfaces,
                   Index(Gathered(sources)[GlobalSurface]))
  {
    LookupsSucceed(sources);
    Permutation(CanvasFrom(sources).orderedPanels, Flat(sources, Panel));
    Permutation(CanvasFrom(sources).orderedGlobalSurfaces, Flat(sources, GlobalSurface));
  }

  lemma RenderersAreBuilt(sources: seq<Source>, r: Renderer)
    requires Accepted(sources) && CompiledRenderers(sources).Some? && r in CompiledRenderers(sources).value
    ensures BuiltFrom(sources, r)
  {
    CanvasOffers(sources);
    ListedRenderersAreBuilt(sources, CanvasFrom(sources).orderedPanels, Index(Gathered(sources)[Panel]),
                            CanvasFrom(sources).orderedGlobalSurfaces, Index(Gathered(sources)[GlobalSurface]), r);
  }

  lemma CompiledRenderersAreFiled(revision: int, sources: seq<Source>, v: string)
    requires Compilable(revision, sources) && v in Compiled(revision, sources).renderers
    ensures Compiled(revision, sources).renderers[v] in CompiledRenderers(sources).value
    ensures Compiled(revision, sources).renderers[v].definition.viewTypeId == v
  {
    RendererIndexHolds(CompiledRenderers(sources).value);
  }

  lemma ParsedDefinition(revision: int, definitions: seq<Definition>, d: Definition)
    requires Parse(revision, SortViews(definitions)).Some? && d in definitions
    ensures DefinitionOk(d)
    ensures Admitted(d) in Parse(revision, SortViews(definitions)).value.definitions
  {
    var sorted := SortViews(definitions);
    Permutation(sorted, definitions);
    var i :| 0 <= i < |sorted| && sorted[i] == d;
    AdmittedIsSorted(sorted, d);
  }

  lemma DefinedBy(renderers: seq<Renderer>, r: Renderer)
    requires r in renderers
    ensures r.definition in Definitions(renderers)
  {
    var i :| 0 <= i < |renderers| && renderers[i] == r;
    assert Definitions(renderers)[i] == r.definition;
  }

  lemma CompiledDefinitionIsAdmitted(revision: int, sources: seq<Source>, r: Renderer)
    requires Compilable(revision, sources) && r in CompiledRenderers(sources).value
    ensures DefinitionOk(r.definition)
    ensures Admitted(r.definition) in Compiled(revision, sources).catalog.definitions
  {
    DefinedBy(CompiledRenderers(sources).value, r);
    ParsedDefinition(revision, Definitions(CompiledRenderers(sources).value), r.definition);
  }

  lemma CompiledIsCoherent(revision: int, sources: seq<Source>)
    requires Compilable(revision, sources)
    ensures Coherent(Compiled(revision, sources))
  {
    var s := Compiled(revision, sources);
    ParseGivesASnapshot(revision, SortViews(Definitions(CompiledRenderers(sources).value)));
    forall v | v in s.renderers
      ensures Bound(v, s.renderers[v], s.catalog.definitions)
    {
      CompiledRenderersAreFiled(revision, sources, v);
      RenderersAreBuilt(sources, s.renderers[v]);
      BuiltRenderersAreNamed(sources, s.renderers[v]);
      CompiledDefinitionIsAdmitted(revision, sources, s.renderers[v]);
    }
  }

  // ----- the views of a compiled catalog -----

  lemma PanelIsRendered(panels: seq<Entry>, byId: map<string, Entry>, e: Entry)
    requires Found(panels, byId) && CardinalitiesOk(panels, byId)
    requires e in panels && byId[e.Id()] == e
    ensures e.Id() in ViewIds(Definitions(PanelRenderers(panels, byId)))
  {
    var i :| 0 <= i < |panels| && panels[i] == e;
    assert PanelDefinition(byId[panels[i].Id()]).Success?;
    assert ViewIds(Definitions(PanelRenderers(panels, byId)))[i] == e.Id();
  }

  lemma SurfaceIsRendered(surfaces: seq<Entry>, byId: map<string, Entry>, labels: map<string, string>, e: Entry)
    requires Found(surfaces, byId) && e in surfaces && byId[e.Id()] == e
    ensures e.Id() in ViewIds(Definitions(SurfaceRenderers(surfaces, byId, labels)))
  {
    var i :| 0 <= i < |surfaces| && surfaces[i] == e;
    assert ViewIds(Definitions(SurfaceRenderers(surfaces, byId, labels)))[i] == e.Id();
  }

  lemma ListedRenderersCover(sources: seq<Source>, panels: seq<Entry>, panelsById: map<string, Entry>,
                             surfaces: seq<Entry>, surfacesById: map<string, Entry>, e: Entry)
    requires Offers(sources, Panel, panels, panelsById) && Offers(sources, GlobalSurface, surfaces, surfacesById)
    requires CardinalitiesOk(panels, panelsById)
    requires e in panels || e in surfaces
    ensures e.Id() in ViewIds(Definitions(PanelRenderers(panels, panelsById)
              + SurfaceRenderers(surfaces, surfacesById, Labels(FamilyOf(sources, GlobalNavigation)))))
  {
    var labels := Labels(FamilyOf(sources, GlobalNavigation));
    ViewsOfParts(PanelRenderers(panels, panelsById), SurfaceRenderers(surfaces, surfacesById, labels));
    if e in panels {
      PanelIsRendered(panels, panelsById, e);
    } else {
      SurfaceIsRendered(surfaces, surfacesById, labels, e);
    }
  }

  lemma EverySurfaceIsRendered(sources: seq<Source>, e: Entry)
    requires Accepted(sources) && CompiledRenderers(sources).Some?
    requires e in Flat(sources, Panel) || e in Flat(sources, GlobalSurface)
    ensures e.Id() in ViewIds(Definitions(CompiledRenderers(sources).value))
  {
    CanvasOffers(sources);
    LookupsSucceed(sources);
    Permutation(CanvasFrom(sources).orderedPanels, Flat(sources, Panel));
    Permutation(CanvasFrom(sources).orderedGlobalSurfaces, Flat(sources, GlobalSurface));
    ListedRenderersCover(sources, CanvasFrom(sources).orderedPanels, Index(Gathered(sources)[Panel]),
                         CanvasFrom(sources).orderedGlobalSurfaces, Index(Gathered(sources)[GlobalSurface]), e);
  }

  lemma SnapshotHasTheViews(revision: int, definitions: seq<Definition>)
    requires Parse(revision, SortViews(definitions)).Some?
    ensures DefinitionIndex(Parse(revision, SortViews(definitions)).value.definitions).Keys
         == set v | v in ViewIds(definitions)
  {
    HostViews(revision, SortViews(definitions));
    SameViewIds(SortViews(definitions), definitions);
    DefinitionIndexHolds(Parse(revision, SortViews(definitions)).value.definitions);
  }

  /** The views of a compiled catalog are exactly its panels and global surfaces: each has a
      renderer and a definition, and nothing else has. */
  lemma ViewsAreSurfaces(revision: int, sources: seq<Source>, v: string)
    requires Compilable(revision, sources)
    ensures var s := Compiled(revision, sources);
            && (v in s.renderers <==> v in DefinitionIndex(s.catalog.definitions))
            && (v in s.renderers <==>
                  exists e :: (e in Flat(sources, Panel) || e in Flat(sources, GlobalSurface)) && e.Id() == v)
  {
    var s, renderers := Compiled(revision, sources), CompiledRenderers(sources).value;
    RendererIndexHolds(renderers);
    SnapshotHasTheViews(revision, Definitions(renderers));
    if v in s.renderers {
      CompiledRenderersAreFiled(revision, sources, v);
      RenderersAreBuilt(sources, s.renderers[v]);
      BuiltRenderersAreNamed(sources, s.renderers[v]);
    }
    if e :| (e in Flat(sources, Panel) || e in Flat(sources, GlobalSurface)) && e.Id() == v {
      EverySurfaceIsRendered(sources, e);
    }
  }

  // ----- a renderer's definition and the snapshot's -----

  /** The definition that the snapshot has for a view. */
  function DefinitionOf(s: State, v: string): Option<Definition> {
    var byId := DefinitionIndex(s.catalog.definitions);
    if v in byId then Some(byId[v]) else None
  }

  lemma CoherentDefinition(s: State, v: string)
    requires Coherent(s) && v in s.renderers
    ensures DefinitionOf(s, v) == Some(Admitted(s.renderers[v].definition))
  {
    ViewsAreIdentities(s.catalog.definitions);
    assert Bound(v, s.renderers[v], s.catalog.definitions);
    DefinitionIndexFinds(s.catalog.definitions, Admitted(s.renderers[v].definition));
  }

  lemma SettledDefinition(s: State, v: string)
    requires Coherent(s) && Settled(s) && v in s.renderers
    ensures DefinitionOf(s, v) == Some(s.renderers[v].definition)
  {
    var d := s.renderers[v].definition;
    var i :| 0 <= i < |s.catalog.definitions| && s.catalog.definitions[i] == d;
    assert Admitted(s.catalog.definitions[i]) == d;
    CoherentDefinition(s, v);
  }

  /** Right after compilation a panel's renderer and the snapshot disagree about its definition
      exactly when the panel lists its capabilities out of order; a global surface never
      disagrees. */
  lemma FreshRenderersAgree(revision: int, sources: seq<Source>, v: string)
    requires Compilable(revision, sources) && v in Compiled(revision, sources).renderers
    ensures var s := Compiled(revision, sources); var r := s.renderers[v];
            DefinitionOf(s, v) == Some(r.definition) <==>
            (r.isPanel ==> SortedBy(r.surface.contribution.capabilities, StringLe))
  {
    var s := Compiled(revision, sources);
    CompiledIsCoherent(revision, sources);
    CoherentDefinition(s, v);
    CompiledRenderersAreFiled(revision, sources, v);
    RenderersAreBuilt(sources, s.renderers[v]);
    BuiltRenderersAreNamed(sources, s.renderers[v]);
    CompiledDefinitionIsAdmitted(revision, sources, s.renderers[v]);
    AdmittedWhenSorted(s.renderers[v].definition);
  }

  // ----- lookups -----

  /** The lookup by id answers exactly with the one element of the list that has the id. */
  ghost predicate FindsUniquely(byId: map<string, Entry>, entries: seq<Entry>) {
    && (forall e | e in entries :: e.Id() in byId && byId[e.Id()] == e)
    && (forall id | id in byId :: byId[id] in entries && byId[id].Id() == id)
    && UniqueIds(entries)
  }

  lemma LookupFindsUniquely(entries: seq<Entry>, listed: seq<Entry>)
    requires UniqueIds(entries) && multiset(listed) == multiset(entries)
    ensures FindsUniquely(Index(entries), listed)
  {
    PermutedEntries(entries, listed);
    IndexFinds(entries);
  }

  /** After every successful run from a compiled catalog: the registry and the snapshot have one
      revision; every renderer has the snapshot's definition of its own view, up to the order of
      capabilities if nothing has moved yet; surface and definition have one owner; and the
      canvas lookups answer from the ordered lists. */
  lemma EveryRunAgrees(revision: int, sources: seq<Source>, ops: seq<Op>)
    requires Compilable(revision, sources)
    ensures Coherent(Compiled(revision, sources))
    ensures After(Compiled(revision, sources), ops).Some? ==>
              Agrees(revision, sources, ops, After(Compiled(revision, sources), ops).value)
  {
    var s := Compiled(revision, sources);
    CompiledIsCoherent(revision, sources);
    RunsReachTheirDestination(s, ops);
    LookupsFindUniquely(sources);
    if After(s, ops).Some? {
      RenderersAgree(After(s, ops).value, !Quiet(s, ops));
    }
  }

  lemma RenderersAgree(t: State, moved: bool)
    requires Coherent(t) && (moved ==> Settled(t))
    ensures forall v | v in t.renderers :: RendererAgrees(t, v, moved)
  {
    forall v | v in t.renderers
      ensures RendererAgrees(t, v, moved)
    {
      CoherentDefinition(t, v);
      assert Bound(v, t.renderers[v], t.catalog.definitions);
      if moved {
        SettledDefinition(t, v);
      }
    }
  }

  lemma LookupsFindUniquely(sources: seq<Source>)
    requires Accepted(sources)
    ensures FindsUniquely(CanvasFrom(sources).panels, CanvasFrom(sources).orderedPanels)
    ensures FindsUniquely(CanvasFrom(sources).globalSurfaces, CanvasFrom(sources).orderedGlobalSurfaces)
  {
    FamilyIsSound(sources, Panel);
    FamilyIsSound(sources, GlobalSurface);
    LookupFindsUniquely(Flat(sources, Panel), CanvasFrom(sources).orderedPanels);
    LookupFindsUniquely(Flat(sources, GlobalSurface), CanvasFrom(sources).orderedGlobalSurfaces);
  }

  ghost predicate RendererAgrees(t: State, v: string, moved: bool)
    requires v in t.renderers
  {
    var r := t.renderers[v];
    && r.surface.Id() == v
    && DefinitionOf(t, v) == Some(Admitted(r.definition))
    && (moved ==> DefinitionOf(t, v) == Some(r.definition))
    && DefinitionOf(t, v).value.owner == r.surface.owner
  }

  ghost predicate Agrees(revision: int, sources: seq<Source>, ops: seq<Op>, t: State)
    requires Compilable(revision, sources)
  {
    var s := Compiled(revision, sources);
    && t.registryRevision == t.catalog.revision
    && t.renderers.Keys == s.renderers.Keys
    && (forall v | v in t.renderers :: RendererAgrees(t, v, !Quiet(s, ops)))
    && t.families == s.families && t.records == s.records && t.canvas == s.canvas
    && FindsUniquely(t.canvas.panels, t.canvas.orderedPanels)
    && FindsUniquely(t.canvas.globalSurfaces, t.canvas.orderedGlobalSurfaces)
  }

  // ----- lists and records -----

  ghost predicate Lists(listed: seq<Entry>, offered: seq<Entry>, le: (Entry, Entry) -> bool) {
    SortedBy(listed, le) && multiset(listed) == multiset(offered)
  }

  function EntriesOf(targeted: seq<C.Targeted>): seq<Entry> {
    seq(|targeted|, i requires 0 <= i < |targeted| => targeted[i].entry)
  }

  /** Each entry comes with the offered target that it names, which has its owner. */
  ghost predicate Attached(targeted: seq<C.Targeted>, targets: seq<Entry>) {
    forall i | 0 <= i < |targeted| ::
      && targeted[i].target in targets
      && targeted[i].target.Id() == targeted[i].entry.contribution.targetId
      && targeted[i].target.owner == targeted[i].entry.owner
  }

  lemma AttachedTargets(entries: seq<Entry>, targets: seq<Entry>)
    requires UniqueIds(targets) && WellTargeted(entries, Index(targets))
             && C.Resolvable(Ordered(entries), Index(targets))
    ensures var targeted := C.Attach(Ordered(entries), Index(targets));
            EntriesOf(targeted) == Ordered(entries) && Attached(targeted, targets)
  {
    IndexFinds(targets);
    Permutation(Ordered(entries), entries);
    var targeted := C.Attach(Ordered(entries), Index(targets));
    forall i | 0 <= i < |targeted|
      ensures targeted[i].target in targets
      ensures targeted[i].target.Id() == targeted[i].entry.contribution.targetId
      ensures targeted[i].target.owner == targeted[i].entry.owner
    {
      assert Ordered(entries)[i] in Ordered(entries) && Ordered(entries)[i] in entries;
    }
  }

  /** The lists of a canvas catalog: every offered contribution once, in its order, and every
      targeted one with the target it names. */
  lemma CanvasListsEverything(sources: seq<Source>)
    requires Accepted(sources)
    ensures var canvas := CanvasFrom(sources);
            && Lists(canvas.orderedPanels, Flat(sources, Panel), ByOrder)
            && Lists(canvas.orderedGlobalSurfaces, Flat(sources, GlobalSurface), ById)
            && Lists(canvas.globalNavigation, Flat(sources, GlobalNavigation), ByOrder)
            && Lists(canvas.projectLayout, Flat(sources, ProjectLayout), ByOrder)
    ensures var canvas := CanvasFrom(sources);
            && Lists(EntriesOf(canvas.sidebar), Flat(sources, Sidebar), ByOrder)
            && Attached(canvas.sidebar, Flat(sources, GlobalSurface))
            && Lists(EntriesOf(canvas.projectNavigation), Flat(sources, ProjectNavigation), ByOrder)
            && Attached(canvas.projectNavigation, Flat(sources, Panel))
  {
    SidebarAttaches(sources);
    ProjectNavigationAttaches(sources);
  }

  lemma SidebarAttaches(sources: seq<Source>)
    requires Accepted(sources)
    ensures EntriesOf(CanvasFrom(sources).sidebar) == FamilyOf(sources, Sidebar)
    ensures Attached(CanvasFrom(sources).sidebar, Flat(sources, GlobalSurface))
  {
    FamilyIsSound(sources, Sidebar);
    FamilyIsSound(sources, GlobalSurface);
    SidebarResolves(sources);
    TargetsAreChecked(Flat(sources, Sidebar), Flat(sources, GlobalSurface));
    AttachedTargets(Flat(sources, Sidebar), Flat(sources, GlobalSurface));
  }

  lemma ProjectNavigationAttaches(sources: seq<Source>)
    requires Accepted(sources)
    ensures EntriesOf(CanvasFrom(sources).projectNavigation) == FamilyOf(sources, ProjectNavigation)
    ensures Attached(CanvasFrom(sources).projectNavigation, Flat(sources, Panel))
  {
    FamilyIsSound(sources, ProjectNavigation);
    FamilyIsSound(sources, Panel);
    ProjectNavigationResolves(sources);
    TargetsAreChecked(Flat(sources, ProjectNavigation), Flat(sources, Panel));
    AttachedTargets(Flat(sources, ProjectNavigation), Flat(sources, Panel));
  }

  lemma {:induction false} RecordsCover(families: Families, order: seq<Family>, r: Record)
    ensures r in AllRecords(families, order) <==>
            r.family in order && exists e | e in Collected(families, r.family) :: r == RecordOf(r.family, e)
  {
    if order != [] {
      var first := FamilyRecords(order[0], Collected(families, order[0]));
      RecordsCover(families, order[1..], r);
      assert r in first <==> r.family == order[0] &&
                              exists e | e in Collected(families, order[0]) :: r == RecordOf(order[0], e) by {
        if r in first {
          var i :| 0 <= i < |first| && first[i] == r;
          assert Collected(families, order[0])[i] in Collected(families, order[0]);
        }
        if e :| e in Collected(families, order[0]) && r == RecordOf(order[0], e) {
          var i :| 0 <= i < |Collected(families, order[0])| && Collected(families, order[0])[i] == e;
          assert first[i] == r;
        }
      }
    }
  }

  /** No two records are for the same family and id. */
  ghost predicate OneEach(records: seq<Record>) {
    forall i, j | 0 <= i < j < |records| :: records[i].family != records[j].family || records[i].id != records[j].id
  }

  lemma OneEachMeaning(records: seq<Record>)
    ensures OneEach(records) <==>
            && NoRepeats(records)
            && forall x, y | x in records && y in records && x.family == y.family && x.id == y.id :: x == y
  {
    if OneEach(records) {
      forall x, y | x in records && y in records && x.family == y.family && x.id == y.id
        ensures x == y
      {
        var i :| 0 <= i < |records| && records[i] == x;
        var j :| 0 <= j < |records| && records[j] == y;
      }
    } else {
      var i, j :| 0 <= i < j < |records| && records[i].family == records[j].family && records[i].id == records[j].id;
      assert records[i] in records && records[j] in records;
    }
  }

  lemma FamilyHasOneEach(family: Family, entries: seq<Entry>)
    requires UniqueIds(entries)
    ensures OneEach(FamilyRecords(family, entries))
  {
    forall i, j | 0 <= i < j < |entries|
      ensures FamilyRecords(family, entries)[i].id != FamilyRecords(family, entries)[j].id
    {
      assert Ids(entries)[i] != Ids(entries)[j];
    }
  }

  lemma OneEachAppend(a: seq<Record>, b: seq<Record>)
    requires OneEach(a) && OneEach(b) && forall x, y | x in a && y in b :: x.family != y.family
    ensures OneEach(a + b)
  {
    forall i, j | 0 <= i < j < |a + b|
      ensures (a + b)[i].family != (a + b)[j].family || (a + b)[i].id != (a + b)[j].id
    {
      if i < |a| <= j {
        assert a[i] in a && b[j - |a|] in b;
      }
    }
  }

  lemma {:induction false} AllHaveOneEach(families: Families, order: seq<Family>)
    requires NoRepeats(order) && forall family | family in order :: UniqueIds(Collected(families, family))
    ensures OneEach(AllRecords(families, order))
  {
    if order != [] {
      var first, rest := FamilyRecords(order[0], Collected(families, order[0])), AllRecords(families, order[1..]);
      assert order == [order[0]] + order[1..];
      NoRepeatsCons(order[0], order[1..]);
      FamilyHasOneEach(order[0], Collected(families, order[0]));
      AllHaveOneEach(families, order[1..]);
      forall x, y | x in first && y in rest
        ensures x.family != y.family
      {
        RecordsCover(families, order[1..], y);
      }
      OneEachAppend(first, rest);
    }
  }

  lemma FamiliesAreDistinct()
    ensures NoRepeats(FAMILIES)
  {
  }

  /** The records of a compiled catalog: sorted by family and id, exactly one for every collected
      contribution, and no other. */
  lemma RecordsAreComplete(revision: int, sources: seq<Source>)
    requires Compilable(revision, sources)
    ensures SortedBy(Compiled(revision, sources).records, ByFamily)
    ensures OneEach(Compiled(revision, sources).records)
    ensures forall r :: r in Compiled(revision, sources).records <==>
              exists e | e in Flat(sources, r.family) :: Records(r, e)
  {
    RecordsOnce(sources);
    RecordsOfEntries(sources);
    var records := AllRecords(Gathered(sources), FAMILIES);
    Permutation(SortRecords(records), records);
  }

  /** What a record of a family says of a contribution: its id and owner, the target it names if
      its family has targets, and its view if its family has views. */
  predicate Records(r: Record, e: Entry) {
    && r.id == e.contribution.id && r.owner == e.owner
    && (match r.family
        case GlobalNavigation => r.targetId == Some(e.contribution.targetId)
        case Sidebar => r.targetId == Some(e.contribution.targetId)
        case ProjectNavigation => r.targetId == Some(e.contribution.targetId)
        case _ => r.targetId == None)
    && (match r.family
        case Panel => r.viewTypeId == Some(e.contribution.id)
        case GlobalSurface => r.viewTypeId == Some(e.contribution.id)
        case _ => r.viewTypeId == None)
  }

  lemma RecordsOfEntries(sources: seq<Source>)
    ensures forall r :: r in AllRecords(Gathered(sources), FAMILIES) <==>
              exists e | e in Flat(sources, r.family) :: Records(r, e)
  {
    forall r: Record
      ensures r in AllRecords(Gathered(sources), FAMILIES) <==>
              exists e | e in Flat(sources, r.family) :: Records(r, e)
    {
      assert forall e :: r == RecordOf(r.family, e) <==> Records(r, e);
      RecordsCover(Gathered(sources), FAMILIES, r);
      EveryFamily(r.family);
      Permutation(FamilyOf(sources, r.family), Flat(sources, r.family));
    }
  }

  lemma RecordsOnce(sources: seq<Source>)
    requires Accepted(sources)
    ensures OneEach(SortRecords(AllRecords(Gathered(sources), FAMILIES)))
  {
    var records := AllRecords(Gathered(sources), FAMILIES);
    FamiliesAreDistinct();
    forall family | family in FAMILIES
      ensures UniqueIds(Collected(Gathered(sources), family))
    {
      assert Collectable(sources, family);
      PermutedEntries(Flat(sources, family), FamilyOf(sources, family));
    }
    AllHaveOneEach(Gathered(sources), FAMILIES);
    Permutation(SortRecords(records), records);
    OneEachMeaning(records);
    OneEachMeaning(SortRecords(records));
  }
}
