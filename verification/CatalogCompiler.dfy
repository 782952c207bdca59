/** Compilation of one accepted runtime family into the workspace snapshot, the records and
    the renderers, and the two ways in which a compiled catalog moves on. */
module CatalogCompiler {
  import opened Wrappers
  import opened Ordering
  import opened Contributions
  import C = CanvasCatalog
  import opened WorkspaceCatalog
  import opened WorkspaceSnapshot
  import opened CatalogLayers
  import opened CatalogViews

  /** The families in the order in which they are collected and recorded. */
  const FAMILIES := [Command, Panel, GlobalSurface, GlobalNavigation, Sidebar,
                     ProjectNavigation, ProjectLayout, ProjectAction, Settings]

  type Families = map<Family, seq<Entry>>

  datatype Record = Record(family: Family, id: string, owner: Owner,
    targetId: Option<string>, viewTypeId: Option<string>)

  datatype State = State(
    registryRevision: int, families: Families, canvas: C.Canvas, catalog: Snapshot,
    records: seq<Record>, renderers: map<string, Renderer>)

  // ----- records -----

  function RecordOf(family: Family, e: Entry): Record {
    Record(family, e.Id(), e.owner,
           if family in {GlobalNavigation, Sidebar, ProjectNavigation} then Some(e.contribution.targetId) else None,
           if family in {Panel, GlobalSurface} then Some(e.Id()) else None)
  }

  function FamilyRecords(family: Family, entries: seq<Entry>): seq<Record> {
    seq(|entries|, i requires 0 <= i < |entries| => RecordOf(family, entries[i]))
  }

  function Collected(families: Families, family: Family): seq<Entry> {
    if family in families then families[family] else []
  }

  function AllRecords(families: Families, order: seq<Family>): seq<Record> {
    if order == [] then []
    else FamilyRecords(order[0], Collected(families, order[0])) + AllRecords(families, order[1..])
  }

  function FamilyName(family: Family): string {
    match family
    case Command => "command"
    case Panel => "panel"
    case GlobalSurface => "global-surface"
    case GlobalNavigation => "global-navigation"
    case Sidebar => "sidebar"
    case ProjectNavigation => "project-navigation"
    case ProjectLayout => "project-layout"
    case ProjectAction => "project-action"
    case Settings => "settings"
  }

  function ByFamily(a: Record, b: Record): bool {
    var m, n := FamilyName(a.family), FamilyName(b.family);
    if m == n then StringLe(a.id, b.id) else StringLe(m, n)
  }

  lemma ByFamilyIsAPreorder()
    ensures Preorder(ByFamily)
  {
    StringLeIsATotalOrder();
  }

  function SortRecords(records: seq<Record>): (r: seq<Record>)
    ensures SortedBy(r, ByFamily) && multiset(r) == multiset(records)
  {
    ByFamilyIsAPreorder();
    Sort(records, ByFamily)
  }

  // ----- what a compilation yields -----

  function Gathered(sources: seq<Source>): Families {
    map family: Family | true :: FamilyOf(sources, family)
  }

  function RendererSeq(canvas: C.Canvas, families: Families): Option<seq<Renderer>> {
    var panelsById, surfacesById := Index(Collected(families, Panel)), Index(Collected(families, GlobalSurface));
    if && Found(canvas.orderedPanels, panelsById)
       && CardinalitiesOk(canvas.orderedPanels, panelsById)
       && Found(canvas.orderedGlobalSurfaces, surfacesById)
    then Some(PanelRenderers(canvas.orderedPanels, panelsById)
              + SurfaceRenderers(canvas.orderedGlobalSurfaces, surfacesById,
                                 Labels(Collected(families, GlobalNavigation))))
    else None
  }

  /** The last stages: definitions and renderers, then the snapshot. */
  predicate Publishable(revision: int, canvas: C.Canvas, families: Families) {
    var renderers := RendererSeq(canvas, families);
    && renderers.Some?
    && NoRepeats(ViewIds(Definitions(renderers.value)))
    && Parse(revision, SortViews(Definitions(renderers.value))).Some?
  }

  function Published(revision: int, canvas: C.Canvas, families: Families): State
    requires Publishable(revision, canvas, families)
  {
    var renderers := RendererSeq(canvas, families).value;
    State(revision, families, canvas, Parse(revision, SortViews(Definitions(renderers))).value,
          SortRecords(AllRecords(families, FAMILIES)), RendererIndex(renderers))
  }

  /** The condition on an input's sources under which a catalog is compiled. */
  ghost predicate Compilable(revision: int, sources: seq<Source>) {
    Accepted(sources) && Namespacing(sources) && Publishable(revision, CanvasFrom(sources), Gathered(sources))
  }

  ghost function Compiled(revision: int, sources: seq<Source>): State
    requires Compilable(revision, sources)
  {
    Published(revision, CanvasFrom(sources), Gathered(sources))
  }

  // ----- create -----

  ghost predicate AllCollectable(sources: seq<Source>) {
    forall family :: Collectable(sources, family)
  }

  /** What an error of `collect` says about the sources. */
  ghost predicate Uncollectable(sources: seq<Source>, family: Family, error: CatalogError) {
    || (error == ContributionOwnerMismatch && !AllOwned(sources, family))
    || (error == DuplicateContribution && !UniqueIds(Flat(sources, family)))
  }

  ghost predicate IsCollected(sources: seq<Source>, family: Family, entries: seq<Entry>) {
    Collectable(sources, family) && entries == FamilyOf(sources, family)
  }

  method CollectOne(sources: seq<Source>, family: Family) returns (r: Result<seq<Entry>, CatalogError>)
    ensures r.Success? ==> IsCollected(sources, family, r.value)
    ensures r.Failure? ==> !AllCollectable(sources) && Uncollectable(sources, family, r.error)
  {
    r := Collect(sources, family);
  }

  ghost predicate AreCollected(sources: seq<Source>, families: Families) {
    forall family | family in families :: IsCollected(sources, family, families[family])
  }

  lemma AllAreCollected(sources: seq<Source>, order: seq<Family>, families: Families)
    requires forall family: Family :: family in order
    requires forall j | 0 <= j < |order| :: order[j] in families
    requires AreCollected(sources, families)
    ensures AllCollectable(sources) && families == Gathered(sources)
  {
    forall family
      ensures Collectable(sources, family) && family in families && families[family] == FamilyOf(sources, family)
    {
      assert family in order;
      assert IsCollected(sources, family, families[family]);
    }
  }

  lemma CollectedGrow(sources: seq<Source>, families: Families, family: Family, entries: seq<Entry>)
    requires AreCollected(sources, families) && IsCollected(sources, family, entries)
    ensures AreCollected(sources, families[family := entries])
  {
  }

  /** One `collect` per family. */
  method CollectAll(sources: seq<Source>, order: seq<Family>) returns (r: Result<Families, CatalogError>)
    requires forall family: Family :: family in order
    ensures r.Success? <==> AllCollectable(sources)
    ensures r.Success? ==> r.value == Gathered(sources)
    ensures r.Failure? ==> exists family :: Uncollectable(sources, family, r.error)
  {
    var families: Families := map[];
    for i := 0 to |order|
      invariant forall j | 0 <= j < i :: order[j] in families
      invariant AreCollected(sources, families)
    {
      var collected := CollectOne(sources, order[i]);
      if collected.Failure? {
        assert Uncollectable(sources, order[i], collected.error);
        return Failure(collected.error);
      }
      CollectedGrow(sources, families, order[i], collected.value);
      families := families[order[i] := collected.value];
    }
    AllAreCollected(sources, order, families);
    r := Success(families);
  }

  lemma EveryFamily(family: Family)
    ensures family in FAMILIES
  {
    match family
    case Command => assert FAMILIES[0] == family;
    case Panel => assert FAMILIES[1] == family;
    case GlobalSurface => assert FAMILIES[2] == family;
    case GlobalNavigation => assert FAMILIES[3] == family;
    case Sidebar => assert FAMILIES[4] == family;
    case ProjectNavigation => assert FAMILIES[5] == family;
    case ProjectLayout => assert FAMILIES[6] == family;
    case ProjectAction => assert FAMILIES[7] == family;
    case Settings => assert FAMILIES[8] == family;
  }

  predicate UniqueViewsOf(renderers: seq<Renderer>) {
    NoRepeats(ViewIds(Definitions(renderers)))
  }

  lemma RenderersGrow(renderers: seq<Renderer>, next: Renderer)
    ensures ViewIds(Definitions(renderers + [next])) == ViewIds(Definitions(renderers)) + [next.definition.viewTypeId]
    ensures UniqueViewsOf(renderers + [next]) <==>
            UniqueViewsOf(renderers) && next.definition.viewTypeId !in ViewIds(Definitions(renderers))
  {
    var before, after := ViewIds(Definitions(renderers)), ViewIds(Definitions(renderers + [next]));
    assert after == before + [next.definition.viewTypeId];
    assert forall i | 0 <= i < |before| :: after[i] == before[i];
    if UniqueViewsOf(renderers + [next]) {
      assert forall i | 0 <= i < |before| :: before[i] == after[i] != after[|before|];
    }
  }

  lemma PrefixViews(renderers: seq<Renderer>, more: seq<Renderer>)
    ensures UniqueViewsOf(renderers + more) ==> UniqueViewsOf(renderers)
  {
    var before, after := ViewIds(Definitions(renderers)), ViewIds(Definitions(renderers + more));
    assert forall i | 0 <= i < |before| :: after[i] == before[i];
  }

  lemma PanelsGrow(panels: seq<Entry>, i: nat, byId: map<string, Entry>)
    requires i < |panels| && Found(panels[..i], byId) && CardinalitiesOk(panels[..i], byId)
    requires panels[i].Id() in byId && PanelDefinition(byId[panels[i].Id()]).Success?
    ensures Found(panels[..i + 1], byId) && CardinalitiesOk(panels[..i + 1], byId)
    ensures PanelRenderers(panels[..i + 1], byId) == PanelRenderers(panels[..i], byId)
              + [Renderer(true, PanelDefinition(byId[panels[i].Id()]).value, panels[i])]
  {
    assert panels[..i + 1] == panels[..i] + [panels[i]];
  }

  lemma PanelsRepeat(panels: seq<Entry>, i: nat, byId: map<string, Entry>)
    requires i <= |panels| && Found(panels, byId) && CardinalitiesOk(panels, byId)
    ensures Found(panels[..i], byId) && CardinalitiesOk(panels[..i], byId)
    ensures UniqueViewsOf(PanelRenderers(panels, byId)) ==> UniqueViewsOf(PanelRenderers(panels[..i], byId))
  {
    assert PanelRenderers(panels, byId) == PanelRenderers(panels[..i], byId) + PanelRenderers(panels[i..], byId);
    PrefixViews(PanelRenderers(panels[..i], byId), PanelRenderers(panels[i..], byId));
  }

  /** Some of the first panels claim one view twice. */
  ghost predicate PanelsClash(panels: seq<Entry>, byId: map<string, Entry>) {
    exists i :: 0 <= i <= |panels| && ClashWithin(panels[..i], byId)
  }

  predicate ClashWithin(panels: seq<Entry>, byId: map<string, Entry>) {
    Found(panels, byId) && CardinalitiesOk(panels, byId) && !UniqueViewsOf(PanelRenderers(panels, byId))
  }

  /** A panel's cardinality contradicts its scope. */
  predicate Incompatible(panel: Contribution) {
    (panel.globalScope && panel.singleton == PerProject) || (!panel.globalScope && panel.singleton == Global)
  }

  /** The loop over the canvas panels. */
  method BuildPanels(panels: seq<Entry>, byId: map<string, Entry>) returns (r: Result<seq<Renderer>, CatalogError>)
    ensures r.Success? <==> && Found(panels, byId)
                            && CardinalitiesOk(panels, byId)
                            && UniqueViewsOf(PanelRenderers(panels, byId))
    ensures r.Success? ==> r.value == PanelRenderers(panels, byId)
    ensures r.Failure? ==>
              match r.error
              case NoAcceptedOwner => !Found(panels, byId)
              case InvalidPanelCardinality =>
                exists i | 0 <= i < |panels| ::
                  panels[i].Id() in byId && Incompatible(byId[panels[i].Id()].contribution)
              case DuplicateWorkspaceView => PanelsClash(panels, byId)
              case _ => false
  {
    var renderers: seq<Renderer> := [];
    for i := 0 to |panels|
      invariant Found(panels[..i], byId) && CardinalitiesOk(panels[..i], byId)
      invariant renderers == PanelRenderers(panels[..i], byId) && UniqueViewsOf(renderers)
    {
      if panels[i].Id() !in byId {
        return Failure(NoAcceptedOwner);
      }
      var definition := PanelDefinition(byId[panels[i].Id()]);
      if definition.Failure? {
        return Failure(definition.error);
      }
      var next := Renderer(true, definition.value, panels[i]);
      RenderersGrow(renderers, next);
      PanelsGrow(panels, i, byId);
      if definition.value.viewTypeId in ViewIds(Definitions(renderers)) {
        assert ClashWithin(panels[..i + 1], byId);
        if Found(panels, byId) && CardinalitiesOk(panels, byId) {
          PanelsRepeat(panels, i + 1, byId);
        }
        return Failure(DuplicateWorkspaceView);
      }
      renderers := renderers + [next];
    }
    assert panels[..|panels|] == panels;
    r := Success(renderers);
  }

  lemma SurfacesGrow(surfaces: seq<Entry>, i: nat, byId: map<string, Entry>, labels: map<string, string>)
    requires i < |surfaces| && Found(surfaces[..i], byId) && surfaces[i].Id() in byId
    ensures Found(surfaces[..i + 1], byId)
    ensures SurfaceRenderers(surfaces[..i + 1], byId, labels) == SurfaceRenderers(surfaces[..i], byId, labels)
              + [Renderer(false, SurfaceDefinition(byId[surfaces[i].Id()], LabelOf(labels, surfaces[i].Id())),
                                 surfaces[i])]
  {
    assert surfaces[..i + 1] == surfaces[..i] + [surfaces[i]];
  }

  lemma SurfacesRepeat(before: seq<Renderer>, surfaces: seq<Entry>, i: nat,
                       byId: map<string, Entry>, labels: map<string, string>)
    requires i <= |surfaces| && Found(surfaces, byId)
    ensures Found(surfaces[..i], byId)
    ensures UniqueViewsOf(before + SurfaceRenderers(surfaces, byId, labels)) ==>
              UniqueViewsOf(before + SurfaceRenderers(surfaces[..i], byId, labels))
  {
    assert before + SurfaceRenderers(surfaces, byId, labels)
        == (before + SurfaceRenderers(surfaces[..i], byId, labels)) + SurfaceRenderers(surfaces[i..], byId, labels);
    PrefixViews(before + SurfaceRenderers(surfaces[..i], byId, labels), SurfaceRenderers(surfaces[i..], byId, labels));
  }

  /** The loop over the canvas's global surfaces, after the panels. */
  method BuildSurfaces(before: seq<Renderer>, surfaces: seq<Entry>,
                       byId: map<string, Entry>, labels: map<string, string>)
    returns (r: Result<seq<Renderer>, CatalogError>)
    requires UniqueViewsOf(before)
    ensures r.Success? <==> && Found(surfaces, byId)
                            && UniqueViewsOf(before + SurfaceRenderers(surfaces, byId, labels))
    ensures r.Success? ==> r.value == before + SurfaceRenderers(surfaces, byId, labels)
    ensures r.Failure? ==> || (r.error == NoAcceptedOwner && !Found(surfaces, byId))
                           || r.error == DuplicateWorkspaceView
  {
    var renderers := before;
    for i := 0 to |surfaces|
      invariant Found(surfaces[..i], byId)
      invariant renderers == before + SurfaceRenderers(surfaces[..i], byId, labels) && UniqueViewsOf(renderers)
    {
      if surfaces[i].Id() !in byId {
        return Failure(NoAcceptedOwner);
      }
      var definition := SurfaceDefinition(byId[surfaces[i].Id()], LabelOf(labels, surfaces[i].Id()));
      var next := Renderer(false, definition, surfaces[i]);
      RenderersGrow(renderers, next);
      SurfacesGrow(surfaces, i, byId, labels);
      assert before + SurfaceRenderers(surfaces[..i + 1], byId, labels) == renderers + [next];
      if definition.viewTypeId in ViewIds(Definitions(renderers)) {
        if Found(surfaces, byId) {
          SurfacesRepeat(before, surfaces, i + 1, byId, labels);
        }
        return Failure(DuplicateWorkspaceView);
      }
      renderers := renderers + [next];
    }
    assert surfaces[..|surfaces|] == surfaces;
    r := Success(renderers);
  }

  /** What an error of the renderer loops says about the canvas and the families. */
  ghost predicate RendererFault(canvas: C.Canvas, families: Families, error: CatalogError) {
    var panelsById, surfacesById := Index(Collected(families, Panel)), Index(Collected(families, GlobalSurface));
    match error
    case NoAcceptedOwner =>
      !Found(canvas.orderedPanels, panelsById) || !Found(canvas.orderedGlobalSurfaces, surfacesById)
    case InvalidPanelCardinality =>
      exists i | 0 <= i < |canvas.orderedPanels| :: canvas.orderedPanels[i].Id() in panelsById
        && Incompatible(panelsById[canvas.orderedPanels[i].Id()].contribution)
    case DuplicateWorkspaceView =>
      || PanelsClash(canvas.orderedPanels, panelsById)
      || !Found(canvas.orderedGlobalSurfaces, surfacesById)
      || (RendererSeq(canvas, families).Some? && !UniqueViewsOf(RendererSeq(canvas, families).value))
    case _ => false
  }

  method BuildRenderers(canvas: C.Canvas, families: Families) returns (r: Result<seq<Renderer>, CatalogError>)
    ensures r.Success? <==> RendererSeq(canvas, families).Some? && UniqueViewsOf(RendererSeq(canvas, families).value)
    ensures r.Success? ==> r.value == RendererSeq(canvas, families).value
    ensures r.Failure? ==> RendererFault(canvas, families, r.error)
  {
    var panelsById, surfacesById := Index(Collected(families, Panel)), Index(Collected(families, GlobalSurface));
    var labels := LabelBySurface(Collected(families, GlobalNavigation));
    var panels := BuildPanels(canvas.orderedPanels, panelsById);
    if panels.Failure? {
      if Found(canvas.orderedPanels, panelsById) && CardinalitiesOk(canvas.orderedPanels, panelsById)
         && Found(canvas.orderedGlobalSurfaces, surfacesById) {
        PrefixViews(PanelRenderers(canvas.orderedPanels, panelsById),
                    SurfaceRenderers(canvas.orderedGlobalSurfaces, surfacesById, labels));
      }
      return Failure(panels.error);
    }
    r := BuildSurfaces(panels.value, canvas.orderedGlobalSurfaces, surfacesById, labels);
  }

  // ----- the owner lookups cannot fail -----

  lemma LookupsSucceed(sources: seq<Source>)
    requires Accepted(sources)
    ensures var canvas, families := CanvasFrom(sources), Gathered(sources);
            && canvas.orderedPanels == families[Panel]
            && Found(canvas.orderedPanels, Index(families[Panel]))
            && Found(canvas.orderedGlobalSurfaces, Index(families[GlobalSurface]))
            && (forall e | e in canvas.orderedPanels :: Index(families[Panel])[e.Id()] == e)
            && (forall e | e in canvas.orderedGlobalSurfaces :: Index(families[GlobalSurface])[e.Id()] == e)
  {
    FamilyIsSound(sources, Panel);
    FamilyIsSound(sources, GlobalSurface);
    LookupFindsSorted(Flat(sources, Panel), FamilyOf(sources, Panel));
    LookupFindsSorted(Flat(sources, GlobalSurface), OrderedById(Flat(sources, GlobalSurface)));
  }

  lemma LookupFindsSorted(entries: seq<Entry>, sorted: seq<Entry>)
    requires UniqueIds(entries) && multiset(sorted) == multiset(entries)
    ensures Found(sorted, Index(entries)) && forall e | e in sorted :: Index(entries)[e.Id()] == e
  {
    Permutation(sorted, entries);
    IndexFinds(entries);
    assert forall i | 0 <= i < |sorted| :: sorted[i] in entries;
  }

  // ----- create -----

  /** Some offered entry names a target that nobody offers, or one of another owner. */
  ghost predicate Astray(sources: seq<Source>, family: Family, targets: Family, error: CatalogError) {
    exists e :: e in Flat(sources, family) && GoesAstray(e, Flat(sources, targets), error)
  }

  ghost predicate GoesAstray(e: Entry, targets: seq<Entry>, error: CatalogError) {
    match error
    case TargetMissing => forall t | t in targets :: t.Id() != e.contribution.targetId
    case TargetOfAnother => exists t :: t in targets && t.Id() == e.contribution.targetId && t.owner != e.owner
    case _ => false
  }

  ghost predicate Mistargeted(sources: seq<Source>, error: CatalogError) {
    || Astray(sources, GlobalNavigation, GlobalSurface, error)
    || Astray(sources, Sidebar, GlobalSurface, error)
    || Astray(sources, ProjectNavigation, Panel, error)
  }

  /** An entry's target is not as it should be. */
  ghost predicate StrayIn(entries: seq<Entry>, targets: map<string, Entry>, error: CatalogError) {
    exists i | 0 <= i < |entries| :: TargetCode(entries[i], targets) == Some(error)
  }

  lemma StrayTarget(e: Entry, targets: seq<Entry>, sorted: seq<Entry>, error: CatalogError)
    requires SameElements(sorted, targets) && TargetCode(e, Index(sorted)) == Some(error)
    ensures GoesAstray(e, targets, error)
  {
    IndexHolds(sorted);
    if error == TargetMissing {
      forall t | t in targets
        ensures t.Id() != e.contribution.targetId
      {
        assert t in sorted;
      }
    } else {
      var t := Index(sorted)[e.contribution.targetId];
      assert t in targets && t.Id() == e.contribution.targetId && t.owner != e.owner;
    }
  }

  lemma StrayIsAstray(sources: seq<Source>, family: Family, targets: Family, error: CatalogError)
    requires StrayIn(FamilyOf(sources, family), Index(FamilyOf(sources, targets)), error)
    ensures Astray(sources, family, targets, error)
  {
    var entries := FamilyOf(sources, family);
    var i :| 0 <= i < |entries| && TargetCode(entries[i], Index(FamilyOf(sources, targets))) == Some(error);
    Permutation(entries, Flat(sources, family));
    Permutation(FamilyOf(sources, targets), Flat(sources, targets));
    assert entries[i] in entries;
    StrayTarget(entries[i], Flat(sources, targets), FamilyOf(sources, targets), error);
  }

  /** What the error of a failed compilation says about its input. */
  ghost predicate Diagnosis(input: CatalogInput, error: CatalogError) {
    if !SourcesOk(input) then Blames(input, error)
    else
      var sources := Sources(input);
      if !AllCollectable(sources) then exists family :: Uncollectable(sources, family, error)
      else if !Accepted(sources) then Mistargeted(sources, error)
      else if !Namespacing(sources) then error.InvalidCanvas? && NamespaceFault(sources, error.error)
      else Unpublishable(input.registryRevision, sources, error)
  }

  /** Why accepted, namespaced sources were not published: a panel's cardinality contradicts its
      scope; or, when none does, a panel and a surface have one id; or, when none have, the
      snapshot of their definitions is not admitted. */
  ghost predicate Unpublishable(revision: int, sources: seq<Source>, error: CatalogError)
    requires Accepted(sources)
  {
    if exists e :: e in Flat(sources, Panel) && Incompatible(e.contribution) then error == InvalidPanelCardinality
    else if exists p, g :: p in Flat(sources, Panel) && g in Flat(sources, GlobalSurface) && p.Id() == g.Id()
    then error == DuplicateWorkspaceView
    else
      && error == InvalidSnapshot
      && var renderers := RendererSeq(CanvasFrom(sources), Gathered(sources));
      && renderers.Some? && Parse(revision, SortViews(Definitions(renderers.value))).None?
  }

  lemma StrayIsDiagnosed(sources: seq<Source>, error: CatalogError)
    requires || StrayIn(FamilyOf(sources, GlobalNavigation), Index(FamilyOf(sources, GlobalSurface)), error)
             || StrayIn(FamilyOf(sources, Sidebar), Index(FamilyOf(sources, GlobalSurface)), error)
             || StrayIn(FamilyOf(sources, ProjectNavigation), Index(FamilyOf(sources, Panel)), error)
    ensures Mistargeted(sources, error)
  {
    if StrayIn(FamilyOf(sources, GlobalNavigation), Index(FamilyOf(sources, GlobalSurface)), error) {
      StrayIsAstray(sources, GlobalNavigation, GlobalSurface, error);
    } else if StrayIn(FamilyOf(sources, Sidebar), Index(FamilyOf(sources, GlobalSurface)), error) {
      StrayIsAstray(sources, Sidebar, GlobalSurface, error);
    } else {
      StrayIsAstray(sources, ProjectNavigation, Panel, error);
    }
  }

  method CheckTargets(families: Families) returns (fault: Option<CatalogError>)
    ensures fault.None? <==>
            && TargetsOwned(Collected(families, GlobalNavigation), Index(Collected(families, GlobalSurface)))
            && TargetsOwned(Collected(families, Sidebar), Index(Collected(families, GlobalSurface)))
            && TargetsOwned(Collected(families, ProjectNavigation), Index(Collected(families, Panel)))
    ensures fault.Some? ==>
              || StrayIn(Collected(families, GlobalNavigation), Index(Collected(families, GlobalSurface)), fault.value)
              || StrayIn(Collected(families, Sidebar), Index(Collected(families, GlobalSurface)), fault.value)
              || StrayIn(Collected(families, ProjectNavigation), Index(Collected(families, Panel)), fault.value)
  {
    var panelsById, surfacesById := Index(Collected(families, Panel)), Index(Collected(families, GlobalSurface));
    fault := AssertOwnedTargets(Collected(families, GlobalNavigation), surfacesById);
    if fault.Some? {
      return;
    }
    fault := AssertOwnedTargets(Collected(families, Sidebar), surfacesById);
    if fault.Some? {
      return;
    }
    fault := AssertOwnedTargets(Collected(families, ProjectNavigation), panelsById);
  }

  method ContextMap(sources: seq<Source>) returns (contexts: C.Contexts)
    ensures contexts == ContextsOf(sources)
  {
    contexts := map[];
    for i := 0 to |sources|
      invariant contexts == ContextsOf(sources[..i])
    {
      assert sources[..i + 1][..i] == sources[..i];
      contexts := contexts[sources[i].moduleId := sources[i].activation];
    }
    assert sources[..|sources|] == sources;
  }

  lemma AcceptedMeans(input: CatalogInput)
    requires SourcesOk(input) && AllCollectable(Sources(input))
    ensures var sources := Sources(input); var families := Gathered(sources);
            Accepted(sources) <==>
            && TargetsOwned(Collected(families, GlobalNavigation), Index(Collected(families, GlobalSurface)))
            && TargetsOwned(Collected(families, Sidebar), Index(Collected(families, GlobalSurface)))
            && TargetsOwned(Collected(families, ProjectNavigation), Index(Collected(families, Panel)))
  {
  }

  method Create(input: CatalogInput) returns (r: Result<State, CatalogError>)
    ensures r.Success? <==> SourcesOk(input) && Compilable(input.registryRevision, Sources(input))
    ensures r.Success? ==> r.value == Compiled(input.registryRevision, Sources(input))
    ensures r.Failure? ==> Diagnosis(input, r.error)
  {
    var sources := SourcesFor(input);
    if sources.Failure? {
      return Failure(sources.error);
    }
    forall family: Family
      ensures family in FAMILIES
    {
      EveryFamily(family);
    }
    var families := CollectAll(sources.value, FAMILIES);
    if families.Failure? {
      return Failure(families.error);
    }
    AcceptedMeans(input);
    var targets := CheckTargets(families.value);
    if targets.Some? {
      StrayIsDiagnosed(sources.value, targets.value);
      return Failure(targets.value);
    }
    r := CreateFromAccepted(input.registryRevision, sources.value, families.value);
  }

  lemma CompatiblePanels(panels: seq<Entry>, byId: map<string, Entry>)
    requires FoundAsItself(panels, byId)
    ensures CardinalitiesOk(panels, byId) <==> forall e | e in panels :: !Incompatible(e.contribution)
  {
    forall e | e in panels
      ensures PanelDefinition(byId[e.Id()]).Success? <==> !Incompatible(e.contribution)
    {
    }
    if CardinalitiesOk(panels, byId) {
      forall e | e in panels
        ensures !Incompatible(e.contribution)
      {
        var i :| 0 <= i < |panels| && panels[i] == e;
        assert PanelDefinition(byId[panels[i].Id()]).Success?;
      }
    }
  }

  lemma PanelsDoNotClash(panels: seq<Entry>, byId: map<string, Entry>)
    requires FoundAsItself(panels, byId) && UniqueIds(panels)
    ensures !PanelsClash(panels, byId)
  {
    forall i | 0 <= i <= |panels|
      ensures !ClashWithin(panels[..i], byId)
    {
      if CardinalitiesOk(panels[..i], byId) {
        PanelViews(panels[..i], byId);
        assert forall j | 0 <= j < i :: Ids(panels[..i])[j] == Ids(panels)[j];
      }
    }
  }

  /** When accepted sources have renderers, and when no two of them claim one view. */
  lemma AcceptedRenderers(sources: seq<Source>)
    requires Accepted(sources)
    ensures var renderers := RendererSeq(CanvasFrom(sources), Gathered(sources));
            && (renderers.Some? <==> forall e | e in Flat(sources, Panel) :: !Incompatible(e.contribution))
            && (renderers.Some? ==> (UniqueViewsOf(renderers.value) <==>
                  forall p, g | p in Flat(sources, Panel) && g in Flat(sources, GlobalSurface) :: p.Id() != g.Id()))
    ensures !PanelsClash(CanvasFrom(sources).orderedPanels, Index(Gathered(sources)[Panel]))
  {
    LookupsSucceed(sources);
    FamilyIsSound(sources, Panel);
    FamilyIsSound(sources, GlobalSurface);
    var panels, surfaces := CanvasFrom(sources).orderedPanels, CanvasFrom(sources).orderedGlobalSurfaces;
    var panelsById, surfacesById := Index(Gathered(sources)[Panel]), Index(Gathered(sources)[GlobalSurface]);
    PermutedEntries(Flat(sources, Panel), panels);
    PermutedEntries(Flat(sources, GlobalSurface), surfaces);
    CompatiblePanels(panels, panelsById);
    PanelsDoNotClash(panels, panelsById);
    if CardinalitiesOk(panels, panelsById) {
      ViewsClash(panels, panelsById, surfaces, surfacesById, Labels(FamilyOf(sources, GlobalNavigation)));
    }
  }

  /** What an error of `Publish` says. */
  ghost predicate PublishFault(revision: int, canvas: C.Canvas, families: Families, error: CatalogError) {
    var renderers := RendererSeq(canvas, families);
    || RendererFault(canvas, families, error)
    || (&& error == InvalidSnapshot
        && renderers.Some? && UniqueViewsOf(renderers.value)
        && Parse(revision, SortViews(Definitions(renderers.value))).None?)
  }

  lemma IncompatiblePanelIsOffered(sources: seq<Source>)
    requires Accepted(sources) && RendererFault(CanvasFrom(sources), Gathered(sources), InvalidPanelCardinality)
    ensures exists e :: e in Flat(sources, Panel) && Incompatible(e.contribution)
  {
    LookupsSucceed(sources);
    var panels, byId := CanvasFrom(sources).orderedPanels, Index(Gathered(sources)[Panel]);
    Permutation(panels, Flat(sources, Panel));
    var i :| 0 <= i < |panels| && panels[i].Id() in byId && Incompatible(byId[panels[i].Id()].contribution);
    assert panels[i] in panels;
  }

  lemma RendererFaultMeans(revision: int, sources: seq<Source>, error: CatalogError)
    requires Accepted(sources) && RendererFault(CanvasFrom(sources), Gathered(sources), error)
    ensures Unpublishable(revision, sources, error)
  {
    AcceptedRenderers(sources);
    LookupsSucceed(sources);
    if error == InvalidPanelCardinality {
      IncompatiblePanelIsOffered(sources);
    }
  }

  lemma FaultMeans(revision: int, sources: seq<Source>, error: CatalogError)
    requires Accepted(sources) && PublishFault(revision, CanvasFrom(sources), Gathered(sources), error)
    ensures Unpublishable(revision, sources, error)
  {
    if RendererFault(CanvasFrom(sources), Gathered(sources), error) {
      RendererFaultMeans(revision, sources, error);
    } else {
      AcceptedRenderers(sources);
    }
  }

  method CreateFromAccepted(revision: int, sources: seq<Source>, families: Families)
    returns (r: Result<State, CatalogError>)
    requires Accepted(sources) && families == Gathered(sources)
    ensures r.Success? <==> Compilable(revision, sources)
    ensures r.Success? ==> r.value == Compiled(revision, sources)
    ensures r.Failure? && !Namespacing(sources) ==>
              r.error.InvalidCanvas? && NamespaceFault(sources, r.error.error)
    ensures r.Failure? && Namespacing(sources) ==> Unpublishable(revision, sources, r.error)
  {
    var contexts := ContextMap(sources);
    var canvas := C.Create(ModulesOf(sources), contexts);
    CanvasAddsOnlyNamespacing(sources);
    if canvas.Failure? {
      return Failure(InvalidCanvas(canvas.error));
    }
    r := Publish(revision, canvas.value, families);
    if r.Failure? {
      FaultMeans(revision, sources, r.error);
    }
  }

  /** The loops over canvas panels and surfaces, the snapshot and the records. */
  method Publish(revision: int, canvas: C.Canvas, families: Families) returns (r: Result<State, CatalogError>)
    ensures r.Success? <==> Publishable(revision, canvas, families)
    ensures r.Success? ==> r.value == Published(revision, canvas, families)
    ensures r.Failure? ==> PublishFault(revision, canvas, families, r.error)
  {
    var renderers := BuildRenderers(canvas, families);
    if renderers.Failure? {
      return Failure(renderers.error);
    }
    var snapshot := Parse(revision, SortViews(Definitions(renderers.value)));
    if snapshot.None? {
      return Failure(InvalidSnapshot);
    }
    r := Success(State(revision, families, canvas, snapshot.value,
                       SortRecords(AllRecords(families, FAMILIES)), RendererIndex(renderers.value)));
  }
}
