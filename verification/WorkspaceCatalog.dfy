/** The workspace contribution catalog: what it accepts, and what it compiles an accepted
    family of sources into. */
module WorkspaceCatalog {
  import opened Wrappers
  import opened Ordering
  import opened Contributions
  import C = CanvasCatalog
  import SurfaceRegistries
  import Text

  datatype CatalogError =
    | InvalidRegistryRevision | DuplicateModuleId | NoActivation | ActivationDisposed | ActivationMismatch
    | ContributionOwnerMismatch | DuplicateContribution | TargetMissing | TargetOfAnother
    | InvalidPanelCardinality | DuplicateWorkspaceView | NoAcceptedOwner | NoSemanticDefinition
    | InvalidCanvas(error: SurfaceRegistries.CanvasError) | InvalidSnapshot

  // ----- sources -----

  datatype CatalogInput = CatalogInput(
    registryRevision: int, modules: seq<C.Module>, contexts: C.Contexts, runtime: seq<Source>, host: seq<Source>)

  predicate RevisionOk(revision: int) {
    0 <= revision <= Text.MAX_SAFE_INTEGER
  }

  predicate ModulesActivated(modules: seq<C.Module>, contexts: C.Contexts) {
    forall i | 0 <= i < |modules| :: modules[i].id in contexts
  }

  function Activated(modules: seq<C.Module>, contexts: C.Contexts): seq<Source>
    requires ModulesActivated(modules, contexts)
  {
    seq(|modules|, i requires 0 <= i < |modules| => Source(modules[i].id, contexts[modules[i].id], modules[i].offers))
  }

  predicate Live(s: Source) {
    !s.activation.disposed && s.activation.moduleId == s.moduleId
  }

  predicate AllLive(sources: seq<Source>) {
    forall i | 0 <= i < |sources| :: Live(sources[i])
  }

  /** The sources of an input, built-in modules first. */
  function Sources(input: CatalogInput): seq<Source>
    requires ModulesActivated(input.modules, input.contexts)
  {
    Activated(input.modules, input.contexts) + input.runtime + input.host
  }

  ghost predicate SourcesOk(input: CatalogInput) {
    && RevisionOk(input.registryRevision)
    && ModulesActivated(input.modules, input.contexts)
    && NoRepeats(ModuleIds(Sources(input)))
    && AllLive(Sources(input))
  }

  /** The part of `sourcesFor` shared by runtime and host sources. */
  method Append(sources: seq<Source>, more: seq<Source>) returns (r: Result<seq<Source>, CatalogError>)
    requires NoRepeats(ModuleIds(sources))
    ensures r.Success? <==> NoRepeats(ModuleIds(sources + more))
    ensures r.Success? ==> r.value == sources + more
    ensures r.Failure? ==> r.error == DuplicateModuleId
  {
    var all := sources;
    var moduleIds := set id | id in ModuleIds(sources);
    for i := 0 to |more|
      invariant all == sources + more[..i]
      invariant NoRepeats(ModuleIds(all))
      invariant moduleIds == set id | id in ModuleIds(all)
    {
      if more[i].moduleId in moduleIds {
        var j :| 0 <= j < |all| && ModuleIds(all)[j] == more[i].moduleId;
        assert ModuleIds(sources + more)[j] == ModuleIds(sources + more)[|all|];
        return Failure(DuplicateModuleId);
      }
      moduleIds := moduleIds + {more[i].moduleId};
      assert ModuleIds(all + [more[i]]) == ModuleIds(all) + [more[i].moduleId];
      all := all + [more[i]];
      assert more[..i + 1] == more[..i] + [more[i]];
    }
    assert more[..|more|] == more;
    r := Success(all);
  }

  method ActivateModules(modules: seq<C.Module>, contexts: C.Contexts) returns (r: Result<seq<Source>, CatalogError>)
    ensures r.Success? <==> ModulesActivated(modules, contexts) && NoRepeats(C.ModuleIds(modules))
    ensures r.Success? ==> r.value == Activated(modules, contexts) && NoRepeats(ModuleIds(r.value))
    ensures r.Failure? ==> || (r.error == DuplicateModuleId && !NoRepeats(C.ModuleIds(modules)))
                           || (r.error == NoActivation && !ModulesActivated(modules, contexts))
  {
    var all: seq<Source> := [];
    var moduleIds: set<string> := {};
    for i := 0 to |modules|
      invariant ModulesActivated(modules[..i], contexts) && all == Activated(modules[..i], contexts)
      invariant moduleIds == set j | 0 <= j < i :: modules[j].id
      invariant forall j, k | 0 <= j < k < i :: modules[j].id != modules[k].id
    {
      if modules[i].id in moduleIds {
        var j :| 0 <= j < i && modules[j].id == modules[i].id;
        assert C.ModuleIds(modules)[j] == C.ModuleIds(modules)[i];
        return Failure(DuplicateModuleId);
      }
      moduleIds := moduleIds + {modules[i].id};
      if modules[i].id !in contexts {
        return Failure(NoActivation);
      }
      all := all + [Source(modules[i].id, contexts[modules[i].id], modules[i].offers)];
      assert modules[..i + 1] == modules[..i] + [modules[i]];
    }
    assert modules[..|modules|] == modules;
    r := Success(all);
  }

  /** What an error of `sourcesFor` says about the input. */
  ghost predicate Blames(input: CatalogInput, error: CatalogError) {
    match error
    case InvalidRegistryRevision => !RevisionOk(input.registryRevision)
    case NoActivation => !ModulesActivated(input.modules, input.contexts)
    case DuplicateModuleId =>
      || !NoRepeats(C.ModuleIds(input.modules))
      || (ModulesActivated(input.modules, input.contexts) && !NoRepeats(ModuleIds(Sources(input))))
    case ActivationDisposed =>
      ModulesActivated(input.modules, input.contexts) && exists s | s in Sources(input) :: s.activation.disposed
    case ActivationMismatch =>
      ModulesActivated(input.modules, input.contexts)
      && exists s | s in Sources(input) :: s.activation.moduleId != s.moduleId
    case _ => false
  }

  lemma PrefixRepeats(sources: seq<Source>, more: seq<Source>)
    ensures NoRepeats(ModuleIds(sources + more)) ==> NoRepeats(ModuleIds(sources))
  {
    assert forall i | 0 <= i < |sources| :: ModuleIds(sources + more)[i] == ModuleIds(sources)[i];
  }

  lemma ActivatedIds(input: CatalogInput)
    requires ModulesActivated(input.modules, input.contexts)
    ensures NoRepeats(ModuleIds(Sources(input))) ==> NoRepeats(C.ModuleIds(input.modules))
  {
    var activated := Activated(input.modules, input.contexts);
    assert ModuleIds(activated) == C.ModuleIds(input.modules);
    PrefixRepeats(activated + input.runtime, input.host);
    PrefixRepeats(activated, input.runtime);
  }

  method SourcesFor(input: CatalogInput) returns (r: Result<seq<Source>, CatalogError>)
    ensures r.Success? <==> SourcesOk(input)
    ensures r.Success? ==> r.value == Sources(input)
    ensures r.Failure? ==> Blames(input, r.error)
  {
    if !RevisionOk(input.registryRevision) {
      return Failure(InvalidRegistryRevision);
    }
    var activated := ActivateModules(input.modules, input.contexts);
    if activated.Failure? {
      if ModulesActivated(input.modules, input.contexts) {
        ActivatedIds(input);
      }
      return Failure(activated.error);
    }
    var withRuntime := Append(activated.value, input.runtime);
    if withRuntime.Failure? {
      PrefixRepeats(activated.value + input.runtime, input.host);
      return Failure(withRuntime.error);
    }
    var all :- Append(withRuntime.value, input.host);
    for i := 0 to |all|
      invariant forall j | 0 <= j < i :: Live(all[j])
    {
      if all[i].activation.disposed {
        return Failure(ActivationDisposed);
      }
      if all[i].activation.moduleId != all[i].moduleId {
        return Failure(ActivationMismatch);
      }
    }
    r := Success(all);
  }

  // ----- families -----

  predicate OwnsAll(source: Source, family: Family) {
    forall i | 0 <= i < |Offered(source.offers, family)| ::
      Offered(source.offers, family)[i].moduleId == source.moduleId
  }

  predicate AllOwned(sources: seq<Source>, family: Family) {
    forall i | 0 <= i < |sources| :: OwnsAll(sources[i], family)
  }

  ghost predicate Collectable(sources: seq<Source>, family: Family) {
    AllOwned(sources, family) && UniqueIds(Flat(sources, family))
  }

  lemma {:induction false} FlatAppend(a: seq<Source>, b: seq<Source>, family: Family)
    ensures Flat(a + b, family) == Flat(a, family) + Flat(b, family)
  {
    if a == [] {
      assert a + b == b;
    } else {
      assert (a + b)[1..] == a[1..] + b;
      FlatAppend(a[1..], b, family);
    }
  }

  lemma FlatSnoc(sources: seq<Source>, i: nat, family: Family)
    requires i < |sources|
    ensures Flat(sources[..i + 1], family)
         == Flat(sources[..i], family) + OwnedBy(OwnerOf(sources[i]), Offered(sources[i].offers, family))
  {
    assert sources[..i + 1] == sources[..i] + [sources[i]];
    FlatAppend(sources[..i], [sources[i]], family);
    assert Flat([sources[i]], family) ==
           OwnedBy(OwnerOf(sources[i]), Offered(sources[i].offers, family)) + Flat([], family);
  }

  lemma PrefixIds(entries: seq<Entry>, more: seq<Entry>)
    ensures UniqueIds(entries + more) ==> UniqueIds(entries)
  {
    assert forall i | 0 <= i < |entries| :: Ids(entries + more)[i] == Ids(entries)[i];
  }

  /** If the first sources cannot be collected, neither can all of them. */
  lemma CannotCollect(sources: seq<Source>, i: nat, family: Family)
    requires i < |sources|
    ensures !OwnsAll(sources[i], family) ==> !AllOwned(sources, family)
    ensures !UniqueIds(Flat(sources[..i + 1], family)) ==> !UniqueIds(Flat(sources, family))
  {
    assert sources == sources[..i + 1] + sources[i + 1..];
    FlatAppend(sources[..i + 1], sources[i + 1..], family);
    PrefixIds(Flat(sources[..i + 1], family), Flat(sources[i + 1..], family));
  }

  /** The inner loop of `collect`, over one source. */
  method CollectFrom(source: Source, family: Family, entries: seq<Entry>, seen: set<string>)
    returns (r: Result<seq<Entry>, CatalogError>)
    requires UniqueIds(entries) && seen == set id | id in Ids(entries)
    ensures var all := entries + OwnedBy(OwnerOf(source), Offered(source.offers, family));
            && (r.Success? <==> OwnsAll(source, family) && UniqueIds(all))
            && (r.Success? ==> r.value == all)
            && (r.Failure? ==> || (r.error == ContributionOwnerMismatch && !OwnsAll(source, family))
                               || (r.error == DuplicateContribution && !UniqueIds(all)))
  {
    var offered, owner := Offered(source.offers, family), OwnerOf(source);
    var all, ids := entries, seen;
    for i := 0 to |offered|
      invariant all == entries + OwnedBy(owner, offered[..i])
      invariant UniqueIds(all) && ids == set id | id in Ids(all)
      invariant forall j | 0 <= j < i :: offered[j].moduleId == source.moduleId
    {
      if offered[i].moduleId != source.moduleId {
        return Failure(ContributionOwnerMismatch);
      }
      ghost var whole := entries + OwnedBy(owner, offered);
      assert whole[..|all|] == all && whole[|all|] == Entry(offered[i], owner);
      if offered[i].id in ids {
        var j :| 0 <= j < |all| && Ids(all)[j] == offered[i].id;
        assert Ids(whole)[j] == Ids(whole)[|all|];
        return Failure(DuplicateContribution);
      }
      ids := ids + {offered[i].id};
      assert Ids(all + [Entry(offered[i], owner)]) == Ids(all) + [offered[i].id];
      all := all + [Entry(offered[i], owner)];
      assert OwnedBy(owner, offered[..i + 1]) == OwnedBy(owner, offered[..i]) + [Entry(offered[i], owner)];
    }
    assert offered[..|offered|] == offered;
    r := Success(all);
  }

  lemma AllOwnedSnoc(sources: seq<Source>, i: nat, family: Family)
    requires i < |sources| && AllOwned(sources[..i], family) && OwnsAll(sources[i], family)
    ensures AllOwned(sources[..i + 1], family)
  {
    assert sources[..i + 1] == sources[..i] + [sources[i]];
  }

  method Collect(sources: seq<Source>, family: Family) returns (r: Result<seq<Entry>, CatalogError>)
    ensures r.Success? <==> Collectable(sources, family)
    ensures r.Success? ==> r.value == Ordered(Flat(sources, family))
    ensures r.Failure? ==> || (r.error == ContributionOwnerMismatch && !AllOwned(sources, family))
                           || (r.error == DuplicateContribution && !UniqueIds(Flat(sources, family)))
  {
    var entries: seq<Entry> := [];
    for i := 0 to |sources|
      invariant entries == Flat(sources[..i], family) && UniqueIds(entries)
      invariant AllOwned(sources[..i], family)
    {
      FlatSnoc(sources, i, family);
      var collected := CollectFrom(sources[i], family, entries, set id | id in Ids(entries));
      if collected.Failure? {
        CannotCollect(sources, i, family);
        return Failure(collected.error);
      }
      entries := collected.value;
      AllOwnedSnoc(sources, i, family);
    }
    assert sources[..|sources|] == sources;
    r := Success(Ordered(entries));
  }

  // ----- targets -----

  function TargetCode(e: Entry, targets: map<string, Entry>): Option<CatalogError> {
    if e.contribution.targetId !in targets then Some(TargetMissing)
    else if targets[e.contribution.targetId].owner != e.owner then Some(TargetOfAnother)
    else None
  }

  predicate TargetsOwned(entries: seq<Entry>, targets: map<string, Entry>) {
    forall i | 0 <= i < |entries| :: TargetCode(entries[i], targets).None?
  }

  method AssertOwnedTargets(entries: seq<Entry>, targets: map<string, Entry>) returns (fault: Option<CatalogError>)
    ensures fault.None? <==> TargetsOwned(entries, targets)
    ensures fault.Some? ==> exists i | 0 <= i < |entries| ::
              TargetsOwned(entries[..i], targets) && fault == TargetCode(entries[i], targets)
  {
    for i := 0 to |entries|
      invariant TargetsOwned(entries[..i], targets)
    {
      fault := TargetCode(entries[i], targets);
      if fault.Some? {
        return;
      }
    }
    assert entries[..|entries|] == entries;
    fault := None;
  }

  // ----- definitions -----

  datatype ViewScope = GlobalView | ProjectView | OtherView
  datatype Cardinality = SingleView | OnePerResource | Multiple
  datatype CloseBehavior = Hide | Dispose | Forbid

  datatype Definition = Definition(
    viewTypeId: string, owner: Owner, text: string, scope: ViewScope, cardinality: Cardinality, close: CloseBehavior,
    capabilities: seq<string>, loaderId: string, aliases: seq<string>)

  datatype Renderer = Renderer(isPanel: bool, definition: Definition, surface: Entry)

  function PanelDefinition(e: Entry): Result<Definition, CatalogError> {
    var panel := e.contribution;
    if (panel.globalScope && panel.singleton.PerProject?) || (!panel.globalScope && panel.singleton.Global?)
    then Failure(InvalidPanelCardinality)
    else Success(Definition(
      panel.id, e.owner, panel.text, if panel.globalScope then GlobalView else ProjectView,
      (match panel.singleton
       case NotSingleton => Multiple
       case PerProject => OnePerResource
       case Global => SingleView),
      Dispose, panel.capabilities, "shipctl.canvas.panel." + panel.id, []))
  }

  function SurfaceDefinition(e: Entry, text: string): Definition {
    Definition(e.Id(), e.owner, text, GlobalView, SingleView, Hide, [],
               "shipctl.canvas.global-surface." + e.Id(), [])
  }

  /** `viewLabelBySurface`: the first navigation entry for a surface labels it. */
  function Labels(navigation: seq<Entry>): map<string, string> {
    if navigation == [] then map[]
    else
      var before, last := Labels(navigation[..|navigation| - 1]), navigation[|navigation| - 1].contribution;
      if last.targetId in before then before else before[last.targetId := last.text]
  }

  method LabelBySurface(navigation: seq<Entry>) returns (labels: map<string, string>)
    ensures labels == Labels(navigation)
  {
    labels := map[];
    for i := 0 to |navigation|
      invariant labels == Labels(navigation[..i])
    {
      assert navigation[..i + 1][..i] == navigation[..i];
      if navigation[i].contribution.targetId !in labels {
        labels := labels[navigation[i].contribution.targetId := navigation[i].contribution.text];
      }
    }
    assert navigation[..|navigation|] == navigation;
  }

  function LabelOf(labels: map<string, string>, surfaceId: string): string {
    if surfaceId in labels then labels[surfaceId] else surfaceId
  }

  /** Every surface has an accepted entry of its id. */
  predicate Found(surfaces: seq<Entry>, byId: map<string, Entry>) {
    forall i | 0 <= i < |surfaces| :: surfaces[i].Id() in byId
  }

  predicate CardinalitiesOk(panels: seq<Entry>, byId: map<string, Entry>)
    requires Found(panels, byId)
  {
    forall i | 0 <= i < |panels| :: PanelDefinition(byId[panels[i].Id()]).Success?
  }

  /** The renderers of ordered panels and surfaces. */
  function PanelRenderers(panels: seq<Entry>, byId: map<string, Entry>): seq<Renderer>
    requires Found(panels, byId) && CardinalitiesOk(panels, byId)
  {
    seq(|panels|, i requires 0 <= i < |panels| =>
      Renderer(true, PanelDefinition(byId[panels[i].Id()]).value, panels[i]))
  }

  function SurfaceRenderers(surfaces: seq<Entry>, byId: map<string, Entry>, labels: map<string, string>): seq<Renderer>
    requires Found(surfaces, byId)
  {
    seq(|surfaces|, i requires 0 <= i < |surfaces| =>
      Renderer(false, SurfaceDefinition(byId[surfaces[i].Id()], LabelOf(labels, surfaces[i].Id())), surfaces[i]))
  }

  function RendererIndex(renderers: seq<Renderer>): map<string, Renderer> {
    if renderers == [] then map[]
    else
      var last := renderers[|renderers| - 1];
      RendererIndex(renderers[..|renderers| - 1])[last.definition.viewTypeId := last]
  }

  function Definitions(renderers: seq<Renderer>): seq<Definition> {
    seq(|renderers|, i requires 0 <= i < |renderers| => renderers[i].definition)
  }

  function ViewIds(definitions: seq<Definition>): seq<string> {
    seq(|definitions|, i requires 0 <= i < |definitions| => definitions[i].viewTypeId)
  }
}
