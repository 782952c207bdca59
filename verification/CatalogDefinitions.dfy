/** What a compiled catalog publishes of each panel and global surface, read off the
    contribution's own fields, and exactly when a catalog can be published. */
module CatalogDefinitions {
  import opened Wrappers
  import opened Ordering
  import opened Contributions
  import opened WorkspaceCatalog
  import opened WorkspaceSnapshot
  import opened CatalogLayers
  import opened CatalogViews
  import opened CatalogCompiler
  import opened CatalogLaws
  import opened CatalogPermutation
  import opened CatalogSteps
  import Text

  // ----- offers -----

  /** The source at position `i` offers the contribution, in this family. */
  ghost predicate OffersAt(sources: seq<Source>, family: Family, i: int, e: Entry) {
    && 0 <= i < |sources|
    && family in sources[i].offers && e.contribution in sources[i].offers[family]
    && e.owner.moduleId == sources[i].moduleId && e.owner.activationId == sources[i].activation.activationId
  }

  /** The entries of a family are the contributions that the sources offer in it, each owned by
      the module and the activation of its source. */
  lemma {:induction false} EntriesAreOffers(sources: seq<Source>, family: Family, e: Entry)
    ensures e in Flat(sources, family) <==> exists i :: OffersAt(sources, family, i, e)
  {
    if sources != [] {
      var offered, owner := Offered(sources[0].offers, family), OwnerOf(sources[0]);
      EntriesAreOffers(sources[1..], family, e);
      assert e in OwnedBy(owner, offered) <==> OffersAt(sources, family, 0, e) by {
        if e in OwnedBy(owner, offered) {
          var j :| 0 <= j < |offered| && OwnedBy(owner, offered)[j] == e;
          assert offered[j] == e.contribution;
        }
        if OffersAt(sources, family, 0, e) {
          var j :| 0 <= j < |offered| && offered[j] == e.contribution;
          assert OwnedBy(owner, offered)[j] == e;
        }
      }
      if i :| OffersAt(sources[1..], family, i, e) {
        assert OffersAt(sources, family, i + 1, e);
      }
      if i :| OffersAt(sources, family, i, e) {
        assert i == 0 || OffersAt(sources[1..], family, i - 1, e);
      }
    }
  }

  /** The source stands for a built-in module of the input, with the activation that the input has
      for it, or it is one of the input's further sources. */
  ghost predicate Given(input: CatalogInput, s: Source) {
    || s in input.runtime || s in input.host
    || exists m :: m in input.modules && m.id in input.contexts
         && s == Source(m.id, input.contexts[m.id], m.offers)
  }

  /** The sources of an input are its modules and its further sources, each once. */
  lemma SourcesAreGiven(input: CatalogInput)
    requires ModulesActivated(input.modules, input.contexts)
    ensures |Sources(input)| == |input.modules| + |input.runtime| + |input.host|
    ensures forall s :: s in Sources(input) <==> Given(input, s)
  {
    var activated := Activated(input.modules, input.contexts);
    forall s
      ensures s in activated <==>
              exists m :: m in input.modules && m.id in input.contexts
                && s == Source(m.id, input.contexts[m.id], m.offers)
    {
      if s in activated {
        var i :| 0 <= i < |activated| && activated[i] == s;
        assert input.modules[i] in input.modules;
      }
      if m :| m in input.modules && m.id in input.contexts && s == Source(m.id, input.contexts[m.id], m.offers) {
        var i :| 0 <= i < |input.modules| && input.modules[i] == m;
        assert activated[i] == s;
      }
    }
  }

  // ----- panels -----

  /** The panel is not for one project while it is global, nor global while it is for one. */
  predicate Compatible(panel: Contribution) {
    if panel.globalScope then panel.singleton != PerProject else panel.singleton != Global
  }

  /** What a definition says of a panel. */
  ghost predicate Describes(d: Definition, e: Entry) {
    && d.viewTypeId == e.contribution.id && d.owner == e.owner
    && d.text == e.contribution.text
    && (d.scope == GlobalView <==> e.contribution.globalScope)
    && (d.scope == ProjectView <==> !e.contribution.globalScope)
    && (d.cardinality == Multiple <==> e.contribution.singleton == NotSingleton)
    && (d.cardinality == OnePerResource <==> e.contribution.singleton == PerProject)
    && (d.cardinality == SingleView <==> e.contribution.singleton == Global)
    && d.close == Dispose
    && d.loaderId == "shipctl.canvas.panel." + e.contribution.id
    && d.aliases == []
    && multiset(d.capabilities) == multiset(e.contribution.capabilities)
  }

  /** What a definition says of a global surface. */
  ghost predicate DescribesSurface(d: Definition, sources: seq<Source>, e: Entry) {
    && d.viewTypeId == e.contribution.id && d.owner == e.owner
    && IsLabel(sources, e.contribution.id, d.text)
    && d.scope == GlobalView && d.cardinality == SingleView && d.close == Hide
    && d.loaderId == "shipctl.canvas.global-surface." + e.contribution.id
    && d.aliases == [] && d.capabilities == []
  }

  /** The text of the least navigation entry for the surface, or its id if there is none. */
  ghost predicate IsLabel(sources: seq<Source>, surfaceId: string, text: string) {
    || (exists e :: LeastFor(sources, surfaceId, e) && text == e.contribution.text)
    || (text == surfaceId && forall e | e in Flat(sources, GlobalNavigation) :: e.contribution.targetId != surfaceId)
  }

  lemma CompatiblePanelsAreDescribed(e: Entry)
    ensures PanelDefinition(e).Success? <==> Compatible(e.contribution)
    ensures PanelDefinition(e).Failure? ==> PanelDefinition(e).error == InvalidPanelCardinality
    ensures PanelDefinition(e).Success? ==> Describes(PanelDefinition(e).value, e)
  {
  }

  lemma SurfacesAreDescribed(sources: seq<Source>, e: Entry)
    ensures DescribesSurface(
              SurfaceDefinition(e, LabelOf(Labels(FamilyOf(sources, GlobalNavigation)), e.Id())), sources, e)
  {
    LabelIsTheLeast(sources, e.Id());
  }

  lemma OneRendererPerView(renderers: seq<Renderer>, x: Renderer, y: Renderer)
    requires UniqueViewsOf(renderers) && x in renderers && y in renderers
    requires x.definition.viewTypeId == y.definition.viewTypeId
    ensures x == y
  {
    var i :| 0 <= i < |renderers| && renderers[i] == x;
    var j :| 0 <= j < |renderers| && renderers[j] == y;
    assert ViewIds(Definitions(renderers))[i] == ViewIds(Definitions(renderers))[j];
  }

  lemma PanelRendererOf(panels: seq<Entry>, byId: map<string, Entry>, e: Entry) returns (r: Renderer)
    requires FoundAsItself(panels, byId) && CardinalitiesOk(panels, byId) && e in panels
    ensures r in PanelRenderers(panels, byId) && r.isPanel && r.surface == e
    ensures PanelDefinition(e) == Success(r.definition)
  {
    var i :| 0 <= i < |panels| && panels[i] == e;
    assert PanelDefinition(byId[panels[i].Id()]).Success?;
    r := PanelRenderers(panels, byId)[i];
  }

  lemma SurfaceRendererOf(surfaces: seq<Entry>, byId: map<string, Entry>, labels: map<string, string>, e: Entry)
    returns (r: Renderer)
    requires FoundAsItself(surfaces, byId) && e in surfaces
    ensures r in SurfaceRenderers(surfaces, byId, labels) && !r.isPanel && r.surface == e
    ensures r.definition == SurfaceDefinition(e, LabelOf(labels, e.Id()))
  {
    var i :| 0 <= i < |surfaces| && surfaces[i] == e;
    r := SurfaceRenderers(surfaces, byId, labels)[i];
  }

  lemma EntriesAreFound(sources: seq<Source>)
    requires Accepted(sources)
    ensures var canvas := CanvasFrom(sources);
            && FoundAsItself(canvas.orderedPanels, Index(Gathered(sources)[Panel]))
            && FoundAsItself(canvas.orderedGlobalSurfaces, Index(Gathered(sources)[GlobalSurface]))
            && SameElements(canvas.orderedPanels, Flat(sources, Panel))
            && SameElements(canvas.orderedGlobalSurfaces, Flat(sources, GlobalSurface))
  {
    LookupsSucceed(sources);
    Permutation(CanvasFrom(sources).orderedPanels, Flat(sources, Panel));
    Permutation(CanvasFrom(sources).orderedGlobalSurfaces, Flat(sources, GlobalSurface));
  }

  lemma PanelHasARenderer(sources: seq<Source>, e: Entry) returns (r: Renderer)
    requires Accepted(sources) && CompiledRenderers(sources).Some? && e in Flat(sources, Panel)
    ensures r in CompiledRenderers(sources).value && r.isPanel && r.surface == e
    ensures PanelDefinition(e) == Success(r.definition)
  {
    EntriesAreFound(sources);
    r := PanelRendererOf(CanvasFrom(sources).orderedPanels, Index(Gathered(sources)[Panel]), e);
  }

  lemma SurfaceHasARenderer(sources: seq<Source>, e: Entry) returns (r: Renderer)
    requires Accepted(sources) && CompiledRenderers(sources).Some? && e in Flat(sources, GlobalSurface)
    ensures r in CompiledRenderers(sources).value && !r.isPanel && r.surface == e
    ensures r.definition == SurfaceDefinition(e, LabelOf(Labels(FamilyOf(sources, GlobalNavigation)), e.Id()))
  {
    EntriesAreFound(sources);
    r := SurfaceRendererOf(CanvasFrom(sources).orderedGlobalSurfaces, Index(Gathered(sources)[GlobalSurface]),
                           Labels(FamilyOf(sources, GlobalNavigation)), e);
  }

  lemma IndexFindsRenderer(renderers: seq<Renderer>, r: Renderer)
    requires UniqueViewsOf(renderers) && r in renderers
    ensures var v := r.definition.viewTypeId; v in RendererIndex(renderers) && RendererIndex(renderers)[v] == r
  {
    RendererIndexHolds(renderers);
    var i :| 0 <= i < |renderers| && renderers[i] == r;
    assert ViewIds(Definitions(renderers))[i] == r.definition.viewTypeId;
    OneRendererPerView(renderers, RendererIndex(renderers)[r.definition.viewTypeId], r);
  }

  lemma RendererIsFiled(revision: int, sources: seq<Source>, r: Renderer)
    requires Compilable(revision, sources) && r in CompiledRenderers(sources).value
    ensures var s := Compiled(revision, sources); var v := r.definition.viewTypeId;
            && v in s.renderers && s.renderers[v] == r
            && DefinitionOf(s, v) == Some(Admitted(r.definition))
  {
    IndexFindsRenderer(CompiledRenderers(sources).value, r);
    CompiledIsCoherent(revision, sources);
    CoherentDefinition(Compiled(revision, sources), r.definition.viewTypeId);
  }

  /** Every offered panel of a compiled catalog is published under its id, with its label, scope,
      cardinality and loader; closing its view disposes of it. The renderer of the id is the
      panel's, and has the same definition with the capabilities as listed. */
  lemma PanelsArePublished(revision: int, sources: seq<Source>, e: Entry)
    requires Compilable(revision, sources) && e in Flat(sources, Panel)
    ensures Compatible(e.contribution)
    ensures var s := Compiled(revision, sources); var id := e.contribution.id;
            && DefinitionOf(s, id).Some? && Describes(DefinitionOf(s, id).value, e)
            && SortedBy(DefinitionOf(s, id).value.capabilities, StringLe)
            && id in s.renderers && s.renderers[id].isPanel && s.renderers[id].surface == e
            && s.renderers[id].definition ==
               DefinitionOf(s, id).value.(capabilities := e.contribution.capabilities)
  {
    var r := PanelHasARenderer(sources, e);
    CompatiblePanelsAreDescribed(e);
    RendererIsFiled(revision, sources, r);
  }

  /** Every offered global surface is published under its id as one global view that closing
      hides, with its loader and the label that navigation gives it. */
  lemma SurfacesArePublished(revision: int, sources: seq<Source>, e: Entry)
    requires Compilable(revision, sources) && e in Flat(sources, GlobalSurface)
    ensures var s := Compiled(revision, sources); var id := e.contribution.id;
            && DefinitionOf(s, id).Some? && DescribesSurface(DefinitionOf(s, id).value, sources, e)
            && id in s.renderers && !s.renderers[id].isPanel && s.renderers[id].surface == e
            && s.renderers[id].definition == DefinitionOf(s, id).value
  {
    var r := SurfaceHasARenderer(sources, e);
    SurfacesAreDescribed(sources, e);
    RendererIsFiled(revision, sources, r);
  }

  // ----- when a catalog is published -----

  /** The workspace accepts a view with this id, owner, label and list of capabilities. */
  predicate ViewOk(e: Entry, text: string, capabilities: seq<string>) {
    && Text.WorkspaceName(e.contribution.id)
    && Text.Identity(e.owner.moduleId) && Text.Identity(e.owner.activationId) && Text.Identity(text)
    && NoRepeats(capabilities) && forall c | c in capabilities :: Text.WorkspaceName(c)
  }

  lemma PrefixedName(prefix: string, id: string)
    requires Text.Identity(prefix) && Text.WorkspaceName(id)
    ensures Text.Identity(prefix + id)
  {
    var i :| 0 <= i < |prefix| && !Text.JsSpace(prefix[i]);
    assert (prefix + id)[i] == prefix[i];
  }

  lemma LoadersAreIdentities()
    ensures Text.Identity("shipctl.canvas.panel.") && Text.Identity("shipctl.canvas.global-surface.")
  {
    assert "shipctl.canvas.panel."[0] == 's' && "shipctl.canvas.global-surface."[0] == 's';
  }

  lemma PanelViewOk(e: Entry)
    requires PanelDefinition(e).Success?
    ensures DefinitionOk(PanelDefinition(e).value) <==> ViewOk(e, e.contribution.text, e.contribution.capabilities)
  {
    LoadersAreIdentities();
    if Text.WorkspaceName(e.contribution.id) {
      PrefixedName("shipctl.canvas.panel.", e.contribution.id);
    }
  }

  lemma SurfaceViewOk(e: Entry, text: string)
    ensures DefinitionOk(SurfaceDefinition(e, text)) <==> ViewOk(e, text, [])
  {
    LoadersAreIdentities();
    if Text.WorkspaceName(e.contribution.id) {
      PrefixedName("shipctl.canvas.global-surface.", e.contribution.id);
    }
  }

  lemma {:induction false} WithoutAliases(definitions: seq<Definition>)
    requires forall d | d in definitions :: d.aliases == []
    ensures Identities(definitions) == ViewIds(definitions)
  {
    if definitions != [] {
      WithoutAliases(definitions[1..]);
      assert definitions[0].aliases == [];
      assert ViewIds(definitions) == [definitions[0].viewTypeId] + ViewIds(definitions[1..]);
    }
  }

  lemma OkEverywhere(a: seq<Definition>, b: seq<Definition>)
    requires SameElements(a, b)
    ensures AllOk(a) <==> forall d | d in b :: DefinitionOk(d)
  {
    if AllOk(a) {
      forall d | d in b
        ensures DefinitionOk(d)
      {
        assert d in a;
        var i :| 0 <= i < |a| && a[i] == d;
      }
    }
    if forall d | d in b :: DefinitionOk(d) {
      assert forall i | 0 <= i < |a| :: a[i] in a && a[i] in b;
    }
  }

  lemma AdmittedHaveNoAliases(definitions: seq<Definition>)
    requires forall d | d in definitions :: d.aliases == []
    ensures forall d | d in AdmittedAll(definitions) :: d.aliases == []
    ensures ViewIds(AdmittedAll(definitions)) == ViewIds(definitions)
  {
    forall d | d in AdmittedAll(definitions)
      ensures d.aliases == []
    {
      var i :| 0 <= i < |definitions| && AdmittedAll(definitions)[i] == d;
      assert definitions[i] in definitions;
    }
  }

  lemma ClaimsWithoutAliases(definitions: seq<Definition>)
    requires forall d | d in definitions :: d.aliases == []
    ensures NoRepeats(Identities(SortViews(AdmittedAll(SortViews(definitions))))) <==> UniqueViews(definitions)
  {
    var sorted := SortViews(definitions);
    Permutation(sorted, definitions);
    AdmittedHaveNoAliases(sorted);
    WithoutAliases(AdmittedAll(sorted));
    WithoutAliases(sorted);
    WithoutAliases(definitions);
    IdentitiesPermute(SortViews(AdmittedAll(sorted)), AdmittedAll(sorted));
    IdentitiesPermute(sorted, definitions);
  }

  /** Definitions without aliases are admitted exactly if each is and no two have one view. */
  lemma ParseWithoutAliases(revision: int, definitions: seq<Definition>)
    requires forall d | d in definitions :: d.aliases == []
    ensures Parse(revision, SortViews(definitions)).Some? <==>
            RevisionOk(revision) && (forall d | d in definitions :: DefinitionOk(d)) && UniqueViews(definitions)
  {
    Permutation(SortViews(definitions), definitions);
    OkEverywhere(SortViews(definitions), definitions);
    ClaimsWithoutAliases(definitions);
  }

  /** The label of a surface of accepted sources. */
  function LabelIn(sources: seq<Source>, surfaceId: string): string {
    LabelOf(Labels(FamilyOf(sources, GlobalNavigation)), surfaceId)
  }

  lemma OneIsLeast(sources: seq<Source>, surfaceId: string, e: Entry, f: Entry)
    requires UniqueIds(Flat(sources, GlobalNavigation))
    requires LeastFor(sources, surfaceId, e) && LeastFor(sources, surfaceId, f)
    ensures e == f
  {
    UniqueIdsMeaning(Flat(sources, GlobalNavigation));
    StringLeAntisymmetric(e.Id(), f.Id());
  }

  lemma LabelIsUnique(sources: seq<Source>, surfaceId: string, text: string)
    requires Accepted(sources)
    ensures IsLabel(sources, surfaceId, text) <==> text == LabelIn(sources, surfaceId)
  {
    LabelIsTheLeast(sources, surfaceId);
    FamilyIsSound(sources, GlobalNavigation);
    if e :| LeastFor(sources, surfaceId, e) && text == e.contribution.text {
      if f :| LeastFor(sources, surfaceId, f) && LabelIn(sources, surfaceId) == f.contribution.text {
        OneIsLeast(sources, surfaceId, e, f);
      }
    }
  }

  /** The views of the offered panels and surfaces are sound one by one. */
  ghost predicate EachViewOk(sources: seq<Source>) {
    && (forall e | e in Flat(sources, Panel) :: ViewOk(e, e.contribution.text, e.contribution.capabilities))
    && (forall e | e in Flat(sources, GlobalSurface) :: ViewOk(e, LabelIn(sources, e.Id()), []))
  }

  lemma DefinitionsAreOk(sources: seq<Source>, d: Definition)
    requires Accepted(sources) && CompiledRenderers(sources).Some? && d in Definitions(CompiledRenderers(sources).value)
    ensures d.aliases == []
    ensures EachViewOk(sources) ==> DefinitionOk(d)
  {
    var renderers := CompiledRenderers(sources).value;
    var i :| 0 <= i < |renderers| && renderers[i].definition == d;
    RenderersAreBuilt(sources, renderers[i]);
    BuiltRenderersAreNamed(sources, renderers[i]);
    if renderers[i].isPanel {
      PanelViewOk(renderers[i].surface);
    } else {
      SurfaceViewOk(renderers[i].surface, LabelIn(sources, renderers[i].surface.Id()));
    }
  }

  lemma ViewsAreOk(sources: seq<Source>)
    requires Accepted(sources) && CompiledRenderers(sources).Some?
    requires forall d | d in Definitions(CompiledRenderers(sources).value) :: DefinitionOk(d)
    ensures EachViewOk(sources)
  {
    forall e | e in Flat(sources, Panel)
      ensures ViewOk(e, e.contribution.text, e.contribution.capabilities)
    {
      var r := PanelHasARenderer(sources, e);
      DefinedBy(CompiledRenderers(sources).value, r);
      PanelViewOk(e);
    }
    forall e | e in Flat(sources, GlobalSurface)
      ensures ViewOk(e, LabelIn(sources, e.Id()), [])
    {
      var r := SurfaceHasARenderer(sources, e);
      DefinedBy(CompiledRenderers(sources).value, r);
      SurfaceViewOk(e, LabelIn(sources, e.Id()));
    }
  }

  /** No panel contradicts its scope, and none shares its id with a surface. */
  ghost predicate ViewsFit(sources: seq<Source>) {
    && (forall e | e in Flat(sources, Panel) :: Compatible(e.contribution))
    && (forall p, g | p in Flat(sources, Panel) && g in Flat(sources, GlobalSurface) :: p.Id() != g.Id())
  }

  lemma AllDefinitionsAreOk(sources: seq<Source>)
    requires Accepted(sources) && CompiledRenderers(sources).Some?
    ensures var definitions := Definitions(CompiledRenderers(sources).value);
            && (forall d | d in definitions :: d.aliases == [])
            && ((forall d | d in definitions :: DefinitionOk(d)) <==> EachViewOk(sources))
  {
    var definitions := Definitions(CompiledRenderers(sources).value);
    forall d | d in definitions
      ensures d.aliases == []
      ensures EachViewOk(sources) ==> DefinitionOk(d)
    {
      DefinitionsAreOk(sources, d);
    }
    if forall d | d in definitions :: DefinitionOk(d) {
      ViewsAreOk(sources);
    }
  }

  lemma RenderedIsAdmitted(revision: int, sources: seq<Source>)
    requires Accepted(sources) && CompiledRenderers(sources).Some?
    ensures var definitions := Definitions(CompiledRenderers(sources).value);
            Parse(revision, SortViews(definitions)).Some? <==>
            RevisionOk(revision) && EachViewOk(sources) && UniqueViews(definitions)
  {
    AllDefinitionsAreOk(sources);
    ParseWithoutAliases(revision, Definitions(CompiledRenderers(sources).value));
  }

  lemma CompatibleOrNot(panels: seq<Entry>)
    ensures (forall e | e in panels :: Compatible(e.contribution)) <==>
            (forall e | e in panels :: !Incompatible(e.contribution))
  {
  }

  lemma FittingViewsAreRendered(sources: seq<Source>)
    requires Accepted(sources)
    ensures CompiledRenderers(sources).Some? && UniqueViews(Definitions(CompiledRenderers(sources).value)) <==>
            ViewsFit(sources)
  {
    AcceptedRenderers(sources);
    CompatibleOrNot(Flat(sources, Panel));
    var renderers := CompiledRenderers(sources);
    assert renderers == RendererSeq(CanvasFrom(sources), Gathered(sources));
    if renderers.Some? {
      assert UniqueViews(Definitions(renderers.value)) <==> UniqueViewsOf(renderers.value);
    }
  }

  lemma PublishableSteps(revision: int, sources: seq<Source>)
    requires Accepted(sources)
    ensures Publishable(revision, CanvasFrom(sources), Gathered(sources)) <==>
            && CompiledRenderers(sources).Some? && UniqueViews(Definitions(CompiledRenderers(sources).value))
            && Parse(revision, SortViews(Definitions(CompiledRenderers(sources).value))).Some?
  {
  }

  lemma PublishableExactly(revision: int, sources: seq<Source>)
    requires Accepted(sources)
    ensures Publishable(revision, CanvasFrom(sources), Gathered(sources)) <==>
            RevisionOk(revision) && ViewsFit(sources) && EachViewOk(sources)
  {
    FittingViewsAreRendered(sources);
    PublishableSteps(revision, sources);
    if CompiledRenderers(sources).Some? {
      RenderedIsAdmitted(revision, sources);
    }
  }

  lemma SurfaceLabels(sources: seq<Source>)
    requires Accepted(sources)
    ensures (forall e | e in Flat(sources, GlobalSurface) :: ViewOk(e, LabelIn(sources, e.Id()), [])) <==>
            (forall e, text | e in Flat(sources, GlobalSurface) && IsLabel(sources, e.contribution.id, text) ::
               ViewOk(e, text, []))
  {
    forall e, text | e in Flat(sources, GlobalSurface)
      ensures IsLabel(sources, e.contribution.id, text) <==> text == LabelIn(sources, e.Id())
    {
      LabelIsUnique(sources, e.Id(), text);
    }
  }

  /** Sources are compiled exactly if they pass the checks of targets and namespaces, the revision
      is a safe integer, no panel's cardinality contradicts its scope, no panel shares its id with
      a global surface, and the workspace accepts the names of every panel and surface, where a
      surface has the label that navigation gives it. */
  lemma CompilableExactly(revision: int, sources: seq<Source>)
    ensures Compilable(revision, sources) <==>
            && Accepted(sources) && Namespacing(sources)
            && 0 <= revision <= 9_007_199_254_740_991
            && ViewsFit(sources)
            && (forall e | e in Flat(sources, Panel) :: ViewOk(e, e.contribution.text, e.contribution.capabilities))
            && (forall e, text | e in Flat(sources, GlobalSurface) && IsLabel(sources, e.contribution.id, text) ::
                  ViewOk(e, text, []))
  {
    if Accepted(sources) {
      PublishableExactly(revision, sources);
      SurfaceLabels(sources);
    }
  }

  /** The entry names an offered target of its own owner. */
  ghost predicate NamesOwnTarget(e: Entry, targets: seq<Entry>) {
    exists t :: t in targets && t.Id() == e.contribution.targetId && t.owner == e.owner
  }

  ghost predicate Targeted(sources: seq<Source>, family: Family, targets: Family) {
    forall e | e in Flat(sources, family) :: NamesOwnTarget(e, Flat(sources, targets))
  }

  lemma TargetMeans(e: Entry, targets: seq<Entry>, sorted: seq<Entry>)
    requires UniqueIds(sorted) && SameElements(sorted, targets)
    ensures TargetCode(e, Index(sorted)).None? <==> NamesOwnTarget(e, targets)
  {
    IndexFinds(sorted);
    if TargetCode(e, Index(sorted)).None? {
      assert Index(sorted)[e.contribution.targetId] in targets;
    }
    if t :| t in targets && t.Id() == e.contribution.targetId && t.owner == e.owner {
      assert t in sorted;
    }
  }

  lemma EachIsTargeted(entries: seq<Entry>, offered: seq<Entry>, byId: map<string, Entry>, targets: seq<Entry>)
    requires SameElements(entries, offered)
    requires forall e | e in offered :: TargetCode(e, byId).None? <==> NamesOwnTarget(e, targets)
    ensures TargetsOwned(entries, byId) <==> forall e | e in offered :: NamesOwnTarget(e, targets)
  {
    if TargetsOwned(entries, byId) {
      forall e | e in offered
        ensures NamesOwnTarget(e, targets)
      {
        assert e in entries;
        var i :| 0 <= i < |entries| && entries[i] == e;
        assert TargetCode(entries[i], byId).None?;
      }
    } else {
      var i :| 0 <= i < |entries| && TargetCode(entries[i], byId).Some?;
      assert entries[i] in entries;
    }
  }

  lemma TargetedMeans(sources: seq<Source>, family: Family, targets: Family)
    requires UniqueIds(Flat(sources, targets))
    ensures TargetsOwned(FamilyOf(sources, family), Index(FamilyOf(sources, targets))) <==>
            Targeted(sources, family, targets)
  {
    Permutation(FamilyOf(sources, family), Flat(sources, family));
    PermutedEntries(FamilyOf(sources, targets), Flat(sources, targets));
    forall e | e in Flat(sources, family)
      ensures TargetCode(e, Index(FamilyOf(sources, targets))).None? <==> NamesOwnTarget(e, Flat(sources, targets))
    {
      TargetMeans(e, Flat(sources, targets), FamilyOf(sources, targets));
    }
    EachIsTargeted(FamilyOf(sources, family), Flat(sources, family), Index(FamilyOf(sources, targets)),
                   Flat(sources, targets));
  }

  /** The workspace layer's checks: distinct modules with live activations of their own, owned
      contributions with distinct ids in each family, and owned targets. */
  lemma AcceptedExactly(sources: seq<Source>)
    ensures Accepted(sources) <==>
            && NoRepeats(ModuleIds(sources))
            && (forall s | s in sources :: !s.activation.disposed && s.activation.moduleId == s.moduleId)
            && (forall family :: Collectable(sources, family))
            && Targeted(sources, GlobalNavigation, GlobalSurface)
            && Targeted(sources, Sidebar, GlobalSurface)
            && Targeted(sources, ProjectNavigation, Panel)
  {
    if forall family :: Collectable(sources, family) {
      assert Collectable(sources, GlobalSurface) && Collectable(sources, Panel);
      TargetedMeans(sources, GlobalNavigation, GlobalSurface);
      TargetedMeans(sources, Sidebar, GlobalSurface);
      TargetedMeans(sources, ProjectNavigation, Panel);
    }
  }
}
