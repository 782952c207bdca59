/** A source that compiles, and whose renderer then disagrees with the snapshot. */
module CatalogExample {
  import opened Wrappers
  import opened Ordering
  import opened Contributions
  import opened WorkspaceCatalog
  import opened WorkspaceSnapshot
  import opened CatalogLayers
  import opened CatalogCompiler
  import opened CatalogSteps
  import opened CatalogLaws
  import C = CanvasCatalog
  import Text

  /** A source that offers one panel. */
  function Lone(panel: Contribution, activationId: string): Source {
    Source(panel.moduleId, Activation(panel.moduleId, activationId, false), map[Panel := [panel]])
  }

  function LoneEntry(panel: Contribution, activationId: string): Entry {
    Entry(panel, Owner(panel.moduleId, activationId))
  }

  function LoneEntries(panel: Contribution, activationId: string, family: Family): seq<Entry> {
    if family.Panel? then [LoneEntry(panel, activationId)] else []
  }

  lemma LoneOffers(panel: Contribution, activationId: string, family: Family)
    ensures Flat([Lone(panel, activationId)], family) == LoneEntries(panel, activationId, family)
  {
    assert [Lone(panel, activationId)][1..] == [];
  }

  lemma LoneFamilies(panel: Contribution, activationId: string, family: Family)
    ensures FamilyOf([Lone(panel, activationId)], family) == LoneEntries(panel, activationId, family)
    ensures OrderedById(Flat([Lone(panel, activationId)], family)) == LoneEntries(panel, activationId, family)
  {
    LoneOffers(panel, activationId, family);
    var entries := LoneEntries(panel, activationId, family);
    SingletonSorts(entries, Ordered(entries));
    SingletonSorts(entries, OrderedById(entries));
  }

  lemma SingletonSorts<T>(entries: seq<T>, sorted: seq<T>)
    requires multiset(entries) == multiset(sorted) && |entries| <= 1
    ensures sorted == entries
  {
    assert |sorted| == |multiset(sorted)| == |multiset(entries)| == |entries|;
    if entries != [] {
      assert entries[0] in multiset(sorted);
    }
  }

  lemma LoneCollects(panel: Contribution, activationId: string, family: Family)
    ensures Collectable([Lone(panel, activationId)], family)
  {
    LoneOffers(panel, activationId, family);
    assert OwnsAll(Lone(panel, activationId), family);
  }

  lemma AcceptedWithoutTargets(sources: seq<Source>)
    requires |sources| <= 1 && AllLive(sources) && forall family :: Collectable(sources, family)
    requires FamilyOf(sources, GlobalNavigation) == FamilyOf(sources, Sidebar)
             == FamilyOf(sources, ProjectNavigation) == []
    ensures Accepted(sources)
  {
  }

  lemma LoneIsAccepted(panel: Contribution, activationId: string)
    ensures Accepted([Lone(panel, activationId)])
  {
    forall family
      ensures Collectable([Lone(panel, activationId)], family)
    {
      LoneCollects(panel, activationId, family);
    }
    LoneHasNoTargets(panel, activationId);
    AcceptedWithoutTargets([Lone(panel, activationId)]);
  }

  lemma LoneHasNoTargets(panel: Contribution, activationId: string)
    ensures var sources := [Lone(panel, activationId)];
            && AllLive(sources)
            && FamilyOf(sources, GlobalNavigation) == FamilyOf(sources, Sidebar)
               == FamilyOf(sources, ProjectNavigation) == []
  {
    LoneFamilies(panel, activationId, GlobalNavigation);
    LoneFamilies(panel, activationId, Sidebar);
    LoneFamilies(panel, activationId, ProjectNavigation);
  }

  lemma LoneIsNamespaced(panel: Contribution, activationId: string)
    requires Namespaced(panel.id)
    ensures Namespacing([Lone(panel, activationId)])
  {
    LoneOffers(panel, activationId, GlobalNavigation);
    LoneOffers(panel, activationId, GlobalSurface);
    LoneOffers(panel, activationId, Panel);
    assert AllNamespaced(LoneEntries(panel, activationId, Panel));
  }

  lemma LoneCanvas(panel: Contribution, activationId: string)
    ensures Accepted([Lone(panel, activationId)])
    ensures CanvasFrom([Lone(panel, activationId)]).orderedPanels == [LoneEntry(panel, activationId)]
    ensures CanvasFrom([Lone(panel, activationId)]).orderedGlobalSurfaces == []
  {
    LoneIsAccepted(panel, activationId);
    LoneFamilies(panel, activationId, GlobalSurface);
    LoneFamilies(panel, activationId, Panel);
  }

  lemma OneRenderer(e: Entry, families: Families, canvas: C.Canvas)
    requires canvas.orderedPanels == [e] && canvas.orderedGlobalSurfaces == []
    requires Collected(families, Panel) == [e]
    requires PanelDefinition(e).Success?
    ensures RendererSeq(canvas, families) == Some([Renderer(true, PanelDefinition(e).value, e)])
  {
    var byId := Index(Collected(families, Panel));
    IndexHolds([e]);
    assert e in [e];
    assert byId[e.Id()] == e;
    assert Found(canvas.orderedPanels, byId) && CardinalitiesOk(canvas.orderedPanels, byId);
    var surfacesById, labels := Index(Collected(families, GlobalSurface)),
        Labels(Collected(families, GlobalNavigation));
    assert Found(canvas.orderedGlobalSurfaces, surfacesById);
    assert PanelRenderers(canvas.orderedPanels, byId)
           + SurfaceRenderers(canvas.orderedGlobalSurfaces, surfacesById, labels)
        == [Renderer(true, PanelDefinition(e).value, e)];
  }

  lemma LoneRenderers(panel: Contribution, activationId: string)
    requires PanelDefinition(LoneEntry(panel, activationId)).Success?
    ensures Accepted([Lone(panel, activationId)])
    ensures CompiledRenderers([Lone(panel, activationId)]) ==
            Some([Renderer(true, PanelDefinition(LoneEntry(panel, activationId)).value,
                           LoneEntry(panel, activationId))])
  {
    LoneCanvas(panel, activationId);
    LoneFamilies(panel, activationId, Panel);
    var sources := [Lone(panel, activationId)];
    OneRenderer(LoneEntry(panel, activationId), Gathered(sources), CanvasFrom(sources));
  }

  lemma OneDefinitionParses(revision: int, d: Definition)
    requires RevisionOk(revision) && DefinitionOk(d) && d.aliases == []
    ensures Parse(revision, SortViews([d])).Some?
  {
    SingletonSorts([d], SortViews([d]));
    ParseSound(revision, [d]);
    SingletonSorts([], SortStrings([]));
    assert AdmittedAll([d]) == [Admitted(d)];
    assert [Admitted(d)][1..] == [];
    assert Identities([Admitted(d)]) == [d.viewTypeId];
  }

  lemma OneRendererIsIndexed(r: Renderer)
    ensures RendererIndex([r]) == map[r.definition.viewTypeId := r]
    ensures NoRepeats(ViewIds([r.definition]))
  {
    assert [r][..0] == [];
    assert RendererIndex([]) == map[];
  }

  lemma OneRendererIsPublished(revision: int, canvas: C.Canvas, families: Families, r: Renderer)
    requires RendererSeq(canvas, families) == Some([r])
    requires RevisionOk(revision) && DefinitionOk(r.definition) && r.definition.aliases == []
    ensures Publishable(revision, canvas, families)
    ensures Published(revision, canvas, families).renderers == map[r.definition.viewTypeId := r]
  {
    OneDefinitionParses(revision, r.definition);
    assert Definitions([r]) == [r.definition];
    OneRendererIsIndexed(r);
  }

  /** A panel with a namespaced id and an admissible definition compiles on its own. */
  lemma LonePanelCompiles(revision: int, panel: Contribution, activationId: string)
    requires RevisionOk(revision) && Namespaced(panel.id)
    requires PanelDefinition(LoneEntry(panel, activationId)).Success?
    requires DefinitionOk(PanelDefinition(LoneEntry(panel, activationId)).value)
    ensures Compilable(revision, [Lone(panel, activationId)])
    ensures Compiled(revision, [Lone(panel, activationId)]).renderers
         == map[panel.id := Renderer(true, PanelDefinition(LoneEntry(panel, activationId)).value,
                                    LoneEntry(panel, activationId))]
  {
    var sources, e := [Lone(panel, activationId)], LoneEntry(panel, activationId);
    LoneIsNamespaced(panel, activationId);
    LoneRenderers(panel, activationId);
    OneRendererIsPublished(revision, CanvasFrom(sources), Gathered(sources),
                           Renderer(true, PanelDefinition(e).value, e));
  }

  const PANEL := Contribution("a.b", "m", None, "", "t", false, NotSingleton, ["b.b", "a.a"])

  /** The claim that every renderer has the snapshot's definition is false right after
      compilation: a panel that requires "b.b" and then "a.a" compiles, and its renderer keeps
      that order while the snapshot sorts it. */
  lemma UnsortedCapabilitiesDisagree()
    ensures Compilable(1, [Lone(PANEL, "x")])
    ensures var s := Compiled(1, [Lone(PANEL, "x")]);
            "a.b" in s.renderers && DefinitionOf(s, "a.b") != Some(s.renderers["a.b"].definition)
  {
    ExampleIsAdmissible();
    LonePanelCompiles(1, PANEL, "x");
    FreshRenderersAgree(1, [Lone(PANEL, "x")], "a.b");
    var names := PANEL.capabilities;
    assert !StringLe(names[0], names[1]);
  }

  lemma ExampleIsAdmissible()
    ensures Namespaced(PANEL.id)
    ensures PanelDefinition(LoneEntry(PANEL, "x")).Success?
            && DefinitionOk(PanelDefinition(LoneEntry(PANEL, "x")).value)
  {
    var id := PANEL.id;
    assert id[1] == '.' && '.' !in id[..1];
    NamesAreAdmissible();
    LettersAreIdentities();
    LoaderIdIsAnIdentity();
    assert Text.WorkspaceName(id);
  }

  lemma NamesAreAdmissible()
    ensures NamesOk(PANEL.capabilities)
  {
    var names := PANEL.capabilities;
    assert names[0][0] != names[1][0];
    assert Text.WorkspaceName(names[0]) && Text.WorkspaceName(names[1]);
  }

  lemma LettersAreIdentities()
    ensures Text.Identity("t") && Text.Identity("m") && Text.Identity("x")
  {
    assert "t"[0] == 't' && "m"[0] == 'm' && "x"[0] == 'x';
  }

  lemma LoaderIdIsAnIdentity()
    ensures Text.Identity("shipctl.canvas.panel." + "a.b")
  {
    assert ("shipctl.canvas.panel." + "a.b")[0] == 's';
  }
}
