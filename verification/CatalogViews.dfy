/** The view ids that the renderers of panels and global surfaces claim. */
module CatalogViews {
  import opened Ordering
  import opened Contributions
  import opened WorkspaceCatalog

  /** Every entry is found under its own id. */
  ghost predicate FoundAsItself(entries: seq<Entry>, byId: map<string, Entry>) {
    Found(entries, byId) && forall e | e in entries :: byId[e.Id()] == e
  }

  lemma PanelViews(panels: seq<Entry>, byId: map<string, Entry>)
    requires FoundAsItself(panels, byId) && CardinalitiesOk(panels, byId)
    ensures ViewIds(Definitions(PanelRenderers(panels, byId))) == Ids(panels)
  {
    forall i | 0 <= i < |panels|
      ensures PanelDefinition(byId[panels[i].Id()]).value.viewTypeId == panels[i].Id()
    {
      assert PanelDefinition(byId[panels[i].Id()]).Success? && panels[i] in panels;
    }
  }

  lemma SurfaceViews(surfaces: seq<Entry>, byId: map<string, Entry>, labels: map<string, string>)
    requires FoundAsItself(surfaces, byId)
    ensures ViewIds(Definitions(SurfaceRenderers(surfaces, byId, labels))) == Ids(surfaces)
  {
    forall i | 0 <= i < |surfaces|
      ensures byId[surfaces[i].Id()].Id() == surfaces[i].Id()
    {
      assert surfaces[i] in surfaces;
    }
  }

  lemma ViewsOfParts(a: seq<Renderer>, b: seq<Renderer>)
    ensures ViewIds(Definitions(a + b)) == ViewIds(Definitions(a)) + ViewIds(Definitions(b))
  {
  }

  lemma NoRepeatsAppend<T>(a: seq<T>, b: seq<T>)
    requires NoRepeats(a) && NoRepeats(b)
    ensures NoRepeats(a + b) <==> forall x | x in a :: x !in b
  {
    var all := a + b;
    assert forall i | 0 <= i < |b| :: all[|a| + i] == b[i];
    if NoRepeats(all) {
      forall x | x in a
        ensures x !in b
      {
        var i :| 0 <= i < |a| && a[i] == x;
        forall j | 0 <= j < |b|
          ensures b[j] != x
        {
          assert all[i] != all[|a| + j];
        }
      }
    } else {
      var i, j :| 0 <= i < j < |all| && all[i] == all[j];
      assert i < |a| <= j;
      assert a[i] in a && b[j - |a|] in b;
    }
  }

  /** The renderers claim no view twice exactly if no panel shares its id with a surface. */
  lemma ViewsClash(panels: seq<Entry>, panelsById: map<string, Entry>,
                   surfaces: seq<Entry>, surfacesById: map<string, Entry>, labels: map<string, string>)
    requires FoundAsItself(panels, panelsById) && CardinalitiesOk(panels, panelsById) && UniqueIds(panels)
    requires FoundAsItself(surfaces, surfacesById) && UniqueIds(surfaces)
    ensures NoRepeats(ViewIds(Definitions(
              PanelRenderers(panels, panelsById) + SurfaceRenderers(surfaces, surfacesById, labels)))) <==>
            forall p, g | p in panels && g in surfaces :: p.Id() != g.Id()
  {
    ViewsOfParts(PanelRenderers(panels, panelsById), SurfaceRenderers(surfaces, surfacesById, labels));
    PanelViews(panels, panelsById);
    SurfaceViews(surfaces, surfacesById, labels);
    NoRepeatsAppend(Ids(panels), Ids(surfaces));
    IdsAreDisjoint(panels, surfaces);
  }

  lemma IdsAreDisjoint(a: seq<Entry>, b: seq<Entry>)
    ensures (forall x | x in Ids(a) :: x !in Ids(b)) <==> forall p, g | p in a && g in b :: p.Id() != g.Id()
  {
    forall e | e in a
      ensures e.Id() in Ids(a)
    {
      var i :| 0 <= i < |a| && a[i] == e;
      assert Ids(a)[i] == e.Id();
    }
    forall e | e in b
      ensures e.Id() in Ids(b)
    {
      var i :| 0 <= i < |b| && b[i] == e;
      assert Ids(b)[i] == e.Id();
    }
    if x :| x in Ids(a) && x in Ids(b) {
      var i :| 0 <= i < |a| && Ids(a)[i] == x;
      var j :| 0 <= j < |b| && Ids(b)[j] == x;
      assert a[i] in a && b[j] in b && a[i].Id() == b[j].Id();
    }
  }
}
