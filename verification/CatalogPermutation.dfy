/** Compilation forgets the order of its sources and of the contributions inside each source. */
module CatalogPermutation {
  import opened Ordering
  import opened Contributions
  import opened WorkspaceCatalog
  import opened CatalogLayers
  import opened CatalogCompiler

  // ----- rearranged sources -----

  /** One source, with its contributions of each family in another order. */
  ghost predicate SameOffers(s: Source, t: Source) {
    && s.moduleId == t.moduleId && s.activation == t.activation
    && forall family :: multiset(Offered(s.offers, family)) == multiset(Offered(t.offers, family))
  }

  ghost predicate SameOffersEach(a: seq<Source>, b: seq<Source>) {
    |a| == |b| && forall i | 0 <= i < |a| :: SameOffers(a[i], b[i])
  }

  /** `b` has the sources of `a` in another order, each with its contributions in another order. */
  ghost predicate Rearranged(a: seq<Source>, b: seq<Source>) {
    exists m: seq<Source> :: multiset(a) == multiset(m) && SameOffersEach(m, b)
  }

  // ----- what rearranging keeps -----

  ghost predicate SameFlat(a: seq<Source>, b: seq<Source>, family: Family) {
    multiset(Flat(a, family)) == multiset(Flat(b, family))
  }

  ghost predicate Equivalent(a: seq<Source>, b: seq<Source>) {
    && multiset(ModuleIds(a)) == multiset(ModuleIds(b))
    && (AllLive(a) <==> AllLive(b))
    && forall family :: SameFlat(a, b, family)
  }

  lemma {:induction false} OwnedByPermutes(owner: Owner, a: seq<Contribution>, b: seq<Contribution>)
    requires multiset(a) == multiset(b)
    ensures multiset(OwnedBy(owner, a)) == multiset(OwnedBy(owner, b))
  {
    if a == [] {
      assert |b| == |multiset(b)| == 0;
    } else {
      var front, back := TakeOut(a, b);
      OwnedByPermutes(owner, a[1..], front + back);
      OwnedByParts(owner, front, [a[0]], back);
      OwnedByParts(owner, [], [a[0]], a[1..]);
      assert a == [] + ([a[0]] + a[1..]) && [] + a[1..] == a[1..];
    }
  }

  lemma OwnedByParts(owner: Owner, front: seq<Contribution>, middle: seq<Contribution>, back: seq<Contribution>)
    ensures multiset(OwnedBy(owner, front + (middle + back)))
         == multiset(OwnedBy(owner, middle)) + multiset(OwnedBy(owner, front + back))
  {
    assert OwnedBy(owner, front + (middle + back))
        == OwnedBy(owner, front) + (OwnedBy(owner, middle) + OwnedBy(owner, back));
    assert OwnedBy(owner, front + back) == OwnedBy(owner, front) + OwnedBy(owner, back);
    PartsCommute(OwnedBy(owner, front), OwnedBy(owner, middle), OwnedBy(owner, back));
  }

  lemma {:induction false} SameOffersFlat(a: seq<Source>, b: seq<Source>, family: Family)
    requires SameOffersEach(a, b)
    ensures SameFlat(a, b, family)
  {
    if a != [] {
      assert SameOffers(a[0], b[0]);
      assert SameOffersEach(a[1..], b[1..]);
      OwnedByPermutes(OwnerOf(a[0]), Offered(a[0].offers, family), Offered(b[0].offers, family));
      SameOffersFlat(a[1..], b[1..], family);
    }
  }

  lemma FlatParts(front: seq<Source>, middle: seq<Source>, back: seq<Source>, family: Family)
    ensures multiset(Flat(front + (middle + back), family))
         == multiset(Flat(middle, family)) + multiset(Flat(front + back, family))
  {
    FlatAppend(front, middle + back, family);
    FlatAppend(middle, back, family);
    FlatAppend(front, back, family);
    PartsCommute(Flat(front, family), Flat(middle, family), Flat(back, family));
  }

  lemma {:induction false} FlatPermutes(a: seq<Source>, b: seq<Source>, family: Family)
    requires multiset(a) == multiset(b)
    ensures SameFlat(a, b, family)
  {
    if a == [] {
      assert |b| == |multiset(b)| == 0;
    } else {
      var front, back := TakeOut(a, b);
      FlatPermutes(a[1..], front + back, family);
      FlatParts(front, [a[0]], back, family);
      FlatParts([], [a[0]], a[1..], family);
      assert a == [] + ([a[0]] + a[1..]) && [] + a[1..] == a[1..];
    }
  }

  lemma ModuleIdsParts(front: seq<Source>, middle: seq<Source>, back: seq<Source>)
    ensures multiset(ModuleIds(front + (middle + back)))
         == multiset(ModuleIds(middle)) + multiset(ModuleIds(front + back))
  {
    assert ModuleIds(front + (middle + back)) == ModuleIds(front) + (ModuleIds(middle) + ModuleIds(back));
    assert ModuleIds(front + back) == ModuleIds(front) + ModuleIds(back);
    PartsCommute(ModuleIds(front), ModuleIds(middle), ModuleIds(back));
  }

  lemma {:induction false} ModuleIdsPermute(a: seq<Source>, b: seq<Source>)
    requires multiset(a) == multiset(b)
    ensures multiset(ModuleIds(a)) == multiset(ModuleIds(b))
  {
    if a == [] {
      assert |b| == |multiset(b)| == 0;
    } else {
      var front, back := TakeOut(a, b);
      ModuleIdsPermute(a[1..], front + back);
      ModuleIdsParts(front, [a[0]], back);
      ModuleIdsParts([], [a[0]], a[1..]);
      assert a == [] + ([a[0]] + a[1..]) && [] + a[1..] == a[1..];
    }
  }

  lemma LiveEverywhere(sources: seq<Source>)
    ensures AllLive(sources) <==> forall s | s in sources :: Live(s)
  {
    if forall s | s in sources :: Live(s) {
      assert forall i | 0 <= i < |sources| :: sources[i] in sources;
    }
  }

  lemma RearrangedAreEquivalent(a: seq<Source>, b: seq<Source>)
    requires Rearranged(a, b)
    ensures Equivalent(a, b)
  {
    var m: seq<Source> :| multiset(a) == multiset(m) && SameOffersEach(m, b);
    ModuleIdsPermute(a, m);
    assert ModuleIds(m) == ModuleIds(b) by {
      assert forall i | 0 <= i < |m| :: SameOffers(m[i], b[i]);
    }
    LiveEverywhere(a);
    LiveEverywhere(m);
    Permutation(a, m);
    assert AllLive(m) <==> AllLive(b) by {
      assert forall i | 0 <= i < |m| :: SameOffers(m[i], b[i]);
    }
    forall family
      ensures SameFlat(a, b, family)
    {
      FlatPermutes(a, m, family);
      SameOffersFlat(m, b, family);
    }
  }

  // ----- what the compiler sees -----

  lemma OwnershipOfOne(source: Source, family: Family)
    ensures OwnsAll(source, family) <==> SelfOwned(OwnedBy(OwnerOf(source), Offered(source.offers, family)))
  {
    var offered := Offered(source.offers, family);
    var entries := OwnedBy(OwnerOf(source), offered);
    if SelfOwned(entries) {
      forall i | 0 <= i < |offered|
        ensures offered[i].moduleId == source.moduleId
      {
        assert entries[i] in entries;
      }
    }
  }

  lemma AllOwnedCons(sources: seq<Source>, family: Family)
    requires sources != []
    ensures AllOwned(sources, family) <==> OwnsAll(sources[0], family) && AllOwned(sources[1..], family)
  {
    if OwnsAll(sources[0], family) && AllOwned(sources[1..], family) {
      assert forall i | 0 < i < |sources| :: sources[i] == sources[1..][i - 1];
    }
  }

  /** Ownership can be read off the collected entries. */
  lemma {:induction false} OwnershipIsVisible(sources: seq<Source>, family: Family)
    ensures AllOwned(sources, family) <==> SelfOwned(Flat(sources, family))
  {
    if sources != [] {
      var first := OwnedBy(OwnerOf(sources[0]), Offered(sources[0].offers, family));
      OwnershipIsVisible(sources[1..], family);
      OwnershipOfOne(sources[0], family);
      AllOwnedCons(sources, family);
      assert SelfOwned(Flat(sources, family)) <==> SelfOwned(first) && SelfOwned(Flat(sources[1..], family));
    }
  }

  lemma SameFamily(a: seq<Source>, b: seq<Source>, family: Family)
    requires SameFlat(a, b, family)
    ensures Collectable(a, family) <==> Collectable(b, family)
    ensures AllNamespaced(Flat(a, family)) <==> AllNamespaced(Flat(b, family))
    ensures Collectable(a, family) ==>
              && FamilyOf(a, family) == FamilyOf(b, family)
              && OrderedById(Flat(a, family)) == OrderedById(Flat(b, family))
              && Index(Flat(a, family)) == Index(Flat(b, family))
  {
    PermutedEntries(Flat(a, family), Flat(b, family));
    OwnershipIsVisible(a, family);
    OwnershipIsVisible(b, family);
    NamespacedEverywhere(Flat(a, family));
    NamespacedEverywhere(Flat(b, family));
    if Collectable(a, family) {
      SameElementsSameIndex(Flat(a, family), Flat(b, family));
    }
  }

  lemma NamespacedEverywhere(entries: seq<Entry>)
    ensures AllNamespaced(entries) <==> forall e | e in entries :: Namespaced(e.Id())
  {
    if forall e | e in entries :: Namespaced(e.Id()) {
      assert forall i | 0 <= i < |entries| :: entries[i] in entries;
    }
  }

  ghost predicate SameCollection(a: seq<Source>, b: seq<Source>, family: Family) {
    && (Collectable(a, family) <==> Collectable(b, family))
    && (Collectable(a, family) ==> FamilyOf(a, family) == FamilyOf(b, family))
  }

  lemma SameCollections(a: seq<Source>, b: seq<Source>)
    requires Equivalent(a, b)
    ensures AllCollectable(a) <==> AllCollectable(b)
    ensures AllCollectable(a) ==> Gathered(a) == Gathered(b)
  {
    forall family
      ensures SameCollection(a, b, family)
    {
      assert SameFlat(a, b, family);
      SameFamily(a, b, family);
    }
    CollectionsDecide(a, b);
  }

  lemma CollectionsDecide(a: seq<Source>, b: seq<Source>)
    requires forall family :: SameCollection(a, b, family)
    ensures AllCollectable(a) <==> AllCollectable(b)
    ensures AllCollectable(a) ==> Gathered(a) == Gathered(b)
  {
    forall family
      ensures Collectable(a, family) <==> Collectable(b, family)
      ensures Collectable(a, family) ==> FamilyOf(a, family) == FamilyOf(b, family)
    {
      assert SameCollection(a, b, family);
    }
  }

  lemma SameAcceptance(a: seq<Source>, b: seq<Source>)
    requires Equivalent(a, b)
    ensures Accepted(a) <==> Accepted(b)
  {
    Permutation(ModuleIds(a), ModuleIds(b));
    SameCollections(a, b);
    if AllCollectable(a) {
      assert forall family :: Gathered(a)[family] == FamilyOf(a, family);
      assert forall family :: Gathered(b)[family] == FamilyOf(b, family);
    }
  }

  lemma SameCanvas(a: seq<Source>, b: seq<Source>)
    requires Equivalent(a, b) && Accepted(a) && Accepted(b)
    ensures Namespacing(a) <==> Namespacing(b)
    ensures CanvasFrom(a) == CanvasFrom(b)
  {
    forall family
      ensures Ordered(Flat(a, family)) == Ordered(Flat(b, family))
      ensures OrderedById(Flat(a, family)) == OrderedById(Flat(b, family))
      ensures Index(Flat(a, family)) == Index(Flat(b, family))
      ensures AllNamespaced(Flat(a, family)) <==> AllNamespaced(Flat(b, family))
    {
      assert SameFlat(a, b, family) && Collectable(a, family);
      SameFamily(a, b, family);
    }
    SidebarResolves(a);
    ProjectNavigationResolves(a);
    SidebarResolves(b);
    ProjectNavigationResolves(b);
  }

  lemma SameCompilation(revision: int, a: seq<Source>, b: seq<Source>)
    requires Equivalent(a, b)
    ensures Compilable(revision, a) <==> Compilable(revision, b)
    ensures Compilable(revision, a) ==> Compiled(revision, a) == Compiled(revision, b)
  {
    SameAcceptance(a, b);
    if Accepted(a) {
      SameCanvas(a, b);
      SameCollections(a, b);
    }
  }

  /** Rearranging the sources of an input, or the contributions inside them, changes neither
      whether it compiles nor anything in the compiled state: records, definitions, ordered
      families, canvas catalog and renderers. */
  lemma OrderOfSourcesIsForgotten(x: CatalogInput, y: CatalogInput)
    requires x.registryRevision == y.registryRevision
    requires ModulesActivated(x.modules, x.contexts) && ModulesActivated(y.modules, y.contexts)
    requires Rearranged(Sources(x), Sources(y))
    ensures SourcesOk(x) && Compilable(x.registryRevision, Sources(x)) <==>
            SourcesOk(y) && Compilable(y.registryRevision, Sources(y))
    ensures SourcesOk(x) && Compilable(x.registryRevision, Sources(x)) ==>
            Compiled(x.registryRevision, Sources(x)) == Compiled(y.registryRevision, Sources(y))
  {
    RearrangedAreEquivalent(Sources(x), Sources(y));
    Permutation(ModuleIds(Sources(x)), ModuleIds(Sources(y)));
    SameCompilation(x.registryRevision, Sources(x), Sources(y));
  }

  // ----- labels -----

  lemma {:induction false} LabelsAreFirst(navigation: seq<Entry>, surfaceId: string)
    ensures surfaceId in Labels(navigation) <==> exists e :: e in navigation && e.contribution.targetId == surfaceId
    ensures surfaceId in Labels(navigation) ==> exists i :: FirstFor(navigation, surfaceId, i)
  {
    if navigation != [] {
      var n := |navigation| - 1;
      assert navigation == navigation[..n] + [navigation[n]];
      LabelsAreFirst(navigation[..n], surfaceId);
      if surfaceId in Labels(navigation[..n]) {
        var i :| FirstFor(navigation[..n], surfaceId, i);
        assert FirstFor(navigation, surfaceId, i);
      } else if navigation[n].contribution.targetId == surfaceId {
        forall j | 0 <= j < n
          ensures navigation[j].contribution.targetId != surfaceId
        {
          assert navigation[..n][j] in navigation[..n];
        }
        assert FirstFor(navigation, surfaceId, n);
      }
    }
  }

  ghost predicate FirstFor(navigation: seq<Entry>, surfaceId: string, i: int) {
    && 0 <= i < |navigation|
    && navigation[i].contribution.targetId == surfaceId
    && (forall j | 0 <= j < i :: navigation[j].contribution.targetId != surfaceId)
    && surfaceId in Labels(navigation) && Labels(navigation)[surfaceId] == navigation[i].contribution.text
  }

  ghost predicate LeastFor(sources: seq<Source>, surfaceId: string, e: Entry) {
    && e in Flat(sources, GlobalNavigation)
    && e.contribution.targetId == surfaceId
    && forall f | f in Flat(sources, GlobalNavigation) && f.contribution.targetId == surfaceId :: ByOrder(e, f)
  }

  /** A surface is labelled by the least navigation entry for it, by order and then by id; a
      surface without one is labelled by its id. */
  lemma LabelIsTheLeast(sources: seq<Source>, surfaceId: string)
    ensures var text := LabelOf(Labels(FamilyOf(sources, GlobalNavigation)), surfaceId);
            || (exists e :: LeastFor(sources, surfaceId, e) && text == e.contribution.text)
            || (text == surfaceId
               && forall e | e in Flat(sources, GlobalNavigation) :: e.contribution.targetId != surfaceId)
  {
    var flat := Flat(sources, GlobalNavigation);
    var navigation := FamilyOf(sources, GlobalNavigation);
    Permutation(navigation, flat);
    LabelsAreFirst(navigation, surfaceId);
    if surfaceId in Labels(navigation) {
      var i :| FirstFor(navigation, surfaceId, i);
      var e := navigation[i];
      forall f | f in flat && f.contribution.targetId == surfaceId
        ensures ByOrder(e, f)
      {
        assert f in navigation;
        var j :| 0 <= j < |navigation| && navigation[j] == f;
        assert j >= i;
        if j == i {
          OrdersArePreorders();
        }
      }
      assert LeastFor(sources, surfaceId, e);
    }
  }
}
