/** How a compiled catalog moves on: to another registry revision, and by definitions that the
    host adds. Every catalog reached from a compiled one satisfies `Coherent`. */
module CatalogSteps {
  import opened Wrappers
  import opened Ordering
  import opened Contributions
  import opened WorkspaceCatalog
  import opened WorkspaceSnapshot
  import opened CatalogCompiler

  // ----- definitions by id -----

  function DefinitionIndex(definitions: seq<Definition>): map<string, Definition> {
    if definitions == [] then map[]
    else
      var last := definitions[|definitions| - 1];
      DefinitionIndex(definitions[..|definitions| - 1])[last.viewTypeId := last]
  }

  lemma {:induction false} DefinitionIndexHolds(definitions: seq<Definition>)
    ensures DefinitionIndex(definitions).Keys == set v | v in ViewIds(definitions)
    ensures forall v | v in DefinitionIndex(definitions) ::
              DefinitionIndex(definitions)[v] in definitions && DefinitionIndex(definitions)[v].viewTypeId == v
  {
    if definitions != [] {
      var n := |definitions| - 1;
      assert definitions == definitions[..n] + [definitions[n]];
      assert ViewIds(definitions) == ViewIds(definitions[..n]) + [definitions[n].viewTypeId];
      DefinitionIndexHolds(definitions[..n]);
    }
  }

  lemma DefinitionIndexFinds(definitions: seq<Definition>, d: Definition)
    requires UniqueViews(definitions) && d in definitions
    ensures d.viewTypeId in DefinitionIndex(definitions) && DefinitionIndex(definitions)[d.viewTypeId] == d
  {
    DefinitionIndexHolds(definitions);
    var i :| 0 <= i < |definitions| && definitions[i] == d;
    assert ViewIds(definitions)[i] == d.viewTypeId;
    OneDefinitionPerView(definitions, DefinitionIndex(definitions)[d.viewTypeId], d);
  }

  // ----- coherent catalogs -----

  /** A renderer is filed under its own view, its definition has the owner of its surface, and
      the snapshot has the admitted form of that definition. */
  ghost predicate Bound(v: string, r: Renderer, definitions: seq<Definition>) {
    && r.definition.viewTypeId == v == r.surface.Id()
    && r.definition.owner == r.surface.owner
    && Admitted(r.definition) in definitions
  }

  ghost predicate AllBound(renderers: map<string, Renderer>, definitions: seq<Definition>) {
    forall v | v in renderers :: Bound(v, renderers[v], definitions)
  }

  ghost predicate Coherent(s: State) {
    && s.registryRevision == s.catalog.revision
    && IsSnapshot(s.catalog)
    && AllBound(s.renderers, s.catalog.definitions)
  }

  /** The stronger property that holds once a catalog has moved: each renderer's definition is
      the snapshot's own. */
  ghost predicate Settled(s: State) {
    forall v | v in s.renderers :: s.renderers[v].definition in s.catalog.definitions
  }

  predicate Covers(byId: map<string, Definition>, renderers: map<string, Renderer>) {
    forall v | v in renderers :: v in byId
  }

  function Rebound(renderers: map<string, Renderer>, byId: map<string, Definition>): map<string, Renderer>
    requires Covers(byId, renderers)
  {
    map v | v in renderers :: renderers[v].(definition := byId[v])
  }

  /** Each renderer gets the definition that the snapshot has for its view. */
  method Rebind(renderers: map<string, Renderer>, definitions: seq<Definition>)
    returns (r: Result<map<string, Renderer>, CatalogError>)
    ensures r.Success? <==> Covers(DefinitionIndex(definitions), renderers)
    ensures r.Success? ==> r.value == Rebound(renderers, DefinitionIndex(definitions))
    ensures r.Failure? ==> r.error == NoSemanticDefinition
  {
    var byId := DefinitionIndex(definitions);
    var rebound: map<string, Renderer> := map[];
    var left := renderers.Keys;
    while left != {}
      invariant left <= renderers.Keys && rebound.Keys == renderers.Keys - left
      invariant forall v | v in rebound :: v in byId && rebound[v] == renderers[v].(definition := byId[v])
      decreases left
    {
      var v :| v in left;
      if v !in byId {
        return Failure(NoSemanticDefinition);
      }
      rebound := rebound[v := renderers[v].(definition := byId[v])];
      left := left - {v};
    }
    r := Success(rebound);
  }

  lemma RebindingWorks(renderers: map<string, Renderer>, before: seq<Definition>, after: seq<Definition>)
    requires AllBound(renderers, before)
    requires UniqueViews(after) && forall d | d in before :: d in after
    requires forall d | d in after :: Admitted(d) == d
    ensures Covers(DefinitionIndex(after), renderers)
    ensures AllBound(Rebound(renderers, DefinitionIndex(after)), after)
    ensures forall v | v in renderers :: DefinitionIndex(after)[v] == Admitted(renderers[v].definition)
  {
    var byId := DefinitionIndex(after);
    forall v | v in renderers
      ensures v in byId && byId[v] == Admitted(renderers[v].definition)
      ensures Bound(v, renderers[v].(definition := byId[v]), after)
    {
      assert Bound(v, renderers[v], before);
      DefinitionIndexFinds(after, Admitted(renderers[v].definition));
    }
  }

  /** The state with another snapshot and its renderers bound to it. */
  function Moved(s: State, snapshot: Snapshot): State
    requires Covers(DefinitionIndex(snapshot.definitions), s.renderers)
  {
    s.(registryRevision := snapshot.revision, catalog := snapshot,
       renderers := Rebound(s.renderers, DefinitionIndex(snapshot.definitions)))
  }

  lemma MovedIsCoherent(s: State, snapshot: Snapshot)
    requires Coherent(s) && IsSnapshot(snapshot)
    requires forall d | d in s.catalog.definitions :: d in snapshot.definitions
    ensures Covers(DefinitionIndex(snapshot.definitions), s.renderers)
    ensures Coherent(Moved(s, snapshot)) && Settled(Moved(s, snapshot))
  {
    ViewsAreIdentities(snapshot.definitions);
    RebindingWorks(s.renderers, s.catalog.definitions, snapshot.definitions);
    var moved := Moved(s, snapshot);
    forall v | v in moved.renderers
      ensures moved.renderers[v].definition in snapshot.definitions
    {
      assert Bound(v, moved.renderers[v], snapshot.definitions);
      DefinitionIndexHolds(snapshot.definitions);
    }
  }

  /** `t` is `s` with the snapshot in place of its own. */
  ghost predicate MovesTo(s: State, snapshot: Snapshot, t: State) {
    && Covers(DefinitionIndex(snapshot.definitions), s.renderers)
    && t == Moved(s, snapshot)
    && Coherent(t) && Settled(t)
  }

  // ----- another registry revision -----

  /** Only an invalid revision is refused: the snapshot is always admitted again and every
      renderer finds its definition. */
  method WithRegistryRevision(s: State, revision: int) returns (r: Result<State, CatalogError>)
    requires Coherent(s)
    ensures r.Success? <==> RevisionOk(revision)
    ensures r.Failure? ==> r.error == InvalidRegistryRevision
    ensures r.Success? && revision == s.registryRevision ==> r.value == s
    ensures r.Success? && revision != s.registryRevision ==>
              MovesTo(s, Snapshot(revision, s.catalog.definitions), r.value)
  {
    if !RevisionOk(revision) {
      return Failure(InvalidRegistryRevision);
    }
    if revision == s.registryRevision {
      return Success(s);
    }
    SnapshotsReparse(s.catalog, revision);
    var snapshot := Parse(revision, s.catalog.definitions).value;
    MovedIsCoherent(s, snapshot);
    var renderers := Rebind(s.renderers, snapshot.definitions);
    r := Success(s.(registryRevision := revision, catalog := snapshot, renderers := renderers.value));
  }

  // ----- definitions added by the host -----

  lemma {:induction false} IdentitiesAppend(a: seq<Definition>, b: seq<Definition>)
    ensures Identities(a + b) == Identities(a) + Identities(b)
  {
    if a == [] {
      assert a + b == b;
    } else {
      assert (a + b)[1..] == a[1..] + b;
      IdentitiesAppend(a[1..], b);
    }
  }

  lemma IdentitiesOfParts(front: seq<Definition>, middle: seq<Definition>, back: seq<Definition>)
    ensures Identities(front + (middle + back)) == Identities(front) + (Identities(middle) + Identities(back))
  {
    IdentitiesAppend(front, middle + back);
    IdentitiesAppend(middle, back);
  }

  lemma IdentitiesWithout(front: seq<Definition>, middle: seq<Definition>, back: seq<Definition>)
    ensures multiset(Identities(front + (middle + back)))
         == multiset(Identities(middle)) + multiset(Identities(front + back))
  {
    IdentitiesOfParts(front, middle, back);
    IdentitiesAppend(front, back);
    PartsCommute(Identities(front), Identities(middle), Identities(back));
  }

  lemma {:induction false} IdentitiesCounted(a: seq<Definition>, b: seq<Definition>)
    requires multiset(a) == multiset(b)
    ensures multiset(Identities(a)) == multiset(Identities(b))
  {
    if a == [] {
      assert |b| == |multiset(b)| == 0;
    } else {
      var front, back := TakeOut(a, b);
      IdentitiesCounted(a[1..], front + back);
      IdentitiesWithout(front, [a[0]], back);
      IdentitiesWithout([], [a[0]], a[1..]);
      assert a == [] + ([a[0]] + a[1..]) && [] + a[1..] == a[1..];
    }
  }

  /** The order of definitions does not matter to the identities they claim. */
  lemma IdentitiesPermute(a: seq<Definition>, b: seq<Definition>)
    requires multiset(a) == multiset(b)
    ensures NoRepeats(Identities(a)) <==> NoRepeats(Identities(b))
  {
    IdentitiesCounted(a, b);
    Permutation(Identities(a), Identities(b));
  }

  /** When a snapshot takes further definitions: they are sound, and nothing is claimed twice. */
  ghost predicate Admissible(s: Snapshot, more: seq<Definition>) {
    AllOk(more) && NoRepeats(Identities(s.definitions + AdmittedAll(more)))
  }

  function Extended(s: Snapshot, more: seq<Definition>): Snapshot {
    Snapshot(s.revision, SortViews(s.definitions + AdmittedAll(more)))
  }

  lemma AdmittedAllIsFixed(definitions: seq<Definition>)
    requires AllOk(definitions)
    ensures AllOk(AdmittedAll(definitions)) && AdmittedAll(AdmittedAll(definitions)) == AdmittedAll(definitions)
  {
    forall i | 0 <= i < |definitions|
      ensures DefinitionOk(AdmittedAll(definitions)[i])
      ensures Admitted(AdmittedAll(definitions)[i]) == AdmittedAll(definitions)[i]
    {
      AdmittedIsFixed(definitions[i]);
    }
  }

  ghost predicate AllAdmitted(definitions: seq<Definition>) {
    forall d | d in definitions :: DefinitionOk(d) && Admitted(d) == d
  }

  lemma AdmittedStay(definitions: seq<Definition>)
    requires AllAdmitted(definitions)
    ensures AllOk(definitions) && AdmittedAll(definitions) == definitions
  {
    assert forall i | 0 <= i < |definitions| :: definitions[i] in definitions;
  }

  /** Definitions that are admitted already parse, in any order, exactly when they claim nothing
      twice. */
  lemma ParseAdmitted(revision: int, definitions: seq<Definition>, arranged: seq<Definition>)
    requires RevisionOk(revision) && multiset(arranged) == multiset(definitions) && AllAdmitted(definitions)
    ensures Parse(revision, arranged).Some? <==> NoRepeats(Identities(definitions))
    ensures Parse(revision, arranged).Some? ==>
              Parse(revision, arranged).value == Snapshot(revision, SortViews(definitions))
  {
    Permutation(arranged, definitions);
    AdmittedStay(arranged);
    IdentitiesPermute(SortViews(arranged), definitions);
    if NoRepeats(Identities(definitions)) {
      SortedOneWay(arranged, definitions);
    }
  }

  lemma SortedOneWay(a: seq<Definition>, b: seq<Definition>)
    requires multiset(a) == multiset(b) && NoRepeats(Identities(b))
    ensures SortViews(a) == SortViews(b)
  {
    IdentitiesPermute(SortViews(a), b);
    ViewsAreIdentities(SortViews(a));
    SameViews(SortViews(a), SortViews(b));
  }

  lemma ParseSound(revision: int, definitions: seq<Definition>)
    requires RevisionOk(revision)
    ensures Parse(revision, definitions).Some? <==>
            AllOk(definitions) && NoRepeats(Identities(AdmittedAll(definitions)))
    ensures Parse(revision, definitions).Some? ==>
              Parse(revision, definitions).value == Snapshot(revision, SortViews(AdmittedAll(definitions)))
  {
    IdentitiesPermute(SortViews(AdmittedAll(definitions)), AdmittedAll(definitions));
  }

  lemma ViewsOfAdmitted(definitions: seq<Definition>)
    ensures ViewIds(AdmittedAll(definitions)) == ViewIds(definitions)
  {
  }

  /** Admissible definitions parse alone, and their views are new. */
  lemma AdmissibleMeans(s: Snapshot, more: seq<Definition>)
    requires IsSnapshot(s)
    ensures Admissible(s, more) ==>
              && Parse(s.revision, more).Some?
              && forall v | v in ViewIds(more) :: v !in ViewIds(s.definitions)
  {
    if Admissible(s, more) {
      IdentitiesAppend(s.definitions, AdmittedAll(more));
      PartsDoNotRepeat(Identities(s.definitions), Identities(AdmittedAll(more)));
      ParseSound(s.revision, more);
      ViewsAreIdentities(s.definitions);
      ViewsAreIdentities(AdmittedAll(more));
      ViewsOfAdmitted(more);
    }
  }

  lemma AdmittedTogether(s: Snapshot, more: seq<Definition>)
    requires IsSnapshot(s) && AllOk(more)
    ensures AllAdmitted(s.definitions + AdmittedAll(more))
  {
    AdmittedAllIsFixed(more);
    forall d | d in s.definitions + AdmittedAll(more)
      ensures DefinitionOk(d) && Admitted(d) == d
    {
      if d in s.definitions {
        var i :| 0 <= i < |s.definitions| && s.definitions[i] == d;
      } else {
        var i :| 0 <= i < |more| && AdmittedAll(more)[i] == d;
        assert AdmittedAll(AdmittedAll(more))[i] == Admitted(d);
      }
    }
  }

  lemma ExtendedIsASnapshot(s: Snapshot, more: seq<Definition>)
    requires IsSnapshot(s) && Admissible(s, more)
    ensures IsSnapshot(Extended(s, more))
    ensures forall d | d in s.definitions :: d in Extended(s, more).definitions
  {
    var all := s.definitions + AdmittedAll(more);
    AdmittedTogether(s, more);
    ParseAdmitted(s.revision, all, all);
    ParseGivesASnapshot(s.revision, all);
    Permutation(SortViews(all), all);
  }

  /** The loop that adds host definitions to the views of the snapshot, failing on a view that
      is taken. */
  method Merge(before: seq<Definition>, host: seq<Definition>) returns (clash: bool, all: seq<Definition>)
    requires UniqueViews(host)
    ensures clash <==> exists v | v in ViewIds(host) :: v in ViewIds(before)
    ensures !clash ==> all == before + host
  {
    all := before;
    var taken := set v | v in ViewIds(before);
    for i := 0 to |host|
      invariant all == before + host[..i]
      invariant forall v :: v in taken <==> v in ViewIds(before) || v in ViewIds(host[..i])
      invariant forall v | v in ViewIds(host[..i]) :: v !in ViewIds(before)
    {
      assert ViewIds(host[..i + 1]) == ViewIds(host[..i]) + [host[i].viewTypeId];
      assert ViewIds(host)[i] == host[i].viewTypeId;
      if host[i].viewTypeId in taken {
        NewView(host, i);
        return true, all;
      }
      taken := taken + {host[i].viewTypeId};
      assert host[..i + 1] == host[..i] + [host[i]];
      all := all + [host[i]];
    }
    assert host[..|host|] == host;
    clash := false;
  }

  lemma NewView(host: seq<Definition>, i: nat)
    requires UniqueViews(host) && i < |host|
    ensures host[i].viewTypeId !in ViewIds(host[..i])
  {
    assert forall j | 0 <= j < i :: ViewIds(host[..i])[j] == ViewIds(host)[j] != ViewIds(host)[i];
  }

  method WithHostWorkspaceDefinitions(s: State, more: seq<Definition>) returns (r: Result<State, CatalogError>)
    requires Coherent(s)
    ensures r.Success? <==> Admissible(s.catalog, more)
    ensures r.Success? ==> MovesTo(s, Extended(s.catalog, more), r.value)
    ensures r.Failure? ==>
      r.error == if Parse(s.registryRevision, more).Some?
                    && exists v | v in ViewIds(more) :: v in ViewIds(s.catalog.definitions)
                 then DuplicateWorkspaceView else InvalidSnapshot
  {
    AdmissibleMeans(s.catalog, more);
    ParseSound(s.registryRevision, more);
    var host := Parse(s.registryRevision, more);
    if host.None? {
      return Failure(InvalidSnapshot);
    }
    HostViews(s.registryRevision, more);
    var clash, all := Merge(s.catalog.definitions, host.value.definitions);
    if clash {
      return Failure(DuplicateWorkspaceView);
    }
    MergedParses(s.catalog, more);
    var snapshot := Parse(s.registryRevision, SortViews(all));
    if snapshot.None? {
      return Failure(InvalidSnapshot);
    }
    ExtendedIsASnapshot(s.catalog, more);
    MovedIsCoherent(s, snapshot.value);
    var renderers := Rebind(s.renderers, snapshot.value.definitions);
    r := Success(s.(catalog := snapshot.value, renderers := renderers.value));
  }

  lemma HostViews(revision: int, more: seq<Definition>)
    requires Parse(revision, more).Some?
    ensures UniqueViews(Parse(revision, more).value.definitions)
    ensures forall v :: v in ViewIds(Parse(revision, more).value.definitions) <==> v in ViewIds(more)
  {
    var sorted := SortViews(AdmittedAll(more));
    ViewsAreIdentities(sorted);
    SameViewIds(sorted, AdmittedAll(more));
    ViewsOfAdmitted(more);
  }

  lemma SameViewIds(a: seq<Definition>, b: seq<Definition>)
    requires multiset(a) == multiset(b)
    ensures SameElements(ViewIds(a), ViewIds(b))
  {
    Permutation(a, b);
    ViewIdsCover(a, b);
    ViewIdsCover(b, a);
  }

  lemma ViewIdsCover(a: seq<Definition>, b: seq<Definition>)
    requires forall d | d in a :: d in b
    ensures forall v | v in ViewIds(a) :: v in ViewIds(b)
  {
    forall v | v in ViewIds(a)
      ensures v in ViewIds(b)
    {
      var i :| 0 <= i < |a| && ViewIds(a)[i] == v;
      assert a[i] in b;
      var j :| 0 <= j < |b| && b[j] == a[i];
      assert ViewIds(b)[j] == v;
    }
  }

  lemma MergedParses(s: Snapshot, more: seq<Definition>)
    requires IsSnapshot(s) && Parse(s.revision, more).Some?
    ensures var parsed := Parse(s.revision, SortViews(s.definitions + Parse(s.revision, more).value.definitions));
            && (parsed.Some? <==> Admissible(s, more))
            && (parsed.Some? ==> parsed.value == Extended(s, more))
  {
    AdmittedTogether(s, more);
    ParseAdmitted(s.revision, s.definitions + AdmittedAll(more),
                  SortViews(s.definitions + Parse(s.revision, more).value.definitions));
  }
}
