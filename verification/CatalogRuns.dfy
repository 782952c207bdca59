/** Runs of a catalog: every sequence of revision changes and host definitions, from any compiled
    catalog. */
module CatalogRuns {
  import opened Wrappers
  import opened Ordering
  import opened WorkspaceCatalog
  import opened WorkspaceSnapshot
  import opened CatalogCompiler
  import opened CatalogSteps

  datatype Op = Advance(revision: int) | AddHost(definitions: seq<Definition>)

  ghost predicate Allowed(s: State, op: Op) {
    match op
    case Advance(revision) => RevisionOk(revision)
    case AddHost(more) => Admissible(s.catalog, more)
  }

  /** The snapshot after a step. */
  function Target(s: Snapshot, op: Op): Snapshot {
    match op
    case Advance(revision) => Snapshot(revision, s.definitions)
    case AddHost(more) => Extended(s, more)
  }

  predicate Returns(s: State, op: Op) {
    op.Advance? && op.revision == s.registryRevision
  }

  lemma StepIsCoherent(s: State, op: Op)
    requires Coherent(s) && Allowed(s, op)
    ensures IsSnapshot(Target(s.catalog, op))
    ensures Covers(DefinitionIndex(Target(s.catalog, op).definitions), s.renderers)
    ensures MovesTo(s, Target(s.catalog, op), Moved(s, Target(s.catalog, op)))
  {
    if op.AddHost? {
      ExtendedIsASnapshot(s.catalog, op.definitions);
    }
    MovedIsCoherent(s, Target(s.catalog, op));
  }

  /** One successful call of `withRegistryRevision` or `withHostWorkspaceDefinitions`. */
  ghost function Next(s: State, op: Op): (t: State)
    requires Coherent(s) && Allowed(s, op)
    ensures Coherent(t)
  {
    StepIsCoherent(s, op);
    if Returns(s, op) then s else Moved(s, Target(s.catalog, op))
  }

  ghost function After(s: State, ops: seq<Op>): (r: Option<State>)
    requires Coherent(s)
    ensures r.Some? ==> Coherent(r.value)
  {
    if ops == [] then Some(s)
    else
      var before := After(s, ops[..|ops| - 1]);
      if before.Some? && Allowed(before.value, ops[|ops| - 1]) then Some(Next(before.value, ops[|ops| - 1])) else None
  }

  // ----- what a run amounts to -----

  function LastRevision(revision: int, ops: seq<Op>): int {
    if ops == [] then revision
    else if ops[|ops| - 1].Advance? then ops[|ops| - 1].revision
    else LastRevision(revision, ops[..|ops| - 1])
  }

  function HostDefinitions(ops: seq<Op>): seq<Definition> {
    if ops == [] then []
    else if ops[|ops| - 1].AddHost? then HostDefinitions(ops[..|ops| - 1]) + ops[|ops| - 1].definitions
    else HostDefinitions(ops[..|ops| - 1])
  }

  predicate RevisionsOk(ops: seq<Op>) {
    forall i | 0 <= i < |ops| :: ops[i].Advance? ==> RevisionOk(ops[i].revision)
  }

  /** The snapshot that a run leads to, computed from its last revision and from all host
      definitions at once. */
  function Destination(s: Snapshot, ops: seq<Op>): Snapshot {
    Snapshot(LastRevision(s.revision, ops), SortViews(s.definitions + AdmittedAll(HostDefinitions(ops))))
  }

  /** Steps that only ask for the revision the catalog already has. */
  predicate Quiet(s: State, ops: seq<Op>) {
    forall i | 0 <= i < |ops| :: Returns(s, ops[i])
  }

  /** The state that a run from `s` leads to: `s` itself if nothing was asked for, and otherwise
      `s` with the destination for its snapshot and every renderer bound to it. */
  ghost predicate Arrives(s: State, ops: seq<Op>, t: State) {
    && t.catalog == Destination(s.catalog, ops)
    && if Quiet(s, ops) then t == s else MovesTo(s, Destination(s.catalog, ops), t)
  }

  lemma AdmittedAllAppend(a: seq<Definition>, b: seq<Definition>)
    ensures AdmittedAll(a + b) == AdmittedAll(a) + AdmittedAll(b)
  {
  }

  lemma AllOkAppend(a: seq<Definition>, b: seq<Definition>)
    ensures AllOk(a + b) <==> AllOk(a) && AllOk(b)
  {
    if AllOk(a + b) {
      assert forall i | 0 <= i < |a| :: a[i] == (a + b)[i];
      assert forall i | 0 <= i < |b| :: b[i] == (a + b)[|a| + i];
    }
  }

  lemma FrontDoesNotRepeat(front: seq<string>, more: seq<string>)
    ensures NoRepeats(front + more) ==> NoRepeats(front)
  {
    assert forall i | 0 <= i < |front| :: (front + more)[i] == front[i];
  }

  /** Two batches of host definitions are admissible one after the other exactly when they are
      admissible together, and then they extend the snapshot alike. */
  lemma BatchesMerge(s: Snapshot, a: seq<Definition>, b: seq<Definition>)
    requires IsSnapshot(s)
    ensures Admissible(s, a + b) <==> Admissible(s, a) && Admissible(Extended(s, a), b)
    ensures Admissible(s, a + b) ==> Extended(Extended(s, a), b) == Extended(s, a + b)
  {
    AllOkAppend(a, b);
    AdmittedAllAppend(a, b);
    var first, second := s.definitions + AdmittedAll(a), AdmittedAll(b);
    assert s.definitions + AdmittedAll(a + b) == first + second;
    IdentitiesAppend(first, second);
    FrontDoesNotRepeat(Identities(first), Identities(second));
    IdentitiesPermute(SortViews(first) + second, first + second);
    if Admissible(s, a + b) {
      SortedOneWay(SortViews(first) + second, first + second);
    }
  }

  lemma NothingAdded(s: Snapshot)
    requires IsSnapshot(s)
    ensures Admissible(s, []) && Extended(s, []) == s
  {
    assert s.definitions + AdmittedAll([]) == s.definitions;
    ViewsAreIdentities(s.definitions);
    SortedViewsStay(s.definitions);
  }

  lemma AdmissibleUnderAnyRevision(s: Snapshot, revision: int, more: seq<Definition>)
    ensures Admissible(Snapshot(revision, s.definitions), more) <==> Admissible(s, more)
  {
  }

  lemma MovedTwice(s: State, a: Snapshot, b: Snapshot)
    requires Covers(DefinitionIndex(a.definitions), s.renderers)
    requires Covers(DefinitionIndex(b.definitions), s.renderers)
    ensures Moved(Moved(s, a), b) == Moved(s, b)
  {
    assert Rebound(Rebound(s.renderers, DefinitionIndex(a.definitions)), DefinitionIndex(b.definitions))
        == Rebound(s.renderers, DefinitionIndex(b.definitions));
  }

  /** A run succeeds exactly when its revisions are valid and all its host definitions could have
      been added at once, and it leads where that would have led, whatever the order of its
      steps. The records, the families and the canvas catalog are never touched. */
  lemma {:induction false} RunsReachTheirDestination(s: State, ops: seq<Op>)
    requires Coherent(s)
    ensures After(s, ops).Some? <==> RevisionsOk(ops) && Admissible(s.catalog, HostDefinitions(ops))
    ensures After(s, ops).Some? ==>
              Arrives(s, ops, After(s, ops).value)
  {
    if ops == [] {
      NothingAdded(s.catalog);
    } else {
      var front, op := ops[..|ops| - 1], ops[|ops| - 1];
      assert ops == front + [op];
      RunsReachTheirDestination(s, front);
      assert RevisionsOk(ops) <==> RevisionsOk(front) && (op.Advance? ==> RevisionOk(op.revision));
      if op.AddHost? {
        BatchesMerge(s.catalog, HostDefinitions(front), op.definitions);
      }
      if After(s, front).Some? {
        LastStep(s, front, op);
      }
    }
  }

  lemma LastTarget(s: State, front: seq<Op>, op: Op, m: Snapshot)
    requires Coherent(s) && m == Destination(s.catalog, front)
    requires Admissible(s.catalog, HostDefinitions(front))
    ensures Admissible(m, if op.AddHost? then op.definitions else []) <==>
            Admissible(s.catalog,
                       if op.AddHost? then HostDefinitions(front) + op.definitions else HostDefinitions(front))
    ensures op.Advance? || Admissible(m, op.definitions) ==> Target(m, op) == Destination(s.catalog, front + [op])
  {
    assert (front + [op])[..|front|] == front;
    assert Extended(s.catalog, HostDefinitions(front)) == Snapshot(s.catalog.revision, m.definitions);
    var more := if op.AddHost? then op.definitions else [];
    BatchesMerge(s.catalog, HostDefinitions(front), more);
    AdmissibleUnderAnyRevision(m, s.catalog.revision, more);
    assert HostDefinitions(front) + [] == HostDefinitions(front);
  }

  lemma QuietSnoc(s: State, front: seq<Op>, op: Op)
    ensures Quiet(s, front + [op]) <==> Quiet(s, front) && Returns(s, op)
  {
    assert forall i | 0 <= i < |front| :: (front + [op])[i] == front[i];
    assert (front + [op])[|front|] == op;
  }

  lemma LastStep(s: State, front: seq<Op>, op: Op)
    requires Coherent(s) && After(s, front).Some?
    requires Admissible(s.catalog, HostDefinitions(front))
    requires Arrives(s, front, After(s, front).value)
    ensures Allowed(After(s, front).value, op) <==>
            if op.Advance? then RevisionOk(op.revision)
            else Admissible(s.catalog, HostDefinitions(front) + op.definitions)
    ensures Allowed(After(s, front).value, op) ==>
            Arrives(s, front + [op], Next(After(s, front).value, op))
  {
    var m := After(s, front).value;
    LastTarget(s, front, op, m.catalog);
    QuietSnoc(s, front, op);
    if Allowed(m, op) {
      StepIsCoherent(m, op);
      if !Quiet(s, front) && !Returns(m, op) {
        MovedTwice(s, m.catalog, Target(m.catalog, op));
      }
    }
  }
}
