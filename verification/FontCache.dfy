/** The single-flight font cache: one load per family, shared by its callers, with every await
    as a point where other calls may run. */
module FontCache {
  import opened Wrappers

  const TERMINAL_FONT_FAMILY := "MesloLGS NF"

  /** Families that are never fetched. */
  const SKIP_FAMILIES := {TERMINAL_FONT_FAMILY, "Menlo", "Monaco", "Courier",
    "Courier New", "Andale Mono", "monospace", "ui-monospace"}

  datatype Result = Resolved(available: bool) | Rejected

  /** `Registering`: faces left to register, and whether one has been. */
  datatype Phase = Fetching | Registering(left: nat, any: bool) | Readying | Over(result: Result)

  /** `threw`: the fetch failed in the call itself, before there was a promise to wait for. */
  datatype Load = Load(family: string, phase: Phase, threw: bool)

  /** `inflight` maps a family to the load whose promise its callers share. */
  datatype State = State(loaded: set<string>, inflight: map<string, nat>, loads: seq<Load>)

  const EMPTY := State({}, map[], [])

  /** What a call returns: an answer, or the promise of a load. */
  datatype Reply = Now(available: bool) | Later(load: nat)

  predicate Known(s: State, family: string) {
    family == "" || family in SKIP_FAMILIES || family in s.loaded
  }

  /** Whether a call starts a load. */
  predicate Fetches(s: State, family: string) {
    !Known(s, family) && family !in s.inflight
  }

  function ReplyOf(s: State, family: string): Reply {
    if Known(s, family) then Now(true)
    else if family in s.inflight then Later(s.inflight[family])
    else Later(|s.loads|)
  }

  /** A call. The clean-up of a fetch that throws at once runs before the entry is made, so the
      entry stays. */
  function Call(s: State, family: string, throws: bool): State {
    if !Fetches(s, family) then s
    else s.(loads := s.loads + [Load(family, if throws then Over(Rejected) else Fetching, throws)],
            inflight := s.inflight[family := |s.loads|])
  }

  predicate Runs(s: State, i: nat) {
    i < |s.loads| && !s.loads[i].phase.Over?
  }

  function Advance(s: State, i: nat, phase: Phase): State
    requires i < |s.loads|
  {
    s.(loads := s.loads[i := s.loads[i].(phase := phase)])
  }

  /** The end of a load: its family becomes loaded if it succeeded, and its entry goes. */
  function End(s: State, i: nat, result: Result): State
    requires i < |s.loads|
  {
    var family := s.loads[i].family;
    Advance(s, i, Over(result)).(
      loaded := if result == Resolved(true) then s.loaded + {family} else s.loaded,
      inflight := s.inflight - {family})
  }

  datatype Step =
    | Calls(family: string, throws: bool)
    | FetchSettles(load: nat, faces: Option<nat>)
    | FaceSettles(load: nat, ok: bool)
    | ReadySettles(load: nat, ok: bool)

  predicate Enabled(s: State, e: Step) {
    match e
    case Calls(_, _) => true
    case FetchSettles(i, _) => i < |s.loads| && s.loads[i].phase == Fetching
    case FaceSettles(i, _) => i < |s.loads| && s.loads[i].phase.Registering? && s.loads[i].phase.left > 0
    case ReadySettles(i, _) => i < |s.loads| && s.loads[i].phase == Readying
  }

  function RegisterFace(s: State, i: nat, left: nat, any: bool): State
    requires i < |s.loads|
  {
    if left > 0 then Advance(s, i, Registering(left, any))
    else if any then Advance(s, i, Readying)
    else End(s, i, Resolved(false))
  }

  function Apply(s: State, e: Step): State
    requires Enabled(s, e)
  {
    match e
    case Calls(family, throws) => Call(s, family, throws)
    case FetchSettles(i, faces) => if faces.None? then End(s, i, Rejected) else RegisterFace(s, i, faces.value, false)
    case FaceSettles(i, ok) => RegisterFace(s, i, s.loads[i].phase.left - 1, s.loads[i].phase.any || ok)
    case ReadySettles(i, ok) => End(s, i, if ok then Resolved(true) else Rejected)
  }

  predicate Follows(s: State, steps: seq<Step>)
    decreases steps
  {
    steps == [] || (Enabled(s, steps[0]) && Follows(Apply(s, steps[0]), steps[1..]))
  }

  function After(s: State, steps: seq<Step>): State
    requires Follows(s, steps)
    decreases steps
  {
    if steps == [] then s else After(Apply(s, steps[0]), steps[1..])
  }

  // ----- the invariant -----

  /** A load that ended without its family and without leaving its entry behind. */
  predicate FailedCleanly(l: Load) {
    l.phase.Over? && l.phase.result != Resolved(true) && !l.threw
  }

  /** Entries and running loads correspond, except for the entries of fetches that threw. */
  ghost predicate Entries(s: State) {
    && (forall f | f in s.inflight ::
          && s.inflight[f] < |s.loads|
          && s.loads[s.inflight[f]].family == f
          && (Runs(s, s.inflight[f]) || s.loads[s.inflight[f]].threw))
    && (forall i | 0 <= i < |s.loads| :: Runs(s, i) || s.loads[i].threw ==>
          s.loads[i].family in s.inflight && s.inflight[s.loads[i].family] == i)
  }

  ghost predicate Histories(s: State) {
    && (forall i, j | 0 <= i < j < |s.loads| && s.loads[i].family == s.loads[j].family :: FailedCleanly(s.loads[i]))
    && (forall i | 0 <= i < |s.loads| :: s.loads[i].threw ==> s.loads[i].phase == Over(Rejected))
    && (forall i | 0 <= i < |s.loads| :: s.loads[i].phase == Over(Resolved(true)) <==>
          s.loads[i].family in s.loaded && !FailedCleanly(s.loads[i]))
    && (forall f | f in s.loaded :: f !in s.inflight && exists i :: LoadedBy(s, f, i))
    && (forall i | 0 <= i < |s.loads| :: s.loads[i].phase.Registering? ==> s.loads[i].phase.left > 0)
  }

  ghost predicate LoadedBy(s: State, f: string, i: int) {
    0 <= i < |s.loads| && s.loads[i].family == f && s.loads[i].phase == Over(Resolved(true))
  }

  ghost predicate Inv(s: State) {
    Entries(s) && Histories(s)
  }

  lemma EarlierLoadsFailed(s: State, family: string)
    requires Inv(s) && Fetches(s, family)
    ensures forall i | 0 <= i < |s.loads| && s.loads[i].family == family :: FailedCleanly(s.loads[i])
  {
    forall i | 0 <= i < |s.loads| && s.loads[i].family == family
      ensures FailedCleanly(s.loads[i])
    {
      assert !Runs(s, i);
    }
  }

  lemma CallKeepsEntries(s: State, family: string, throws: bool)
    requires Inv(s)
    ensures Entries(Call(s, family, throws))
  {
    if Fetches(s, family) {
      var t := Call(s, family, throws);
      EarlierLoadsFailed(s, family);
      assert forall i | 0 <= i < |s.loads| :: t.loads[i] == s.loads[i] && (Runs(t, i) <==> Runs(s, i));
    }
  }

  lemma CallKeepsHistories(s: State, family: string, throws: bool)
    requires Inv(s)
    ensures Histories(Call(s, family, throws))
  {
    if Fetches(s, family) {
      var t := Call(s, family, throws);
      EarlierLoadsFailed(s, family);
      assert forall f, i :: LoadedBy(s, f, i) ==> LoadedBy(t, f, i);
    }
  }

  lemma AdvanceKeeps(s: State, i: nat, phase: Phase)
    requires Inv(s) && Runs(s, i)
    requires !phase.Over? && (phase.Registering? ==> phase.left > 0)
    ensures Inv(Advance(s, i, phase))
  {
    var t := Advance(s, i, phase);
    assert forall j | 0 <= j < |s.loads| :: Runs(t, j) <==> Runs(s, j);
    assert forall f, j :: LoadedBy(s, f, j) ==> LoadedBy(t, f, j);
  }

  lemma EndKeepsEntries(s: State, i: nat, result: Result)
    requires Inv(s) && Runs(s, i)
    ensures Entries(End(s, i, result))
  {
    var t := End(s, i, result);
    assert forall j | 0 <= j < |s.loads| :: Runs(t, j) <==> Runs(s, j) && j != i;
    assert forall j | 0 <= j < |s.loads| ::
      t.loads[j].family == s.loads[j].family && t.loads[j].threw == s.loads[j].threw;
  }

  lemma EndKeepsHistories(s: State, i: nat, result: Result)
    requires Inv(s) && Runs(s, i)
    ensures Histories(End(s, i, result))
  {
    var t, family := End(s, i, result), s.loads[i].family;
    assert !FailedCleanly(s.loads[i]);
    assert forall f, j :: LoadedBy(s, f, j) ==> LoadedBy(t, f, j);
    assert result == Resolved(true) ==> LoadedBy(t, family, i);
    assert forall j | 0 <= j < |s.loads| && j != i && s.loads[j].family == family :: FailedCleanly(s.loads[j]);
    assert family !in s.loaded;
  }

  lemma EndKeeps(s: State, i: nat, result: Result)
    requires Inv(s) && Runs(s, i)
    ensures Inv(End(s, i, result))
  {
    EndKeepsEntries(s, i, result);
    EndKeepsHistories(s, i, result);
  }

  lemma StepKeeps(s: State, e: Step)
    requires Inv(s) && Enabled(s, e)
    ensures Inv(Apply(s, e))
  {
    match e
    case Calls(family, throws) =>
      CallKeepsEntries(s, family, throws);
      CallKeepsHistories(s, family, throws);
    case FetchSettles(i, faces) =>
      if faces.None? {
        EndKeeps(s, i, Rejected);
      } else {
        RegisterKeeps(s, i, faces.value, false);
      }
    case FaceSettles(i, ok) => RegisterKeeps(s, i, s.loads[i].phase.left - 1, s.loads[i].phase.any || ok);
    case ReadySettles(i, ok) => EndKeeps(s, i, if ok then Resolved(true) else Rejected);
  }

  lemma RegisterKeeps(s: State, i: nat, left: nat, any: bool)
    requires Inv(s) && Runs(s, i)
    ensures Inv(RegisterFace(s, i, left, any))
  {
    if left > 0 {
      AdvanceKeeps(s, i, Registering(left, any));
    } else if any {
      AdvanceKeeps(s, i, Readying);
    } else {
      EndKeeps(s, i, Resolved(false));
    }
  }

  lemma {:induction false} RunKeeps(s: State, steps: seq<Step>)
    requires Inv(s) && Follows(s, steps)
    ensures Inv(After(s, steps))
    decreases steps
  {
    if steps != [] {
      StepKeeps(s, steps[0]);
      RunKeeps(Apply(s, steps[0]), steps[1..]);
    }
  }

  // ----- the theorems -----

  ghost predicate Running(s: State, f: string) {
    exists i: nat :: Runs(s, i) && s.loads[i].family == f
  }

  ghost predicate Threw(s: State, f: string) {
    exists i: nat :: i < |s.loads| && s.loads[i].family == f && s.loads[i].threw
  }

  /** Somewhere in the run a call starts a fetch of the family that throws in the call itself. */
  predicate Throws(s: State, steps: seq<Step>, f: string)
    requires Follows(s, steps)
    decreases steps
  {
    steps != [] && ((steps[0] == Calls(f, true) && Fetches(s, f)) || Throws(Apply(s, steps[0]), steps[1..], f))
  }

  /** No call throws before it has a promise, as with a fetch that is an asynchronous function. */
  predicate NoneThrows(steps: seq<Step>) {
    forall i | 0 <= i < |steps| && steps[i].Calls? :: !steps[i].throws
  }

  /** In every interleaving of calls: at most one load per family runs, and a family is fetched
      again only after each earlier load of it has failed. */
  lemma OneLoadAtATime(steps: seq<Step>)
    requires Follows(EMPTY, steps)
    ensures var s := After(EMPTY, steps);
            forall i, j | 0 <= i < j < |s.loads| && s.loads[i].family == s.loads[j].family ::
              !Runs(s, i) && FailedCleanly(s.loads[i])
  {
    RunKeeps(EMPTY, steps);
  }

  lemma EntryOfFamily(s: State, f: string)
    requires Inv(s)
    ensures f in s.inflight <==> Running(s, f) || Threw(s, f)
    ensures !(Running(s, f) && Threw(s, f))
  {
    if f in s.inflight {
      var i := s.inflight[f];
      assert i < |s.loads| && s.loads[i].family == f;
    }
  }

  lemma StepThrows(s: State, e: Step, f: string)
    requires Inv(s) && Enabled(s, e)
    ensures Threw(Apply(s, e), f) <==> Threw(s, f) || (e == Calls(f, true) && Fetches(s, f))
  {
    var t := Apply(s, e);
    assert |s.loads| <= |t.loads|;
    assert forall i | 0 <= i < |s.loads| ::
      t.loads[i].family == s.loads[i].family && t.loads[i].threw == s.loads[i].threw;
    if e == Calls(f, true) && Fetches(s, f) {
      assert t.loads[|s.loads|].threw;
    }
  }

  lemma {:induction false} RunThrows(s: State, steps: seq<Step>, f: string)
    requires Inv(s) && Follows(s, steps)
    ensures Threw(After(s, steps), f) <==> Threw(s, f) || Throws(s, steps, f)
    decreases steps
  {
    if steps != [] {
      StepThrows(s, steps[0], f);
      StepKeeps(s, steps[0]);
      RunThrows(Apply(s, steps[0]), steps[1..], f);
    }
  }

  lemma {:induction false} NoneThrowsMeans(s: State, steps: seq<Step>, f: string)
    requires Follows(s, steps) && NoneThrows(steps)
    ensures !Throws(s, steps, f)
    decreases steps
  {
    if steps != [] {
      assert forall i | 0 <= i < |steps[1..]| :: steps[1..][i] == steps[i + 1];
      NoneThrowsMeans(Apply(s, steps[0]), steps[1..], f);
    }
  }

  /** An entry outlives the loads of its family exactly if a fetch of it threw in the call itself. */
  lemma EntryOutlivesItsLoad(steps: seq<Step>, f: string)
    requires Follows(EMPTY, steps)
    ensures var s := After(EMPTY, steps);
            && (Running(s, f) ==> f in s.inflight)
            && (f in s.inflight && !Running(s, f) <==> Throws(EMPTY, steps, f))
  {
    RunKeeps(EMPTY, steps);
    EntryOfFamily(After(EMPTY, steps), f);
    RunThrows(EMPTY, steps, f);
  }

  /** With a fetch that never throws in the call itself, an entry exists exactly while a load of
      its family runs. */
  lemma EntriesAreRunningLoads(steps: seq<Step>, f: string)
    requires Follows(EMPTY, steps) && NoneThrows(steps)
    ensures var s := After(EMPTY, steps); f in s.inflight <==> Running(s, f)
  {
    EntryOutlivesItsLoad(steps, f);
    NoneThrowsMeans(EMPTY, steps, f);
  }

  lemma NextCallFetches(s: State, f: string)
    requires Inv(s) && f != "" && f !in SKIP_FAMILIES
    ensures Fetches(s, f) <==> forall i | 0 <= i < |s.loads| && s.loads[i].family == f :: FailedCleanly(s.loads[i])
  {
    if Fetches(s, f) {
      EarlierLoadsFailed(s, f);
    } else if f in s.loaded {
      var i :| LoadedBy(s, f, i);
      assert !FailedCleanly(s.loads[i]);
    } else {
      var i := s.inflight[f];
      assert !FailedCleanly(s.loads[i]);
    }
  }

  /** A load that ended without its family. */
  predicate Failed(l: Load) {
    l.phase.Over? && l.phase.result != Resolved(true)
  }

  /** With such a fetch the next call fetches a family exactly if every earlier load of it has
      failed. */
  lemma RetriedAfterFailure(steps: seq<Step>, f: string)
    requires Follows(EMPTY, steps) && NoneThrows(steps) && f != "" && f !in SKIP_FAMILIES
    ensures var s := After(EMPTY, steps);
            Fetches(s, f) <==> forall i | 0 <= i < |s.loads| && s.loads[i].family == f :: Failed(s.loads[i])
  {
    RunKeeps(EMPTY, steps);
    NoneThrowsMeans(EMPTY, steps, f);
    RunThrows(EMPTY, steps, f);
    var s := After(EMPTY, steps);
    NextCallFetches(s, f);
    forall i | 0 <= i < |s.loads| && s.loads[i].family == f
      ensures FailedCleanly(s.loads[i]) <==> Failed(s.loads[i])
    {
      assert !s.loads[i].threw;
    }
  }

  /** In every run a call that follows failed loads only is answered without a fetch exactly if
      one of them threw in the call itself. */
  lemma StuckExactlyAfterThrow(steps: seq<Step>, f: string)
    requires Follows(EMPTY, steps) && f != "" && f !in SKIP_FAMILIES
    requires forall i | 0 <= i < |After(EMPTY, steps).loads| && After(EMPTY, steps).loads[i].family == f ::
               Failed(After(EMPTY, steps).loads[i])
    ensures !Fetches(After(EMPTY, steps), f) <==> Throws(EMPTY, steps, f)
  {
    RunKeeps(EMPTY, steps);
    RunThrows(EMPTY, steps, f);
    NextCallFetches(After(EMPTY, steps), f);
  }

  /** From then on every later call gets the same rejected promise. */
  lemma {:induction false} ThrownStaysRejected(s: State, steps: seq<Step>, i: nat)
    requires Inv(s) && i < |s.loads| && s.loads[i].threw && Follows(s, steps)
    requires !(s.loads[i].family in SKIP_FAMILIES) && s.loads[i].family != ""
    ensures var t := After(s, steps);
            && i < |t.loads| && t.loads[i] == s.loads[i] && t.loads[i].phase == Over(Rejected)
            && ReplyOf(t, s.loads[i].family) == Later(i)
    decreases steps
  {
    if steps == [] {
      assert !FailedCleanly(s.loads[i]);
    } else {
      StepKeeps(s, steps[0]);
      assert !Runs(s, i);
      ThrownStaysRejected(Apply(s, steps[0]), steps[1..], i);
    }
  }

  /** A run of one call whose fetch throws: the entry is there and nothing runs. */
  lemma ThrowingRun(f: string)
    requires f != "" && f !in SKIP_FAMILIES
    ensures var steps := [Calls(f, true)];
            && Follows(EMPTY, steps) && Throws(EMPTY, steps, f)
            && f in After(EMPTY, steps).inflight && !Running(After(EMPTY, steps), f)
            && !Fetches(After(EMPTY, steps), f)
  {
    var steps := [Calls(f, true)];
    assert steps[1..] == [];
    assert Follows(Apply(EMPTY, steps[0]), steps[1..]);
    assert After(EMPTY, steps) == Call(EMPTY, f, true);
  }
}
