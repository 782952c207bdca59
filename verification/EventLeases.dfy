/** Ordered, disposable event subscriptions: repository changes, scheduler deliveries and
    assistant sessions. Each accepted event becomes a link of a promise chain; every `await` is a
    point where another step may run. */
module EventLeases {
  import opened Wrappers
  import Text

  // ----- events and scopes -----

  datatype Scope =
    | Repository(projectId: string)
    | Deliveries
    | Sessions(recordId: Option<string>, projectPath: Option<string>)

  /** A native event; `sound` stands for the checks of a delivery frame's other fields. */
  datatype Native =
    | Changed(paths: seq<string>)
    | Frame(number: int, sound: bool)
    | Session(record: string, path: string)

  predicate MatchesScope(scope: Scope, record: string, path: string)
    requires scope.Sessions?
  {
    scope.recordId in {None, Some(record)} && scope.projectPath in {None, Some(path)}
  }

  predicate ValidFrame(e: Native, last: int) {
    e.Frame? && last < e.number <= Text.MAX_SAFE_INTEGER && e.sound
  }

  // ----- the chain -----

  /** `Skipped`: its turn came after the lease or the context had closed. `Dropped`: an earlier
      listener failed and the chain does not catch failures. */
  datatype Status = Waiting | Running | Delivered | Failed | Skipped | Dropped {
    predicate Over() {
      !Waiting? && !Running?
    }

    predicate Called() {
      Running? || Delivered? || Failed?
    }

    predicate Rejects() {
      Failed? || Dropped?
    }
  }

  datatype Link = Link(sequence: int, event: Native, status: Status)

  datatype Phase = Opening | Owned | Refusing | Refused | Unlistening | Draining | Finished | DisposeFailed

  /** `context` and `active` are the two flags the callbacks read; `sequence` is the counter that
      repository and session subscriptions share, and a delivery subscription's own last number;
      `listening` says that the native side still holds the callback. */
  datatype State = State(
    scope: Scope, context: bool, active: bool, phase: Phase, sequence: int, chain: seq<Link>, listening: bool)

  function Opened(scope: Scope, sequence: int): State {
    State(scope, true, true, if scope.Sessions? then Owned else Opening, sequence, [], true)
  }

  predicate Catches(scope: Scope) {
    !scope.Deliveries?
  }

  predicate Live(s: State) {
    s.active && s.context
  }

  // ----- steps -----

  datatype Event =
    | Arrives(native: Native)
    | OthersCount(to: int)
    | Take(link: nat)
    | Settle(link: nat, ok: bool)
    | Deactivate
    | OpenSettles(ok: bool)
    | UnlistenSettles(ok: bool)
    | BeginDispose
    | Drain
    | NativeReleases   // the native bridge closes and drops the observers of its activations

  /** Whether the callback accepts an event. Only the repository callback ignores the context. */
  predicate Accepts(s: State, e: Native) {
    && s.active
    && match s.scope
       case Repository(projectId) => e.Changed? && projectId in e.paths
       case Deliveries => s.context && ValidFrame(e, s.sequence)
       case Sessions(_, _) => s.context && e.Session? && MatchesScope(s.scope, e.record, e.path)
  }

  function SequenceOf(s: State, e: Native): int {
    if s.scope.Deliveries? && e.Frame? then e.number else s.sequence + 1
  }

  function Accept(s: State, e: Native): State {
    if Accepts(s, e) then
      s.(sequence := SequenceOf(s, e), chain := s.chain + [Link(SequenceOf(s, e), e, Waiting)])
    else s
  }

  predicate MayTake(s: State, k: nat) {
    k < |s.chain| && s.chain[k].status.Waiting? && (k == 0 || s.chain[k - 1].status.Over())
  }

  /** What becomes of a link when the chain reaches it. */
  function Turn(s: State, k: nat): Status
    requires k < |s.chain|
  {
    if !Catches(s.scope) && k > 0 && s.chain[k - 1].status.Rejects() then Dropped
    else if Live(s) then Running
    else Skipped
  }

  function Mark(s: State, k: nat, status: Status): State
    requires k < |s.chain|
  {
    s.(chain := s.chain[k := s.chain[k].(status := status)])
  }

  predicate LastIsOver(s: State) {
    s.chain == [] || s.chain[|s.chain| - 1].status.Over()
  }

  predicate ChainRejects(s: State) {
    !Catches(s.scope) && s.chain != [] && s.chain[|s.chain| - 1].status.Rejects()
  }

  predicate Enabled(s: State, e: Event) {
    match e
    case Arrives(_) => s.listening
    case OthersCount(to) => !s.scope.Deliveries? && s.sequence <= to
    case Take(k) => MayTake(s, k)
    case Settle(k, _) => k < |s.chain| && s.chain[k].status.Running?
    case Deactivate => true
    case OpenSettles(_) => s.phase == Opening
    case UnlistenSettles(_) => s.phase in {Unlistening, Refusing}
    case BeginDispose => s.phase == Owned
    case Drain => s.phase == Draining && LastIsOver(s)
    case NativeReleases => s.scope.Deliveries?
  }

  /** The native registration answers. A repository subscription undoes it when the context has
      closed meanwhile; a delivery subscription is refused by the context and leaves it. */
  function SettleOpen(s: State, ok: bool): State {
    if !ok then s.(phase := Refused, listening := false)
    else if s.context then s.(phase := Owned)
    else if s.scope.Repository? then s.(active := false, phase := Refusing)
    else s.(phase := Refused)
  }

  function SettleUnlisten(s: State, ok: bool): State {
    s.(listening := s.listening && !ok,
       phase := if s.phase == Refusing then Refused else if ok then Draining else DisposeFailed)
  }

  function Dispose(s: State): State {
    if s.scope.Sessions? then s.(active := false, listening := false, phase := Draining)
    else s.(active := false, phase := Unlistening)
  }

  function Apply(s: State, e: Event): State
    requires Enabled(s, e)
  {
    match e
    case Arrives(native) => Accept(s, native)
    case OthersCount(to) => s.(sequence := to)
    case Take(k) => Mark(s, k, Turn(s, k))
    case Settle(k, ok) => Mark(s, k, if ok then Delivered else Failed)
    case Deactivate => s.(context := false)
    case OpenSettles(ok) => SettleOpen(s, ok)
    case UnlistenSettles(ok) => SettleUnlisten(s, ok)
    case BeginDispose => Dispose(s)
    case Drain => s.(phase := if ChainRejects(s) then DisposeFailed else Finished)
    case NativeReleases => s.(listening := false)
  }

  // ----- runs -----

  predicate Follows(s: State, events: seq<Event>)
    decreases events
  {
    events == [] || (Enabled(s, events[0]) && Follows(Apply(s, events[0]), events[1..]))
  }

  function After(s: State, events: seq<Event>): State
    requires Follows(s, events)
    decreases events
  {
    if events == [] then s else After(Apply(s, events[0]), events[1..])
  }

  // ----- the invariant -----

  /** Links are reached in order, one at a time. */
  ghost predicate InOrder(chain: seq<Link>) {
    forall i, j | 0 <= i < j < |chain| :: !chain[j].status.Waiting? ==> chain[i].status.Over()
  }

  /** The links whose listener was called come first. */
  ghost predicate CallsFirst(chain: seq<Link>) {
    forall i, j | 0 <= i < j < |chain| :: chain[j].status.Called() ==> chain[i].status.Called()
  }

  ghost predicate StrictlyIncreasing(chain: seq<Link>) {
    forall i, j | 0 <= i < j < |chain| :: chain[i].sequence < chain[j].sequence
  }

  ghost predicate Numbered(s: State) {
    StrictlyIncreasing(s.chain) && forall i | 0 <= i < |s.chain| :: s.chain[i].sequence <= s.sequence
  }

  /** A link is skipped only when the lease is no longer live, and dropped exactly behind a
      failure that is not caught. */
  ghost predicate Excused(s: State) {
    && (forall i | 0 <= i < |s.chain| :: s.chain[i].status.Skipped? ==> !Live(s))
    && (forall i | 0 <= i < |s.chain| :: s.chain[i].status.Dropped? ==>
          !Catches(s.scope) && exists j :: FailedBefore(s.chain, j, i))
    && (!Catches(s.scope) ==> forall i, j | 0 <= i < j < |s.chain| ::
          s.chain[i].status.Rejects() && !s.chain[j].status.Waiting? ==> s.chain[j].status.Dropped?)
  }

  ghost predicate FailedBefore(chain: seq<Link>, j: int, i: int) {
    0 <= j < i < |chain| && chain[j].status.Failed?
  }

  /** What a link says about its event: it is in the scope, and a delivery keeps its number. */
  predicate Belongs(scope: Scope, link: Link) {
    match scope
    case Repository(projectId) => link.event.Changed? && projectId in link.event.paths
    case Deliveries =>
      link.event.Frame? && link.event.sound && link.sequence == link.event.number <= Text.MAX_SAFE_INTEGER
    case Sessions(recordId, projectPath) =>
      && link.event.Session?
      && (recordId.Some? ==> recordId.value == link.event.record)
      && (projectPath.Some? ==> projectPath.value == link.event.path)
  }

  ghost predicate AllBelong(s: State) {
    forall i | 0 <= i < |s.chain| :: Belongs(s.scope, s.chain[i])
  }

  ghost predicate AllOver(chain: seq<Link>) {
    forall i | 0 <= i < |chain| :: chain[i].status.Over()
  }

  /** What each phase says about the flags. */
  ghost predicate Phased(s: State) {
    && (s.phase in {Refusing, Unlistening, Draining, Finished, DisposeFailed} ==> !s.active)
    && (s.phase in {Opening, Owned} ==> s.active && (s.listening || s.scope.Deliveries?))
    && (s.phase == Opening ==> !s.scope.Sessions?)
    && (s.phase in {Draining, Finished} ==> !s.listening)
    && (s.phase == Refused && s.active && s.listening ==> s.scope.Deliveries? && !s.context)
    && (s.phase == Finished ==> AllOver(s.chain) && !ChainRejects(s))
  }

  ghost predicate Inv(s: State) {
    InOrder(s.chain) && CallsFirst(s.chain) && Numbered(s) && AllBelong(s) && Excused(s) && Phased(s)
  }

  lemma OpenedKeepsInv(scope: Scope, sequence: int)
    ensures Inv(Opened(scope, sequence))
  {
  }

  lemma AcceptKeepsOrder(s: State, e: Native)
    requires Inv(s)
    ensures InOrder(Accept(s, e).chain) && CallsFirst(Accept(s, e).chain)
    ensures Numbered(Accept(s, e)) && AllBelong(Accept(s, e))
  {
    if Accepts(s, e) {
      var t, link := Accept(s, e), Link(SequenceOf(s, e), e, Waiting);
      assert Belongs(s.scope, link) && s.sequence < link.sequence;
      assert t.chain == s.chain + [link];
    }
  }

  lemma AcceptKeepsExcuses(s: State, e: Native)
    requires Inv(s)
    ensures Excused(Accept(s, e)) && Phased(Accept(s, e))
  {
    if Accepts(s, e) {
      var t := Accept(s, e);
      assert forall i | 0 <= i < |s.chain| :: t.chain[i] == s.chain[i];
      assert forall i, j :: FailedBefore(s.chain, j, i) ==> FailedBefore(t.chain, j, i);
    }
  }

  lemma TakeKeepsOrder(s: State, k: nat)
    requires Inv(s) && MayTake(s, k)
    ensures InOrder(Mark(s, k, Turn(s, k)).chain)
    ensures CallsFirst(Mark(s, k, Turn(s, k)).chain)
    ensures Numbered(Mark(s, k, Turn(s, k))) && AllBelong(Mark(s, k, Turn(s, k)))
  {
  }

  lemma TakeKeepsExcuses(s: State, k: nat)
    requires Inv(s) && MayTake(s, k)
    ensures Excused(Mark(s, k, Turn(s, k)))
  {
    var t := Mark(s, k, Turn(s, k));
    assert forall i, j :: FailedBefore(s.chain, j, i) ==> FailedBefore(t.chain, j, i);
    if Turn(s, k).Dropped? {
      if s.chain[k - 1].status.Failed? {
        assert FailedBefore(t.chain, k - 1, k);
      } else {
        var j :| FailedBefore(s.chain, j, k - 1);
        assert FailedBefore(t.chain, j, k);
      }
    }
  }

  lemma SettleKeeps(s: State, k: nat, ok: bool)
    requires Inv(s) && k < |s.chain| && s.chain[k].status.Running?
    ensures Inv(Mark(s, k, if ok then Delivered else Failed))
  {
    var t := Mark(s, k, if ok then Delivered else Failed);
    assert forall i, j :: FailedBefore(s.chain, j, i) ==> FailedBefore(t.chain, j, i);
  }

  /** Steps that leave the chain alone. */
  lemma FlagsKeep(s: State, e: Event)
    requires Inv(s) && Enabled(s, e) && !e.Arrives? && !e.Take? && !e.Settle?
    ensures Inv(Apply(s, e))
  {
    var t := Apply(s, e);
    assert t.chain == s.chain && t.scope == s.scope && s.sequence <= t.sequence && (Live(t) ==> Live(s));
    assert Numbered(t) && AllBelong(t) && Excused(t);
    if e.Drain? {
      assert LastIsOver(s) ==> AllOver(s.chain);
    }
  }

  lemma StepKeeps(s: State, e: Event)
    requires Inv(s) && Enabled(s, e)
    ensures Inv(Apply(s, e))
  {
    if e.Arrives? {
      AcceptKeepsOrder(s, e.native);
      AcceptKeepsExcuses(s, e.native);
    } else if e.Take? {
      TakeKeepsOrder(s, e.link);
      TakeKeepsExcuses(s, e.link);
    } else if e.Settle? {
      SettleKeeps(s, e.link, e.ok);
    } else {
      FlagsKeep(s, e);
    }
  }

  lemma {:induction false} RunKeeps(s: State, events: seq<Event>)
    requires Inv(s) && Follows(s, events)
    ensures Inv(After(s, events))
    decreases events
  {
    if events != [] {
      StepKeeps(s, events[0]);
      RunKeeps(Apply(s, events[0]), events[1..]);
    }
  }
}
