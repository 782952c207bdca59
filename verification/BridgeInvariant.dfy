/** The inductive invariant of the bridge and its preservation by every transition. */
module BridgeInvariant {
  import opened Wrappers
  import opened BridgeProtocol
  import opened BridgeLog

  ghost predicate Fields(origin: Origin, s: State) {
    && s.started <= |s.received|
    && (s.current.Some? ==>
          && s.current.value.index + 1 == s.started
          && s.current.value.frame == s.received[s.current.value.index])
    && (s.closed <==> s.closeTicket.Some?)
    && (s.closed <==> Mentions(s.log, CloseCalled))
    && (s.bridgeId.None? <==> Mentions(s.log, NativeClosed))
    && (s.bridgeId.Some? ==> s.bridgeId.value == origin.bridgeId)
    && (s.closed ==> s.closeTicket.value <= |s.received|)
    && (s.bridgeId.None? ==> s.closed && s.closeTicket.value <= s.Settled())
    && (s.current.Some? && s.current.value.admitted.Some? && s.closed ==>
          s.current.value.index < s.closeTicket.value)
    && s.byActivation == Table(origin, s.log)
    && s.minimum == Fence(origin, s.log)
  }

  predicate Pending(call: Reconcile) {
    call.stage.Answered? && call.stage.answer.Some?
  }

  /** The native generation never trails the bridge's; at most one accepted answer waits to
      be installed, and it was issued at the bridge's own generation. */
  ghost predicate Generations(s: State) {
    && s.minimum <= s.native
    && (forall k | 0 <= k < |s.reconciles| && s.reconciles[k].stage.Sent? ::
          s.reconciles[k].stage.expected <= s.minimum)
    && (forall k | 0 <= k < |s.reconciles| && Pending(s.reconciles[k]) ::
          s.reconciles[k].stage.expected == s.minimum < s.reconciles[k].stage.answer.value <= s.native)
    && (forall j, k | 0 <= j < k < |s.reconciles| :: !(Pending(s.reconciles[j]) && Pending(s.reconciles[k])))
  }

  /** What the log says of a frame that is about to be refused with a given code. */
  ghost predicate CodeFits(l: Ledger, code: FailureCode) {
    && l.frame.Some?
    && l.entered <= l.Handlers()
    && (l.entered != l.Handlers() ==> l.failed && !l.frame.value.kind.Broadcast?)
    && (forall j :: j in l.left <==> 0 <= j < |l.entered|)
    && (code.RouteGenerationChanged? <==> l.admitted.None?)
    && (code.HandlerUnavailable? <==> l.admitted.Some? && l.Handlers() == [])
    && (l.failed ==> code.HandlerFailed?)
  }

  /** What the log says of a frame whose dispatch is suspended in a given phase. */
  ghost predicate Suspended(l: Ledger, d: Dispatch) {
    var handlers := HandlersOf(d);
    && l.frame == Some(d.frame)
    && l.admitted == d.admitted
    && l.verdict.None?
    && l.acknowledged == 0
    && (d.admitted.Some? ==> l.bridged)
    && (!d.phase.Reporting? ==> l.reports == [])
    && (!d.phase.Replying? && !d.phase.Rejecting? ==> l.replies == [])
    && match d.phase
       case Observing => d.admitted.Some? && l.entered == [] && l.left == {} && !l.failed
       case Running(next) =>
         && !d.frame.kind.Broadcast? && next < |handlers| && l.entered == handlers[..next + 1]
         && (forall j :: j in l.left <==> 0 <= j < next) && !l.failed
       case Gathering(entered, settled, failed) =>
         && d.frame.kind.Broadcast? && entered <= |handlers| && l.entered == handlers[..entered]
         && handlers != [] && (forall j | j in settled :: j < entered)
         && (forall j :: j in l.left <==> 0 <= j && j in settled) && l.failed == failed
       case Replying =>
         d.frame.WantsReply() && handlers != [] && CodeFits(l, HandlerFailed) && !l.failed && l.replies == [None]
       case Reporting(code) =>
         && !d.frame.kind.PortRequest? && CodeFits(l, code) && l.reports == [code]
         && !code.RouteGenerationChanged? && (code.HandlerFailed? ==> l.failed)
       case Rejecting(code) =>
         && d.frame.WantsReply() && CodeFits(l, code) && l.bridged
         && (if code.HandlerFailed? && !l.failed then l.replies == [None, Some(code)] else l.replies == [Some(code)])
  }

  /** The account of frame `i`, whatever its position in the queue. Of the running frame it
      says only that it has no verdict yet; `Inv` adds what its phase implies. */
  ghost predicate Booked(s: State, i: nat)
    requires s.closed ==> s.closeTicket.Some?
  {
    var l := LedgerOf(s.log, i);
    if |s.received| <= i then l == BLANK
    else
      && l.frame == Some(s.received[i])
      && (l.inTime <==> !s.closed || i < s.closeTicket.value)
      && (i < s.started && l.inTime ==> l.bridged)
      && if s.started <= i then l == BLANK.(frame := l.frame, inTime := l.inTime)
         else if s.current.Some? && s.current.value.index == i
              then l.admitted == s.current.value.admitted && l.verdict.None?
         else l.verdict.Some? && Accounted(l)
  }

  /** What the log says of the k-th call of `reconcile`. */
  ghost predicate Called(s: State, k: nat) {
    var asking := AskingOf(s.log, k);
    if |s.reconciles| <= k then asking.None?
    else
      && asking.Some?
      && s.reconciles[k].prepared == asking.value.prepared
      && match s.reconciles[k].stage
         case Waiting(ticket) =>
           ticket <= |s.received| && forall i: nat | LedgerOf(asking.value.past, i).frame.Some? :: i < ticket
         case Sent(expected) => Mentions(s.log, ReconcileSent(k, expected))
         case Answered(expected, _) => Mentions(s.log, ReconcileSent(k, expected))
         case Returned => true
  }

  ghost predicate Calls(s: State) {
    forall k: nat :: Called(s, k)
  }

  ghost predicate Queue(s: State) {
    && InTurn(Turns(s.log))
    && |Turns(s.log)| == 2 * s.started - (if s.current.Some? then 1 else 0)
  }

  ghost predicate Base(origin: Origin, s: State) {
    && Fields(origin, s)
    && (forall i: nat :: Booked(s, i))
    && Queue(s)
    && Calls(s)
    && LawfulLog(origin, s.log)
  }

  function CurrentLedger(s: State): Ledger
    requires s.current.Some?
  {
    LedgerOf(s.log, s.current.value.index)
  }

  ghost predicate Frames(origin: Origin, s: State) {
    Base(origin, s) && (s.current.Some? ==> Suspended(CurrentLedger(s), s.current.value))
  }

  ghost predicate Inv(origin: Origin, s: State) {
    Frames(origin, s) && Generations(s)
  }

  lemma CallsAreKept(s: State, t: State)
    requires Calls(s) && t.reconciles == s.reconciles && |s.received| <= |t.received|
    requires t.log == s.log || (t.log.Then? && t.log.past == s.log && !t.log.action.ReconcileAsked?)
    ensures Calls(t)
  {
    forall k: nat
      ensures Called(t, k)
    {
      assert Called(s, k);
    }
  }

  // ----- the running dispatch -----

  /** Noting something about the running frame, short of its verdict. */
  lemma NoteKeeps(origin: Origin, s: State, a: Action)
    requires Base(origin, s) && s.current.Some?
    requires Concerns(a, s.current.value.index) && !a.Received? && !a.Started? && !a.Finished?
    requires Lawful(origin, s.log, a)
    ensures Base(origin, s.Note(a))
    ensures CurrentLedger(s.Note(a)) == Entry(CurrentLedger(s), s.log, a)
  {
    CallsAreKept(s, s.Note(a));
    forall j: nat
      ensures Booked(s.Note(a), j)
    {
      assert Booked(s, j);
    }
  }

  lemma PhaseKeeps(origin: Origin, s: State, phase: Phase)
    requires Base(origin, s) && s.current.Some?
    ensures Base(origin, s.At(phase))
    ensures CurrentLedger(s.At(phase)) == CurrentLedger(s)
  {
    CallsAreKept(s, s.At(phase));
    forall j: nat
      ensures Booked(s.At(phase), j)
    {
      assert Booked(s, j);
    }
  }

  /** Suspending the running dispatch in another phase, having noted `a`. */
  lemma SuspendKeeps(origin: Origin, s: State, phase: Phase, a: Action)
    requires Base(origin, s) && s.current.Some?
    requires Concerns(a, s.current.value.index) && !a.Received? && !a.Started? && !a.Finished?
    requires Lawful(origin, s.log, a)
    requires Suspended(Entry(CurrentLedger(s), s.log, a), s.current.value.(phase := phase))
    ensures Frames(origin, s.At(phase).Note(a))
  {
    PhaseKeeps(origin, s, phase);
    NoteKeeps(origin, s.At(phase), a);
  }

  lemma FinishKeepsQueue(s: State, verdict: Verdict)
    requires Queue(s) && s.current.Some? && s.current.value.index + 1 == s.started
    ensures Queue(Finish(s, verdict))
  {
  }

  lemma FinishKeeps(origin: Origin, s: State, verdict: Verdict)
    requires Base(origin, s) && s.current.Some?
    requires CurrentLedger(s).frame.Some?
    requires Accounted(CurrentLedger(s).(verdict := Some(verdict)))
    ensures Frames(origin, Finish(s, verdict))
  {
    var t := Finish(s, verdict);
    CallsAreKept(s, t);
    FinishKeepsQueue(s, verdict);
    forall j: nat
      ensures Booked(t, j)
    {
      assert Booked(s, j);
    }
  }

  /** The account of the running dispatch allows a rejection with this code. */
  ghost predicate Rejectable(s: State, code: FailureCode)
    requires s.current.Some?
  {
    var d, l := s.current.value, CurrentLedger(s);
    && l.frame == Some(d.frame) && l.admitted == d.admitted && l.verdict.None?
    && CodeFits(l, code)
    && l.acknowledged == 0 && l.reports == []
    && (if code.HandlerFailed? && !l.failed then d.frame.WantsReply() && l.replies == [None] else l.replies == [])
    && (l.bridged <==> s.bridgeId.Some?)
  }

  lemma RejectReplyKeeps(origin: Origin, s: State, code: FailureCode)
    requires Base(origin, s) && s.current.Some? && Rejectable(s, code)
    requires s.current.value.frame.kind.PortRequest? || s.bridgeId.None? || code.RouteGenerationChanged?
    ensures Frames(origin, RejectReply(s, code))
  {
    var d := s.current.value;
    if d.frame.WantsReply() && s.bridgeId.Some? {
      SuspendKeeps(origin, s, Rejecting(code), ReplyTried(d.index, Some(code)));
    } else {
      FinishKeeps(origin, s, Refused(code));
    }
  }

  lemma RejectKeeps(origin: Origin, s: State, code: FailureCode)
    requires Base(origin, s) && s.current.Some? && Rejectable(s, code)
    requires s.current.value.frame.kind.PortRequest? || s.bridgeId.Some? || code.RouteGenerationChanged?
    ensures Frames(origin, Reject(s, code))
  {
    var d := s.current.value;
    if !d.frame.kind.PortRequest? && s.bridgeId.Some? && code != RouteGenerationChanged {
      SuspendKeeps(origin, s, Reporting(code), ReportTried(d.index, code));
    } else {
      RejectReplyKeeps(origin, s, code);
    }
  }

  /** An admitted dispatch keeps the bridge open until it ends. */
  lemma AdmittedIsBridged(origin: Origin, s: State)
    requires Frames(origin, s) && s.current.Some? && s.current.value.admitted.Some?
    ensures s.bridgeId.Some? && CurrentLedger(s).bridged
  {
  }

  function Begun(s: State): State
    requires CanBegin(s)
  {
    var frame := s.received[s.started];
    var admitted := if Admits(s, frame) then Some(s.byActivation[frame.activationId]) else None;
    s.(started := s.started + 1, current := Some(Dispatch(s.started, frame, admitted, Observing)))
      .Note(Started(s.started, admitted))
  }

  lemma BegunIsBooked(origin: Origin, s: State)
    requires Frames(origin, s) && CanBegin(s)
    ensures Base(origin, Begun(s))
  {
    CallsAreKept(s, Begun(s));
    assert Booked(s, s.started);
    forall j: nat
      ensures Booked(Begun(s), j)
    {
      assert Booked(s, j);
    }
  }

  lemma BeginKeeps(origin: Origin, s: State)
    requires Frames(origin, s) && CanBegin(s)
    ensures Frames(origin, Begin(s))
  {
    BegunIsBooked(origin, s);
    assert Booked(s, s.started);
    if !Admits(s, s.received[s.started]) {
      RejectKeeps(origin, Begun(s), RouteGenerationChanged);
    }
  }

  lemma ObservedKeeps(origin: Origin, s: State)
    requires Frames(origin, s) && CanObserve(s)
    ensures Frames(origin, Observed(s))
  {
    AdmittedIsBridged(origin, s);
    var d := s.current.value;
    var handlers := HandlersOf(d);
    if handlers == [] {
      RejectKeeps(origin, s, HandlerUnavailable);
    } else if d.frame.kind.Broadcast? {
      PhaseKeeps(origin, s, Gathering(0, {}, false));
    } else {
      SuspendKeeps(origin, s, Running(0), Entered(d.index, handlers[0]));
    }
  }

  lemma NextHandlerKeeps(origin: Origin, s: State, left: State, next: nat)
    requires Base(origin, left) && s.current.Some? && s.current == left.current
    requires var d := s.current.value; d.phase.Running? && d.phase.next + 1 == next < |HandlersOf(d)|
    requires Suspended(CurrentLedger(s), s.current.value)
    requires CurrentLedger(left) == Entry(CurrentLedger(s), s.log, Left(s.current.value.index, next - 1, true))
    ensures var d := s.current.value;
            Frames(origin, left.At(Running(next)).Note(Entered(d.index, HandlersOf(d)[next])))
  {
    var d := s.current.value;
    var handlers := HandlersOf(d);
    assert handlers[..next + 1] == handlers[..next] + [handlers[next]];
    SuspendKeeps(origin, left, Running(next), Entered(d.index, handlers[next]));
  }

  lemma LastHandlerKeeps(origin: Origin, s: State, left: State)
    requires Base(origin, left) && s.current.Some? && s.current == left.current
    requires var d := s.current.value; d.phase.Running? && d.phase.next + 1 == |HandlersOf(d)|
    requires Suspended(CurrentLedger(s), s.current.value)
    requires var d := s.current.value;
             CurrentLedger(left) == Entry(CurrentLedger(s), s.log, Left(d.index, d.phase.next, true))
    ensures var d := s.current.value;
            Frames(origin, if d.frame.kind.PortRequest? then left.At(Replying).Note(ReplyTried(d.index, None))
                           else Finish(left, Accepted))
  {
    var d := s.current.value;
    if d.frame.kind.PortRequest? {
      SuspendKeeps(origin, left, Replying, ReplyTried(d.index, None));
    } else {
      FinishKeeps(origin, left, Accepted);
    }
  }

  lemma HandlerSucceededKeeps(origin: Origin, s: State)
    requires Frames(origin, s) && CanSettle(s)
    ensures Frames(origin, HandlerSettled(s, true))
  {
    var d := s.current.value;
    var next := d.phase.next + 1;
    var left := s.Note(Left(d.index, d.phase.next, true));
    NoteKeeps(origin, s, Left(d.index, d.phase.next, true));
    if next < |HandlersOf(d)| {
      NextHandlerKeeps(origin, s, left, next);
    } else {
      LastHandlerKeeps(origin, s, left);
    }
  }

  lemma HandlerFailedKeeps(origin: Origin, s: State)
    requires Frames(origin, s) && CanSettle(s)
    ensures Frames(origin, HandlerSettled(s, false))
  {
    var d := s.current.value;
    AdmittedIsBridged(origin, s);
    NoteKeeps(origin, s, Left(d.index, d.phase.next, false));
    RejectKeeps(origin, s.Note(Left(d.index, d.phase.next, false)), HandlerFailed);
  }

  lemma SubscriberEnteredKeeps(origin: Origin, s: State)
    requires Frames(origin, s) && CanEnter(s)
    ensures Frames(origin, SubscriberEntered(s))
  {
    var d := s.current.value;
    var handlers, n := HandlersOf(d), d.phase.entered;
    assert handlers[..n + 1] == handlers[..n] + [handlers[n]];
    SuspendKeeps(origin, s, d.phase.(entered := n + 1), Entered(d.index, handlers[n]));
  }

  lemma SubscriberSettledKeeps(origin: Origin, s: State, j: nat, ok: bool)
    requires Frames(origin, s) && CanSettleSubscriber(s, j)
    ensures Frames(origin, SubscriberSettled(s, j, ok))
  {
    var p := s.current.value.phase;
    SuspendKeeps(origin, s, p.(settled := p.settled + {j}, failed := p.failed || !ok),
                 Left(s.current.value.index, j, ok));
  }

  lemma GatheredKeeps(origin: Origin, s: State)
    requires Frames(origin, s) && CanGather(s)
    ensures Frames(origin, Gathered(s))
  {
    AdmittedIsBridged(origin, s);
    var d := s.current.value;
    assert |HandlersOf(d)| - 1 in d.phase.settled;
    if d.phase.failed {
      RejectKeeps(origin, s, HandlerFailed);
    } else {
      FinishKeeps(origin, s, Accepted);
    }
  }

  lemma ReportedKeeps(origin: Origin, s: State)
    requires Frames(origin, s) && CanReport(s)
    ensures Frames(origin, Reported(s))
  {
    FinishKeeps(origin, s, Refused(s.current.value.phase.code));
  }

  lemma ReplySettledKeeps(origin: Origin, s: State, ok: bool)
    requires Frames(origin, s) && CanReply(s)
    ensures Frames(origin, ReplySettled(s, ok))
  {
    var d := s.current.value;
    if ok {
      NoteKeeps(origin, s, ReplyAcknowledged(d.index));
      FinishKeeps(origin, s.Note(ReplyAcknowledged(d.index)),
                  if d.phase.Rejecting? then Refused(d.phase.code) else Accepted);
    } else if d.phase.Rejecting? {
      FinishKeeps(origin, s, Refused(d.phase.code));
    } else {
      AdmittedIsBridged(origin, s);
      RejectKeeps(origin, s, HandlerFailed);
    }
  }

  // ----- everything else leaves the running dispatch where it is -----

  predicate AboutNoFrame(a: Action) {
    || a.Deactivated? || a.ReconcileAsked? || a.ReconcileSent? || a.Installed?
    || a.CloseCalled? || a.NativeClosed?
  }

  lemma QueueIsKept(s: State, t: State)
    requires Queue(s) && t.started == s.started && t.current == s.current
    requires t.log == s.log || (t.log.Then? && t.log.past == s.log && AboutNoFrame(t.log.action))
    ensures Queue(t)
  {
  }

  /** A transition that keeps every account, whether or not it notes an action about no frame. */
  lemma ElsewhereKeeps(origin: Origin, s: State, t: State)
    requires Frames(origin, s) && Fields(origin, t) && Calls(t) && LawfulLog(origin, t.log)
    requires t.received == s.received && t.started == s.started && t.current == s.current
    requires t.log == s.log || (t.log.Then? && t.log.past == s.log && AboutNoFrame(t.log.action))
    requires t.closed == s.closed && t.closeTicket == s.closeTicket
    ensures Frames(origin, t)
  {
    QueueIsKept(s, t);
    forall j: nat
      ensures Booked(t, j)
    {
      assert Booked(s, j);
    }
  }

  lemma CallReconcileKeeps(origin: Origin, s: State, prepared: seq<Activation>)
    requires Frames(origin, s) && CanReconcile(s)
    ensures Frames(origin, CallReconcile(s, prepared))
  {
    var t := CallReconcile(s, prepared);
    assert Called(s, |s.reconciles|);
    forall i: nat | LedgerOf(s.log, i).frame.Some?
      ensures i < |s.received|
    {
      assert Booked(s, i);
    }
    forall k: nat
      ensures Called(t, k)
    {
      assert Called(s, k);
    }
    ElsewhereKeeps(origin, s, t);
  }

  /** The frames that `reconcile` waits for include every frame received before its call. */
  lemma SettledByTicket(origin: Origin, s: State, past: Log, ticket: nat)
    requires Base(origin, s) && ticket <= s.Settled()
    requires forall i: nat | LedgerOf(past, i).frame.Some? :: i < ticket
    ensures Settled(past, s.log)
  {
    forall i: nat | LedgerOf(past, i).frame.Some?
      ensures LedgerOf(s.log, i).verdict.Some?
    {
      assert Booked(s, i);
    }
  }

  lemma SendReconcileKeeps(origin: Origin, s: State, k: nat)
    requires Frames(origin, s) && CanSend(s, k)
    ensures Frames(origin, SendReconcile(s, k))
  {
    var t := SendReconcile(s, k);
    assert Called(s, k);
    SettledByTicket(origin, s, AskingOf(s.log, k).value.past, s.reconciles[k].stage.ticket);
    forall j: nat
      ensures Called(t, j)
    {
      assert Called(s, j);
    }
    ElsewhereKeeps(origin, s, t);
  }

  lemma AnswerKeeps(origin: Origin, s: State, k: nat, answer: Option<nat>)
    requires Frames(origin, s) && CanAnswer(s, k, answer)
    ensures Frames(origin, NativeAnswers(s, k, answer))
  {
    var t := NativeAnswers(s, k, answer);
    forall j: nat
      ensures Called(t, j)
    {
      assert Called(s, j);
    }
    ElsewhereKeeps(origin, s, t);
  }

  lemma ReceiveKeeps(origin: Origin, s: State, frame: Frame)
    requires Frames(origin, s)
    ensures Frames(origin, Receive(s, frame))
  {
    var t := Receive(s, frame);
    CallsAreKept(s, t);
    assert Booked(s, |s.received|);
    forall i: nat
      ensures Booked(t, i)
    {
      assert Booked(s, i);
    }
  }

  lemma CallCloseKeeps(origin: Origin, s: State)
    requires Frames(origin, s)
    ensures Frames(origin, CallClose(s))
  {
    if s.closeTicket.None? {
      var t := CallClose(s);
      CallsAreKept(s, t);
      forall j: nat
        ensures Booked(t, j)
      {
        assert Booked(s, j);
      }
    }
  }

  lemma CloseNativeKeeps(origin: Origin, s: State)
    requires Frames(origin, s) && CanCloseNative(s)
    ensures Frames(origin, CloseNative(s))
  {
    forall j: nat | LedgerOf(s.log, j).inTime
      ensures LedgerOf(s.log, j).verdict.Some?
    {
      assert Booked(s, j);
    }
    CallsAreKept(s, CloseNative(s));
    ElsewhereKeeps(origin, s, CloseNative(s));
  }

  lemma DeactivateKeeps(origin: Origin, s: State, id: string)
    requires Frames(origin, s)
    ensures Frames(origin, Deactivate(s, id))
  {
    CallsAreKept(s, Deactivate(s, id));
    ElsewhereKeeps(origin, s, Deactivate(s, id));
  }

  lemma ReturnKeepsCalls(s: State, k: nat)
    requires Calls(s) && CanReturn(s, k)
    ensures Calls(ReconcileReturns(s, k))
  {
    forall j: nat
      ensures Called(ReconcileReturns(s, k), j)
    {
      assert Called(s, j);
    }
  }

  lemma InstallIsLawful(origin: Origin, s: State, k: nat)
    requires Base(origin, s) && Generations(s) && CanReturn(s, k) && s.reconciles[k].stage.answer.Some?
    ensures var call := s.reconciles[k];
            Lawful(origin, s.log, Installed(k, call.stage.expected, call.stage.answer.value, call.prepared))
  {
    assert Called(s, k) && Pending(s.reconciles[k]);
  }

  lemma ReturnKeepsFields(origin: Origin, s: State, k: nat)
    requires Fields(origin, s) && CanReturn(s, k)
    ensures Fields(origin, ReconcileReturns(s, k))
  {
  }

  lemma ReconcileKeeps(origin: Origin, s: State, k: nat)
    requires Inv(origin, s) && CanReturn(s, k)
    ensures Frames(origin, ReconcileReturns(s, k))
  {
    if s.reconciles[k].stage.answer.Some? {
      InstallIsLawful(origin, s, k);
    }
    ReturnKeepsFields(origin, s, k);
    ReturnKeepsCalls(s, k);
    ElsewhereKeeps(origin, s, ReconcileReturns(s, k));
  }

  // ----- the reconcile calls -----

  predicate IsCall(e: Event) {
    || e.ReconcileCalled? || e.ReconcileSends? || e.NativeDecides? || e.NativeMovesOn?
    || e.ReconcileResumes? || e.ActivationDisposed? || e.CloseIsCalled? || e.NativeCloseIsSent?
  }

  lemma OnlyArrivalsAreReceived(s: State, e: Event)
    ensures Apply(s, e).received == s.received + if e.FrameArrives? then [e.frame] else []
  {
    if !e.FrameArrives? {
      assert Apply(s, e).received == s.received;
    }
  }

  lemma DispatchLeavesCalls(s: State, e: Event)
    requires !IsCall(e)
    ensures var t := Apply(s, e); t.reconciles == s.reconciles && t.minimum == s.minimum && t.native == s.native
  {
  }

  lemma CallReconcileKeepsGenerations(s: State, prepared: seq<Activation>)
    requires Generations(s) && CanReconcile(s)
    ensures Generations(CallReconcile(s, prepared))
  {
  }

  lemma SendKeepsGenerations(s: State, k: nat)
    requires Generations(s) && CanSend(s, k)
    ensures Generations(SendReconcile(s, k))
  {
  }

  lemma AnswerKeepsGenerations(s: State, k: nat, answer: Option<nat>)
    requires Generations(s) && CanAnswer(s, k, answer)
    ensures Generations(NativeAnswers(s, k, answer))
  {
  }

  lemma ReturnKeepsGenerations(s: State, k: nat)
    requires Generations(s) && CanReturn(s, k)
    ensures Generations(ReconcileReturns(s, k))
  {
    assert Pending(s.reconciles[k]) <==> s.reconciles[k].stage.answer.Some?;
  }

  lemma CallKeepsGenerations(s: State, e: Event)
    requires Generations(s) && IsCall(e)
    ensures Generations(Apply(s, e))
  {
    match e
    case ReconcileCalled(prepared) => if CanReconcile(s) { CallReconcileKeepsGenerations(s, prepared); }
    case ReconcileSends(k) => if CanSend(s, k) { SendKeepsGenerations(s, k); }
    case NativeDecides(k, answer) => if CanAnswer(s, k, answer) { AnswerKeepsGenerations(s, k, answer); }
    case ReconcileResumes(k) => if CanReturn(s, k) { ReturnKeepsGenerations(s, k); }
    case _ =>
  }

  lemma DispatchKeeps(origin: Origin, s: State, e: Event)
    requires Frames(origin, s)
    requires !IsCall(e)
    ensures Frames(origin, Apply(s, e))
  {
    match e
    case FrameArrives(frame) => ReceiveKeeps(origin, s, frame);
    case DispatchBegins => if CanBegin(s) { BeginKeeps(origin, s); }
    case ObserverSettles => if CanObserve(s) { ObservedKeeps(origin, s); }
    case HandlerSettles(ok) =>
      if CanSettle(s) {
        if ok { HandlerSucceededKeeps(origin, s); } else { HandlerFailedKeeps(origin, s); }
      }
    case SubscriberEnters => if CanEnter(s) { SubscriberEnteredKeeps(origin, s); }
    case SubscriberSettles(j, ok) => if CanSettleSubscriber(s, j) { SubscriberSettledKeeps(origin, s, j, ok); }
    case BroadcastGathers => if CanGather(s) { GatheredKeeps(origin, s); }
    case ReportSettles => if CanReport(s) { ReportedKeeps(origin, s); }
    case ReplySettles(ok) => if CanReply(s) { ReplySettledKeeps(origin, s, ok); }
  }

  lemma ReconcileCallKeeps(origin: Origin, s: State, e: Event)
    requires Inv(origin, s)
    requires e.ReconcileCalled? || e.ReconcileSends? || e.NativeDecides? || e.ReconcileResumes?
    ensures Frames(origin, Apply(s, e))
  {
    match e
    case ReconcileCalled(prepared) => if CanReconcile(s) { CallReconcileKeeps(origin, s, prepared); }
    case ReconcileSends(k) => if CanSend(s, k) { SendReconcileKeeps(origin, s, k); }
    case NativeDecides(k, answer) => if CanAnswer(s, k, answer) { AnswerKeeps(origin, s, k, answer); }
    case ReconcileResumes(k) => if CanReturn(s, k) { ReconcileKeeps(origin, s, k); }
  }

  lemma AdvanceKeeps(origin: Origin, s: State, generation: nat)
    requires Frames(origin, s) && s.native < generation
    ensures Frames(origin, NativeAdvances(s, generation))
  {
    CallsAreKept(s, NativeAdvances(s, generation));
    ElsewhereKeeps(origin, s, NativeAdvances(s, generation));
  }

  lemma CallKeeps(origin: Origin, s: State, e: Event)
    requires Inv(origin, s)
    requires IsCall(e)
    ensures Frames(origin, Apply(s, e))
  {
    match e
    case ActivationDisposed(id) => DeactivateKeeps(origin, s, id);
    case CloseIsCalled => CallCloseKeeps(origin, s);
    case NativeCloseIsSent => if CanCloseNative(s) { CloseNativeKeeps(origin, s); }
    case NativeMovesOn(generation) => if s.native < generation { AdvanceKeeps(origin, s, generation); }
    case _ => ReconcileCallKeeps(origin, s, e);
  }

  lemma ApplyKeeps(origin: Origin, s: State, e: Event)
    requires Inv(origin, s)
    ensures Inv(origin, Apply(s, e))
  {
    if IsCall(e) {
      CallKeeps(origin, s, e);
      CallKeepsGenerations(s, e);
    } else {
      DispatchLeavesCalls(s, e);
      DispatchKeeps(origin, s, e);
    }
  }

  lemma {:induction false} RunKeeps(origin: Origin, events: seq<Event>)
    ensures Inv(origin, Run(origin, events))
  {
    if events != [] {
      RunKeeps(origin, events[..|events| - 1]);
      ApplyKeeps(origin, Run(origin, events[..|events| - 1]), events[|events| - 1]);
    }
  }
}
