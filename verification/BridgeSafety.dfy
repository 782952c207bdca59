/** What holds of every run of the message bridge, stated on the log of the run. */
module BridgeSafety {
  import opened Wrappers
  import opened BridgeProtocol
  import opened BridgeLog
  import opened BridgeInvariant

  /** `past` is an earlier state of `log`. */
  ghost predicate Prefix(past: Log, log: Log) {
    past == log || (log.Then? && Prefix(past, log.past))
  }

  lemma {:induction false} LawHolds(origin: Origin, log: Log, past: Log, action: Action)
    requires LawfulLog(origin, log) && Prefix(Then(past, action), log)
    ensures Lawful(origin, past, action)
  {
    if log != Then(past, action) {
      LawHolds(origin, log.past, past, action);
    }
  }

  lemma {:induction false} TurnsGrow(past: Log, log: Log)
    requires Prefix(past, log)
    ensures Turns(past) <= Turns(log)
  {
    if past != log {
      TurnsGrow(past, log.past);
    }
  }

  /** A frame's dispatch begins once, so its account keeps what was decided then. */
  lemma {:induction false} StartedOnce(log: Log, past: Log, i: nat, admitted: Option<Activation>)
    requires InTurn(Turns(log)) && Prefix(Then(past, Started(i, admitted)), log)
    ensures LedgerOf(log, i).admitted == admitted
  {
    if log != Then(past, Started(i, admitted)) {
      TurnsGrow(Then(past, Started(i, admitted)), log.past);
      var before, after := Turns(past), Turns(log.past);
      assert Turns(Then(past, Started(i, admitted))) == before + [Started(i, admitted)];
      assert after[|before|] == Started(i, admitted) && Turns(log)[|before|] == after[|before|];
      assert |before| == 2 * i;
      if log.action.Started? {
        assert Turns(log)[|after|] == log.action;
      }
      assert forall k | 0 <= k < |after| :: Turns(log)[k] == after[k];
      StartedOnce(log.past, past, i, admitted);
    }
  }

  /** A frame is received before its dispatch begins and never replaced. */
  lemma {:induction false} FrameIsFixed(origin: Origin, log: Log, past: Log, i: nat, admitted: Option<Activation>)
    requires Prefix(Then(past, Started(i, admitted)), log)
    requires LawfulLog(origin, log)
    requires LedgerOf(past, i).frame.Some?
    ensures LedgerOf(log, i).frame == LedgerOf(past, i).frame
  {
    if log != Then(past, Started(i, admitted)) {
      FrameIsFixed(origin, log.past, past, i, admitted);
    }
  }

  lemma {:induction false} ReceivedAreArrivals(origin: Origin, events: seq<Event>)
    ensures Run(origin, events).received == Arrivals(events)
  {
    if events != [] {
      ReceivedAreArrivals(origin, events[..|events| - 1]);
      OnlyArrivalsAreReceived(Run(origin, events[..|events| - 1]), events[|events| - 1]);
    }
  }

  // ----- the queue -----

  /** Frames are dispatched one at a time in the order in which they arrived: turn 2k of any
      run starts the dispatch of the k-th frame received and turn 2k + 1 finishes it. */
  lemma OneAtATimeInArrivalOrder(origin: Origin, events: seq<Event>)
    ensures var log, frames := Run(origin, events).log, Arrivals(events);
            && InTurn(Turns(log))
            && |Turns(log)| <= 2 * |frames|
            && (forall i: nat :: LedgerOf(log, i).frame == if i < |frames| then Some(frames[i]) else None)
  {
    var s := Run(origin, events);
    RunKeeps(origin, events);
    ReceivedAreArrivals(origin, events);
    forall i: nat
      ensures LedgerOf(s.log, i).frame == if i < |s.received| then Some(s.received[i]) else None
    {
      assert Booked(s, i);
    }
  }

  /** Every frame whose dispatch has finished has a complete and consistent account. */
  lemma FinishedFramesAreAccounted(origin: Origin, events: seq<Event>, i: nat)
    requires LedgerOf(Run(origin, events).log, i).verdict.Some?
    ensures var l := LedgerOf(Run(origin, events).log, i); l.frame.Some? && Accounted(l)
  {
    RunKeeps(origin, events);
    assert Booked(Run(origin, events), i);
  }

  /** A correlated port request received before close() was called gets at least one reply
      attempt and at most one acknowledged reply by the time its dispatch is over, whatever
      its handler and the transport do. */
  lemma PortRequestsAreAnswered(origin: Origin, events: seq<Event>, i: nat)
    requires var l := LedgerOf(Run(origin, events).log, i);
             && l.verdict.Some? && l.inTime && l.frame.Some?
             && l.frame.value.kind.PortRequest? && l.frame.value.correlationId.Some?
    ensures var l := LedgerOf(Run(origin, events).log, i); 1 <= |l.replies| <= 2 && l.acknowledged <= 1
  {
    RunKeeps(origin, events);
    assert Booked(Run(origin, events), i);
  }

  // ----- admission -----

  /** The decision taken when a dispatch begins is the one that the installs, deactivations
      and close() before it call for, and only an admitted frame ever reaches a handler. */
  lemma AdmissionFollowsTheLog(origin: Origin, events: seq<Event>, past: Log, i: nat, admitted: Option<Activation>)
    requires Prefix(Then(past, Started(i, admitted)), Run(origin, events).log)
    ensures var l := LedgerOf(Run(origin, events).log, i);
            && l.frame.Some? && l.admitted == admitted == Admission(origin, past, l.frame.value)
            && l.entered <= l.Handlers()
            && (l.entered != [] ==> && admitted.Some?
                                    && !Mentions(past, CloseCalled)
                                    && Fence(origin, past) <= l.frame.value.routeGeneration)
  {
    var s := Run(origin, events);
    RunKeeps(origin, events);
    StartedOnce(s.log, past, i, admitted);
    LawHolds(origin, s.log, past, Started(i, admitted));
    FrameIsFixed(origin, s.log, past, i, admitted);
    assert Booked(s, i);
  }

  /** A frame whose dispatch begins after close() was called enters no handler. */
  lemma NothingEntersAfterClose(origin: Origin, events: seq<Event>, past: Log, i: nat, admitted: Option<Activation>)
    requires Prefix(Then(past, Started(i, admitted)), Run(origin, events).log)
    requires Mentions(past, CloseCalled)
    ensures LedgerOf(Run(origin, events).log, i).entered == []
  {
    AdmissionFollowsTheLog(origin, events, past, i, admitted);
  }

  // ----- close -----

  /** The native bridge is closed at most once, after close() was called, and only when every
      frame received before that call has been dispatched to its end. */
  lemma NativeCloseWaits(origin: Origin, events: seq<Event>, past: Log)
    requires Prefix(Then(past, NativeClosed), Run(origin, events).log)
    ensures !Mentions(past, NativeClosed) && Mentions(past, CloseCalled)
    ensures forall i: nat | LedgerOf(past, i).inTime :: LedgerOf(past, i).verdict.Some?
  {
    RunKeeps(origin, events);
    LawHolds(origin, Run(origin, events).log, past, NativeClosed);
  }

  // ----- reconcile -----

  /** A reconcile is sent only when every frame received before its call has been dispatched
      to its end, and it names the generation then in force. */
  lemma ReconcilesWait(origin: Origin, events: seq<Event>, past: Log, call: nat, expected: nat)
    requires Prefix(Then(past, ReconcileSent(call, expected)), Run(origin, events).log)
    ensures AskingOf(past, call).Some? && expected == Fence(origin, past)
    ensures forall i: nat | LedgerOf(AskingOf(past, call).value.past, i).frame.Some? ::
              LedgerOf(past, i).verdict.Some?
  {
    RunKeeps(origin, events);
    LawHolds(origin, Run(origin, events).log, past, ReconcileSent(call, expected));
  }

  /** What is installed is what its call asked for, under the generation it was sent with. */
  lemma InstallsWereAsked(origin: Origin, events: seq<Event>, past: Log, call: nat, expected: nat,
                          generation: nat, prepared: seq<Activation>)
    requires Prefix(Then(past, Installed(call, expected, generation, prepared)), Run(origin, events).log)
    ensures AskingOf(past, call).Some? && prepared == AskingOf(past, call).value.prepared
    ensures Mentions(past, ReconcileSent(call, expected)) && expected == Fence(origin, past) < generation
  {
    RunKeeps(origin, events);
    LawHolds(origin, Run(origin, events).log, past, Installed(call, expected, generation, prepared));
  }

  // ----- generations -----

  /** The accepted reconciles of a run, as pairs of expected and published generation. */
  function Installs(log: Log): seq<(nat, nat)> {
    match log
    case Nothing => []
    case Then(past, Installed(_, expected, generation, _)) => Installs(past) + [(expected, generation)]
    case Then(past, _) => Installs(past)
  }

  /** Every install was issued at exactly the generation published by the one before. */
  ghost predicate Chain(first: nat, all: seq<(nat, nat)>) {
    forall k | 0 <= k < |all| :: (if k == 0 then first else all[k - 1].1) == all[k].0 < all[k].1
  }

  function Newest(first: nat, all: seq<(nat, nat)>): nat {
    if all == [] then first else all[|all| - 1].1
  }

  lemma {:induction false} InstallsChain(origin: Origin, log: Log)
    requires LawfulLog(origin, log)
    ensures Chain(origin.generation, Installs(log))
    ensures Fence(origin, log) == Newest(origin.generation, Installs(log))
  {
    if log.Then? {
      InstallsChain(origin, log.past);
      if log.action.Installed? {
        var before := Installs(log.past);
        var all := Installs(log);
        assert all == before + [(log.action.expected, log.action.generation)];
        assert forall k | 0 <= k < |before| :: all[k] == before[k];
      } else {
        assert Installs(log) == Installs(log.past);
      }
    }
  }

  lemma {:induction false} ChainIncreases(first: nat, all: seq<(nat, nat)>, j: nat, k: nat)
    requires Chain(first, all)
    requires j < k < |all|
    ensures all[j].0 < all[j].1 <= all[k].0 < all[k].1
    decreases k
  {
    assert all[k - 1].1 == all[k].0;
    if j < k - 1 {
      ChainIncreases(first, all, j, k - 1);
    }
  }

  /** However reconciles overlap, the accepted ones form a chain, each issued at exactly the
      generation published by the one before it. So the published generations strictly
      increase and at most one reconcile issued at a given generation is installed. */
  lemma ReconcilesFormAChain(origin: Origin, events: seq<Event>)
    ensures var all := Installs(Run(origin, events).log);
            && Chain(origin.generation, all)
            && (forall j, k | 0 <= j < k < |all| :: all[j].0 < all[k].0 && all[j].1 < all[k].1)
  {
    RunKeeps(origin, events);
    var log := Run(origin, events).log;
    InstallsChain(origin, log);
    forall j, k | 0 <= j < k < |Installs(log)|
      ensures Installs(log)[j].0 < Installs(log)[k].0 && Installs(log)[j].1 < Installs(log)[k].1
    {
      ChainIncreases(origin.generation, Installs(log), j, k);
    }
  }

  /** The fence in force is the newest published generation, never ahead of the native one,
      and the live table is the last accepted set minus the activations deactivated since. */
  lemma FieldsFollowTheLog(origin: Origin, events: seq<Event>)
    ensures var s := Run(origin, events);
            && s.minimum == Newest(origin.generation, Installs(s.log)) <= s.native
            && s.byActivation == Table(origin, s.log)
  {
    RunKeeps(origin, events);
    InstallsChain(origin, Run(origin, events).log);
  }

  // ----- progress -----

  predicate Moves(s: State, e: Event) {
    Apply(s, e).log != s.log || Apply(s, e).current != s.current
  }

  /** Nor does anything that waits for the queue: once it is idle, every waiting reconcile can be
      sent, and a bridge whose close() was called can be closed. */
  lemma IdleQueueReleases(origin: Origin, events: seq<Event>)
    requires var s := Run(origin, events); s.current.None? && s.started == |s.received|
    ensures var s := Run(origin, events);
            forall k: nat | k < |s.reconciles| && s.reconciles[k].stage.Waiting? ::
              && |Apply(s, ReconcileSends(k)).reconciles| == |s.reconciles|
              && Apply(s, ReconcileSends(k)).reconciles[k].stage == Sent(s.minimum)
    ensures var s := Run(origin, events);
            s.closed && s.bridgeId.Some? ==> Apply(s, NativeCloseIsSent).bridgeId == None
  {
    RunKeeps(origin, events);
    var s := Run(origin, events);
    forall k: nat | k < |s.reconciles| && s.reconciles[k].stage.Waiting?
      ensures CanSend(s, k)
    {
      assert Called(s, k);
    }
  }

  lemma NextGathering(s: State) returns (e: Event)
    requires s.current.Some? && s.current.value.phase.Gathering?
    requires Suspended(CurrentLedger(s), s.current.value)
    ensures !e.FrameArrives? && !IsCall(e) && Moves(s, e)
  {
    var p := s.current.value.phase;
    if p.entered < |HandlersOf(s.current.value)| {
      e := SubscriberEnters;
    } else if CanGather(s) {
      e := BroadcastGathers;
    } else {
      var j: nat :| j < p.entered && j !in p.settled;
      e := SubscriberSettles(j, true);
      assert j in SubscriberSettled(s, j, true).current.value.phase.settled;
    }
  }

  lemma NextSettlement(s: State) returns (e: Event)
    requires s.current.Some? && Suspended(CurrentLedger(s), s.current.value)
    ensures !e.FrameArrives? && !IsCall(e) && Moves(s, e)
  {
    match s.current.value.phase
    case Observing => e := ObserverSettles;
    case Running(_) => e := HandlerSettles(true);
    case Gathering(_, _, _) => e := NextGathering(s);
    case Reporting(_) => e := ReportSettles;
    case _ => e := ReplySettles(true);
  }

  /** The bridge never deadlocks: while a frame is queued or running, some settlement or the
      next start changes what has been done. */
  lemma NeverStuck(origin: Origin, events: seq<Event>) returns (e: Event)
    requires var s := Run(origin, events); s.current.Some? || s.started < |s.received|
    ensures !e.FrameArrives? && !IsCall(e) && Moves(Run(origin, events), e)
  {
    RunKeeps(origin, events);
    if Run(origin, events).current.Some? {
      e := NextSettlement(Run(origin, events));
    } else {
      e := DispatchBegins;
    }
  }
}
