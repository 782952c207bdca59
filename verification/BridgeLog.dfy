/** What a log says: the handler table and generation fence in force, the turns taken by
    the dispatch queue, and the account of each frame. Nothing here looks at the bridge's
    fields, so the properties stated with these functions are about what can be observed. */
module BridgeLog {
  import opened Wrappers
  import opened BridgeProtocol

  predicate Mentions(log: Log, action: Action) {
    log.Then? && (log.action == action || Mentions(log.past, action))
  }

  /** The last installed activation set, minus the activations deactivated after it. */
  function Table(origin: Origin, log: Log): map<string, Activation> {
    match log
    case Nothing => TableOf(origin.activations)
    case Then(_, Installed(_, _, _, prepared)) => TableOf(prepared)
    case Then(past, Deactivated(id)) => Table(origin, past) - {id}
    case Then(past, _) => Table(origin, past)
  }

  /** The generation of the last installed activation set. */
  function Fence(origin: Origin, log: Log): nat {
    match log
    case Nothing => origin.generation
    case Then(_, Installed(_, _, generation, _)) => generation
    case Then(past, _) => Fence(origin, past)
  }

  /** The starts and finishes of dispatches, in order. */
  function Turns(log: Log): seq<Action> {
    match log
    case Nothing => []
    case Then(past, action) => Turns(past) + if action.Started? || action.Finished? then [action] else []
  }

  /** Turn 2i starts frame i and turn 2i + 1 finishes it. */
  predicate InTurn(turns: seq<Action>) {
    forall k | 0 <= k < |turns| ::
      if k % 2 == 0 then turns[k].Started? && turns[k].index == k / 2
      else turns[k].Finished? && turns[k].index == k / 2
  }

  /** The account of one frame. */
  datatype Ledger = Ledger(
    frame: Option<Frame>,
    inTime: bool,               // received before close() was called
    bridged: bool,              // its dispatch began before the native close
    admitted: Option<Activation>,
    entered: seq<Handler>,
    left: set<nat>,             // positions of the handlers that have settled
    failed: bool,               // some handler failed
    replies: seq<Option<FailureCode>>,
    acknowledged: nat,
    reports: seq<FailureCode>,
    verdict: Option<Verdict>)
  {
    function Handlers(): seq<Handler> {
      if frame.Some? && admitted.Some? then Subscribers(frame.value, admitted.value) else []
    }
  }

  const BLANK := Ledger(None, false, false, None, [], {}, false, [], 0, [], None)

  function Entry(l: Ledger, past: Log, action: Action): Ledger {
    match action
    case Received(_, frame) => l.(frame := Some(frame), inTime := !Mentions(past, CloseCalled))
    case Started(_, admitted) => l.(admitted := admitted, bridged := !Mentions(past, NativeClosed))
    case Entered(_, handler) => l.(entered := l.entered + [handler])
    case Left(_, position, ok) => l.(left := l.left + {position}, failed := l.failed || !ok)
    case ReplyTried(_, error) => l.(replies := l.replies + [error])
    case ReplyAcknowledged(_) => l.(acknowledged := l.acknowledged + 1)
    case ReportTried(_, code) => l.(reports := l.reports + [code])
    case Finished(_, verdict) => l.(verdict := Some(verdict))
    case _ => l
  }

  predicate Concerns(action: Action, i: nat) {
    match action
    case Received(j, _) => i == j
    case Started(j, _) => i == j
    case Entered(j, _) => i == j
    case Left(j, _, _) => i == j
    case ReplyTried(j, _) => i == j
    case ReplyAcknowledged(j) => i == j
    case ReportTried(j, _) => i == j
    case Finished(j, _) => i == j
    case _ => false
  }

  function LedgerOf(log: Log, i: nat): Ledger {
    match log
    case Nothing => BLANK
    case Then(past, action) =>
      if Concerns(action, i) then Entry(LedgerOf(past, i), past, action) else LedgerOf(past, i)
  }

  /** A call of `reconcile`: what had happened before it, and what it asked for. */
  datatype Asking = Asking(past: Log, prepared: seq<Activation>)

  function AskingOf(log: Log, call: nat): Option<Asking> {
    match log
    case Nothing => None
    case Then(past, ReconcileAsked(j, prepared)) =>
      if j == call then Some(Asking(past, prepared)) else AskingOf(past, call)
    case Then(past, _) => AskingOf(past, call)
  }

  /** Every frame received by the time of `past` has its verdict in `log`. */
  ghost predicate Settled(past: Log, log: Log) {
    forall i: nat | LedgerOf(past, i).frame.Some? :: LedgerOf(log, i).verdict.Some?
  }

  /** Who a frame is delivered to, given everything that happened before its dispatch began. */
  function Admission(origin: Origin, past: Log, frame: Frame): Option<Activation> {
    if && !Mentions(past, CloseCalled)
       && frame.bridgeId == origin.bridgeId
       && Fence(origin, past) <= frame.routeGeneration
       && frame.activationId in Table(origin, past)
    then Some(Table(origin, past)[frame.activationId]) else None
  }

  /** What may be said of an action in the light of everything before it. */
  ghost predicate Lawful(origin: Origin, past: Log, action: Action) {
    match action
    case Received(i, _) => LedgerOf(past, i) == BLANK
    case Started(i, admitted) =>
      && LedgerOf(past, i).frame.Some?
      && admitted == Admission(origin, past, LedgerOf(past, i).frame.value)
    case Entered(i, _) =>
      // Handlers that run one after the other: those before this one have succeeded.
      var l := LedgerOf(past, i);
      && l.frame.Some? && l.admitted.Some? && l.verdict.None?
      && (!l.frame.value.kind.Broadcast? ==> !l.failed && forall j | 0 <= j < |l.entered| :: j in l.left)
    case ReconcileAsked(call, _) => AskingOf(past, call).None? && !Mentions(past, CloseCalled)
    case ReconcileSent(call, expected) =>
      && AskingOf(past, call).Some?
      && expected == Fence(origin, past)
      && Settled(AskingOf(past, call).value.past, past)
    case Installed(call, expected, generation, prepared) =>
      && AskingOf(past, call).Some?
      && prepared == AskingOf(past, call).value.prepared
      && Mentions(past, ReconcileSent(call, expected))
      && expected == Fence(origin, past) < generation
    case CloseCalled => !Mentions(past, CloseCalled)
    case NativeClosed =>
      && !Mentions(past, NativeClosed)
      && Mentions(past, CloseCalled)
      && forall i: nat | LedgerOf(past, i).inTime :: LedgerOf(past, i).verdict.Some?
    case _ => true
  }

  ghost predicate LawfulLog(origin: Origin, log: Log) {
    log.Then? ==> LawfulLog(origin, log.past) && Lawful(origin, log.past, log.action)
  }

  /** The complete account of a frame whose dispatch has finished. */
  ghost predicate Accounted(l: Ledger)
    requires l.frame.Some? && l.verdict.Some?
  {
    var frame, verdict := l.frame.value, l.verdict.value;
    // Which handlers ran: a prefix of those subscribed when the dispatch began, cut short
    // only by a failure and never for a broadcast. All of them have settled.
    && l.entered <= l.Handlers()
    && (l.entered != l.Handlers() ==> l.failed && !frame.kind.Broadcast?)
    && (forall j :: j in l.left <==> 0 <= j < |l.entered|)
    // The verdict.
    && (verdict == Refused(RouteGenerationChanged) <==> l.admitted.None?)
    && (verdict == Refused(HandlerUnavailable) <==> l.admitted.Some? && l.Handlers() == [])
    && (verdict == Refused(HandlerFailed) <==> l.failed || |l.replies| == 2)
    // Replies: some reply is tried exactly when the dispatch began on an open native bridge,
    // an error reply after a response only if that response failed, and at most one reply
    // is acknowledged.
    && (if !frame.kind.PortRequest? || frame.correlationId.None? then l.replies == [] && l.acknowledged == 0
        else && l.acknowledged <= 1
             && match verdict
                case Accepted => l.replies == [None] && l.acknowledged == 1
                case Refused(code) =>
                  if !l.bridged then l.replies == []
                  else l.replies == [Some(code)] || (l.replies == [None, Some(code)] && !l.failed))
    // Failure reports: exactly the failures of admitted frames nobody is waiting for.
    && l.reports == (if !frame.kind.PortRequest? && verdict.Refused? && l.admitted.Some? then [verdict.code] else [])
  }
}
