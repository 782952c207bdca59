/** The runtime message bridge as a transition system. One transition is one
    uninterrupted stretch of the bridge's code between two `await`s; whatever the
    outside world decides (which handler settles, whether a reply was accepted, what
    the native bus answers) is a parameter of the transition. */
module BridgeProtocol {
  import opened Wrappers

  /** A handler is an opaque callback; only its identity matters here. */
  type Handler = nat

  datatype Kind = Directed | Broadcast | PortRequest

  datatype Frame = Frame(bridgeId: string, routeGeneration: nat, activationId: string,
                         kind: Kind, endpoint: string, correlationId: Option<string>)
  {
    /** Only a correlated port request has somebody waiting for a reply. */
    predicate WantsReply() {
      kind.PortRequest? && correlationId.Some?
    }
  }

  datatype Activation = Activation(activationId: string, directed: map<string, seq<Handler>>,
                                   broadcast: map<string, seq<Handler>>, ports: map<string, Handler>)

  datatype FailureCode = RouteGenerationChanged | HandlerUnavailable | HandlerFailed

  datatype Verdict = Accepted | Refused(code: FailureCode)

  /** Where the running dispatch is suspended. */
  datatype Phase =
    | Observing
    | Running(next: nat)                                        // handlers one after the other
    | Gathering(entered: nat, settled: set<nat>, failed: bool)  // broadcast subscribers together
    | Replying                                                  // the handler's own response
    | Reporting(code: FailureCode)
    | Rejecting(code: FailureCode)                              // an error reply

  datatype Dispatch = Dispatch(index: nat, frame: Frame, admitted: Option<Activation>, phase: Phase)

  /** One call of `reconcile`, from the moment it passed its opening check. */
  datatype Stage =
    | Waiting(ticket: nat)                          // for the first `ticket` frames to settle
    | Sent(expected: nat)
    | Answered(expected: nat, answer: Option<nat>)  // Some(generation) or a native refusal
    | Returned
  datatype Reconcile = Reconcile(prepared: seq<Activation>, stage: Stage)

  /** Everything an outside observer of the bridge can see happen. */
  datatype Action =
    | Received(index: nat, frame: Frame)
    | Started(index: nat, admitted: Option<Activation>)
    | Entered(index: nat, handler: Handler)
    | Left(index: nat, position: nat, ok: bool)          // the handler at `position` settled
    | ReplyTried(index: nat, error: Option<FailureCode>) // None for the handler's own response
    | ReplyAcknowledged(index: nat)
    | ReportTried(index: nat, code: FailureCode)
    | Finished(index: nat, verdict: Verdict)
    | Deactivated(activationId: string)
    | ReconcileAsked(call: nat, prepared: seq<Activation>)
    | ReconcileSent(call: nat, expected: nat)
    | Installed(call: nat, expected: nat, generation: nat, prepared: seq<Activation>)
    | CloseCalled
    | NativeClosed

  /** The actions so far, latest last. */
  datatype Log = Nothing | Then(past: Log, action: Action)

  datatype Origin = Origin(bridgeId: string, generation: nat, activations: seq<Activation>)

  /** The bridge's fields, its suspended calls, the native route generation and the log. */
  datatype State = State(
    bridgeId: Option<string>,
    byActivation: map<string, Activation>,
    minimum: nat,
    closed: bool,
    closeTicket: Option<nat>,   // how many frames the close promise waits for
    received: seq<Frame>,       // every frame chained on the dispatch queue so far
    started: nat,
    current: Option<Dispatch>,
    reconciles: seq<Reconcile>,
    native: nat,
    log: Log)
  {
    function Settled(): int {
      started - (if current.Some? then 1 else 0)
    }

    function Note(action: Action): State {
      this.(log := Then(log, action))
    }

    function At(phase: Phase): State
      requires current.Some?
    {
      this.(current := Some(current.value.(phase := phase)))
    }
  }

  /** `new Map(activations.map(...))`: a later activation replaces an earlier one. */
  function TableOf(activations: seq<Activation>): map<string, Activation> {
    if activations == [] then map[]
    else
      var last := activations[|activations| - 1];
      TableOf(activations[..|activations| - 1])[last.activationId := last]
  }

  /** The handlers an admitted activation offers for a frame, in registration order. */
  function Subscribers(frame: Frame, activation: Activation): seq<Handler> {
    match frame.kind
    case Directed =>
      if frame.endpoint in activation.directed then activation.directed[frame.endpoint] else []
    case Broadcast =>
      if frame.endpoint in activation.broadcast then activation.broadcast[frame.endpoint] else []
    case PortRequest =>
      if frame.endpoint in activation.ports && frame.correlationId.Some?
      then [activation.ports[frame.endpoint]] else []
  }

  function Opened(origin: Origin): State {
    State(Some(origin.bridgeId), TableOf(origin.activations), origin.generation, false, None,
          [], 0, None, [], origin.generation, Nothing)
  }

  // ----- frames -----

  function Receive(s: State, frame: Frame): State {
    s.(received := s.received + [frame]).Note(Received(|s.received|, frame))
  }

  predicate CanBegin(s: State) {
    s.current.None? && s.started < |s.received|
  }

  predicate Admits(s: State, frame: Frame) {
    && !s.closed
    && s.bridgeId.Some?
    && frame.bridgeId == s.bridgeId.value
    && s.minimum <= frame.routeGeneration
    && frame.activationId in s.byActivation
  }

  function Begin(s: State): State
    requires CanBegin(s)
  {
    var frame := s.received[s.started];
    var admitted := if Admits(s, frame) then Some(s.byActivation[frame.activationId]) else None;
    var begun := s.(started := s.started + 1, current := Some(Dispatch(s.started, frame, admitted, Observing)))
                  .Note(Started(s.started, admitted));
    if admitted.Some? then begun else Reject(begun, RouteGenerationChanged)
  }

  function Finish(s: State, verdict: Verdict): (r: State)
    requires s.current.Some?
    ensures r.reconciles == s.reconciles && r.minimum == s.minimum && r.native == s.native
    ensures r.received == s.received && r.started == s.started && r.byActivation == s.byActivation
  {
    s.(current := None).Note(Finished(s.current.value.index, verdict))
  }

  /** `#rejectFrame` up to its first `await`, or to its end when it has none. */
  function Reject(s: State, code: FailureCode): (r: State)
    requires s.current.Some?
    ensures r.reconciles == s.reconciles && r.minimum == s.minimum && r.native == s.native
    ensures r.received == s.received && r.started == s.started && r.byActivation == s.byActivation
  {
    var d := s.current.value;
    if !d.frame.kind.PortRequest? && s.bridgeId.Some? && code != RouteGenerationChanged
    then s.At(Reporting(code)).Note(ReportTried(d.index, code))
    else RejectReply(s, code)
  }

  function RejectReply(s: State, code: FailureCode): (r: State)
    requires s.current.Some?
    ensures r.reconciles == s.reconciles && r.minimum == s.minimum && r.native == s.native
    ensures r.received == s.received && r.started == s.started && r.byActivation == s.byActivation
  {
    var d := s.current.value;
    if d.frame.WantsReply() && s.bridgeId.Some?
    then s.At(Rejecting(code)).Note(ReplyTried(d.index, Some(code)))
    else Finish(s, Refused(code))
  }


  predicate CanObserve(s: State) {
    s.current.Some? && s.current.value.phase.Observing? && s.current.value.admitted.Some?
  }

  function HandlersOf(d: Dispatch): seq<Handler> {
    if d.admitted.Some? then Subscribers(d.frame, d.admitted.value) else []
  }

  /** The observer settled, either way; its failure is swallowed. */
  function Observed(s: State): State
    requires CanObserve(s)
  {
    var d := s.current.value;
    var handlers := HandlersOf(d);
    if handlers == [] then Reject(s, HandlerUnavailable)
    else if d.frame.kind.Broadcast? then s.At(Gathering(0, {}, false))
    else s.At(Running(0)).Note(Entered(d.index, handlers[0]))
  }

  predicate CanSettle(s: State) {
    && s.current.Some?
    && s.current.value.phase.Running?
    && s.current.value.phase.next < |HandlersOf(s.current.value)|
  }

  function HandlerSettled(s: State, ok: bool): State
    requires CanSettle(s)
  {
    var d := s.current.value;
    var next := d.phase.next + 1;
    var left := s.Note(Left(d.index, d.phase.next, ok));
    if !ok then Reject(left, HandlerFailed)
    else if next < |HandlersOf(d)| then left.At(Running(next)).Note(Entered(d.index, HandlersOf(d)[next]))
    else if d.frame.kind.PortRequest? then left.At(Replying).Note(ReplyTried(d.index, None))
    else Finish(left, Accepted)
  }

  predicate CanEnter(s: State) {
    && s.current.Some?
    && s.current.value.phase.Gathering?
    && s.current.value.phase.entered < |HandlersOf(s.current.value)|
  }

  function SubscriberEntered(s: State): State
    requires CanEnter(s)
  {
    var d := s.current.value;
    s.At(d.phase.(entered := d.phase.entered + 1)).Note(Entered(d.index, HandlersOf(d)[d.phase.entered]))
  }

  predicate CanSettleSubscriber(s: State, j: nat) {
    && s.current.Some?
    && s.current.value.phase.Gathering?
    && j < s.current.value.phase.entered
    && j !in s.current.value.phase.settled
  }

  function SubscriberSettled(s: State, j: nat, ok: bool): State
    requires CanSettleSubscriber(s, j)
  {
    var p := s.current.value.phase;
    s.At(p.(settled := p.settled + {j}, failed := p.failed || !ok)).Note(Left(s.current.value.index, j, ok))
  }

  predicate CanGather(s: State) {
    && s.current.Some?
    && s.current.value.phase.Gathering?
    && forall j: nat | j < |HandlersOf(s.current.value)| :: j in s.current.value.phase.settled
  }

  function Gathered(s: State): State
    requires CanGather(s)
  {
    if s.current.value.phase.failed then Reject(s, HandlerFailed) else Finish(s, Accepted)
  }

  predicate CanReport(s: State) {
    s.current.Some? && s.current.value.phase.Reporting?
  }

  /** The failure report settled, either way; its failure is swallowed. */
  function Reported(s: State): State
    requires CanReport(s)
  {
    RejectReply(s, s.current.value.phase.code)
  }

  predicate CanReply(s: State) {
    s.current.Some? && (s.current.value.phase.Replying? || s.current.value.phase.Rejecting?)
  }

  function ReplySettled(s: State, ok: bool): State
    requires CanReply(s)
  {
    var d := s.current.value;
    var heard := if ok then s.Note(ReplyAcknowledged(d.index)) else s;
    if d.phase.Rejecting? then Finish(heard, Refused(d.phase.code))
    else if ok then Finish(heard, Accepted)
    else Reject(s, HandlerFailed)
  }

  // ----- reconcile, deactivate, close -----

  predicate CanReconcile(s: State) {
    s.bridgeId.Some? && !s.closed
  }

  function CallReconcile(s: State, prepared: seq<Activation>): State
    requires CanReconcile(s)
  {
    s.(reconciles := s.reconciles + [Reconcile(prepared, Waiting(|s.received|))])
     .Note(ReconcileAsked(|s.reconciles|, prepared))
  }

  function WithStage(s: State, k: nat, stage: Stage): State
    requires k < |s.reconciles|
  {
    s.(reconciles := s.reconciles[k := s.reconciles[k].(stage := stage)])
  }

  predicate CanSend(s: State, k: nat) {
    k < |s.reconciles| && s.reconciles[k].stage.Waiting? && s.reconciles[k].stage.ticket <= s.Settled()
  }

  function SendReconcile(s: State, k: nat): State
    requires CanSend(s, k)
  {
    WithStage(s, k, Sent(s.minimum)).Note(ReconcileSent(k, s.minimum))
  }

  predicate CanAnswer(s: State, k: nat, answer: Option<nat>) {
    && k < |s.reconciles|
    && s.reconciles[k].stage.Sent?
    && (answer.Some? ==> s.reconciles[k].stage.expected == s.native < answer.value)
  }

  /** The assumed native contract: only the current generation is accepted, and the
      accepted set is published under a larger one. */
  function NativeAnswers(s: State, k: nat, answer: Option<nat>): State
    requires CanAnswer(s, k, answer)
  {
    WithStage(s, k, Answered(s.reconciles[k].stage.expected, answer))
      .(native := answer.GetOr(s.native))
  }

  /** Routes owned by another bridge may move the native generation on. */
  function NativeAdvances(s: State, generation: nat): State
    requires s.native < generation
  {
    s.(native := generation)
  }

  predicate CanReturn(s: State, k: nat) {
    k < |s.reconciles| && s.reconciles[k].stage.Answered?
  }

  function ReconcileReturns(s: State, k: nat): State
    requires CanReturn(s, k)
  {
    var call := s.reconciles[k];
    match call.stage.answer
    case None => WithStage(s, k, Returned)
    case Some(generation) =>
      WithStage(s, k, Returned)
        .(byActivation := TableOf(call.prepared), minimum := generation)
        .Note(Installed(k, call.stage.expected, generation, call.prepared))
  }

  function Deactivate(s: State, activationId: string): State {
    s.(byActivation := s.byActivation - {activationId}).Note(Deactivated(activationId))
  }

  /** A second call returns the first call's promise and changes nothing. */
  function CallClose(s: State): State {
    if s.closeTicket.Some? then s
    else s.(closed := true, closeTicket := Some(|s.received|)).Note(CloseCalled)
  }

  predicate CanCloseNative(s: State) {
    s.closeTicket.Some? && s.bridgeId.Some? && s.closeTicket.value <= s.Settled()
  }

  function CloseNative(s: State): State
    requires CanCloseNative(s)
  {
    s.(bridgeId := None).Note(NativeClosed)
  }

  // ----- runs -----

  datatype Event =
    | FrameArrives(frame: Frame)
    | DispatchBegins
    | ObserverSettles
    | HandlerSettles(ok: bool)
    | SubscriberEnters
    | SubscriberSettles(subscriber: nat, ok: bool)
    | BroadcastGathers
    | ReportSettles
    | ReplySettles(ok: bool)
    | ReconcileCalled(prepared: seq<Activation>)
    | ReconcileSends(call: nat)
    | NativeDecides(call: nat, answer: Option<nat>)
    | NativeMovesOn(generation: nat)
    | ReconcileResumes(call: nat)
    | ActivationDisposed(activationId: string)
    | CloseIsCalled
    | NativeCloseIsSent

  /** An event that cannot happen in this state leaves it unchanged. */
  function Apply(s: State, e: Event): State {
    match e
    case FrameArrives(frame) => Receive(s, frame)
    case DispatchBegins => if CanBegin(s) then Begin(s) else s
    case ObserverSettles => if CanObserve(s) then Observed(s) else s
    case HandlerSettles(ok) => if CanSettle(s) then HandlerSettled(s, ok) else s
    case SubscriberEnters => if CanEnter(s) then SubscriberEntered(s) else s
    case SubscriberSettles(j, ok) => if CanSettleSubscriber(s, j) then SubscriberSettled(s, j, ok) else s
    case BroadcastGathers => if CanGather(s) then Gathered(s) else s
    case ReportSettles => if CanReport(s) then Reported(s) else s
    case ReplySettles(ok) => if CanReply(s) then ReplySettled(s, ok) else s
    case ReconcileCalled(prepared) => if CanReconcile(s) then CallReconcile(s, prepared) else s
    case ReconcileSends(k) => if CanSend(s, k) then SendReconcile(s, k) else s
    case NativeDecides(k, answer) => if CanAnswer(s, k, answer) then NativeAnswers(s, k, answer) else s
    case NativeMovesOn(generation) => if s.native < generation then NativeAdvances(s, generation) else s
    case ReconcileResumes(k) => if CanReturn(s, k) then ReconcileReturns(s, k) else s
    case ActivationDisposed(id) => Deactivate(s, id)
    case CloseIsCalled => CallClose(s)
    case NativeCloseIsSent => if CanCloseNative(s) then CloseNative(s) else s
  }

  /** The frames of a run in arrival order. */
  function Arrivals(events: seq<Event>): seq<Frame> {
    if events == [] then []
    else
      var last := events[|events| - 1];
      Arrivals(events[..|events| - 1]) + if last.FrameArrives? then [last.frame] else []
  }

  function Run(origin: Origin, events: seq<Event>): State {
    if events == [] then Opened(origin)
    else Apply(Run(origin, events[..|events| - 1]), events[|events| - 1])
  }
}
