/** The bridge as the object it is: its fields and the code between two `await`s, one method
    each. Every method is shown to take the transition that `BridgeProtocol` gives it, so
    `BridgeSafety` speaks about any interleaving of these methods. */
module MessageBusBridgeClass {
  import opened Wrappers
  import opened BridgeProtocol

  class MessageBusBridge {
    var bridgeId: Option<string>
    var byActivation: map<string, Activation>
    var minimumRouteGeneration: nat
    var closed: bool
    var closePromise: Option<nat>     // settles when that many frames have
    var dispatchQueue: seq<Frame>     // every frame chained on the promise so far
    var started: nat
    var current: Option<Dispatch>     // the suspended `dispatch` call
    var reconciles: seq<Reconcile>    // the suspended `reconcile` calls
    ghost var native: nat
    ghost var log: Log

    ghost function View(): State
      reads this
    {
      State(bridgeId, byActivation, minimumRouteGeneration, closed, closePromise,
            dispatchQueue, started, current, reconciles, native, log)
    }

    constructor Opened(bridge: string, generation: nat, activations: seq<Activation>)
      ensures View() == BridgeProtocol.Opened(Origin(bridge, generation, activations))
    {
      bridgeId, minimumRouteGeneration, closed, closePromise := Some(bridge), generation, false, None;
      dispatchQueue, started, current, reconciles := [], 0, None, [];
      native, log := generation, Nothing;
      new;
      byActivation := IndexActivations(activations);
    }

    static method IndexActivations(activations: seq<Activation>) returns (table: map<string, Activation>)
      ensures table == TableOf(activations)
    {
      table := map[];
      for i := 0 to |activations|
        invariant table == TableOf(activations[..i])
      {
        assert activations[..i + 1][..i] == activations[..i];
        table := table[activations[i].activationId := activations[i]];
      }
      assert activations[..|activations|] == activations;
    }

    ghost method Note(action: Action)
      modifies this`log
      ensures View() == old(View()).Note(action)
    {
      log := Then(log, action);
    }

    // ----- frames -----

    method OnFrame(frame: Frame)
      modifies this
      ensures View() == Receive(old(View()), frame)
    {
      Note(Received(|dispatchQueue|, frame));
      dispatchQueue := dispatchQueue + [frame];
    }

    method BeginDispatch()
      requires CanBegin(View())
      modifies this
      ensures View() == Begin(old(View()))
    {
      var index, frame := started, dispatchQueue[started];
      started := started + 1;
      if || closed
         || bridgeId.None?
         || frame.bridgeId != bridgeId.value
         || frame.routeGeneration < minimumRouteGeneration
         || frame.activationId !in byActivation {
        current := Some(Dispatch(index, frame, None, Observing));
        Note(Started(index, None));
        RejectFrame(RouteGenerationChanged);
      } else {
        var activation := byActivation[frame.activationId];
        current := Some(Dispatch(index, frame, Some(activation), Observing));
        Note(Started(index, Some(activation)));
      }
    }

    method Suspend(phase: Phase)
      requires current.Some?
      modifies this`current
      ensures View() == old(View()).At(phase)
    {
      current := Some(current.value.(phase := phase));
    }

    method FinishDispatch(verdict: Verdict)
      requires current.Some?
      modifies this
      ensures View() == Finish(old(View()), verdict)
    {
      Note(Finished(current.value.index, verdict));
      current := None;
    }

    method RejectFrame(code: FailureCode)
      requires current.Some?
      modifies this
      ensures View() == Reject(old(View()), code)
    {
      var frame := current.value.frame;
      if frame.kind != PortRequest && bridgeId.Some? && (code == HandlerFailed || code == HandlerUnavailable) {
        Suspend(Reporting(code));
        Note(ReportTried(current.value.index, code));
      } else {
        SendRejection(code);
      }
    }

    method SendRejection(code: FailureCode)
      requires current.Some?
      modifies this
      ensures View() == RejectReply(old(View()), code)
    {
      var frame := current.value.frame;
      if frame.kind == PortRequest && frame.correlationId.Some? && bridgeId.Some? {
        Suspend(Rejecting(code));
        Note(ReplyTried(current.value.index, Some(code)));
      } else {
        FinishDispatch(Refused(code));
      }
    }

    method AfterObserver()
      requires CanObserve(View())
      modifies this
      ensures View() == Observed(old(View()))
    {
      var d := current.value;
      var handlers := Subscribers(d.frame, d.admitted.value);
      if |handlers| == 0 {
        RejectFrame(HandlerUnavailable);
      } else if d.frame.kind == Broadcast {
        Suspend(Gathering(0, {}, false));
      } else {
        Suspend(Running(0));
        Note(Entered(d.index, handlers[0]));
      }
    }

    method AfterHandler(ok: bool)
      requires CanSettle(View())
      modifies this
      ensures View() == BridgeProtocol.HandlerSettled(old(View()), ok)
    {
      var d := current.value;
      var handlers, next := HandlersOf(d), d.phase.next + 1;
      Note(Left(d.index, d.phase.next, ok));
      if !ok {
        RejectFrame(HandlerFailed);
      } else if next < |handlers| {
        Suspend(Running(next));
        Note(Entered(d.index, handlers[next]));
      } else if d.frame.kind == PortRequest {
        Suspend(Replying);
        Note(ReplyTried(d.index, None));
      } else {
        FinishDispatch(Accepted);
      }
    }

    method EnterSubscriber()
      requires CanEnter(View())
      modifies this
      ensures View() == SubscriberEntered(old(View()))
    {
      var d := current.value;
      Suspend(d.phase.(entered := d.phase.entered + 1));
      Note(Entered(d.index, HandlersOf(d)[d.phase.entered]));
    }

    method AfterSubscriber(j: nat, ok: bool)
      requires CanSettleSubscriber(View(), j)
      modifies this
      ensures View() == SubscriberSettled(old(View()), j, ok)
    {
      var phase := current.value.phase;
      Suspend(phase.(settled := phase.settled + {j}, failed := phase.failed || !ok));
      Note(Left(current.value.index, j, ok));
    }

    method AfterAllSubscribers()
      requires CanGather(View())
      modifies this
      ensures View() == Gathered(old(View()))
    {
      if current.value.phase.failed {
        RejectFrame(HandlerFailed);
      } else {
        FinishDispatch(Accepted);
      }
    }

    method AfterReport()
      requires CanReport(View())
      modifies this
      ensures View() == Reported(old(View()))
    {
      SendRejection(current.value.phase.code);
    }

    method AfterReply(ok: bool)
      requires CanReply(View())
      modifies this
      ensures View() == BridgeProtocol.ReplySettled(old(View()), ok)
    {
      var d := current.value;
      if ok {
        Note(ReplyAcknowledged(d.index));
      }
      if d.phase.Rejecting? {
        FinishDispatch(Refused(d.phase.code));
      } else if ok {
        FinishDispatch(Accepted);
      } else {
        RejectFrame(HandlerFailed);
      }
    }

    // ----- reconcile, deactivate, close -----

    method Reconcile(prepared: seq<Activation>) returns (call: Option<nat>)
      modifies this
      ensures call.Some? <==> CanReconcile(old(View()))
      ensures View() == if call.Some? then CallReconcile(old(View()), prepared) else old(View())
      ensures call.Some? ==> call.value == |old(reconciles)|
    {
      if bridgeId.None? || closed {
        return None;
      }
      call := Some(|reconciles|);
      reconciles := reconciles + [BridgeProtocol.Reconcile(prepared, Waiting(|dispatchQueue|))];
      Note(ReconcileAsked(call.value, prepared));
    }

    method SendReconcile(k: nat)
      requires CanSend(View(), k)
      modifies this
      ensures View() == BridgeProtocol.SendReconcile(old(View()), k)
    {
      reconciles := reconciles[k := reconciles[k].(stage := Sent(minimumRouteGeneration))];
      Note(ReconcileSent(k, minimumRouteGeneration));
    }

    method AfterReconcile(k: nat)
      requires CanReturn(View(), k)
      modifies this
      ensures View() == ReconcileReturns(old(View()), k)
    {
      var call := reconciles[k];
      reconciles := reconciles[k := call.(stage := Returned)];
      match call.stage.answer
      case None =>
      case Some(generation) =>
        byActivation := IndexActivations(call.prepared);
        minimumRouteGeneration := generation;
        Note(Installed(k, call.stage.expected, generation, call.prepared));
    }

    method DeactivateActivation(activationId: string)
      modifies this
      ensures View() == Deactivate(old(View()), activationId)
    {
      byActivation := byActivation - {activationId};
      Note(Deactivated(activationId));
    }

    method Close()
      modifies this
      ensures View() == CallClose(old(View()))
    {
      if closePromise.Some? {
        return;
      }
      closed := true;
      closePromise := Some(|dispatchQueue|);
      Note(CloseCalled);
    }

    method CloseNative()
      requires CanCloseNative(View())
      modifies this
      ensures View() == BridgeProtocol.CloseNative(old(View()))
    {
      bridgeId := None;
      Note(NativeClosed);
    }
  }
}
