/** Which handlers a frame reaches, read off the tables of the activation that admitted it. */
module BridgeHandlers {
  import opened Wrappers
  import opened BridgeProtocol
  import opened BridgeLog
  import opened BridgeInvariant
  import opened BridgeSafety

  /** The account of frame `i` once it has been admitted, in every run. */
  lemma AdmittedAccount(origin: Origin, events: seq<Event>, i: nat)
    requires LedgerOf(Run(origin, events).log, i).admitted.Some?
    ensures var l := LedgerOf(Run(origin, events).log, i);
            && l.frame.Some? && l.entered <= l.Handlers()
            && (l.verdict.Some? ==> Accounted(l) && (l.failed ==> l.entered != []))
  {
    var s := Run(origin, events);
    FailuresHaveSettled(s.log, i);
    RunKeeps(origin, events);
    assert Booked(s, i);
  }

  lemma {:induction false} FailuresHaveSettled(log: Log, i: nat)
    ensures LedgerOf(log, i).failed ==> LedgerOf(log, i).left != {}
  {
    if log.Then? {
      FailuresHaveSettled(log.past, i);
    }
  }

  /** An admitted directed frame enters handlers of its endpoint's directed list in order, all
      of them unless one fails. It is refused as unavailable exactly when there is none. */
  lemma DirectedFramesReachTheirHandlers(origin: Origin, events: seq<Event>, i: nat)
    requires var l := LedgerOf(Run(origin, events).log, i);
             l.frame.Some? && l.admitted.Some? && l.frame.value.kind.Directed?
    ensures var l := LedgerOf(Run(origin, events).log, i);
            var table, endpoint := l.admitted.value.directed, l.frame.value.endpoint;
            && (if endpoint in table then l.entered <= table[endpoint] else l.entered == [])
            && (l.verdict.Some? && !l.failed && endpoint in table ==> l.entered == table[endpoint])
            && (l.verdict == Some(Refused(HandlerUnavailable)) ==> endpoint !in table || table[endpoint] == [])
            && (l.verdict.Some? && (endpoint !in table || table[endpoint] == []) ==>
                  l.verdict.value == Refused(HandlerUnavailable))
            && (l.verdict.Some? ==> (l.failed <==> l.verdict.value == Refused(HandlerFailed)))
  {
    AdmittedAccount(origin, events, i);
  }

  /** An admitted broadcast enters every handler of its endpoint's broadcast list in order,
      whether or not some of them fail. */
  lemma BroadcastsReachEverySubscriber(origin: Origin, events: seq<Event>, i: nat)
    requires var l := LedgerOf(Run(origin, events).log, i);
             l.frame.Some? && l.admitted.Some? && l.frame.value.kind.Broadcast?
    ensures var l := LedgerOf(Run(origin, events).log, i);
            var table, endpoint := l.admitted.value.broadcast, l.frame.value.endpoint;
            && (if endpoint in table then l.entered <= table[endpoint] else l.entered == [])
            && (l.verdict.Some? && endpoint in table ==> l.entered == table[endpoint])
            && (l.verdict == Some(Refused(HandlerUnavailable)) ==> endpoint !in table || table[endpoint] == [])
            && (l.verdict.Some? && (endpoint !in table || table[endpoint] == []) ==>
                  l.verdict.value == Refused(HandlerUnavailable))
            && (l.verdict.Some? ==> (l.failed <==> l.verdict.value == Refused(HandlerFailed)))
  {
    AdmittedAccount(origin, events, i);
  }

  /** An admitted port request enters the one handler of its port, if it has a correlation id.
      It is refused as unavailable exactly when it has none or its port has no handler. */
  lemma PortRequestsReachTheirHandler(origin: Origin, events: seq<Event>, i: nat)
    requires var l := LedgerOf(Run(origin, events).log, i);
             l.frame.Some? && l.admitted.Some? && l.frame.value.kind.PortRequest?
    ensures var l := LedgerOf(Run(origin, events).log, i);
            var table, endpoint := l.admitted.value.ports, l.frame.value.endpoint;
            var served := endpoint in table && l.frame.value.correlationId.Some?;
            && (if endpoint in table && l.entered != []
                then l.entered == [table[endpoint]] && l.frame.value.correlationId.Some? else l.entered == [])
            && (l.verdict.Some? && served ==> l.entered == [table[endpoint]])
            && (l.verdict.Some? ==> (l.verdict.value == Refused(HandlerUnavailable) <==> !served))
            && (l.verdict.Some? && served ==>
                  (l.verdict.value == Accepted <==> !l.failed && l.acknowledged == 1 && l.replies == [None]))
  {
    AdmittedAccount(origin, events, i);
  }

  /** Handlers that do not serve a broadcast run one after the other: when one is entered,
      every handler entered before it has succeeded. */
  lemma HandlersTakeTurns(origin: Origin, events: seq<Event>, past: Log, i: nat, handler: Handler)
    requires Prefix(Then(past, Entered(i, handler)), Run(origin, events).log)
    ensures var l := LedgerOf(past, i);
            && l.frame.Some? && l.admitted.Some? && l.verdict.None?
            && (!l.frame.value.kind.Broadcast? ==>
                  !l.failed && forall j | 0 <= j < |l.entered| :: j in l.left)
  {
    RunKeeps(origin, events);
    LawHolds(origin, Run(origin, events).log, past, Entered(i, handler));
  }

  // ----- the table of activations -----

  /** Position `k` is the last one at which the list has the id. */
  predicate LastWith(activations: seq<Activation>, id: string, k: int) {
    && 0 <= k < |activations|
    && activations[k].activationId == id
    && forall j | k < j < |activations| :: activations[j].activationId != id
  }

  lemma LastWithSnoc(front: seq<Activation>, last: Activation, id: string, k: int)
    requires LastWith(front, id, k) && last.activationId != id
    ensures LastWith(front + [last], id, k) && (front + [last])[k] == front[k]
  {
  }

  /** The table holds, for each id that occurs in the list, the last activation that has it. */
  lemma {:induction false} TableHoldsTheLast(activations: seq<Activation>, id: string)
    ensures id in TableOf(activations) ==>
              exists k :: LastWith(activations, id, k) && TableOf(activations)[id] == activations[k]
    ensures id !in TableOf(activations) ==> forall a | a in activations :: a.activationId != id
  {
    if activations != [] {
      var front, last := activations[..|activations| - 1], activations[|activations| - 1];
      assert activations == front + [last];
      TableHoldsTheLast(front, id);
      if last.activationId == id {
        assert LastWith(activations, id, |activations| - 1);
      } else if id in TableOf(front) {
        var k :| LastWith(front, id, k) && TableOf(front)[id] == front[k];
        LastWithSnoc(front, last, id, k);
      }
    }
  }

  /** The activation sets that a log has put in force so far. */
  function Sets(origin: Origin, log: Log): set<seq<Activation>> {
    match log
    case Nothing => {origin.activations}
    case Then(past, Installed(_, _, _, prepared)) => Sets(origin, past) + {prepared}
    case Then(past, _) => Sets(origin, past)
  }

  lemma {:induction false} TableEntriesWereInstalled(origin: Origin, log: Log, id: string)
    requires id in Table(origin, log)
    ensures exists all :: all in Sets(origin, log) && Table(origin, log)[id] in all
    ensures Table(origin, log)[id].activationId == id
  {
    match log
    case Nothing =>
      TableHoldsTheLast(origin.activations, id);
      assert origin.activations in Sets(origin, log);
    case Then(_, Installed(_, _, _, prepared)) =>
      TableHoldsTheLast(prepared, id);
      assert prepared in Sets(origin, log);
    case Then(past, _) => TableEntriesWereInstalled(origin, past, id);
  }

  /** A frame is admitted by an activation that carries the id the frame names and that was
      in the set the bridge opened with or in one that a reconcile installed. */
  lemma AdmittedIsAddressed(origin: Origin, events: seq<Event>, past: Log, i: nat, activation: Activation)
    requires Prefix(Then(past, Started(i, Some(activation))), Run(origin, events).log)
    ensures var l := LedgerOf(Run(origin, events).log, i);
            && l.frame.Some? && l.admitted == Some(activation)
            && activation.activationId == l.frame.value.activationId
            && exists all :: all in Sets(origin, past) && activation in all
  {
    AdmissionFollowsTheLog(origin, events, past, i, Some(activation));
    var frame := LedgerOf(Run(origin, events).log, i).frame.value;
    TableEntriesWereInstalled(origin, past, frame.activationId);
  }
}
