/** What every run of a subscription guarantees its listener, its owner and the native side. */
module EventLeaseLaws {
  import opened EventLeases
  import opened Wrappers

  // ----- order -----

  /** The listener was called for the first `n` accepted events and for no other, and all calls
      but the latest have settled. */
  ghost predicate CalledUpTo(chain: seq<Link>, n: nat) {
    && n <= |chain|
    && (forall k | 0 <= k < |chain| :: chain[k].status.Called() <==> k < n)
    && (forall k | 0 <= k < n - 1 :: chain[k].status.Over())
  }

  lemma {:induction false} CallsAreAPrefix(chain: seq<Link>, m: nat) returns (n: nat)
    requires InOrder(chain) && CallsFirst(chain) && m <= |chain|
    requires forall k | m <= k < |chain| :: !chain[k].status.Called()
    ensures CalledUpTo(chain, n)
  {
    if m == 0 || chain[m - 1].status.Called() {
      n := m;
    } else {
      n := CallsAreAPrefix(chain, m - 1);
    }
  }

  /** In every run the calls are a prefix of the accepted events, one at a time, with strictly
      increasing sequence numbers. */
  lemma DeliveriesAreAnOrderedPrefix(scope: Scope, sequence: int, events: seq<Event>) returns (n: nat)
    requires Follows(Opened(scope, sequence), events)
    ensures var chain := After(Opened(scope, sequence), events).chain;
            && CalledUpTo(chain, n)
            && StrictlyIncreasing(chain)
            && (forall k | 0 <= k < |chain| :: Belongs(scope, chain[k]))
            && forall i, j | 0 <= i < |chain| && 0 <= j < |chain| ::
               chain[i].status.Running? && chain[j].status.Running? ==> i == j
  {
    OpenedKeepsInv(scope, sequence);
    RunKeeps(Opened(scope, sequence), events);
    ChainsExtend(Opened(scope, sequence), events);
    var chain := After(Opened(scope, sequence), events).chain;
    n := CallsAreAPrefix(chain, |chain|);
  }

  /** The chain keeps what it holds: a later chain has the same events in the same places, and
      links that are over stay as they are. */
  ghost predicate Extends(a: seq<Link>, b: seq<Link>) {
    && |a| <= |b|
    && forall k | 0 <= k < |a| ::
         && b[k].sequence == a[k].sequence && b[k].event == a[k].event
         && (a[k].status.Over() ==> b[k].status == a[k].status)
         && (a[k].status.Called() ==> b[k].status.Called())
  }

  lemma {:induction false} ChainsExtend(s: State, events: seq<Event>)
    requires Follows(s, events)
    ensures Extends(s.chain, After(s, events).chain)
    ensures !s.active ==> !After(s, events).active
    ensures !s.context ==> !After(s, events).context
    ensures s.scope == After(s, events).scope
    decreases events
  {
    if events != [] {
      var t := Apply(s, events[0]);
      assert Extends(s.chain, t.chain);
      ChainsExtend(t, events[1..]);
    }
  }

  /** The event is one that the subscription is for: a change of its project, a sound frame with a
      number it has not had, or a session of its record and project. Deliveries and sessions
      further ask that the context has not closed. */
  predicate Wanted(s: State, e: Native) {
    && s.active
    && match s.scope
       case Repository(projectId) => e.Changed? && exists k | 0 <= k < |e.paths| :: e.paths[k] == projectId
       case Deliveries => s.context && e.Frame? && e.sound && s.sequence < e.number <= 9_007_199_254_740_991
       case Sessions(recordId, projectPath) =>
         && s.context && e.Session?
         && (recordId.Some? ==> e.record == recordId.value)
         && (projectPath.Some? ==> e.path == projectPath.value)
  }

  lemma AcceptedIsWanted(s: State, e: Native)
    ensures Accepts(s, e) <==> Wanted(s, e)
  {
    match s.scope
    case Repository(projectId) =>
      if e.Changed? {
        assert projectId in e.paths <==> exists k | 0 <= k < |e.paths| :: e.paths[k] == projectId;
      }
    case Deliveries =>
    case Sessions(recordId, projectPath) =>
      if e.Session? {
        assert recordId in {None, Some(e.record)} <==> recordId == None || recordId == Some(e.record);
        assert projectPath in {None, Some(e.path)} <==> projectPath == None || projectPath == Some(e.path);
      }
  }

  /** An arrival becomes the last link of the chain exactly if the subscription wants it. A frame
      keeps its number, any other event takes the next number of the shared counter. */
  lemma ArrivalsAreChained(s: State, e: Native)
    requires s.listening
    ensures var t := Apply(s, Arrives(e));
            var number := if s.scope.Deliveries? && e.Frame? then e.number else s.sequence + 1;
            t == if Wanted(s, e) then s.(sequence := number, chain := s.chain + [Link(number, e, Waiting)]) else s
  {
    AcceptedIsWanted(s, e);
  }

  /** The native events that the subscription wants in a run, in order of arrival. */
  function AcceptedIn(s: State, events: seq<Event>): seq<Native>
    requires Follows(s, events)
    decreases events
  {
    if events == [] then []
    else (if events[0].Arrives? && Wanted(s, events[0].native) then [events[0].native] else [])
         + AcceptedIn(Apply(s, events[0]), events[1..])
  }

  function EventsOf(chain: seq<Link>): seq<Native> {
    seq(|chain|, i requires 0 <= i < |chain| => chain[i].event)
  }

  /** The chain is exactly what was wanted, in the order of arrival. */
  lemma {:induction false} ChainIsWhatWasAccepted(s: State, events: seq<Event>)
    requires Follows(s, events)
    ensures EventsOf(After(s, events).chain) == EventsOf(s.chain) + AcceptedIn(s, events)
    decreases events
  {
    if events != [] {
      var t := Apply(s, events[0]);
      if events[0].Arrives? {
        ArrivalsAreChained(s, events[0].native);
      }
      assert EventsOf(t.chain) == EventsOf(s.chain)
             + if events[0].Arrives? && Wanted(s, events[0].native) then [events[0].native] else [];
      ChainIsWhatWasAccepted(t, events[1..]);
    }
  }

  // ----- closing -----

  /** Once the lease or its context has closed, no listener call starts. */
  lemma {:induction false} NoCallStartsAfterClosing(s: State, events: seq<Event>)
    requires !Live(s) && Follows(s, events)
    ensures forall k | 0 <= k < |After(s, events).chain| ::
              After(s, events).chain[k].status.Called() <==> k < |s.chain| && s.chain[k].status.Called()
    decreases events
  {
    if events != [] {
      var t := Apply(s, events[0]);
      assert !Live(t);
      NoCallStartsAfterClosing(t, events[1..]);
    }
  }

  /** When disposal finishes normally no call is running and the native side is released, and
      from then on nothing happens to the chain. */
  lemma {:induction false} FinishedStaysQuiet(s: State, events: seq<Event>)
    requires Inv(s) && s.phase == Finished && Follows(s, events)
    ensures AllOver(s.chain) && !s.listening && !s.active
    ensures After(s, events).chain == s.chain && After(s, events).phase == Finished
    decreases events
  {
    if events != [] {
      StepKeeps(s, events[0]);
      FinishedStaysQuiet(Apply(s, events[0]), events[1..]);
    }
  }

  /** Waiting for the chain at the end of disposal fails exactly when the chain does not catch
      failures and some listener call failed. */
  lemma DisposalReportsFailures(s: State)
    requires Inv(s) && Enabled(s, Drain)
    ensures AllOver(s.chain)
    ensures Apply(s, Drain).phase == DisposeFailed <==>
            s.scope.Deliveries? && exists k | 0 <= k < |s.chain| :: s.chain[k].status.Failed?
  {
    var n := |s.chain|;
    if s.chain != [] {
      assert s.chain[n - 1].status.Over();
      assert s.chain[n - 1].status.Dropped? ==> exists j | 0 <= j < n - 1 :: s.chain[j].status.Failed? by {
        if s.chain[n - 1].status.Dropped? {
          var j :| FailedBefore(s.chain, j, n - 1);
        }
      }
      if k: int :| 0 <= k < n && s.chain[k].status.Failed? {
        assert !Catches(s.scope) ==> s.chain[n - 1].status.Rejects();
      }
    }
  }

  ghost predicate SomeFailed(chain: seq<Link>) {
    exists k :: 0 <= k < |chain| && chain[k].status.Failed?
  }

  lemma FailuresStay(s: State, events: seq<Event>)
    requires Follows(s, events) && SomeFailed(s.chain)
    ensures SomeFailed(After(s, events).chain)
  {
    ChainsExtend(s, events);
    var k :| 0 <= k < |s.chain| && s.chain[k].status.Failed?;
    assert After(s, events).chain[k].status.Failed?;
  }

  /** Disposal fails only after the native side refused to unlisten, or a listener call of a
      delivery subscription failed. */
  lemma {:induction false} FailedDisposalsHaveCauses(s: State, events: seq<Event>)
    requires Inv(s) && s.phase != DisposeFailed && Follows(s, events)
    ensures After(s, events).phase == DisposeFailed ==>
              || UnlistenSettles(false) in events
              || (s.scope.Deliveries? && SomeFailed(After(s, events).chain))
    decreases events
  {
    if events != [] {
      var e, t := events[0], Apply(s, events[0]);
      assert e in events && forall later | later in events[1..] :: later in events;
      StepKeeps(s, e);
      if t.phase != DisposeFailed {
        FailedDisposalsHaveCauses(t, events[1..]);
      } else if e == Drain {
        DisposalReportsFailures(s);
        FailuresStay(t, events[1..]);
      }
    }
  }

  /** A subscription is refused only after its registration failed or the context closed. */
  lemma {:induction false} RefusalsHaveCauses(s: State, events: seq<Event>)
    requires s.context && s.phase !in {Refusing, Refused} && Follows(s, events)
    ensures After(s, events).phase in {Refusing, Refused} ==> OpenSettles(false) in events || Deactivate in events
    decreases events
  {
    if events != [] {
      var e, t := events[0], Apply(s, events[0]);
      assert e in events && forall later | later in events[1..] :: later in events;
      if e != Deactivate && e != OpenSettles(false) {
        RefusalsHaveCauses(t, events[1..]);
      }
    }
  }

  // ----- progress and loss -----

  /** While the lease is live, a settled chain has missed an event exactly if a failure came
      before it in a chain that does not catch failures. */
  lemma OnlyUncaughtFailuresLose(s: State, k: nat)
    requires Inv(s) && Live(s) && AllOver(s.chain) && k < |s.chain|
    ensures !s.chain[k].status.Called() <==> s.scope.Deliveries? && exists j :: FailedBefore(s.chain, j, k)
  {
    if j :| FailedBefore(s.chain, j, k) {
      assert !Catches(s.scope) ==> s.chain[k].status.Dropped?;
    }
    if !s.chain[k].status.Called() {
      assert s.chain[k].status.Dropped?;
    }
  }

  /** A waiting event is never stuck: either a call is running, or some link may be taken. */
  lemma {:induction false} NeverStuck(s: State, k: nat)
    requires Inv(s) && k < |s.chain| && s.chain[k].status.Waiting?
    requires forall j | 0 <= j < |s.chain| :: !s.chain[j].status.Running?
    ensures exists j: nat | j <= k :: MayTake(s, j)
  {
    if MayTake(s, k) {
    } else {
      NeverStuck(s, k - 1);
    }
  }

  // ----- release of the native side -----

  /** The native side can still be released by the subscription's own steps. */
  ghost predicate Releasable(s: State) {
    exists events :: Follows(s, events) && NativeReleases !in events && !After(s, events).listening
  }

  lemma OneStep(s: State, e: Event)
    requires Enabled(s, e)
    ensures Follows(s, [e]) && After(s, [e]) == Apply(s, e)
  {
    var rest := [e][1..];
    assert rest == [];
    assert Follows(Apply(s, e), rest);
  }

  lemma ReleasedBy(s: State, first: Event, second: Event)
    requires Enabled(s, first) && Enabled(Apply(s, first), second)
    requires !first.NativeReleases? && !second.NativeReleases?
    requires !Apply(Apply(s, first), second).listening
    ensures Releasable(s)
  {
    assert [first, second][1..] == [second];
    OneStep(Apply(s, first), second);
    assert Follows(s, [first, second]) && After(s, [first, second]) == After(Apply(s, first), [second]);
  }

  /** A subscription that was refused with its native observer in place keeps it exactly until the
      native bridge closes: no step of its own releases it. */
  lemma {:induction false} RefusedKeepsItsObserver(s: State, events: seq<Event>)
    requires s.phase == Refused && Follows(s, events)
    ensures After(s, events).phase == Refused
    ensures After(s, events).listening <==> s.listening && NativeReleases !in events
    decreases events
  {
    if events != [] {
      RefusedKeepsItsObserver(Apply(s, events[0]), events[1..]);
      assert NativeReleases in events <==> events[0] == NativeReleases || NativeReleases in events[1..];
    }
  }

  /** When the native side has accepted a registration, the subscription can release it itself,
      except in one case: a delivery subscription whose context closed meanwhile is refused and
      leaves its native observer to the close of the bridge. */
  lemma OnlyRefusedDeliveriesLeak(s: State)
    requires Inv(s) && s.phase == Opening && s.listening
    ensures Releasable(Apply(s, OpenSettles(true))) <==> s.context || !s.scope.Deliveries?
  {
    StepKeeps(s, OpenSettles(true));
    var t := Apply(s, OpenSettles(true));
    if t.phase == Owned {
      ReleasedBy(t, BeginDispose, UnlistenSettles(true));
    } else if t.phase == Refusing {
      OneStep(t, UnlistenSettles(true));
    } else {
      forall events | Follows(t, events) && NativeReleases !in events
        ensures After(t, events).listening
      {
        RefusedKeepsItsObserver(t, events);
      }
    }
  }

  /** The case occurs: the context closes while the native side is registering. */
  lemma LeakingRun(sequence: int)
    ensures var events := [Deactivate, OpenSettles(true)]; var s := Opened(Deliveries, sequence);
            && Follows(s, events)
            && After(s, events).phase == Refused && After(s, events).listening
            && !Releasable(After(s, events))
  {
    var s := Opened(Deliveries, sequence);
    var t := Apply(s, Deactivate);
    OneStep(t, OpenSettles(true));
    assert [Deactivate, OpenSettles(true)][1..] == [OpenSettles(true)];
    OpenedKeepsInv(Deliveries, sequence);
    StepKeeps(s, Deactivate);
    OnlyRefusedDeliveriesLeak(t);
  }

  // ----- a listener that fails -----

  lemma {:induction false} Extend(s: State, events: seq<Event>, e: Event)
    requires Follows(s, events) && Enabled(After(s, events), e)
    ensures Follows(s, events + [e]) && After(s, events + [e]) == Apply(After(s, events), e)
    decreases events
  {
    if events == [] {
      OneStep(s, e);
      assert events + [e] == [e];
    } else {
      assert (events + [e])[1..] == events[1..] + [e];
      Extend(Apply(s, events[0]), events[1..], e);
    }
  }

  lemma Continue(begin: State, events: seq<Event>, s: State, e: Event) returns (more: seq<Event>, t: State)
    requires Follows(begin, events) && After(begin, events) == s && Enabled(s, e)
    ensures more == events + [e] && t == Apply(s, e)
    ensures Follows(begin, more) && After(begin, more) == t
  {
    Extend(begin, events, e);
    more, t := events + [e], Apply(s, e);
  }

  /** A live scheduler subscription whose first listener call fails never calls the listener for
      the second delivery, and its disposal fails. */
  lemma FailedListenerRun() returns (events: seq<Event>, s: State, t: State)
    ensures Follows(Opened(Deliveries, 0), events) && After(Opened(Deliveries, 0), events) == s
    ensures Live(s) && |s.chain| == 2 && s.chain[0].status == Failed && s.chain[1].status == Dropped
    ensures Follows(s, [BeginDispose, UnlistenSettles(true), Drain])
    ensures After(s, [BeginDispose, UnlistenSettles(true), Drain]) == t && t.phase == DisposeFailed && !t.listening
  {
    var begin := Opened(Deliveries, 0);
    events, s := [], begin;
    events, s := Continue(begin, events, s, OpenSettles(true));
    events, s := Continue(begin, events, s, Arrives(Frame(1, true)));
    events, s := Continue(begin, events, s, Arrives(Frame(2, true)));
    events, s := Continue(begin, events, s, Take(0));
    events, s := Continue(begin, events, s, Settle(0, false));
    events, s := Continue(begin, events, s, Take(1));
    t := DisposalOf(s);
  }

  lemma DisposalOf(s: State) returns (t: State)
    requires s.phase == Owned && s.scope.Deliveries? && LastIsOver(s)
    ensures Follows(s, [BeginDispose, UnlistenSettles(true), Drain])
    ensures After(s, [BeginDispose, UnlistenSettles(true), Drain]) == t && !t.listening
    ensures t.phase == if ChainRejects(s) then DisposeFailed else Finished
  {
    var disposal: seq<Event> := [];
    t := s;
    disposal, t := Continue(s, disposal, t, BeginDispose);
    disposal, t := Continue(s, disposal, t, UnlistenSettles(true));
    disposal, t := Continue(s, disposal, t, Drain);
    assert disposal == [BeginDispose, UnlistenSettles(true), Drain];
  }
}
