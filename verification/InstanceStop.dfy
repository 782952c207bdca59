/** Stopping an instance: the watcher is registered, the stop is requested, and then the loop
    waits until the directory no longer lists the instance. */
module InstanceStop {
  import opened Wrappers
  import opened InstanceWatch

  /** `Stopping` is the request itself; its answer names the instance. */
  datatype Phase = Registering | Stopping | Checking(id: string) | Receiving(id: string) | Done(stopped: Option<string>)

  datatype State = State(feed: Feed<set<string>>, phase: Phase)

  function Begin(live: set<string>): State {
    State(Start(live), Registering)
  }

  datatype Step =
    | DirectoryChanges(live: set<string>) | Notification | WatcherFails
    | Watch(ok: bool) | Stop(answer: Option<string>) | Look | Receive

  predicate Enabled(s: State, e: Step) {
    match e
    case DirectoryChanges(_) => true
    case Notification => s.feed.due
    case WatcherFails => s.feed.watched
    case Watch(_) => s.phase == Registering
    case Stop(_) => s.phase == Stopping
    case Look => s.phase.Checking?
    case Receive => s.phase.Receiving? && s.feed.channel != []
  }

  function DoLook(s: State): State
    requires s.phase.Checking?
  {
    s.(feed := InstanceWatch.Look(s.feed),
       phase := if s.phase.id in s.feed.directory then Receiving(s.phase.id) else Done(Some(s.phase.id)))
  }

  function DoReceive(s: State): State
    requires Enabled(s, Receive)
  {
    s.(feed := Pop(s.feed), phase := if s.feed.channel[0].WatchFailed? then Done(None) else Checking(s.phase.id))
  }

  function Apply(s: State, e: Step): State
    requires Enabled(s, e)
  {
    match e
    case DirectoryChanges(live) => s.(feed := Change(s.feed, live))
    case Notification => s.(feed := Notify(s.feed))
    case WatcherFails => s.(feed := Send(s.feed, WatchFailed))
    case Watch(ok) => if ok then s.(feed := Register(s.feed), phase := Stopping) else s.(phase := Done(None))
    case Stop(answer) => s.(phase := if answer.Some? then Checking(answer.value) else Done(None))
    case Look => DoLook(s)
    case Receive => DoReceive(s)
  }

  predicate Follows(s: State, steps: seq<Step>)
    decreases steps
  {
    steps == [] || (Enabled(s, steps[0]) && Follows(Apply(s, steps[0]), steps[1..]))
  }

  function After(s: State, steps: seq<Step>): State
    requires Follows(s, steps)
    decreases steps
  {
    if steps == [] then s else After(Apply(s, steps[0]), steps[1..])
  }

  ghost predicate Inv(s: State) {
    && (s.phase.Stopping? || s.phase.Checking? || s.phase.Receiving? ==> s.feed.watched)
    && (s.phase.Receiving? ==> Noticed(s.feed) && s.phase.id in s.feed.seen.value)
    && (s.phase.Done? && s.phase.stopped.Some? ==>
          s.feed.watched && s.feed.seen.Some? && s.phase.stopped.value !in s.feed.seen.value)
  }

  lemma StepKeeps(s: State, e: Step)
    requires Inv(s) && Enabled(s, e)
    ensures Inv(Apply(s, e))
  {
    if s.phase.Receiving? {
      EnvironmentIsNoticed(s.feed, if e.DirectoryChanges? then e.live else {}, WatchFailed);
    }
  }

  lemma {:induction false} RunKeeps(s: State, steps: seq<Step>)
    requires Inv(s) && Follows(s, steps)
    ensures Inv(After(s, steps))
    decreases steps
  {
    if steps != [] {
      StepKeeps(s, steps[0]);
      RunKeeps(Apply(s, steps[0]), steps[1..]);
    }
  }

  /** In every run: a stop that reports success saw the directory without the stopped instance
      after the request had been answered; and a stop that waits with nothing on its way waits
      for an instance that the directory lists now. */
  lemma StopsWhenTheInstanceIsGone(live: set<string>, steps: seq<Step>)
    requires Follows(Begin(live), steps)
    ensures var s := After(Begin(live), steps);
            && (s.phase.Done? && s.phase.stopped.Some? ==>
                  s.feed.seen.Some? && s.phase.stopped.value !in s.feed.seen.value)
            && (s.phase.Receiving? && Silent(s.feed) ==> s.phase.id in s.feed.directory)
  {
    RunKeeps(Begin(live), steps);
    var s := After(Begin(live), steps);
    if s.phase.Receiving? && Silent(s.feed) {
      SilentSeesAll(s.feed);
    }
  }

  // ----- a quiet environment -----

  /** Steps of the program itself and the delivery of wakes that are already due. */
  predicate Internal(e: Step) {
    !e.DirectoryChanges? && !e.WatcherFails?
  }

  function Rank(p: Phase): nat {
    match p
    case Registering => 3 case Stopping => 2 case Checking(_) => 1
    case Receiving(_) => 0 case Done(_) => 0
  }

  function Work(s: State): nat {
    Rank(s.phase) + 2 * |s.feed.channel| + if s.feed.due then 3 else 0
  }

  lemma WorkShrinks(s: State, e: Step)
    requires Enabled(s, e) && Internal(e)
    ensures Work(Apply(s, e)) < Work(s)
  {
  }

  /** Waiting, with nothing on its way, for an instance that the directory lists now. */
  predicate Blocked(s: State) {
    s.phase.Receiving? && Silent(s.feed) && s.phase.id in s.feed.directory
  }

  lemma StoppedWhere(s: State)
    requires Inv(s) && forall e :: Internal(e) ==> !Enabled(s, e)
    ensures s.phase.Done? || Blocked(s)
  {
    assert !Enabled(s, Watch(true)) && !Enabled(s, Stop(None)) && !Enabled(s, Look) && !Enabled(s, Receive);
    assert !Enabled(s, Notification);
    if s.phase.Receiving? {
      SilentSeesAll(s.feed);
    }
  }

  /** Without help from outside a stop ends after a bounded number of steps, and where it ends it
      is done or waits for an instance that is still listed. */
  lemma {:induction false} QuietRunsEnd(s: State, steps: seq<Step>)
    requires Inv(s) && Follows(s, steps) && forall e | e in steps :: Internal(e)
    ensures |steps| <= Work(s)
    ensures (forall e :: Internal(e) ==> !Enabled(After(s, steps), e)) ==>
              After(s, steps).phase.Done? || Blocked(After(s, steps))
    decreases steps
  {
    if steps != [] {
      WorkShrinks(s, steps[0]);
      StepKeeps(s, steps[0]);
      assert forall e | e in steps[1..] :: e in steps;
      QuietRunsEnd(Apply(s, steps[0]), steps[1..]);
    } else if forall e :: Internal(e) ==> !Enabled(s, e) {
      StoppedWhere(s);
    }
  }

  // ----- how a stop ends -----

  lemma {:induction false} CausesOf(s: State, steps: seq<Step>)
    requires Follows(s, steps) && s.phase != Done(None)
    ensures After(s, steps).phase == Done(None) ==>
              WatchFailed in s.feed.channel || Watch(false) in steps || Stop(None) in steps || WatcherFails in steps
    decreases steps
  {
    if steps != [] {
      var e, t := steps[0], Apply(s, steps[0]);
      assert forall step | step in steps[1..] :: step in steps;
      assert forall wake | wake in t.feed.channel :: wake in s.feed.channel || wake == Filesystem || e == WatcherFails;
      assert e in steps;
      if t.phase != Done(None) {
        CausesOf(t, steps[1..]);
      }
    }
  }

  /** A stop fails only after the watcher could not be registered, the request failed, or the
      watcher reported a fault. */
  lemma FailuresHaveCauses(live: set<string>, steps: seq<Step>)
    requires Follows(Begin(live), steps) && After(Begin(live), steps).phase == Done(None)
    ensures Watch(false) in steps || Stop(None) in steps || WatcherFails in steps
  {
    CausesOf(Begin(live), steps);
  }

  /** The instance a call is about, once the request has been answered. */
  function Named(p: Phase): Option<string> {
    match p
    case Checking(id) => Some(id)
    case Receiving(id) => Some(id)
    case Done(stopped) => stopped
    case _ => None
  }

  /** A call waits for, and reports, the instance that its request was answered with. */
  lemma {:induction false} NamedByTheAnswer(s: State, steps: seq<Step>)
    requires Follows(s, steps) && Named(After(s, steps).phase).Some?
    ensures Named(After(s, steps).phase) == Named(s.phase) || Stop(Named(After(s, steps).phase)) in steps
    decreases steps
  {
    if steps != [] {
      NamedByTheAnswer(Apply(s, steps[0]), steps[1..]);
      assert forall step | step in steps[1..] :: step in steps;
      assert steps[0] in steps;
    }
  }

  /** The instance is gone, and nothing keeps the call from seeing it. */
  ghost predicate WillReport(s: State, id: string) {
    || s.phase == Done(Some(id))
    || (&& (s.phase == Checking(id) || s.phase == Receiving(id))
        && id !in s.feed.directory && WatchFailed !in s.feed.channel)
  }

  lemma ReportStepKeeps(s: State, e: Step, id: string)
    requires WillReport(s, id) && Enabled(s, e) && Internal(e)
    ensures WillReport(Apply(s, e), id)
  {
    var t := Apply(s, e);
    assert forall wake | wake in t.feed.channel :: wake in s.feed.channel || wake == Filesystem;
    if e.Receive? {
      assert s.feed.channel[0] in s.feed.channel;
    }
  }

  /** A stop is not missed: once the instance is gone after the request has been answered, and no
      fault of the watcher is on its way, a run without further outside steps reports it. */
  lemma {:induction false} GoneInstanceIsReported(s: State, steps: seq<Step>, id: string)
    requires Inv(s) && WillReport(s, id)
    requires Follows(s, steps) && forall e | e in steps :: Internal(e)
    requires forall e :: Internal(e) ==> !Enabled(After(s, steps), e)
    ensures After(s, steps).phase == Done(Some(id))
    decreases steps
  {
    if steps == [] {
      StoppedWhere(s);
    } else {
      ReportStepKeeps(s, steps[0], id);
      StepKeeps(s, steps[0]);
      assert forall e | e in steps[1..] :: e in steps;
      GoneInstanceIsReported(Apply(s, steps[0]), steps[1..], id);
    }
  }
}
