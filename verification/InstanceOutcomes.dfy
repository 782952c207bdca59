/** How a start ends: which step decides it, and that a launched instance is reported. */
module InstanceOutcomes {
  import opened InstanceWatch
  import opened InstanceStart

  // ----- the deciding step -----

  /** Taken in a call that is not over yet, the step ends it with this outcome. What the directory
      has under the name decides a look: the requested state root makes it a success, and only an
      absent name lets the call go on. */
  predicate Decides(s: State, e: Step, outcome: Outcome) {
    match e
    case Look =>
      (match s.feed.directory.named
       case Live(instance) =>
         if instance.stateRoot != s.root then outcome == Refused("control.instance.name_in_use")
         else if s.phase == Checking then outcome == Started(instance) else outcome == AlreadyReady(instance)
       case Unreadable(code) => outcome == Refused(code)
       case Absent => s.phase.LastCheck? && outcome == LaunchFailed)
    case LookForOwner => s.feed.directory.rootTaken && outcome == Refused("control.instance.state_root_in_use")
    case Prepare(ok) => !ok && outcome == Refused("control.instance.discovery_setup_failed")
    case Watch(ok) => !ok && outcome == Refused("control.instance.discovery_setup_failed")
    case Spawn(ok) => !ok && outcome == Refused("control.instance.launch_failed")
    case Receive =>
      && s.feed.channel != [] && s.feed.channel[0] == WatchFailed
      && outcome == Refused("control.instance.discovery_failed")
    case _ => false
  }

  /** A step ends the call exactly as it decides. A look at an absent name goes on. */
  lemma StepsDecide(s: State, e: Step, outcome: Outcome)
    requires Enabled(s, e) && !s.phase.Done?
    ensures Apply(s, e).phase == Done(outcome) <==> Decides(s, e, outcome)
    ensures e == Look && s.feed.directory.named == Absent ==>
              (s.phase == First ==> Apply(s, e).phase == FirstOwner)
              && (s.phase == Second ==> Apply(s, e).phase == SecondOwner)
              && (s.phase == Checking ==> Apply(s, e).phase == Receiving)
    ensures e == LookForOwner && !s.feed.directory.rootTaken ==>
              Apply(s, e).phase == if s.phase == FirstOwner then Preparing else Spawning
  {
  }

  lemma {:induction false} Prefixes(s: State, steps: seq<Step>, k: nat)
    requires Follows(s, steps) && k < |steps|
    ensures Follows(s, steps[..k]) && Enabled(After(s, steps[..k]), steps[k])
    ensures Follows(Apply(After(s, steps[..k]), steps[k]), steps[k + 1..])
    ensures After(Apply(After(s, steps[..k]), steps[k]), steps[k + 1..]) == After(s, steps)
    decreases steps
  {
    if k == 0 {
      assert steps[..0] == [];
    } else {
      Prefixes(Apply(s, steps[0]), steps[1..], k - 1);
      assert steps[..k][1..] == steps[1..][..k - 1] && steps[..k][0] == steps[0];
      assert steps[1..][k..] == steps[k + 1..] && steps[1..][k - 1] == steps[k];
    }
  }

  lemma {:induction false} DoneStays(s: State, steps: seq<Step>)
    requires Follows(s, steps) && s.phase.Done?
    ensures After(s, steps).phase == s.phase
    decreases steps
  {
    if steps != [] {
      DoneStays(Apply(s, steps[0]), steps[1..]);
    }
  }

  /** The position of the step that ended the call. */
  lemma {:induction false} EndedBy(s: State, steps: seq<Step>) returns (k: nat)
    requires Follows(s, steps) && !s.phase.Done? && After(s, steps).phase.Done?
    ensures k < |steps| && Follows(s, steps[..k]) && !After(s, steps[..k]).phase.Done?
    ensures Enabled(After(s, steps[..k]), steps[k])
    ensures Apply(After(s, steps[..k]), steps[k]).phase == After(s, steps).phase
    decreases steps
  {
    if Apply(s, steps[0]).phase.Done? {
      k := 0;
      DoneStays(Apply(s, steps[0]), steps[1..]);
      assert steps[..0] == [];
    } else {
      var j := EndedBy(Apply(s, steps[0]), steps[1..]);
      k := j + 1;
      Prefixes(s, steps, k);
      assert steps[..k][1..] == steps[1..][..j] && steps[..k][0] == steps[0] && steps[1..][j] == steps[k];
    }
  }

  /** Every run that is over has a step that ended it, and that step decided its outcome; a fault
      of the watcher that ended it has happened before. */
  lemma OutcomesAreDecided(root: string, directory: Directory, steps: seq<Step>) returns (k: nat)
    requires Follows(Begin(root, directory), steps) && After(Begin(root, directory), steps).phase.Done?
    ensures k < |steps| && Follows(Begin(root, directory), steps[..k])
    ensures var before := After(Begin(root, directory), steps[..k]);
            && before.root == root && Enabled(before, steps[k])
            && Decides(before, steps[k], After(Begin(root, directory), steps).phase.outcome)
            && (steps[k] == Receive ==> WatcherFails in steps[..k])
  {
    k := EndedBy(Begin(root, directory), steps);
    var before := After(Begin(root, directory), steps[..k]);
    RootStays(Begin(root, directory), steps[..k]);
    StepsDecide(before, steps[k], After(Begin(root, directory), steps).phase.outcome);
    WatchFaultsAreReal(Begin(root, directory), steps[..k]);
  }

  lemma {:induction false} WatchFaultsAreReal(s: State, steps: seq<Step>)
    requires Follows(s, steps) && WatchFailed !in s.feed.channel
    ensures WatchFailed in After(s, steps).feed.channel ==> WatcherFails in steps
    decreases steps
  {
    if steps != [] && steps[0] != WatcherFails {
      var t := Apply(s, steps[0]);
      assert forall wake | wake in t.feed.channel :: wake in s.feed.channel || wake == Filesystem || wake.ChildExited?;
      WatchFaultsAreReal(t, steps[1..]);
      assert steps == [steps[0]] + steps[1..];
    }
  }

  // ----- a quiet environment -----

  /** No internal step can be taken. */
  ghost predicate Still(s: State) {
    forall e :: Internal(e) ==> !Enabled(s, e)
  }

  /** The call has launched its child and waits for it, or just looked one last time. */
  predicate Awaiting(p: Phase) {
    p in {Checking, Receiving} || p.LastCheck?
  }

  /** The instance is listed with the requested root, and nothing keeps the call from seeing it. */
  ghost predicate WillReport(s: State, instance: Instance, alive: bool) {
    || s.phase == Done(Started(instance))
    || (!alive && s.phase == Done(AlreadyReady(instance)))
    || (&& Awaiting(s.phase)
        && s.feed.directory.named == Live(instance) && instance.stateRoot == s.root
        && WatchFailed !in s.feed.channel
        && (alive ==> s.child in {Alive, Unobserved}))
  }

  lemma ReportStepKeeps(s: State, e: Step, instance: Instance, alive: bool)
    requires Inv(s) && WillReport(s, instance, alive) && Enabled(s, e) && Internal(e)
    ensures WillReport(Apply(s, e), instance, alive)
  {
    var t := Apply(s, e);
    assert forall wake | wake in t.feed.channel :: wake in s.feed.channel || wake == Filesystem || wake.ChildExited?;
    if e.Receive? {
      assert s.feed.channel[0] in s.feed.channel;
    }
  }

  /** Readiness is not missed: once the launched child's instance is listed with the requested
      state root and no fault of the watcher is on its way, a run without further outside steps
      ends by reporting that instance, as started unless the child has exited. */
  lemma {:induction false} ReadyInstanceIsReported(s: State, steps: seq<Step>, instance: Instance, alive: bool)
    requires Inv(s) && WillReport(s, instance, alive)
    requires Follows(s, steps) && (forall e | e in steps :: Internal(e)) && Still(After(s, steps))
    ensures var end := After(s, steps).phase;
            end == Done(Started(instance)) || (!alive && end == Done(AlreadyReady(instance)))
    decreases steps
  {
    if steps == [] {
      StoppedWhere(s);
    } else {
      ReportStepKeeps(s, steps[0], instance, alive);
      LaunchedKeeps(s, steps[0]);
      ExitsKeep(s, steps[0]);
      AnswersKeep(s, steps[0]);
      assert forall e | e in steps[1..] :: e in steps;
      ReadyInstanceIsReported(Apply(s, steps[0]), steps[1..], instance, alive);
    }
  }

  /** The same for a run from the beginning, with any outside steps before the quiet ones. */
  lemma LaunchedInstanceIsReported(root: string, directory: Directory, before: seq<Step>, quiet: seq<Step>,
                                   instance: Instance)
    requires Follows(Begin(root, directory), before)
    requires var s := After(Begin(root, directory), before);
             && s.phase in {Checking, Receiving} && s.child in {Alive, Unobserved}
             && s.feed.directory.named == Live(instance) && instance.stateRoot == root
             && Follows(s, quiet) && (forall e | e in quiet :: Internal(e)) && Still(After(s, quiet))
    requires WatcherFails !in before
    ensures After(After(Begin(root, directory), before), quiet).phase == Done(Started(instance))
  {
    var s := After(Begin(root, directory), before);
    RunKeeps(Begin(root, directory), before);
    RootStays(Begin(root, directory), before);
    WatchFaultsAreReal(Begin(root, directory), before);
    ReadyInstanceIsReported(s, quiet, instance, true);
  }

  /** The child has exited and the name is absent, and nothing keeps the call from seeing it. */
  ghost predicate WillFail(s: State) {
    || s.phase == Done(LaunchFailed)
    || (&& Awaiting(s.phase) && s.child.Exited? && s.feed.directory.named == Absent
        && WatchFailed !in s.feed.channel)
  }

  lemma FailStepKeeps(s: State, e: Step)
    requires Inv(s) && WillFail(s) && Enabled(s, e) && Internal(e)
    ensures WillFail(Apply(s, e))
  {
    var t := Apply(s, e);
    assert forall wake | wake in t.feed.channel :: wake in s.feed.channel || wake == Filesystem || wake.ChildExited?;
    if e.Receive? {
      assert s.feed.channel[0] in s.feed.channel;
    }
  }

  /** Failure is not missed either: once the child has exited while the name is absent, such a run
      ends with a failed launch. */
  lemma {:induction false} ExitedLaunchFails(s: State, steps: seq<Step>)
    requires Inv(s) && WillFail(s)
    requires Follows(s, steps) && (forall e | e in steps :: Internal(e)) && Still(After(s, steps))
    ensures After(s, steps).phase == Done(LaunchFailed)
    decreases steps
  {
    if steps == [] {
      StoppedWhere(s);
    } else {
      FailStepKeeps(s, steps[0]);
      LaunchedKeeps(s, steps[0]);
      ExitsKeep(s, steps[0]);
      AnswersKeep(s, steps[0]);
      assert forall e | e in steps[1..] :: e in steps;
      ExitedLaunchFails(Apply(s, steps[0]), steps[1..]);
    }
  }
}
