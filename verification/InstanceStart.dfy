/** Starting an instance: two rounds of checks around the registration of the watcher, one child,
    and a loop that looks at the directory and then waits for a wake. */
module InstanceStart {
  import opened Wrappers
  import opened InstanceWatch

  datatype Instance = Instance(id: string, stateRoot: string)

  /** What `inspect` answers for the requested name. */
  datatype Inspection = Absent | Live(instance: Instance) | Unreadable(code: string)

  /** `rootTaken`: another name's live instance owns the requested state root. */
  datatype Directory = Directory(named: Inspection, rootTaken: bool)

  const NAME_IN_USE := "control.instance.name_in_use"
  const ROOT_IN_USE := "control.instance.state_root_in_use"
  const SETUP_FAILED := "control.instance.discovery_setup_failed"
  const LAUNCH_FAILED := "control.instance.launch_failed"
  const DISCOVERY_FAILED := "control.instance.discovery_failed"

  function ExistingDisposition(d: Directory, root: string): Result<Option<Instance>, string> {
    match d.named
    case Absent => Success(None)
    case Live(instance) => if instance.stateRoot == root then Success(Some(instance)) else Failure(NAME_IN_USE)
    case Unreadable(code) => Failure(code)
  }

  datatype Outcome = AlreadyReady(instance: Instance) | Started(instance: Instance)
    | Refused(code: string) | LaunchFailed

  datatype Phase =
    | First | FirstOwner | Preparing | Registering | Second | SecondOwner | Spawning
    | Checking | Receiving | LastCheck(status: int) | Done(outcome: Outcome)

  /** The thread that waits for the child sends its wake some time after the exit, and never
      when waiting fails. */
  datatype Child = NoChild | Alive | Exited(status: int, sent: bool) | Unobserved

  /** The two looks that cleared the launch, and whether the watcher was registered by then. */
  datatype Clearance = Clearance(watched: bool, named: Directory, owners: Directory)

  datatype State = State(
    root: string, feed: Feed<Directory>, phase: Phase, child: Child, spawned: nat, clearance: Option<Clearance>)

  function Begin(root: string, directory: Directory): State {
    State(root, Start(directory), First, NoChild, 0, None)
  }

  datatype Step =
    | DirectoryChanges(directory: Directory) | Notification | WatcherFails
    | ChildExits(code: int) | WaitFails | ExitNotice
    | Look | LookForOwner | Prepare(ok: bool) | Watch(ok: bool) | Spawn(ok: bool) | Receive

  predicate Enabled(s: State, e: Step) {
    match e
    case DirectoryChanges(_) => true
    case Notification => s.feed.due
    case WatcherFails => s.feed.watched
    case ChildExits(_) => s.child == Alive
    case WaitFails => s.child == Alive
    case ExitNotice => s.child.Exited? && !s.child.sent
    case Look => s.phase in {First, Second, Checking} || s.phase.LastCheck?
    case LookForOwner => s.phase in {FirstOwner, SecondOwner}
    case Prepare(_) => s.phase == Preparing
    case Watch(_) => s.phase == Registering
    case Spawn(_) => s.phase == Spawning
    case Receive => s.phase == Receiving && s.feed.channel != []
  }

  /** The phase that follows a look at the requested name. */
  function Looked(s: State): Phase
    requires s.phase in {First, Second, Checking} || s.phase.LastCheck?
  {
    var found := ExistingDisposition(s.feed.directory, s.root);
    if found.Failure? then Done(Refused(found.error))
    else if found.value.Some? then
      Done(if s.phase == Checking then Started(found.value.value) else AlreadyReady(found.value.value))
    else if s.phase == First then FirstOwner
    else if s.phase == Second then SecondOwner
    else if s.phase == Checking then Receiving
    else Done(LaunchFailed)
  }

  function DoLook(s: State): State
    requires Enabled(s, Look)
  {
    s.(feed := InstanceWatch.Look(s.feed), phase := Looked(s),
       clearance := if s.phase == Second then Some(Clearance(s.feed.watched, s.feed.directory, s.feed.directory))
                    else s.clearance)
  }

  function DoLookForOwner(s: State): State
    requires Enabled(s, LookForOwner)
  {
    if s.feed.directory.rootTaken then s.(feed := InstanceWatch.Look(s.feed), phase := Done(Refused(ROOT_IN_USE)))
    else if s.phase == FirstOwner then s.(feed := InstanceWatch.Look(s.feed), phase := Preparing)
    else s.(feed := InstanceWatch.Look(s.feed), phase := Spawning,
            clearance := if s.clearance.Some? then Some(s.clearance.value.(owners := s.feed.directory)) else None)
  }

  function DoReceive(s: State): State
    requires Enabled(s, Receive)
  {
    var wake := s.feed.channel[0];
    s.(feed := Pop(s.feed),
       phase := match wake
                case Filesystem => Checking
                case ChildExited(status) => LastCheck(status)
                case WatchFailed => Done(Refused(DISCOVERY_FAILED)))
  }

  function Apply(s: State, e: Step): State
    requires Enabled(s, e)
  {
    match e
    case DirectoryChanges(directory) => s.(feed := Change(s.feed, directory))
    case Notification => s.(feed := Notify(s.feed))
    case WatcherFails => s.(feed := Send(s.feed, WatchFailed))
    case ChildExits(code) => s.(child := Exited(code, false))
    case WaitFails => s.(child := Unobserved)
    case ExitNotice => s.(child := s.child.(sent := true), feed := Send(s.feed, ChildExited(s.child.status)))
    case Look => DoLook(s)
    case LookForOwner => DoLookForOwner(s)
    case Prepare(ok) => s.(phase := if ok then Registering else Done(Refused(SETUP_FAILED)))
    case Watch(ok) =>
      if ok then s.(feed := Register(s.feed), phase := Second)
      else s.(phase := Done(Refused(SETUP_FAILED)))
    case Spawn(ok) =>
      if ok then s.(child := Alive, spawned := s.spawned + 1, phase := Checking)
      else s.(phase := Done(Refused(LAUNCH_FAILED)))
    case Receive => DoReceive(s)
  }

  predicate Follows(s: State, steps: seq<Step>)
    decreases steps
  {
    steps == [] || (Enabled(s, steps[0]) && Follows(Apply(s, steps[0]), steps[1..]))
  }

  function After(s: State, steps: seq<Step>): State
    requires Follows(s, steps)
    decreases steps
  {
    if steps == [] then s else After(Apply(s, steps[0]), steps[1..])
  }

  lemma {:induction false} Extend(s: State, steps: seq<Step>, e: Step)
    requires Follows(s, steps) && Enabled(After(s, steps), e)
    ensures Follows(s, steps + [e]) && After(s, steps + [e]) == Apply(After(s, steps), e)
    decreases steps
  {
    if steps == [] {
      var only := [e];
      assert steps + [e] == only && only[1..] == [];
      assert Follows(Apply(s, e), only[1..]);
    } else {
      assert (steps + [e])[1..] == steps[1..] + [e];
      Extend(Apply(s, steps[0]), steps[1..], e);
    }
  }

  // ----- the invariant -----

  predicate BeforeLaunch(p: Phase) {
    p in {First, FirstOwner, Preparing, Registering, Second, SecondOwner, Spawning}
  }

  predicate AfterLaunch(p: Phase) {
    p in {Checking, Receiving} || p.LastCheck? || (p.Done? && (p.outcome.Started? || p.outcome.LaunchFailed?))
  }

  ghost predicate NameCleared(s: State) {
    s.clearance.Some? && s.clearance.value.watched
    && s.clearance.value.named.named == Absent
  }

  ghost predicate Cleared(s: State) {
    NameCleared(s) && !s.clearance.value.owners.rootTaken
  }

  ghost predicate Launched(s: State) {
    && s.spawned <= 1
    && (s.spawned == 0 <==> s.child == NoChild)
    && (BeforeLaunch(s.phase) ==> s.spawned == 0)
    && (AfterLaunch(s.phase) ==> s.spawned == 1)
    && (s.phase in {Second, SecondOwner, Spawning} || s.spawned == 1 ==> s.feed.watched)
    && (s.phase == SecondOwner ==> NameCleared(s))
    && (s.phase == Spawning || s.spawned == 1 ==> Cleared(s))
  }

  /** A wake for the child's exit is sent once it has exited. */
  ghost predicate ExitsAreReal(s: State) {
    && (forall k | 0 <= k < |s.feed.channel| :: s.feed.channel[k].ChildExited? ==>
          s.child == Exited(s.feed.channel[k].status, true))
    && (s.phase.LastCheck? ==> s.child == Exited(s.phase.status, true))
    && (s.phase == Done(LaunchFailed) ==> s.child.Exited? && s.child.sent)
    && (s.phase.Done? && s.phase.outcome.AlreadyReady? ==> s.spawned == 0 || s.child.Exited?)
    && (s.phase in {Checking, Receiving} && s.child.Exited? && s.child.sent ==>
          ChildExited(s.child.status) in s.feed.channel)
  }

  /** Why a start may be refused. */
  ghost predicate Explained(s: State, code: string) {
    || (code == NAME_IN_USE && s.feed.seen.Some?
        && s.feed.seen.value.named.Live? && s.feed.seen.value.named.instance.stateRoot != s.root)
    || (s.feed.seen.Some? && s.feed.seen.value.named == Unreadable(code))
    || (code == ROOT_IN_USE && s.spawned == 0 && s.feed.seen.Some? && s.feed.seen.value.rootTaken)
    || (code in {SETUP_FAILED, LAUNCH_FAILED} && s.spawned == 0)
    || (code == DISCOVERY_FAILED && s.spawned == 1)
  }

  /** What a finished or waiting start last saw. */
  ghost predicate Answered(s: State) {
    && (s.phase == Receiving ==>
          Noticed(s.feed) && s.feed.seen.value.named == Absent)
    && (s.phase.Done? && (s.phase.outcome.Started? || s.phase.outcome.AlreadyReady?) ==>
          && s.feed.seen.Some? && s.feed.seen.value.named == Live(s.phase.outcome.instance)
          && s.phase.outcome.instance.stateRoot == s.root)
    && (s.phase == Done(LaunchFailed) ==>
          s.feed.seen.Some? && s.feed.seen.value.named == Absent)
    && (s.phase.Done? && s.phase.outcome.Refused? ==> Explained(s, s.phase.outcome.code))
  }

  ghost predicate Inv(s: State) {
    Launched(s) && ExitsAreReal(s) && Answered(s)
  }

  lemma LaunchedKeeps(s: State, e: Step)
    requires Launched(s) && Enabled(s, e)
    ensures Launched(Apply(s, e))
  {
  }

  lemma ExitsKeep(s: State, e: Step)
    requires Launched(s) && ExitsAreReal(s) && Enabled(s, e)
    ensures ExitsAreReal(Apply(s, e))
  {
    var t := Apply(s, e);
    if e.ExitNotice? {
      assert t.feed.channel[|s.feed.channel|] == ChildExited(s.child.status);
    } else if e.Receive? {
      assert s.feed.channel == [s.feed.channel[0]] + t.feed.channel;
    } else {
      assert forall w | w in s.feed.channel :: w in t.feed.channel;
    }
  }

  lemma AnswersKeep(s: State, e: Step)
    requires Launched(s) && Answered(s) && Enabled(s, e)
    ensures Answered(Apply(s, e))
  {
    if s.phase == Receiving {
      match e
      case DirectoryChanges(directory) => EnvironmentIsNoticed(s.feed, directory, Filesystem);
      case Notification => EnvironmentIsNoticed(s.feed, s.feed.directory, Filesystem);
      case WatcherFails => EnvironmentIsNoticed(s.feed, s.feed.directory, WatchFailed);
      case ExitNotice => EnvironmentIsNoticed(s.feed, s.feed.directory, ChildExited(s.child.status));
      case ChildExits(_) =>
      case WaitFails =>
      case Receive =>
    }
  }

  lemma {:induction false} RunKeeps(s: State, steps: seq<Step>)
    requires Inv(s) && Follows(s, steps)
    ensures Inv(After(s, steps))
    decreases steps
  {
    if steps != [] {
      LaunchedKeeps(s, steps[0]);
      ExitsKeep(s, steps[0]);
      AnswersKeep(s, steps[0]);
      RunKeeps(Apply(s, steps[0]), steps[1..]);
    }
  }

  // ----- the theorems -----

  /** Every run launches at most one child, and only after both looks of a round made with the
      watcher registered found the name absent and the state root free. */
  lemma LaunchesOnceAndCleared(root: string, directory: Directory, steps: seq<Step>)
    requires Follows(Begin(root, directory), steps)
    ensures var s := After(Begin(root, directory), steps);
            s.spawned <= 1 && (s.spawned == 1 ==> Cleared(s))
  {
    RunKeeps(Begin(root, directory), steps);
  }

  /** A start that waits with nothing on its way. */
  predicate Blocked(s: State) {
    s.phase == Receiving && Silent(s.feed) && !Enabled(s, ExitNotice)
  }

  /** No wake-up is lost: a blocked start saw the directory as it is, with the name absent, and
      its child is running, unless waiting for the child has failed in this run. */
  lemma NoWakeIsLost(root: string, directory: Directory, steps: seq<Step>)
    requires Follows(Begin(root, directory), steps)
    ensures var s := After(Begin(root, directory), steps);
            Blocked(s) ==>
              && s.feed.seen == Some(s.feed.directory)
              && s.feed.directory.named == Absent
              && s.child == if WaitFails in steps then Unobserved else Alive
  {
    RunKeeps(Begin(root, directory), steps);
    RootStays(Begin(root, directory), steps);
    UnobservedAfterFailedWait(Begin(root, directory), steps);
    var s := After(Begin(root, directory), steps);
    if s.phase == Receiving && Silent(s.feed) {
      SilentSeesAll(s.feed);
    }
  }

  /** In every run the exit of the child is unobservable exactly if waiting for it has failed. */
  lemma {:induction false} UnobservedAfterFailedWait(s: State, steps: seq<Step>)
    requires Inv(s) && Follows(s, steps)
    ensures After(s, steps).child == Unobserved <==> s.child == Unobserved || WaitFails in steps
    decreases steps
  {
    if steps != [] {
      var t := Apply(s, steps[0]);
      LaunchedKeeps(s, steps[0]);
      ExitsKeep(s, steps[0]);
      AnswersKeep(s, steps[0]);
      assert t.child == Unobserved <==> s.child == Unobserved || steps[0] == WaitFails;
      UnobservedAfterFailedWait(t, steps[1..]);
      assert WaitFails in steps <==> steps[0] == WaitFails || WaitFails in steps[1..];
    }
  }

  /** Then no wake for an exit is ever sent. */
  lemma UnobservedIsNeverAnnounced(s: State, steps: seq<Step>)
    requires Inv(s) && s.child == Unobserved && Follows(s, steps)
    ensures var t := After(s, steps);
            !Enabled(t, ExitNotice) && forall wake | wake in t.feed.channel :: !wake.ChildExited?
  {
    RunKeeps(s, steps);
    UnobservedAfterFailedWait(s, steps);
  }

  /** Otherwise the wake for an exit is on its way or in the channel while the loop runs. */
  lemma ExitsAreAnnounced(root: string, directory: Directory, steps: seq<Step>)
    requires Follows(Begin(root, directory), steps) && WaitFails !in steps
    ensures var s := After(Begin(root, directory), steps);
            s.phase in {Checking, Receiving} && s.child != Alive ==>
              s.child.Exited? && (Enabled(s, ExitNotice) || ChildExited(s.child.status) in s.feed.channel)
  {
    RunKeeps(Begin(root, directory), steps);
    UnobservedAfterFailedWait(Begin(root, directory), steps);
  }

  lemma Continue(begin: State, steps: seq<Step>, s: State, e: Step) returns (more: seq<Step>, t: State)
    requires Follows(begin, steps) && After(begin, steps) == s && Enabled(s, e)
    ensures more == steps + [e] && t == Apply(s, e)
    ensures Follows(begin, more) && After(begin, more) == t
  {
    Extend(begin, steps, e);
    more, t := steps + [e], Apply(s, e);
  }

  const EMPTY_DIRECTORY := Directory(Absent, false)

  lemma WatchedRun(root: string) returns (steps: seq<Step>, s: State)
    ensures Follows(Begin(root, EMPTY_DIRECTORY), steps) && After(Begin(root, EMPTY_DIRECTORY), steps) == s
    ensures s.phase == Second && s.root == root && s.child == NoChild
    ensures s.feed == Feed(EMPTY_DIRECTORY, true, false, [], None)
  {
    var begin := Begin(root, EMPTY_DIRECTORY);
    steps, s := [], begin;
    steps, s := Continue(begin, steps, s, Look);
    steps, s := Continue(begin, steps, s, LookForOwner);
    steps, s := Continue(begin, steps, s, Prepare(true));
    steps, s := Continue(begin, steps, s, Watch(true));
  }

  lemma LaunchedRun(root: string) returns (steps: seq<Step>, s: State)
    ensures Follows(Begin(root, EMPTY_DIRECTORY), steps) && After(Begin(root, EMPTY_DIRECTORY), steps) == s
    ensures s.phase == Checking && s.root == root && s.child == Alive
    ensures s.feed == Feed(EMPTY_DIRECTORY, true, false, [], Some(EMPTY_DIRECTORY))
  {
    var begin := Begin(root, EMPTY_DIRECTORY);
    steps, s := WatchedRun(root);
    steps, s := Continue(begin, steps, s, Look);
    steps, s := Continue(begin, steps, s, LookForOwner);
    steps, s := Continue(begin, steps, s, Spawn(true));
  }

  /** A run in which waiting for the child fails, and the start then waits on an empty channel with
      nothing left to do, whatever has become of the child. */
  lemma FailedWaitBlocks(root: string) returns (steps: seq<Step>)
    ensures Follows(Begin(root, EMPTY_DIRECTORY), steps) && WaitFails in steps
    ensures var s := After(Begin(root, EMPTY_DIRECTORY), steps);
            Blocked(s) && s.child == Unobserved && forall e :: Internal(e) ==> !Enabled(s, e)
  {
    var begin, s := Begin(root, EMPTY_DIRECTORY), Begin(root, EMPTY_DIRECTORY);
    steps, s := LaunchedRun(root);
    steps, s := Continue(begin, steps, s, Look);
    steps, s := Continue(begin, steps, s, WaitFails);
  }

  lemma {:induction false} RootStays(s: State, steps: seq<Step>)
    requires Follows(s, steps)
    ensures After(s, steps).root == s.root
    decreases steps
  {
    if steps != [] {
      RootStays(Apply(s, steps[0]), steps[1..]);
    }
  }

  /** What the result of a start says: a reported instance was seen live with the requested
      state root; it is reported as started only by a start that launched a child, and as ready
      only by one that launched none or whose child has exited; a failed launch is reported only
      when the child had exited and the name was still absent after that; and every refusal has
      its reason. */
  lemma OutcomesAreTrue(root: string, directory: Directory, steps: seq<Step>)
    requires Follows(Begin(root, directory), steps)
    ensures var s := After(Begin(root, directory), steps);
            s.phase.Done? ==>
              match s.phase.outcome
              case Started(instance) =>
                s.spawned == 1 && s.feed.seen.Some? && s.feed.seen.value.named == Live(instance)
                && instance.stateRoot == root
              case AlreadyReady(instance) =>
                && (s.spawned == 0 || s.child.Exited?)
                && s.feed.seen.Some? && s.feed.seen.value.named == Live(instance) && instance.stateRoot == root
              case LaunchFailed =>
                s.spawned == 1 && s.child.Exited? && s.feed.seen.Some? && s.feed.seen.value.named == Absent
              case Refused(code) => Explained(s, code)
  {
    RunKeeps(Begin(root, directory), steps);
    RootStays(Begin(root, directory), steps);
  }

  // ----- a quiet environment -----

  /** Steps of the program itself and the delivery of wakes that are already due. */
  predicate Internal(e: Step) {
    !e.DirectoryChanges? && !e.WatcherFails? && !e.ChildExits? && !e.WaitFails?
  }

  function Rank(p: Phase): nat {
    match p
    case First => 10 case FirstOwner => 9 case Preparing => 8 case Registering => 7
    case Second => 6 case SecondOwner => 5 case Spawning => 4
    case Checking => 1 case LastCheck(_) => 1
    case Receiving => 0 case Done(_) => 0
  }

  function Work(s: State): nat {
    Rank(s.phase) + 2 * |s.feed.channel| + (if s.feed.due then 3 else 0)
    + (if s.child.Exited? && !s.child.sent then 3 else 0)
  }

  lemma WorkShrinks(s: State, e: Step)
    requires Enabled(s, e) && Internal(e)
    ensures Work(Apply(s, e)) < Work(s)
  {
  }

  /** Without help from outside a start stops after a bounded number of steps, and where it
      stops it is done or waits for something that has not happened yet. */
  lemma {:induction false} QuietRunsEnd(s: State, steps: seq<Step>)
    requires Inv(s) && Follows(s, steps) && forall e | e in steps :: Internal(e)
    ensures |steps| <= Work(s)
    ensures var t := After(s, steps);
            (forall e :: Internal(e) ==> !Enabled(t, e)) ==>
              || t.phase.Done?
              || (t.phase == Receiving && t.feed.seen == Some(t.feed.directory)
                  && t.feed.directory.named == Absent && t.child in {Alive, Unobserved})
    decreases steps
  {
    if steps != [] {
      WorkShrinks(s, steps[0]);
      LaunchedKeeps(s, steps[0]);
      ExitsKeep(s, steps[0]);
      AnswersKeep(s, steps[0]);
      assert forall e | e in steps[1..] :: e in steps;
      QuietRunsEnd(Apply(s, steps[0]), steps[1..]);
    } else if forall e :: Internal(e) ==> !Enabled(s, e) {
      StoppedWhere(s);
    }
  }

  lemma StoppedWhere(s: State)
    requires Inv(s) && forall e :: Internal(e) ==> !Enabled(s, e)
    ensures || s.phase.Done?
            || (s.phase == Receiving && s.feed.seen == Some(s.feed.directory)
                && s.feed.directory.named == Absent && s.child in {Alive, Unobserved})
  {
    assert !Enabled(s, Look) && !Enabled(s, LookForOwner) && !Enabled(s, Prepare(true)) && !Enabled(s, Watch(true));
    assert !Enabled(s, Spawn(true)) && !Enabled(s, Receive) && !Enabled(s, Notification) && !Enabled(s, ExitNotice);
    if s.phase == Receiving {
      SilentSeesAll(s.feed);
    }
  }
}
