/** `start` as it is written, with the rest of the world acting at every pause. */
module InstanceStarter {
  import opened InstanceWatch
  import opened InstanceStart

  /** A step that is not taken by `start` itself. */
  predicate Outside(e: Step) {
    e.DirectoryChanges? || e.Notification? || e.WatcherFails? || e.ChildExits? || e.WaitFails? || e.ExitNotice?
  }

  predicate AllOutside(steps: seq<Step>) {
    forall i | 0 <= i < |steps| :: Outside(steps[i])
  }

  /** A round of outside steps; those that cannot happen are passed over. */
  method Elapse(ghost begin: State, ghost taken: seq<Step>, s: State, round: seq<Step>)
    returns (t: State, ghost steps: seq<Step>)
    requires Follows(begin, taken) && s == After(begin, taken) && AllOutside(round)
    ensures Follows(begin, steps) && t == After(begin, steps)
    ensures t.phase == s.phase && s.feed.channel <= t.feed.channel
  {
    t, steps := s, taken;
    for i := 0 to |round|
      invariant Follows(begin, steps) && t == After(begin, steps)
      invariant t.phase == s.phase && s.feed.channel <= t.feed.channel
    {
      if Enabled(t, round[i]) {
        Extend(begin, steps, round[i]);
        steps := steps + [round[i]];
        t := Apply(t, round[i]);
      }
    }
  }

  function Round(rounds: seq<seq<Step>>, i: nat): seq<Step> {
    if i < |rounds| then rounds[i] else []
  }

  predicate AllRoundsOutside(rounds: seq<seq<Step>>) {
    forall i | 0 <= i < |rounds| :: AllOutside(rounds[i])
  }

  /** Where a step leads that does not end the call. */
  function Onward(p: Phase): Phase {
    match p
    case First => FirstOwner
    case FirstOwner => Preparing
    case Preparing => Registering
    case Registering => Second
    case Second => SecondOwner
    case SecondOwner => Spawning
    case Spawning => Checking
    case Checking => Receiving
    case _ => p
  }

  /** One round of outside steps and then one step of `start`. */
  method Advance(ghost begin: State, ghost taken: seq<Step>, s: State, round: seq<Step>, e: Step)
    returns (t: State, ghost steps: seq<Step>)
    requires Follows(begin, taken) && s == After(begin, taken) && AllOutside(round)
    requires !Outside(e) && !e.Receive? && Enabled(s, e)
    ensures Follows(begin, steps) && t == After(begin, steps)
    ensures t.phase.Done? || t.phase == Onward(s.phase)
  {
    t, steps := Elapse(begin, taken, s, round);
    Extend(begin, steps, e);
    steps := steps + [e];
    t := Apply(t, e);
  }

  /** The whole call. `rounds` is what the world does at each pause, and the three flags say
      whether preparing, watching and spawning succeed. A call that is not done when the rounds
      are used up is waiting on an empty channel. */
  method Run(root: string, directory: Directory, rounds: seq<seq<Step>>, prepared: bool, watching: bool, spawns: bool)
    returns (s: State, ghost steps: seq<Step>)
    requires AllRoundsOutside(rounds)
    ensures Follows(Begin(root, directory), steps) && s == After(Begin(root, directory), steps)
    ensures s.phase.Done? || (s.phase == Receiving && s.feed.channel == [])
  {
    ghost var begin := Begin(root, directory);
    s, steps := Register(begin, Begin(root, directory), rounds, prepared, watching);
    if s.phase.Done? { return; }
    s, steps := Launch(begin, steps, s, rounds, spawns);
    if s.phase.Done? { return; }
    s, steps := AwaitReadiness(begin, steps, s, rounds);
  }

  /** The first checks, and the watcher. */
  method Register(ghost begin: State, first: State, rounds: seq<seq<Step>>, prepared: bool, watching: bool)
    returns (s: State, ghost steps: seq<Step>)
    requires AllRoundsOutside(rounds) && first == begin && begin.phase == First
    ensures Follows(begin, steps) && s == After(begin, steps)
    ensures s.phase.Done? || s.phase == Second
  {
    s, steps := Advance(begin, [], first, Round(rounds, 0), Look);
    if s.phase.Done? { return; }
    s, steps := Advance(begin, steps, s, Round(rounds, 1), LookForOwner);
    if s.phase.Done? { return; }
    s, steps := Advance(begin, steps, s, Round(rounds, 2), Prepare(prepared));
    if s.phase.Done? { return; }
    s, steps := Advance(begin, steps, s, Round(rounds, 3), Watch(watching));
  }

  /** The checks again, and the child. */
  method Launch(ghost begin: State, ghost taken: seq<Step>, watched: State, rounds: seq<seq<Step>>, spawns: bool)
    returns (s: State, ghost steps: seq<Step>)
    requires Follows(begin, taken) && watched == After(begin, taken) && watched.phase == Second
    requires AllRoundsOutside(rounds)
    ensures Follows(begin, steps) && s == After(begin, steps)
    ensures s.phase.Done? || s.phase == Checking
  {
    s, steps := Advance(begin, taken, watched, Round(rounds, 4), Look);
    if s.phase.Done? { return; }
    s, steps := Advance(begin, steps, s, Round(rounds, 5), LookForOwner);
    if s.phase.Done? { return; }
    s, steps := Advance(begin, steps, s, Round(rounds, 6), Spawn(spawns));
  }

  /** `recv`: rounds pass until a wake is in the channel; `None` if none ever comes. */
  method Wait(ghost begin: State, ghost taken: seq<Step>, waiting: State, rounds: seq<seq<Step>>, from: nat)
    returns (s: State, ghost steps: seq<Step>, next: nat)
    requires Follows(begin, taken) && waiting == After(begin, taken) && waiting.phase == Receiving
    requires AllRoundsOutside(rounds) && from <= |rounds|
    ensures Follows(begin, steps) && s == After(begin, steps) && s.phase == Receiving
    ensures from <= next <= |rounds| && (next == from ==> s == waiting)
    ensures s.feed.channel == [] ==> next == |rounds|
  {
    s, steps, next := waiting, taken, from;
    while s.feed.channel == [] && next < |rounds|
      invariant from <= next <= |rounds| && (next == from ==> s == waiting)
      invariant Follows(begin, steps) && s == After(begin, steps) && s.phase == Receiving
    {
      s, steps := Elapse(begin, steps, s, rounds[next]);
      next := next + 1;
    }
  }

  /** What the call does with a wake. */
  method React(ghost begin: State, ghost taken: seq<Step>, woken: State) returns (s: State, ghost steps: seq<Step>)
    requires Follows(begin, taken) && woken == After(begin, taken)
             && woken.phase == Receiving && woken.feed.channel != []
    ensures Follows(begin, steps) && s == After(begin, steps)
    ensures |s.feed.channel| < |woken.feed.channel| && (s.phase.Done? || s.phase == Checking)
  {
    Extend(begin, taken, Receive);
    s, steps := DoReceive(woken), taken + [Receive];
    if s.phase.LastCheck? {
      Extend(begin, steps, Look);
      s, steps := DoLook(s), steps + [Look];
    }
  }

  /** The loop: look, then wait for a wake. */
  method AwaitReadiness(ghost begin: State, ghost taken: seq<Step>, launched: State, rounds: seq<seq<Step>>)
    returns (s: State, ghost steps: seq<Step>)
    requires Follows(begin, taken) && launched == After(begin, taken) && launched.phase == Checking
    requires AllRoundsOutside(rounds)
    ensures Follows(begin, steps) && s == After(begin, steps)
    ensures s.phase.Done? || (s.phase == Receiving && s.feed.channel == [])
  {
    s, steps := launched, taken;
    var next := 0;
    while s.phase == Checking
      invariant next <= |rounds|
      invariant Follows(begin, steps) && s == After(begin, steps)
      invariant s.phase.Done? || s.phase == Checking
      decreases |rounds| - next, |s.feed.channel|, s.phase == Checking
    {
      Extend(begin, steps, Look);
      s, steps := DoLook(s), steps + [Look];
      if !s.phase.Done? {
        s, steps, next := Wait(begin, steps, s, rounds, next);
        if s.feed.channel == [] {
          return;
        }
        s, steps := React(begin, steps, s);
      }
    }
  }
}
