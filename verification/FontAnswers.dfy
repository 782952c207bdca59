/** When a font load succeeds, told from the settlements of its fetch, its faces and the document. */
module FontAnswers {
  import opened Wrappers
  import opened FontCache

  /** How many faces of load `i` have settled. */
  function FacesSettled(steps: seq<Step>, i: nat): nat {
    if steps == [] then 0
    else
      var last := steps[|steps| - 1];
      FacesSettled(steps[..|steps| - 1], i) + if last.FaceSettles? && last.load == i then 1 else 0
  }

  /** Some face of load `i` has registered. */
  predicate FaceRegistered(steps: seq<Step>, i: nat) {
    FaceSettles(i, true) in steps
  }

  /** The fetch of load `i` brought this many faces. */
  predicate Fetched(steps: seq<Step>, i: nat, faces: nat) {
    FetchSettles(i, Some(faces)) in steps
  }

  ghost predicate NeverFetched(steps: seq<Step>, i: nat) {
    forall faces :: !Fetched(steps, i, faces)
  }

  /** The fetch or the document failed. */
  predicate Broke(steps: seq<Step>, i: nat) {
    FetchSettles(i, None) in steps || ReadySettles(i, false) in steps
  }

  ghost predicate Untouched(steps: seq<Step>, i: nat) {
    && NeverFetched(steps, i) && !FaceRegistered(steps, i) && FacesSettled(steps, i) == 0
    && !Broke(steps, i) && ReadySettles(i, true) !in steps
  }

  /** What the steps so far say of load `i` in its phase. */
  ghost predicate Told(s: State, steps: seq<Step>, i: nat) {
    var n := FacesSettled(steps, i);
    if |s.loads| <= i then Untouched(steps, i)
    else
      match s.loads[i].phase
      case Fetching => Untouched(steps, i) && !s.loads[i].threw
      case Registering(left, any) =>
        && Fetched(steps, i, n + left) && (any <==> FaceRegistered(steps, i))
        && !Broke(steps, i) && ReadySettles(i, true) !in steps && !s.loads[i].threw
      case Readying =>
        && FaceRegistered(steps, i)
        && !Broke(steps, i) && ReadySettles(i, true) !in steps && !s.loads[i].threw
      case Over(Resolved(true)) =>
        && FaceRegistered(steps, i) && ReadySettles(i, true) in steps
        && !Broke(steps, i) && !s.loads[i].threw
      case Over(Resolved(false)) =>
        && Fetched(steps, i, n) && !FaceRegistered(steps, i)
        && !Broke(steps, i) && ReadySettles(i, true) !in steps && !s.loads[i].threw
      case Over(Rejected) =>
        && (Broke(steps, i) || s.loads[i].threw)
        && ReadySettles(i, true) !in steps && (FaceRegistered(steps, i) || NeverFetched(steps, i))
  }

  lemma SnocSteps(steps: seq<Step>, e: Step, i: nat)
    ensures forall x :: x in steps + [e] <==> x in steps || x == e
    ensures FacesSettled(steps + [e], i) == FacesSettled(steps, i) + if e.FaceSettles? && e.load == i then 1 else 0
  {
    assert (steps + [e])[..|steps|] == steps;
  }

  lemma OthersAreTold(s: State, steps: seq<Step>, e: Step, i: nat)
    requires Told(s, steps, i) && Enabled(s, e) && !e.Calls? && e.load != i
    ensures Told(Apply(s, e), steps + [e], i)
  {
    SnocSteps(steps, e, i);
    assert |Apply(s, e).loads| == |s.loads| && (i < |s.loads| ==> Apply(s, e).loads[i] == s.loads[i]);
    assert forall faces :: Fetched(steps + [e], i, faces) <==> Fetched(steps, i, faces);
  }

  lemma CallsAreTold(s: State, steps: seq<Step>, e: Step, i: nat)
    requires Told(s, steps, i) && e.Calls?
    ensures Told(Apply(s, e), steps + [e], i)
  {
    SnocSteps(steps, e, i);
    assert forall faces :: Fetched(steps + [e], i, faces) <==> Fetched(steps, i, faces);
  }

  lemma FetchIsTold(s: State, steps: seq<Step>, i: nat, faces: Option<nat>)
    requires Enabled(s, FetchSettles(i, faces)) && Told(s, steps, i)
    ensures Told(Apply(s, FetchSettles(i, faces)), steps + [FetchSettles(i, faces)], i)
  {
    var e := FetchSettles(i, faces);
    SnocSteps(steps, e, i);
    forall n: nat
      ensures Fetched(steps + [e], i, n) <==> faces == Some(n)
    {
      assert !Fetched(steps, i, n);
    }
  }

  lemma FaceIsTold(s: State, steps: seq<Step>, i: nat, ok: bool)
    requires Enabled(s, FaceSettles(i, ok)) && Told(s, steps, i)
    ensures Told(Apply(s, FaceSettles(i, ok)), steps + [FaceSettles(i, ok)], i)
  {
    SnocSteps(steps, FaceSettles(i, ok), i);
  }

  lemma ReadyIsTold(s: State, steps: seq<Step>, i: nat, ok: bool)
    requires Enabled(s, ReadySettles(i, ok)) && Told(s, steps, i)
    ensures Told(Apply(s, ReadySettles(i, ok)), steps + [ReadySettles(i, ok)], i)
  {
    SnocSteps(steps, ReadySettles(i, ok), i);
  }

  lemma {:induction false} RunsAreTold(s: State, before: seq<Step>, steps: seq<Step>, i: nat)
    requires Told(s, before, i) && Follows(s, steps)
    ensures Told(After(s, steps), before + steps, i)
    decreases steps
  {
    if steps == [] {
      assert before + steps == before;
    } else {
      var e := steps[0];
      if e.Calls? {
        CallsAreTold(s, before, e, i);
      } else if e.load == i {
        match e
        case FetchSettles(_, faces) => FetchIsTold(s, before, i, faces);
        case FaceSettles(_, ok) => FaceIsTold(s, before, i, ok);
        case ReadySettles(_, ok) => ReadyIsTold(s, before, i, ok);
      } else {
        OthersAreTold(s, before, e, i);
      }
      assert before + steps == (before + [e]) + steps[1..];
      RunsAreTold(Apply(s, e), before + [e], steps[1..], i);
    }
  }

  /** In every run a load that is over has answered true exactly if some face registered and the
      document became ready; false exactly if its fetch brought faces that have all settled and
      none registered; and it rejected exactly if the fetch threw or failed, or the document
      failed to become ready. */
  lemma LoadsAnswerTruly(steps: seq<Step>, i: nat)
    requires Follows(EMPTY, steps)
    requires i < |After(EMPTY, steps).loads| && After(EMPTY, steps).loads[i].phase.Over?
    ensures var l := After(EMPTY, steps).loads[i];
            && (l.phase.result == Resolved(true) <==>
                  FaceSettles(i, true) in steps && ReadySettles(i, true) in steps)
            && (l.phase.result == Resolved(false) <==>
                  FaceSettles(i, true) !in steps && FetchSettles(i, Some(FacesSettled(steps, i))) in steps)
            && (l.phase.result == Rejected <==>
                  l.threw || FetchSettles(i, None) in steps || ReadySettles(i, false) in steps)
  {
    assert Told(EMPTY, [], i);
    RunsAreTold(EMPTY, [], steps, i);
    assert [] + steps == steps;
    var n := FacesSettled(steps, i);
    assert Fetched(steps, i, n) <==> FetchSettles(i, Some(n)) in steps;
  }
}
