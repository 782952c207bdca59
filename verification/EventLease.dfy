/** One subscription with the variables of its closures. Its context and its counter are shared
    with other subscriptions, which may change them between any two calls. */
module EventLeaseClass {
  import L = EventLeases

  class ActivationContext {
    var active: bool

    constructor ()
      ensures active
    {
      active := true;
    }

    method Dispose()
      modifies this
      ensures !active
    {
      active := false;
    }
  }

  class Counter {
    var last: int

    constructor (start: int)
      ensures last == start
    {
      last := start;
    }
  }

  class EventLease {
    const scope: L.Scope
    const context: ActivationContext
    const counter: Counter
    var active: bool
    var phase: L.Phase
    var chain: seq<L.Link>
    var listening: bool

    ghost function Model(): L.State
      reads this, context, counter
    {
      L.State(scope, context.active, active, phase, counter.last, chain, listening)
    }

    ghost predicate Valid()
      reads this, context, counter
    {
      L.Inv(Model())
    }

    /** `subscribe`, up to the native registration. A delivery subscription brings a counter of
        its own. */
    constructor (scope: L.Scope, context: ActivationContext, counter: Counter)
      requires context.active
      ensures this.scope == scope && this.context == context && this.counter == counter
      ensures Model() == L.Opened(scope, counter.last) && Valid()
    {
      this.scope, this.context, this.counter := scope, context, counter;
      active, chain, listening := true, [], true;
      phase := if scope.Sessions? then L.Owned else L.Opening;
    }

    /** The native callback. */
    method Receive(event: L.Native)
      requires Valid() && listening
      modifies this, counter
      ensures Model() == L.Apply(old(Model()), L.Arrives(event)) && Valid()
    {
      L.StepKeeps(Model(), L.Arrives(event));
      if !L.Accepts(L.State(scope, context.active, active, phase, counter.last, chain, listening), event) {
        return;
      }
      if scope.Deliveries? && event.Frame? {
        counter.last := event.number;
      } else {
        counter.last := counter.last + 1;
      }
      chain := chain + [L.Link(counter.last, event, L.Waiting)];
    }

    /** The chain reaches a link: either the listener is called, or the link is passed over. */
    method Take(k: nat) returns (called: bool)
      requires Valid() && L.MayTake(Model(), k)
      modifies this
      ensures Model() == L.Apply(old(Model()), L.Take(k)) && Valid()
      ensures called <==> chain[k].status.Running?
      ensures called ==> old(active) && old(context.active)
    {
      L.StepKeeps(Model(), L.Take(k));
      if scope.Deliveries? && k > 0 && chain[k - 1].status.Rejects() {
        chain := chain[k := chain[k].(status := L.Dropped)];
        return false;
      }
      called := active && context.active;
      chain := chain[k := chain[k].(status := if called then L.Running else L.Skipped)];
    }

    /** The listener's promise settles. */
    method Settle(k: nat, ok: bool)
      requires Valid() && k < |chain| && chain[k].status.Running?
      modifies this
      ensures Model() == L.Apply(old(Model()), L.Settle(k, ok)) && Valid()
    {
      L.StepKeeps(Model(), L.Settle(k, ok));
      chain := chain[k := chain[k].(status := if ok then L.Delivered else L.Failed)];
    }

    /** The native registration answers. */
    method OpenSettles(ok: bool)
      requires Valid() && phase == L.Opening
      modifies this
      ensures Model() == L.Apply(old(Model()), L.OpenSettles(ok)) && Valid()
    {
      L.StepKeeps(Model(), L.OpenSettles(ok));
      if !ok {
        phase, listening := L.Refused, false;
      } else if context.active {
        phase := L.Owned;
      } else if scope.Repository? {
        active, phase := false, L.Refusing;
      } else {
        phase := L.Refused;
      }
    }

    /** The first `dispose` of the lease, up to the end of its synchronous part. */
    method BeginDispose()
      requires Valid() && phase == L.Owned
      modifies this
      ensures Model() == L.Apply(old(Model()), L.BeginDispose) && Valid()
    {
      L.StepKeeps(Model(), L.BeginDispose);
      active := false;
      if scope.Sessions? {
        phase, listening := L.Draining, false;
      } else {
        phase := L.Unlistening;
      }
    }

    method UnlistenSettles(ok: bool)
      requires Valid() && phase in {L.Unlistening, L.Refusing}
      modifies this
      ensures Model() == L.Apply(old(Model()), L.UnlistenSettles(ok)) && Valid()
    {
      L.StepKeeps(Model(), L.UnlistenSettles(ok));
      listening := listening && !ok;
      if phase == L.Refusing {
        phase := L.Refused;
      } else if ok {
        phase := L.Draining;
      } else {
        phase := L.DisposeFailed;
      }
    }

    /** The native bridge drops the observers of its activations when it closes. */
    method NativeReleases()
      requires Valid() && scope.Deliveries?
      modifies this`listening
      ensures Model() == L.Apply(old(Model()), L.NativeReleases) && Valid()
    {
      L.StepKeeps(Model(), L.NativeReleases);
      listening := false;
    }

    /** `await queue` at the end of the disposal. */
    method FinishDispose() returns (failed: bool)
      requires Valid() && phase == L.Draining && L.LastIsOver(Model())
      modifies this
      ensures Model() == L.Apply(old(Model()), L.Drain) && Valid()
      ensures failed <==> phase == L.DisposeFailed
    {
      L.StepKeeps(Model(), L.Drain);
      failed := scope.Deliveries? && chain != [] && chain[|chain| - 1].status.Rejects();
      phase := if failed then L.DisposeFailed else L.Finished;
    }
  }
}
