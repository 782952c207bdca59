/** First resolution of a record by any number of interleaved, failing and restarting calls of
    one contribution: they all head for the record of a single uninterrupted call. */
module ConfigurationImports {
  import opened Wrappers
  import opened PluginData
  import opened Configuration
  import opened ConfigurationRuns

  /** Every client runs the same contribution and nothing is stored yet. */
  ghost predicate OneContribution<V>(w: World<V>, c: Contribution<V>) {
    w.initial.None? && forall k | 0 <= k < |w.clients| :: w.clients[k] == c
  }

  predicate OnlyResolves<V>(events: seq<Event<V>>) {
    forall k | 0 <= k < |events| && events[k].Call? :: events[k].update.None?
  }

  function Uninterrupted<V>(w: World<V>, c: Contribution<V>): Call<V> {
    Resolve(c, None, w.read)
  }

  /** The record after the first durable step of an uninterrupted call. */
  function Seeded<V>(w: World<V>, c: Contribution<V>): Slot<V> {
    var i := InspectLegacy(c, w.read);
    if i.Default? || i.Legacy? then Seed(c, None, i).slot else None
  }

  /** The record is absent, seeded, or final. */
  predicate OnTrack<V(==)>(w: World<V>, c: Contribution<V>, slot: Slot<V>) {
    slot.None? || slot == Seeded(w, c) || slot == Uninterrupted(w, c).slot
  }

  ghost predicate AnswerOnTrack<V>(w: World<V>, c: Contribution<V>, r: Resolution<V>) {
    var whole := Uninterrupted(w, c);
    && whole.answer.Success?
    && r.record == whole.answer.value.record
    && (r.value == r.record.value || c.validate(r.record.value) == Success(r.value))
  }

  ghost predicate TaskOnTrack<V>(w: World<V>, c: Contribution<V>, slot: Slot<V>, task: Task<V>) {
    var first := InspectLegacy(c, w.read);
    match task
    case Reading(goal) => goal.ForItself?
    case ReadingLegacy(goal) => goal.ForItself? && c.legacySource.Some?
    case Seeding(goal, i) => goal.ForItself? && i == first && (i.Default? || i.Legacy?)
    case Upgrading(goal, record, value, step) =>
      && goal.ForItself? && slot.Some?
      && first.Legacy? && first.migration == Some(step) && value == first.value
      && Seeded(w, c) == Some(record)
    case Updating(_, _, _) => false
    case Done(_, Success(r)) => AnswerOnTrack(w, c, r)
    case _ => true
  }

  ghost predicate Inv<V>(w: World<V>, c: Contribution<V>, s: System<V>) {
    && |s.tasks| == |w.clients|
    && OnTrack(w, c, s.slot)
    && forall k | 0 <= k < |s.tasks| :: TaskOnTrack(w, c, s.slot, s.tasks[k])
  }

  /** The seed of an import that needs a migration, and what the migration makes of it. */
  lemma SeedThenUpgrade<V>(w: World<V>, c: Contribution<V>)
    requires var i := InspectLegacy(c, w.read); i.Legacy? && i.migration.Some? && Seeded(w, c).Some?
    ensures var i := InspectLegacy(c, w.read); var seed := Seeded(w, c).value; var whole := Uninterrupted(w, c);
            && InspectRecord(c, seed) == Outdated(seed, i.value, i.migration.value)
            && whole == Resolved(Upgrade(c, Some(seed), seed, i.value, i.migration.value), i.value)
            && whole.answer.Success?
            && whole.answer.value.record.value == i.value
            && whole.slot == Some(whole.answer.value.record)
            && Upgrade(c, whole.slot, seed, i.value, i.migration.value) == Effect(whole.slot, Success(whole.slot.value))
            && whole.slot.value.schemaVersion == c.schemaVersion
  {
  }

  /** An import in one durable step. */
  lemma SeedIsAll<V>(w: World<V>, c: Contribution<V>)
    requires var i := InspectLegacy(c, w.read); i.Default? || (i.Legacy? && i.migration.None?)
    ensures var i := InspectLegacy(c, w.read); var whole := Uninterrupted(w, c);
            && whole == Resolved(Seed(c, None, i), i.value)
            && Seeded(w, c) == whole.slot
            && (whole.slot.Some? ==> && whole.answer.Success?
                                     && whole.slot == Some(whole.answer.value.record)
                                     && whole.slot.value.value == i.value
                                     && whole.slot.value.schemaVersion == c.schemaVersion)
  {
  }

  lemma ReadOnTrack<V>(w: World<V>, c: Contribution<V>, slot: Slot<V>)
    requires OnTrack(w, c, slot)
    ensures TaskOnTrack(w, c, slot, AfterRead(c, ForItself, slot))
  {
    if slot.Some? {
      var i := InspectLegacy(c, w.read);
      if i.Legacy? && i.migration.Some? {
        SeedThenUpgrade(w, c);
      } else if i.Default? || i.Legacy? {
        SeedIsAll(w, c);
      }
    }
  }

  lemma StepOnTrack<V>(w: World<V>, c: Contribution<V>, slot: Slot<V>, task: Task<V>)
    requires OnTrack(w, c, slot) && TaskOnTrack(w, c, slot, task) && AtStep(c, task)
    ensures var e := StepEffect(c, task, slot);
            && OnTrack(w, c, e.slot)
            && (slot.Some? ==> e.slot.Some?)
            && TaskOnTrack(w, c, e.slot, AfterStep(task, e.outcome))
  {
    var i := InspectLegacy(c, w.read);
    if i.Legacy? && i.migration.Some? {
      if Seeded(w, c).Some? {
        SeedThenUpgrade(w, c);
      }
    } else if i.Default? || i.Legacy? {
      SeedIsAll(w, c);
    }
  }

  lemma NextOnTrack<V>(w: World<V>, c: Contribution<V>, s: System<V>, e: Event<V>)
    requires OneContribution(w, c) && Inv(w, c, s)
    requires e.Call? ==> e.update.None?
    ensures Inv(w, c, Next(w, s, e))
  {
    if e.client < |w.clients| {
      var k := e.client;
      var task, t := s.tasks[k], Next(w, s, e);
      assert TaskOnTrack(w, c, s.slot, task);
      if e.StepRuns? && AtStep(c, task) {
        StepOnTrack(w, c, s.slot, task);
      } else if e.ReadReturns? && task.Reading? {
        ReadOnTrack(w, c, s.slot);
      }
      assert OnTrack(w, c, t.slot) && (s.slot.Some? ==> t.slot.Some?);
      assert TaskOnTrack(w, c, t.slot, t.tasks[k]);
      forall j | 0 <= j < |t.tasks| && j != k
        ensures TaskOnTrack(w, c, t.slot, t.tasks[j])
      {
        assert TaskOnTrack(w, c, s.slot, s.tasks[j]);
      }
    }
  }

  lemma {:induction false} RunOnTrack<V>(w: World<V>, c: Contribution<V>, events: seq<Event<V>>)
    requires OneContribution(w, c) && OnlyResolves(events)
    ensures Inv(w, c, Run(w, events))
  {
    if events != [] {
      var front := events[..|events| - 1];
      assert forall k | 0 <= k < |front| && front[k].Call? :: front[k] == events[k];
      RunOnTrack(w, c, front);
      NextOnTrack(w, c, Run(w, front), events[|events| - 1]);
    }
  }

  /** Crash safety of the first resolution. Let any number of calls start from an absent record,
      interleave, fail, lose answers and stop anywhere: the record is always absent, the seed,
      or the record of one uninterrupted call, and every call that succeeds returns that record.
      Its value is the record's, or the record's value once more validated. */
  lemma ImportsAreConfluent<V>(w: World<V>, c: Contribution<V>, events: seq<Event<V>>)
    requires OneContribution(w, c) && OnlyResolves(events)
    ensures var s := Run(w, events); var whole := Uninterrupted(w, c);
            && (s.slot.None? || s.slot == Seeded(w, c) || s.slot == whole.slot)
            && forall k | 0 <= k < |s.tasks| && s.tasks[k].Done? && s.tasks[k].answer.Success? ::
                 AnswerOnTrack(w, c, s.tasks[k].answer.value)
  {
    RunOnTrack(w, c, events);
    var s := Run(w, events);
    forall k | 0 <= k < |s.tasks| && s.tasks[k].Done? && s.tasks[k].answer.Success?
      ensures AnswerOnTrack(w, c, s.tasks[k].answer.value)
    {
      assert TaskOnTrack(w, c, s.slot, s.tasks[k]);
    }
  }
}
