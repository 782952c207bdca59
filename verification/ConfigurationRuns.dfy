/** Any number of configuration runtimes, each with its own contribution for the same record,
    interleaved at every `await`. A durable step may also fail before or after taking effect,
    and a call may stop for good at any point. */
module ConfigurationRuns {
  import opened Wrappers
  import opened PluginData
  import opened Configuration

  /** What a call does once its resolution is there. */
  datatype Goal<V> = ForItself | ForUpdate(requested: V, valid: V)

  /** Where a client's call is suspended. */
  datatype Task<!V> =
    | Idle
    | Reading(goal: Goal<V>)                                   // readRecord
    | ReadingLegacy(goal: Goal<V>)                             // there was no record
    | Seeding(goal: Goal<V>, inspection: Inspection<V>)        // writeRecord of a default or legacy value
    | Upgrading(goal: Goal<V>, record: Record<V>, value: V, step: Migration<V>)  // migrateRecords
    | Updating(current: Resolution<V>, requested: V, valid: V) // writeRecord of an update
    | Done(update: Option<V>, answer: Answer<V>)               // None unless the call was an update

  datatype Cause<!V> = Seeded | Migrated(step: Migration<V>) | Updated(base: Resolution<V>, requested: V)

  /** One change of the durable record. */
  datatype Change<!V> = Change(client: nat, before: Slot<V>, after: Record<V>, cause: Cause<V>)

  datatype World<!V> = World(clients: seq<Contribution<V>>, read: LegacyRead<V>, initial: Slot<V>)

  datatype System<!V> = System(slot: Slot<V>, tasks: seq<Task<V>>, changes: seq<Change<V>>)

  datatype Event<V> =
    | Call(client: nat, update: Option<V>)
    | ReadReturns(client: nat)
    | LegacyReturns(client: nat, available: bool)
    | StepRuns(client: nat, heard: bool)   // the durable step takes effect; its answer may get lost
    | StepFails(client: nat, code: string) // denied, cancelled or failed without effect
    | Stops(client: nat)

  function Start<V>(w: World<V>): System<V> {
    System(w.initial, seq(|w.clients|, _ => Idle), [])
  }

  /** The value an update was called with. */
  function Requested<V>(task: Task<V>): Option<V> {
    match task
    case Idle => None
    case Updating(_, requested, _) => Some(requested)
    case Done(update, _) => update
    case _ => if task.goal.ForUpdate? then Some(task.goal.requested) else None
  }

  function Failed<V>(task: Task<V>, code: string): Task<V> {
    Done(Requested(task), Failure(code))
  }

  function Finished<V>(goal: Goal<V>, r: Resolution<V>): Task<V> {
    match goal
    case ForItself => Done(None, Success(r))
    case ForUpdate(requested, valid) => Updating(r, requested, valid)
  }

  /** `apply` up to its first durable step. */
  function Proceed<V>(goal: Goal<V>, i: Inspection<V>): Task<V> {
    match i
    case Invalid(code) => Failed(Reading(goal), code)
    case Stored(record, value) => Finished(goal, Resolution(record, value, false))
    case Default(_) => Seeding(goal, i)
    case Legacy(_, _, _) => Seeding(goal, i)
    case Outdated(record, value, step) => Upgrading(goal, record, value, step)
  }

  function AfterRead<V>(c: Contribution<V>, goal: Goal<V>, slot: Slot<V>): Task<V> {
    if slot.Some? then Proceed(goal, InspectRecord(c, slot.value))
    else if c.legacySource.Some? then ReadingLegacy(goal)
    else Proceed(goal, Default(c.defaults))
  }

  predicate Seeds<V>(c: Contribution<V>, i: Inspection<V>) {
    i.Default? || (i.Legacy? && c.legacySource.Some?)
  }

  /** The durable step a task is suspended on, if any. */
  predicate AtStep<V>(c: Contribution<V>, task: Task<V>) {
    (task.Seeding? && Seeds(c, task.inspection)) || task.Upgrading? || task.Updating?
  }

  function StepEffect<V>(c: Contribution<V>, task: Task<V>, slot: Slot<V>): Effect<V>
    requires AtStep(c, task)
  {
    match task
    case Seeding(_, i) => Seed(c, slot, i)
    case Upgrading(_, record, value, step) => Upgrade(c, slot, record, value, step)
    case Updating(current, _, valid) => Write(slot, Some(current.record.revision), c.schemaVersion, valid)
  }

  function AfterStep<V>(task: Task<V>, outcome: Outcome<V>): Task<V>
    requires task.Seeding? || task.Upgrading? || task.Updating?
    requires task.Seeding? ==> task.inspection.Default? || task.inspection.Legacy?
  {
    match outcome
    case Failure(code) => Failed(task, code)
    case Success(record) =>
      match task
      case Seeding(goal, i) =>
        if i.Legacy? && i.migration.Some? then Upgrading(goal, record, i.value, i.migration.value)
        else Finished(goal, Resolution(record, i.value, true))
      case Upgrading(goal, _, value, _) => Finished(goal, Resolution(record, value, true))
      case Updating(_, requested, valid) => Done(Some(requested), Success(Resolution(record, valid, true)))
  }

  function CauseOf<V>(task: Task<V>): Cause<V> {
    match task
    case Upgrading(_, _, _, step) => Migrated(step)
    case Updating(current, requested, _) => Updated(current, requested)
    case _ => Seeded
  }

  function Put<V>(s: System<V>, client: nat, task: Task<V>): System<V>
    requires client < |s.tasks|
  {
    s.(tasks := s.tasks[client := task])
  }

  function RunStep<V(==)>(c: Contribution<V>, s: System<V>, k: nat, heard: bool): System<V>
    requires k < |s.tasks| && AtStep(c, s.tasks[k])
  {
    var task := s.tasks[k];
    var e := StepEffect(c, task, s.slot);
    var next := if heard then AfterStep(task, e.outcome) else Failed(task, TRANSPORT_FAILED);
    var t := Put(s, k, next).(slot := e.slot);
    // A replayed migration answers with the current record and changes nothing.
    if e.slot == s.slot || e.slot.None? then t
    else t.(changes := t.changes + [Change(k, s.slot, e.slot.value, CauseOf(task))])
  }

  /** An event that cannot happen leaves the system unchanged. */
  function Next<V(==)>(w: World<V>, s: System<V>, e: Event<V>): System<V>
    requires |s.tasks| == |w.clients|
  {
    if |w.clients| <= e.client then s
    else
      var k := e.client;
      var c, task := w.clients[k], s.tasks[k];
      match e
      case Call(_, update) =>
        if !task.Idle? && !task.Done? then s
        else if update.None? then Put(s, k, Reading(ForItself))
        else (match c.validate(update.value)
              case Failure(code) => Put(s, k, Done(update, Failure(code)))
              case Success(valid) => Put(s, k, Reading(ForUpdate(update.value, valid))))
      case ReadReturns(_) =>
        if task.Reading? then Put(s, k, AfterRead(c, task.goal, s.slot)) else s
      case LegacyReturns(_, available) =>
        if task.ReadingLegacy?
        then Put(s, k, Proceed(task.goal, InspectLegacy(c, if available then w.read else Unavailable))) else s
      case StepRuns(_, heard) => if AtStep(c, task) then RunStep(c, s, k, heard) else s
      case StepFails(_, code) =>
        if task.Idle? || task.Done? then s else Put(s, k, Failed(task, code))
      case Stops(_) => Put(s, k, Idle)
  }

  function Run<V(==)>(w: World<V>, events: seq<Event<V>>): (s: System<V>)
    ensures |s.tasks| == |w.clients|
  {
    if events == [] then Start(w)
    else Next(w, Run(w, events[..|events| - 1]), events[|events| - 1])
  }

  // ----- safety of any interleaving -----

  /** The record a first write makes: of the defaults, or of what the legacy reader has, as the
      contribution transforms it. */
  predicate FairSeed<V(==)>(c: Contribution<V>, read: LegacyRead<V>, record: Record<V>) {
    && record.revision == 1 && record.migrations == []
    && ((record.schemaVersion == c.schemaVersion && record.value == c.defaults)
        || (&& c.legacySource.Some? && read.Found?
            && record.schemaVersion == c.legacySource.value.schemaVersion <= c.schemaVersion
            && var imported := c.legacySource.value.transform(read.value);
            && imported.Some?
            && if record.schemaVersion == c.schemaVersion then c.validate(imported.value) == Success(record.value)
               else record.value == imported.value))
  }

  /** The contribution has the migration, and it leads from one value to another. */
  ghost predicate Leads<V>(c: Contribution<V>, step: Migration<V>, from: Record<V>, value: V) {
    && step in c.migrations && step.fromSchemaVersion == from.schemaVersion < c.schemaVersion
    && var migrated := step.migrate(from.value);
    && migrated.Success? && c.validate(migrated.value) == Success(value)
  }

  /** What one change may do, given the contribution of the client that made it. */
  ghost predicate FairChange<V>(c: Contribution<V>, read: LegacyRead<V>, change: Change<V>) {
    match change.cause
    case Seeded => change.before.None? && FairSeed(c, read, change.after)
    case Migrated(step) =>
      && change.before.Some?
      && var older := change.before.value;
      && Leads(c, step, older, change.after.value)
      && change.after == Record(c.schemaVersion, older.revision + 1, change.after.value,
           older.migrations + [Provenance(step.migrationId, older.schemaVersion, c.schemaVersion)])
    case Updated(base, requested) =>
      && change.before == Some(base.record) && base.record.schemaVersion == c.schemaVersion
      && c.validate(requested) == Success(change.after.value)
      && change.after == base.record.(revision := base.record.revision + 1, value := change.after.value)
  }

  ghost predicate Link<V>(w: World<V>, changes: seq<Change<V>>, k: nat)
    requires k < |changes|
  {
    && changes[k].client < |w.clients|
    && FairChange(w.clients[changes[k].client], w.read, changes[k])
    && changes[k].before == (if k == 0 then w.initial else Some(changes[k - 1].after))
    && changes[k].after.revision == Revision(w.initial) + k + 1
  }

  ghost predicate Chained<V>(w: World<V>, slot: Slot<V>, changes: seq<Change<V>>) {
    && (forall k | 0 <= k < |changes| :: Link(w, changes, k))
    && slot == (if changes == [] then w.initial else Some(changes[|changes| - 1].after))
  }

  /** The record was once in the slot. */
  ghost predicate Known<V>(w: World<V>, changes: seq<Change<V>>, record: Record<V>) {
    w.initial == Some(record) || exists k | 0 <= k < |changes| :: changes[k].after == record
  }

  /** The change that made the record was a migration. */
  ghost predicate CameByMigration<V>(changes: seq<Change<V>>, record: Record<V>) {
    exists k | 0 <= k < |changes| :: changes[k].after == record && changes[k].cause.Migrated?
  }

  ghost predicate GoalOk<V>(c: Contribution<V>, goal: Goal<V>) {
    goal.ForUpdate? ==> c.validate(goal.requested) == Success(goal.valid)
  }

  /** What a call may answer. Whoever writes answers with the value written; a migration that
      somebody else made first is answered with the record found. */
  ghost predicate AnswerOk<V>(changes: seq<Change<V>>, c: Contribution<V>, requested: Option<V>, r: Resolution<V>) {
    && r.record.schemaVersion == c.schemaVersion
    && match requested
       case Some(value) => c.validate(value) == Success(r.value) && r.record.value == r.value && r.changed
       case None =>
         if !r.changed then c.validate(r.record.value) == Success(r.value)
         else r.record.value == r.value || CameByMigration(changes, r.record)
  }

  ghost predicate SeedOk<V>(c: Contribution<V>, read: LegacyRead<V>, i: Inspection<V>) {
    && Seeds(c, i)
    && (i.Default? ==> i.value == c.defaults)
    && (i.Legacy? ==>
          && var source := c.legacySource.value;
          && read.Found? && source.transform(read.value) == Some(i.legacyValue)
          && match i.migration
             case None => source.schemaVersion == c.schemaVersion && c.validate(i.legacyValue) == Success(i.value)
             case Some(step) => Leads(c, step, Record(source.schemaVersion, 1, i.legacyValue, []), i.value))
  }

  ghost predicate TaskOk<V>(w: World<V>, changes: seq<Change<V>>, c: Contribution<V>, task: Task<V>) {
    match task
    case Idle => true
    case Reading(goal) => GoalOk(c, goal)
    case ReadingLegacy(goal) => GoalOk(c, goal)
    case Seeding(goal, i) => GoalOk(c, goal) && SeedOk(c, w.read, i)
    case Upgrading(goal, record, value, step) =>
      GoalOk(c, goal) && Known(w, changes, record) && Leads(c, step, record, value)
    case Updating(current, requested, valid) =>
      && Known(w, changes, current.record) && current.record.schemaVersion == c.schemaVersion
      && c.validate(requested) == Success(valid)
    case Done(_, Failure(_)) => true
    case Done(requested, Success(r)) => Known(w, changes, r.record) && AnswerOk(changes, c, requested, r)
  }

  ghost predicate Inv<V>(w: World<V>, s: System<V>) {
    && |s.tasks| == |w.clients|
    && Chained(w, s.slot, s.changes)
    && forall k | 0 <= k < |s.tasks| :: TaskOk(w, s.changes, w.clients[k], s.tasks[k])
  }

  /** Revisions identify records: one that was once in the slot and has the slot's revision
      is the one in the slot. */
  lemma SameRevisionSameRecord<V>(w: World<V>, s: System<V>, record: Record<V>)
    requires Inv(w, s) && Known(w, s.changes, record)
    ensures s.slot.Some? && record.revision <= s.slot.value.revision
    ensures record.revision == s.slot.value.revision ==> s.slot == Some(record)
  {
    if w.initial != Some(record) {
      var k :| 0 <= k < |s.changes| && s.changes[k].after == record;
      assert Link(w, s.changes, k);
    }
    if 0 < |s.changes| {
      assert Link(w, s.changes, |s.changes| - 1);
    }
  }

  /** A durable step leaves the slot alone or makes a fair change, and its answer is the
      record now in the slot. */
  lemma EffectIsFair<V>(w: World<V>, s: System<V>, k: nat)
    requires Inv(w, s) && k < |w.clients| && AtStep(w.clients[k], s.tasks[k])
    ensures var c, task := w.clients[k], s.tasks[k]; var e := StepEffect(c, task, s.slot);
            && (e.slot != s.slot ==>
                  e.slot.Some? && FairChange(c, w.read, Change(k, s.slot, e.slot.value, CauseOf(task))))
            && (e.outcome.Success? ==> e.slot == Some(e.outcome.value) && TaskOk(w, s.changes, c, task))
            && (e.outcome.Success? && !task.Seeding? ==> e.outcome.value.schemaVersion == c.schemaVersion)
            && (e.outcome.Success? && task.Seeding? ==>
                  e.outcome.value.schemaVersion ==
                    (if task.inspection.Legacy? then c.legacySource.value.schemaVersion else c.schemaVersion))
  {
    var c, task := w.clients[k], s.tasks[k];
    assert TaskOk(w, s.changes, c, task);
    if task.Upgrading? {
      SameRevisionSameRecord(w, s, task.record);
    } else if task.Updating? {
      SameRevisionSameRecord(w, s, task.current.record);
    }
  }

  lemma ChangeKeepsChain<V>(w: World<V>, s: System<V>, t: System<V>, change: Change<V>)
    requires Chained(w, s.slot, s.changes)
    requires change.client < |w.clients| && change.before == s.slot
    requires FairChange(w.clients[change.client], w.read, change)
    requires t.slot == Some(change.after) && t.changes == s.changes + [change]
    ensures Chained(w, t.slot, t.changes)
  {
    forall k | 0 <= k < |t.changes|
      ensures Link(w, t.changes, k)
    {
      if 0 < |s.changes| {
        assert Link(w, s.changes, |s.changes| - 1);
      }
      assert k < |s.changes| ==> Link(w, s.changes, k);
    }
  }

  lemma KnownStays<V>(w: World<V>, s: System<V>, t: System<V>, record: Record<V>)
    requires s.changes <= t.changes && Known(w, s.changes, record)
    ensures Known(w, t.changes, record)
  {
    if w.initial != Some(record) {
      var k :| 0 <= k < |s.changes| && s.changes[k].after == record;
      assert t.changes[k].after == record;
    }
  }

  lemma TaskStays<V>(w: World<V>, s: System<V>, t: System<V>, c: Contribution<V>, task: Task<V>)
    requires s.changes <= t.changes && TaskOk(w, s.changes, c, task)
    ensures TaskOk(w, t.changes, c, task)
  {
    match task
    case Upgrading(_, record, _, _) => KnownStays(w, s, t, record);
    case Updating(current, _, _) => KnownStays(w, s, t, current.record);
    case Done(_, Success(r)) => KnownStays(w, s, t, r.record);
    case _ =>
  }

  lemma StepKeepsChain<V>(w: World<V>, s: System<V>, k: nat, heard: bool)
    requires Inv(w, s) && k < |w.clients| && AtStep(w.clients[k], s.tasks[k])
    ensures var t := RunStep(w.clients[k], s, k, heard); Chained(w, t.slot, t.changes) && s.changes <= t.changes
  {
    var c, task := w.clients[k], s.tasks[k];
    var e, t := StepEffect(c, task, s.slot), RunStep(c, s, k, heard);
    EffectIsFair(w, s, k);
    if e.slot != s.slot {
      ChangeKeepsChain(w, s, t, Change(k, s.slot, e.slot.value, CauseOf(task)));
    }
  }

  lemma SlotIsKnown<V>(w: World<V>, s: System<V>)
    requires Chained(w, s.slot, s.changes) && s.slot.Some?
    ensures Known(w, s.changes, s.slot.value)
  {
  }

  /** A record one revision after a known record of an older version came by migration. */
  lemma NextCameByMigration<V>(w: World<V>, s: System<V>, record: Record<V>)
    requires Inv(w, s) && Known(w, s.changes, record) && s.slot.Some?
    requires s.slot.value.revision == record.revision + 1 && s.slot.value.schemaVersion != record.schemaVersion
    ensures CameByMigration(s.changes, s.slot.value)
  {
    var last := |s.changes| - 1;
    if w.initial != Some(record) {
      var k :| 0 <= k < |s.changes| && s.changes[k].after == record;
      assert Link(w, s.changes, k);
    }
    assert Link(w, s.changes, last);
    assert s.changes[last].before == Some(record);
  }

  lemma StepIsFair<V>(w: World<V>, s: System<V>, k: nat, heard: bool)
    requires Inv(w, s) && k < |w.clients| && AtStep(w.clients[k], s.tasks[k])
    ensures Inv(w, RunStep(w.clients[k], s, k, heard))
  {
    var c, task := w.clients[k], s.tasks[k];
    var e, t := StepEffect(c, task, s.slot), RunStep(c, s, k, heard);
    EffectIsFair(w, s, k);
    StepKeepsChain(w, s, k, heard);
    if e.outcome.Success? {
      SlotIsKnown(w, t);
      if task.Upgrading? && e.outcome.value.value != task.value {
        NextCameByMigration(w, s, task.record);
      }
    }
    assert TaskOk(w, t.changes, c, t.tasks[k]);
    forall j | 0 <= j < |t.tasks| && j != k
      ensures TaskOk(w, t.changes, w.clients[j], t.tasks[j])
    {
      TaskStays(w, s, t, w.clients[j], s.tasks[j]);
    }
  }

  /** Any other event moves one task and leaves the record alone. */
  lemma PutKeeps<V>(w: World<V>, s: System<V>, k: nat, task: Task<V>)
    requires Inv(w, s) && k < |s.tasks| && TaskOk(w, s.changes, w.clients[k], task)
    ensures Inv(w, Put(s, k, task))
  {
    var t := Put(s, k, task);
    assert Chained(w, t.slot, t.changes);
    TaskStays(w, s, t, w.clients[k], task);
    forall j | 0 <= j < |t.tasks| && j != k
      ensures TaskOk(w, t.changes, w.clients[j], t.tasks[j])
    {
      TaskStays(w, s, t, w.clients[j], s.tasks[j]);
    }
  }

  lemma ReadIsFair<V>(w: World<V>, s: System<V>, k: nat)
    requires Inv(w, s) && k < |w.clients| && s.tasks[k].Reading?
    ensures TaskOk(w, s.changes, w.clients[k], AfterRead(w.clients[k], s.tasks[k].goal, s.slot))
  {
    assert TaskOk(w, s.changes, w.clients[k], s.tasks[k]);
    if s.slot.Some? {
      SlotIsKnown(w, s);
    }
  }

  lemma NextKeeps<V>(w: World<V>, s: System<V>, e: Event<V>)
    requires Inv(w, s)
    ensures Inv(w, Next(w, s, e))
  {
    if e.client < |w.clients| {
      var k := e.client;
      var c, task := w.clients[k], s.tasks[k];
      assert TaskOk(w, s.changes, c, task);
      if e.StepRuns? && AtStep(c, task) {
        StepIsFair(w, s, k, e.heard);
      } else if e.ReadReturns? && task.Reading? {
        ReadIsFair(w, s, k);
        PutKeeps(w, s, k, AfterRead(c, task.goal, s.slot));
      } else if !e.StepRuns? && !e.ReadReturns? && Next(w, s, e) != s {
        PutKeeps(w, s, k, Next(w, s, e).tasks[k]);
      }
    }
  }

  lemma {:induction false} RunKeeps<V>(w: World<V>, events: seq<Event<V>>)
    ensures Inv(w, Run(w, events))
  {
    if events != [] {
      RunKeeps(w, events[..|events| - 1]);
      NextKeeps(w, Run(w, events[..|events| - 1]), events[|events| - 1]);
    }
  }

  /** A change raises the revision by one and never lowers the schema version, and its author
      knows the schema it leaves behind. */
  predicate Rises<V>(w: World<V>, change: Change<V>) {
    && change.client < |w.clients|
    && change.after.revision == Revision(change.before) + 1
    && change.after.schemaVersion <= w.clients[change.client].schemaVersion
    && (change.before.Some? ==> change.before.value.schemaVersion <= change.after.schemaVersion)
    && Migrations(change.before) <= change.after.migrations
  }

  /** However calls of runtimes with different schema versions interleave, fail or stop, the
      changes of the record form one gap-free chain of revisions; no change lowers the schema
      version or touches a record newer than its author's contribution; a seed only ever
      creates the record, with the defaults or the imported legacy value; a migration makes of
      the record before it what its contribution's migration leads to; and an update replaces
      exactly the record its own resolve returned, by the validated value of its call. */
  lemma ChangesFormAChain<V>(w: World<V>, events: seq<Event<V>>)
    ensures var s := Run(w, events);
            && Chained(w, s.slot, s.changes)
            && forall k | 0 <= k < |s.changes| :: Rises(w, s.changes[k])
  {
    RunKeeps(w, events);
    var s := Run(w, events);
    forall k | 0 <= k < |s.changes|
      ensures Rises(w, s.changes[k])
    {
      assert Link(w, s.changes, k);
    }
  }

  /** No update is lost: a successful call's record was in the slot at the caller's schema
      version, and later records only have higher revisions. The record of an update holds the
      answered value, which is the validated value of the call. */
  lemma AnswersWereStored<V>(w: World<V>, events: seq<Event<V>>, k: nat)
    requires k < |w.clients| && Run(w, events).tasks[k].Done? && Run(w, events).tasks[k].answer.Success?
    ensures var s := Run(w, events); var r := s.tasks[k].answer.value;
            && Known(w, s.changes, r.record)
            && r.record.schemaVersion == w.clients[k].schemaVersion
            && s.slot.Some? && r.record.revision <= s.slot.value.revision
            && (r.record.revision == s.slot.value.revision ==> s.slot.value == r.record)
            && AnswerOk(s.changes, w.clients[k], s.tasks[k].update, r)
            && (s.tasks[k].update.Some? ==>
                  w.clients[k].validate(s.tasks[k].update.value) == Success(r.value) && r.record.value == r.value)
  {
    RunKeeps(w, events);
    var s := Run(w, events);
    assert TaskOk(w, s.changes, w.clients[k], s.tasks[k]);
    SameRevisionSameRecord(w, s, s.tasks[k].answer.value.record);
  }

  // ----- the values that updates were called with -----

  /** Some earlier event called an update of this value. */
  predicate WasRequested<V(==)>(events: seq<Event<V>>, client: nat, value: V) {
    Event.Call(client, Some(value)) in events
  }

  ghost predicate AllRequested<V>(s: System<V>, events: seq<Event<V>>) {
    && (forall k | 0 <= k < |s.tasks| && Requested(s.tasks[k]).Some? ::
          WasRequested(events, k, Requested(s.tasks[k]).value))
    && (forall k | 0 <= k < |s.changes| && s.changes[k].cause.Updated? ::
          WasRequested(events, s.changes[k].client, s.changes[k].cause.requested))
  }

  lemma StepRequestsNothing<V>(c: Contribution<V>, s: System<V>, k: nat, heard: bool)
    requires k < |s.tasks| && AtStep(c, s.tasks[k])
    ensures var t := RunStep(c, s, k, heard);
            && Requested(t.tasks[k]) == Requested(s.tasks[k])
            && (t.changes == s.changes
                || (&& |t.changes| == |s.changes| + 1 && t.changes[..|s.changes|] == s.changes
                    && var change := t.changes[|s.changes|];
                    && change.client == k
                    && (change.cause.Updated? ==> Requested(s.tasks[k]) == Some(change.cause.requested))))
  {
  }

  lemma OthersRequestTheirCall<V>(w: World<V>, s: System<V>, e: Event<V>)
    requires |s.tasks| == |w.clients| && e.client < |w.clients|
    requires !(e.StepRuns? && AtStep(w.clients[e.client], s.tasks[e.client]))
    ensures var t := Next(w, s, e); var task := Requested(t.tasks[e.client]);
            && t.changes == s.changes && t.tasks == s.tasks[e.client := t.tasks[e.client]]
            && (task.None? || task == Requested(s.tasks[e.client]) || e == Event.Call(e.client, task))
  {
  }

  lemma StepIsRequested<V>(c: Contribution<V>, s: System<V>, events: seq<Event<V>>, k: nat, heard: bool)
    requires AllRequested(s, events) && k < |s.tasks| && AtStep(c, s.tasks[k])
    ensures AllRequested(RunStep(c, s, k, heard), events)
  {
    StepRequestsNothing(c, s, k, heard);
    var t := RunStep(c, s, k, heard);
    forall j | 0 <= j < |t.changes| && t.changes[j].cause.Updated?
      ensures WasRequested(events, t.changes[j].client, t.changes[j].cause.requested)
    {
      if j < |s.changes| {
        assert t.changes[j] == s.changes[j];
      }
    }
  }

  lemma RequestsStay<V>(s: System<V>, events: seq<Event<V>>, e: Event<V>)
    requires AllRequested(s, events)
    ensures AllRequested(s, events + [e])
  {
  }

  lemma NextIsRequested<V>(w: World<V>, s: System<V>, events: seq<Event<V>>, e: Event<V>)
    requires |s.tasks| == |w.clients| && AllRequested(s, events)
    ensures AllRequested(Next(w, s, e), events + [e])
  {
    RequestsStay(s, events, e);
    if e.client < |w.clients| {
      if e.StepRuns? && AtStep(w.clients[e.client], s.tasks[e.client]) {
        StepIsRequested(w.clients[e.client], s, events + [e], e.client, e.heard);
      } else {
        OthersRequestTheirCall(w, s, e);
      }
    }
  }

  /** Every update that a run stores or answers was called by that client, with that value. */
  lemma {:induction false} UpdatesWereRequested<V>(w: World<V>, events: seq<Event<V>>)
    ensures AllRequested(Run(w, events), events)
  {
    if events != [] {
      UpdatesWereRequested(w, events[..|events| - 1]);
      NextIsRequested(w, Run(w, events[..|events| - 1]), events[..|events| - 1], events[|events| - 1]);
      assert events == events[..|events| - 1] + [events[|events| - 1]];
    }
  }
}
