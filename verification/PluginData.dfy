/** The durable record store behind plugin data, and the checks its adapter makes on every
    response. A slot is what the store holds for one owner, scope and key; a slot that no
    one has written yet may still show a read-only legacy record at revision zero. */
module PluginData {
  import opened Wrappers

  const MAX_REVISION: nat := 9_007_199_254_740_991

  const CONFLICT := "plugin-data.conflict"
  const NOT_FOUND := "plugin-data.not-found"
  const INVALID_REQUEST := "plugin-data.invalid-request"
  const INVALID_SCHEMA := "plugin-data.invalid-schema"
  const INVALID_REVISION := "plugin-data.invalid-revision"
  const TRANSPORT_FAILED := "plugin-data.transport-failed"

  datatype Provenance = Provenance(migrationId: string, fromSchemaVersion: nat, toSchemaVersion: nat)

  datatype Record<V> = Record(schemaVersion: nat, revision: nat, value: V, migrations: seq<Provenance>)

  type Slot<V> = Option<Record<V>>

  type Outcome<V> = Result<Record<V>, string>

  /** The slot after an operation, and what the caller is told. */
  datatype Effect<V> = Effect(slot: Slot<V>, outcome: Outcome<V>)

  function Revision<V>(slot: Slot<V>): nat {
    if slot.Some? then slot.value.revision else 0
  }

  function Migrations<V>(slot: Slot<V>): seq<Provenance> {
    if slot.Some? then slot.value.migrations else []
  }

  /** `None` expects that there is no record. */
  predicate Matches<V>(slot: Slot<V>, expected: Option<nat>) {
    match expected
    case None => slot.None?
    case Some(revision) => slot.Some? && slot.value.revision == revision
  }

  function Write<V>(slot: Slot<V>, expected: Option<nat>, schemaVersion: nat, value: V): (r: Effect<V>)
    ensures r.outcome.Failure? ==> r.slot == slot
    ensures r.outcome.Success? <==>
              && schemaVersion != 0
              && (if expected.None? then slot.None? else
                    slot.Some? && slot.value.revision == expected.value < MAX_REVISION)
    ensures r.outcome.Success? ==>
              && r.slot == Some(r.outcome.value)
              && r.outcome.value.schemaVersion == schemaVersion && r.outcome.value.value == value
              && r.outcome.value.revision == expected.GetOr(0) + 1
              && r.outcome.value.migrations == (if slot.Some? then slot.value.migrations else [])
  {
    if schemaVersion == 0 then Effect(slot, Failure(INVALID_SCHEMA))
    else if !Matches(slot, expected) then Effect(slot, Failure(CONFLICT))
    else if MAX_REVISION <= Revision(slot) then Effect(slot, Failure(INVALID_REVISION))
    else
      var record := Record(schemaVersion, Revision(slot) + 1, value, Migrations(slot));
      Effect(Some(record), Success(record))
  }

  /** A migration of one record. One that is already on record is answered with the current
      record, whatever its revision; the adapter then accepts only the revision it expected. */
  function Migrate<V>(slot: Slot<V>, expected: nat, step: Provenance, value: V): (r: Effect<V>)
    ensures r.outcome.Failure? ==> r.slot == slot
    ensures r.outcome.Success? ==> && r.slot == Some(r.outcome.value)
                                   && r.outcome.value.revision == expected + 1
                                   && r.outcome.value.schemaVersion == step.toSchemaVersion
                                   && step in r.outcome.value.migrations
    ensures r.slot != slot ==>
              && slot.Some? && slot.value.revision == expected < MAX_REVISION
              && slot.value.schemaVersion == step.fromSchemaVersion
              && r.slot == Some(Record(step.toSchemaVersion, expected + 1, value, slot.value.migrations + [step]))
    ensures && slot.Some? && slot.value.revision == expected < MAX_REVISION
            && slot.value.schemaVersion == step.fromSchemaVersion
            && 0 < step.fromSchemaVersion && 0 < step.toSchemaVersion != step.fromSchemaVersion
            && (forall m | m in slot.value.migrations :: m.migrationId != step.migrationId)
            ==> r.outcome.Success? && r.slot != slot
  {
    if step.toSchemaVersion == 0 then Effect(slot, Failure(INVALID_SCHEMA))
    else if step.fromSchemaVersion == 0 || step.fromSchemaVersion == step.toSchemaVersion
    then Effect(slot, Failure(INVALID_REQUEST))
    else if slot.None? then Effect(slot, Failure(NOT_FOUND))
    else
      var current := slot.value;
      if step in current.migrations then
        if current.schemaVersion == step.toSchemaVersion && current.revision == expected + 1
        then Effect(slot, Success(current)) else Effect(slot, Failure(TRANSPORT_FAILED))
      else if exists i | 0 <= i < |current.migrations| :: current.migrations[i].migrationId == step.migrationId
      then Effect(slot, Failure(CONFLICT))
      else if current.revision != expected || current.schemaVersion != step.fromSchemaVersion
      then Effect(slot, Failure(CONFLICT))
      else if MAX_REVISION <= current.revision then Effect(slot, Failure(INVALID_REVISION))
      else
        var record := Record(step.toSchemaVersion, expected + 1, value, current.migrations + [step]);
        Effect(Some(record), Success(record))
  }

  /** The store itself: a document of records that its operations replace. */
  class PluginDataStore<K(==,!new), V(==)> {
    var records: map<K, Record<V>>

    function At(key: K): Slot<V>
      reads this
    {
      if key in records then Some(records[key]) else None
    }

    constructor (records: map<K, Record<V>>)
      ensures this.records == records
    {
      this.records := records;
    }

    method Read(key: K) returns (record: Slot<V>)
      ensures record == At(key)
    {
      record := At(key);
    }

    method WriteRecord(key: K, expected: Option<nat>, schemaVersion: nat, value: V) returns (r: Outcome<V>)
      modifies this
      ensures Effect(At(key), r) == Write(old(At(key)), expected, schemaVersion, value)
      ensures records - {key} == old(records) - {key}
    {
      if schemaVersion == 0 {
        return Failure(INVALID_SCHEMA);
      }
      var current := At(key);
      if !Matches(current, expected) {
        return Failure(CONFLICT);
      }
      if MAX_REVISION <= Revision(current) {
        return Failure(INVALID_REVISION);
      }
      var record := Record(schemaVersion, Revision(current) + 1, value, Migrations(current));
      records := records[key := record];
      return Success(record);
    }

    method MigrateRecord(key: K, expected: nat, step: Provenance, value: V) returns (r: Outcome<V>)
      modifies this
      ensures Effect(At(key), r) == Migrate(old(At(key)), expected, step, value)
      ensures records - {key} == old(records) - {key}
    {
      if step.toSchemaVersion == 0 {
        return Failure(INVALID_SCHEMA);
      }
      if step.fromSchemaVersion == 0 || step.fromSchemaVersion == step.toSchemaVersion {
        return Failure(INVALID_REQUEST);
      }
      if key !in records {
        return Failure(NOT_FOUND);
      }
      var current := records[key];
      if step in current.migrations {
        if current.schemaVersion == step.toSchemaVersion && current.revision == expected + 1 {
          return Success(current);
        }
        return Failure(TRANSPORT_FAILED);
      }
      for i := 0 to |current.migrations|
        invariant forall j | 0 <= j < i :: current.migrations[j].migrationId != step.migrationId
      {
        if current.migrations[i].migrationId == step.migrationId {
          return Failure(CONFLICT);
        }
      }
      if current.revision != expected || current.schemaVersion != step.fromSchemaVersion {
        return Failure(CONFLICT);
      }
      if MAX_REVISION <= current.revision {
        return Failure(INVALID_REVISION);
      }
      var record := Record(step.toSchemaVersion, current.revision + 1, value, current.migrations + [step]);
      records := records[key := record];
      return Success(record);
    }
  }
}
