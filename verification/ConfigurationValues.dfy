/** What a single configuration call stores and answers, value for value. */
module ConfigurationValues {
  import opened Wrappers
  import opened PluginData
  import opened Configuration

  /** Migration `k` is the first one that starts at the given schema version. */
  predicate FirstFrom<V>(migrations: seq<Migration<V>>, fromSchemaVersion: nat, k: int) {
    && 0 <= k < |migrations|
    && migrations[k].fromSchemaVersion == fromSchemaVersion
    && forall j | 0 <= j < k :: migrations[j].fromSchemaVersion != fromSchemaVersion
  }

  lemma {:induction false} FirstIsFound<V>(migrations: seq<Migration<V>>, fromSchemaVersion: nat, k: int)
    requires FirstFrom(migrations, fromSchemaVersion, k)
    ensures FindMigration(migrations, fromSchemaVersion) == Some(migrations[k])
  {
    if k != 0 {
      assert migrations[0].fromSchemaVersion != fromSchemaVersion;
      assert forall j | 0 <= j < k - 1 :: migrations[1..][j] == migrations[j + 1];
      FirstIsFound(migrations[1..], fromSchemaVersion, k - 1);
    }
  }

  /** Migrating and then validating the given value leads to `result`. */
  predicate LeadsTo<V(==)>(c: Contribution<V>, step: Migration<V>, value: V, result: Validation<V>) {
    var migrated := step.migrate(value);
    result == if migrated.Failure? then Failure(migrated.error) else c.validate(migrated.value)
  }

  /** The record a migration makes of an older one. */
  predicate IsMigrated<V(==)>(c: Contribution<V>, older: Record<V>, step: Migration<V>, value: V, newer: Record<V>) {
    && newer.schemaVersion == c.schemaVersion
    && newer.revision == older.revision + 1
    && newer.value == value
    && newer.migrations ==
       older.migrations + [Provenance(step.migrationId, older.schemaVersion, c.schemaVersion)]
  }

  // ----- resolve -----

  /** A record at the contribution's schema version is left alone and answered as validated. */
  lemma StoredIsAnswered<V>(c: Contribution<V>, record: Record<V>, read: LegacyRead<V>)
    requires record.schemaVersion == c.schemaVersion
    ensures var call := Resolve(c, Some(record), read); var valid := c.validate(record.value);
            && call.slot == Some(record)
            && call.answer == if valid.Failure? then Failure(valid.error)
                              else Success(Resolution(record, valid.value, false))
  {
  }

  /** An older record is replaced by what the first migration from its version makes of it, and
      that value is the answer. It stays as it was when the call fails: when there is no such
      migration, when the value is refused, when the record is already marked with the
      migration's id, or when it is at schema version 0 or at the last revision. */
  lemma OlderIsMigrated<V>(c: Contribution<V>, record: Record<V>, read: LegacyRead<V>, k: int, result: Validation<V>)
    requires record.schemaVersion < c.schemaVersion
    requires FirstFrom(c.migrations, record.schemaVersion, k) && LeadsTo(c, c.migrations[k], record.value, result)
    ensures var call := Resolve(c, Some(record), read);
            && (call.answer.Success? <==>
                  && result.Success? && 0 < record.schemaVersion && record.revision < MAX_REVISION
                  && forall m | m in record.migrations :: m.migrationId != c.migrations[k].migrationId)
            && (call.answer.Success? ==>
                  && call.slot == Some(call.answer.value.record) && call.answer.value.changed
                  && call.answer.value.value == result.value
                  && IsMigrated(c, record, c.migrations[k], result.value, call.answer.value.record))
            && (call.answer.Failure? ==> call.slot == Some(record))
            && (result.Failure? ==> call.answer == Failure(result.error))
  {
    FirstIsFound(c.migrations, record.schemaVersion, k);
  }

  /** A record that no migration starts from, or one of a newer version, is left alone. */
  lemma OthersAreRefused<V>(c: Contribution<V>, record: Record<V>, read: LegacyRead<V>)
    ensures record.schemaVersion > c.schemaVersion ==>
              Resolve(c, Some(record), read) == Call(Some(record), Failure(UNSUPPORTED_SCHEMA))
    ensures record.schemaVersion < c.schemaVersion
            && (forall m | m in c.migrations :: m.fromSchemaVersion != record.schemaVersion) ==>
              Resolve(c, Some(record), read) == Call(Some(record), Failure(MIGRATION_MISSING))
  {
  }

  /** Without a record and without a legacy value the defaults are stored and answered. */
  lemma DefaultsAreStored<V>(c: Contribution<V>, read: LegacyRead<V>)
    requires c.schemaVersion != 0 && (c.legacySource.None? || read.Missing?)
    ensures var record := Record(c.schemaVersion, 1, c.defaults, []);
            Resolve(c, None, read) == Call(Some(record), Success(Resolution(record, c.defaults, true)))
  {
  }

  /** A legacy value of the contribution's version is stored as transformed and validated. */
  lemma LegacyIsImported<V>(c: Contribution<V>, read: V)
    requires c.schemaVersion != 0 && c.legacySource.Some?
    requires var source := c.legacySource.value;
             source.schemaVersion == c.schemaVersion && source.transform(read).Some?
    ensures var call := Resolve(c, None, Found(read));
            var valid := c.validate(c.legacySource.value.transform(read).value);
            call == if valid.Failure? then Call(None, Failure(valid.error)) else
                    var record := Record(c.schemaVersion, 1, valid.value, []);
                    Call(Some(record), Success(Resolution(record, valid.value, true)))
  {
  }

  /** An older legacy value is stored as transformed, at revision 1 and its own version, and
      then migrated by the first migration from that version. Nothing is stored if the migrated
      value is refused. */
  lemma LegacyIsImportedAndMigrated<V>(c: Contribution<V>, read: V, k: int, result: Validation<V>)
    requires c.legacySource.Some? && c.legacySource.value.transform(read).Some?
    requires 0 < c.legacySource.value.schemaVersion < c.schemaVersion
    requires FirstFrom(c.migrations, c.legacySource.value.schemaVersion, k)
    requires LeadsTo(c, c.migrations[k], c.legacySource.value.transform(read).value, result)
    ensures var call := Resolve(c, None, Found(read)); var source := c.legacySource.value;
            var seed := Record(source.schemaVersion, 1, source.transform(read).value, []);
            if result.Failure? then call == Call(None, Failure(result.error))
            else && call.answer.Success? && call.slot == Some(call.answer.value.record)
                 && call.answer.value.changed && call.answer.value.value == result.value
                 && IsMigrated(c, seed, c.migrations[k], result.value, call.answer.value.record)
  {
    FirstIsFound(c.migrations, c.legacySource.value.schemaVersion, k);
  }

  /** When nothing is stored because of the legacy source, and with which error. */
  lemma LegacyIsRefused<V>(c: Contribution<V>, read: LegacyRead<V>)
    requires c.legacySource.Some? && !read.Missing?
    ensures var source := c.legacySource.value; var call := Resolve(c, None, read);
            && (read.Unavailable? ==> call == Call(None, Failure(LEGACY_UNAVAILABLE)))
            && (read.Found? && source.transform(read.value).None? ==> call == Call(None, Failure(TRANSFORM_FAILED)))
            && (read.Found? && source.transform(read.value).Some? ==>
                  && (source.schemaVersion > c.schemaVersion ==> call == Call(None, Failure(UNSUPPORTED_SCHEMA)))
                  && (source.schemaVersion < c.schemaVersion
                      && (forall m | m in c.migrations :: m.fromSchemaVersion != source.schemaVersion) ==>
                        call == Call(None, Failure(MIGRATION_MISSING))))
  {
  }

  /** A call that writes answers with the value it wrote. */
  lemma WrittenIsAnswered<V>(c: Contribution<V>, slot: Slot<V>, read: LegacyRead<V>)
    requires Resolve(c, slot, read).answer.Success?
    ensures var r := Resolve(c, slot, read).answer.value;
            if r.changed then r.record.value == r.value else c.validate(r.record.value) == Success(r.value)
  {
  }

  // ----- update -----

  /** The update leaves a slot and an answer as if it stored `valid` over the record `found`. */
  predicate IsUpdated<V(==)>(c: Contribution<V>, found: Record<V>, valid: V, call: Call<V>) {
    && call.answer.Success? && call.slot == Some(call.answer.value.record)
    && call.answer.value.changed && call.answer.value.value == valid
    && call.answer.value.record == Record(c.schemaVersion, found.revision + 1, valid, found.migrations)
  }

  /** An update stores and answers the validated value, at the contribution's schema version and
      one revision after the record that resolving found. A refused value leaves the slot as it
      was; a failing resolve, and a record at the last revision, leave what resolving left. */
  lemma UpdateStoresTheValue<V>(c: Contribution<V>, slot: Slot<V>, read: LegacyRead<V>, value: V)
    ensures var call := Update(c, slot, read, value); var found := Resolve(c, slot, read);
            match c.validate(value)
            case Failure(code) => call == Call(slot, Failure(code))
            case Success(valid) =>
              if found.answer.Failure? then call == found
              else if c.schemaVersion == 0 then call == Call(found.slot, Failure(INVALID_SCHEMA))
              else if MAX_REVISION <= found.answer.value.record.revision
              then call == Call(found.slot, Failure(INVALID_REVISION))
              else IsUpdated(c, found.answer.value.record, valid, call)
  {
  }

  /** So an update of a record at the contribution's schema version changes its value alone. */
  lemma UpdateReplacesTheValue<V>(c: Contribution<V>, record: Record<V>, read: LegacyRead<V>, value: V)
    requires 0 < c.schemaVersion == record.schemaVersion && record.revision < MAX_REVISION
    ensures var call := Update(c, Some(record), read, value);
            call.answer.Success? <==> c.validate(value).Success? && c.validate(record.value).Success?
    ensures var call := Update(c, Some(record), read, value);
            call.slot == Some(if call.answer.Failure? then record
                              else record.(revision := record.revision + 1, value := c.validate(value).value))
    ensures var call := Update(c, Some(record), read, value);
            call.answer.Success? ==> call.answer.value.value == c.validate(value).value
  {
    UpdateStoresTheValue(c, Some(record), read, value);
  }
}
