/** What one configuration call decides: inspection of a record or of a legacy source, and
    the writes that apply it. `ConfigurationRuntime` carries these decisions out. */
module Configuration {
  import opened Wrappers
  import opened PluginData
  import Text

  const UNKNOWN := "configuration.unknown"
  const SCOPE_MISMATCH := "configuration.scope-mismatch"
  const LEGACY_UNAVAILABLE := "configuration.legacy-unavailable"
  const TRANSFORM_FAILED := "configuration.legacy-transform-failed"
  const UNSUPPORTED_SCHEMA := "configuration.unsupported-schema"
  const MIGRATION_MISSING := "configuration.migration-missing"

  datatype ScopeKind = Global | Project

  type Validation<V> = Result<V, string>

  datatype Migration<!V> = Migration(fromSchemaVersion: nat, migrationId: string, migrate: V -> Validation<V>)

  /** `transform` answers None where the source's function throws. */
  datatype LegacySource<!V> = LegacySource(key: string, schemaVersion: nat, transform: V -> Option<V>)

  datatype Contribution<!V> = Contribution(
    id: string, moduleId: string, scope: ScopeKind, key: string, schemaVersion: nat, defaults: V,
    validate: V -> Validation<V>, migrations: seq<Migration<V>>, legacySource: Option<LegacySource<V>>)

  datatype LegacyRead<+V> = Unavailable | Missing | Found(value: V)

  datatype Inspection<!V> =
    | Stored(record: Record<V>, value: V)
    | Default(value: V)
    | Legacy(legacyValue: V, value: V, migration: Option<Migration<V>>)
    | Outdated(record: Record<V>, value: V, step: Migration<V>)
    | Invalid(code: string)

  datatype Resolution<V> = Resolution(record: Record<V>, value: V, changed: bool)

  type Answer<V> = Result<Resolution<V>, string>

  /** The slot after a call, and its result. */
  datatype Call<V> = Call(slot: Slot<V>, answer: Answer<V>)

  /** The first migration that starts at the given schema version. */
  function FindMigration<V>(migrations: seq<Migration<V>>, fromSchemaVersion: nat): (r: Option<Migration<V>>)
    ensures r.Some? ==> r.value in migrations && r.value.fromSchemaVersion == fromSchemaVersion
    ensures r.None? ==> forall m | m in migrations :: m.fromSchemaVersion != fromSchemaVersion
  {
    if migrations == [] then None
    else if migrations[0].fromSchemaVersion == fromSchemaVersion then Some(migrations[0])
    else FindMigration(migrations[1..], fromSchemaVersion)
  }

  /** The value a migration leads to, once validated. */
  function Migrated<V>(c: Contribution<V>, step: Migration<V>, value: V): Validation<V> {
    match step.migrate(value)
    case Failure(code) => Failure(code)
    case Success(migrated) => c.validate(migrated)
  }

  function InspectRecord<V>(c: Contribution<V>, record: Record<V>): Inspection<V> {
    if record.schemaVersion == c.schemaVersion then
      match c.validate(record.value)
      case Success(value) => Stored(record, value)
      case Failure(code) => Invalid(code)
    else if record.schemaVersion > c.schemaVersion then Invalid(UNSUPPORTED_SCHEMA)
    else
      match FindMigration(c.migrations, record.schemaVersion)
      case None => Invalid(MIGRATION_MISSING)
      case Some(step) =>
        match Migrated(c, step, record.value)
        case Success(value) => Outdated(record, value, step)
        case Failure(code) => Invalid(code)
  }

  /** Inspection when there is no record; `read` is what the legacy reader answered. */
  function InspectLegacy<V>(c: Contribution<V>, read: LegacyRead<V>): Inspection<V> {
    if c.legacySource.None? || read.Missing? then Default(c.defaults)
    else if read.Unavailable? then Invalid(LEGACY_UNAVAILABLE)
    else
      var source := c.legacySource.value;
      match source.transform(read.value)
      case None => Invalid(TRANSFORM_FAILED)
      case Some(legacyValue) =>
        if source.schemaVersion == c.schemaVersion then
          match c.validate(legacyValue)
          case Success(value) => Legacy(legacyValue, value, None)
          case Failure(code) => Invalid(code)
        else if source.schemaVersion > c.schemaVersion then Invalid(UNSUPPORTED_SCHEMA)
        else
          match FindMigration(c.migrations, source.schemaVersion)
          case None => Invalid(MIGRATION_MISSING)
          case Some(step) =>
            match Migrated(c, step, legacyValue)
            case Success(value) => Legacy(legacyValue, value, Some(step))
            case Failure(code) => Invalid(code)
  }

  function Inspect<V>(c: Contribution<V>, slot: Slot<V>, read: LegacyRead<V>): Inspection<V> {
    if slot.Some? then InspectRecord(c, slot.value) else InspectLegacy(c, read)
  }

  // ----- the durable steps -----

  function Seed<V>(c: Contribution<V>, slot: Slot<V>, i: Inspection<V>): Effect<V>
    requires i.Default? || (i.Legacy? && c.legacySource.Some?)
  {
    match i
    case Default(value) => Write(slot, None, c.schemaVersion, value)
    case Legacy(legacyValue, value, migration) =>
      Write(slot, None, c.legacySource.value.schemaVersion, if migration.None? then value else legacyValue)
  }

  function Upgrade<V>(c: Contribution<V>, slot: Slot<V>, record: Record<V>, value: V, step: Migration<V>): Effect<V> {
    Migrate(slot, record.revision, Provenance(step.migrationId, record.schemaVersion, c.schemaVersion), value)
  }

  function Resolved<V>(e: Effect<V>, value: V): Call<V> {
    match e.outcome
    case Success(record) => Call(e.slot, Success(Resolution(record, value, true)))
    case Failure(code) => Call(e.slot, Failure(code))
  }

  predicate Applicable<V>(c: Contribution<V>, i: Inspection<V>) {
    i.Legacy? ==> c.legacySource.Some?
  }

  function ApplyTo<V>(c: Contribution<V>, slot: Slot<V>, i: Inspection<V>): Call<V>
    requires Applicable(c, i)
  {
    match i
    case Invalid(code) => Call(slot, Failure(code))
    case Stored(record, value) => Call(slot, Success(Resolution(record, value, false)))
    case Default(value) => Resolved(Seed(c, slot, i), value)
    case Legacy(_, value, migration) =>
      var seeded := Seed(c, slot, i);
      if migration.None? || seeded.outcome.Failure? then Resolved(seeded, value)
      else Resolved(Upgrade(c, seeded.slot, seeded.outcome.value, value, migration.value), value)
    case Outdated(record, value, step) => Resolved(Upgrade(c, slot, record, value, step), value)
  }

  function Resolve<V>(c: Contribution<V>, slot: Slot<V>, read: LegacyRead<V>): Call<V> {
    ApplyTo(c, slot, Inspect(c, slot, read))
  }

  function Update<V>(c: Contribution<V>, slot: Slot<V>, read: LegacyRead<V>, value: V): Call<V> {
    match c.validate(value)
    case Failure(code) => Call(slot, Failure(code))
    case Success(valid) =>
      var current := Resolve(c, slot, read);
      if current.answer.Failure? then current
      else Resolved(Write(current.slot, Some(current.answer.value.record.revision), c.schemaVersion, valid), valid)
  }

  // ----- admission of contributions -----

  /** `key(...)` with every project standing for the same placeholder. */
  function ContributionKey(scope: ScopeKind, key: string): string {
    (if scope.Global? then "global:" else "project:<project>") + ":" + key
  }

  predicate Acceptable<V>(owner: string, c: Contribution<V>) {
    && c.id != "" && c.moduleId != "" && !Text.JsBlank(c.key)
    && c.moduleId == owner
    && 1 <= c.schemaVersion <= Text.MAX_SAFE_INTEGER
    && c.validate(c.defaults).Success?
    && forall i | 0 <= i < |c.migrations| ::
         && 1 <= c.migrations[i].fromSchemaVersion < c.schemaVersion
         && !Text.JsBlank(c.migrations[i].migrationId)
  }

  lemma ContributionKeyIsInjective(s1: ScopeKind, k1: string, s2: ScopeKind, k2: string)
    ensures ContributionKey(s1, k1) == ContributionKey(s2, k2) <==> s1 == s2 && k1 == k2
  {
    var a, b := ContributionKey(s1, k1), ContributionKey(s2, k2);
    assert a[0] == (if s1.Global? then 'g' else 'p') && b[0] == (if s2.Global? then 'g' else 'p');
    var n := if s1.Global? then 8 else 18;
    assert a[n..] == k1;
    if s1 == s2 {
      assert b[n..] == k2;
    }
  }
}
