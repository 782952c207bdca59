/** The configuration runtime over its plugin-data store: which contributions it accepts, and
    the calls that inspect, resolve and update one record. */
module ConfigurationRuntimeClass {
  import opened Wrappers
  import opened PluginData
  import opened Configuration
  import Text

  datatype Scope = GlobalScope | ProjectScope(projectId: string) {
    function Kind(): ScopeKind {
      if GlobalScope? then Global else Project
    }
  }

  datatype Rejection =
    | EmptyOwner | EmptyIdentity | ForeignOwner | InvalidSchemaVersion
    | InvalidDefaults | InvalidMigration | DuplicateKey

  function Fault<V>(owner: string, c: Contribution<V>): (r: Option<Rejection>)
    ensures r.None? <==> Acceptable(owner, c)
  {
    if c.id == "" || c.moduleId == "" || Text.JsBlank(c.key) then Some(EmptyIdentity)
    else if c.moduleId != owner then Some(ForeignOwner)
    else if c.schemaVersion < 1 || Text.MAX_SAFE_INTEGER < c.schemaVersion then Some(InvalidSchemaVersion)
    else if c.validate(c.defaults).Failure? then Some(InvalidDefaults)
    else if forall i | 0 <= i < |c.migrations| ::
         && 1 <= c.migrations[i].fromSchemaVersion < c.schemaVersion
         && !Text.JsBlank(c.migrations[i].migrationId)
    then None
    else Some(InvalidMigration)
  }

  /** What each error says of a contribution. */
  ghost predicate AtFault<V>(owner: string, c: Contribution<V>, error: Rejection) {
    var named := c.id != "" && c.moduleId != "" && exists i | 0 <= i < |c.key| :: !Text.JsSpace(c.key[i]);
    var numbered := 1 <= c.schemaVersion <= 9_007_199_254_740_991;
    match error
    case EmptyIdentity => !named
    case ForeignOwner => named && c.moduleId != owner
    case InvalidSchemaVersion => named && c.moduleId == owner && !numbered
    case InvalidDefaults => named && c.moduleId == owner && numbered && c.validate(c.defaults).Failure?
    case InvalidMigration =>
      && named && c.moduleId == owner && numbered && c.validate(c.defaults).Success?
      && exists m :: m in c.migrations
           && !(1 <= m.fromSchemaVersion < c.schemaVersion && exists i | 0 <= i < |m.migrationId| ::
                  !Text.JsSpace(m.migrationId[i]))
    case _ => false
  }

  lemma FaultIsMeant<V>(owner: string, c: Contribution<V>)
    ensures Fault(owner, c).Some? ==> AtFault(owner, c, Fault(owner, c).value)
  {
    if Fault(owner, c) == Some(InvalidMigration) {
      var i :| 0 <= i < |c.migrations|
        && !(1 <= c.migrations[i].fromSchemaVersion < c.schemaVersion && !Text.JsBlank(c.migrations[i].migrationId));
      assert c.migrations[i] in c.migrations;
    }
  }

  ghost predicate SameKey<V>(a: Contribution<V>, b: Contribution<V>) {
    a.scope == b.scope && a.key == b.key
  }

  ghost predicate DistinctKeys<V>(contributions: seq<Contribution<V>>, n: nat)
    requires n <= |contributions|
  {
    forall i, j | 0 <= i < j < n :: !SameKey(contributions[i], contributions[j])
  }

  ghost predicate AllAcceptable<V>(owner: string, contributions: seq<Contribution<V>>, n: nat)
    requires n <= |contributions|
  {
    forall i | 0 <= i < n :: Acceptable(owner, contributions[i])
  }

  function KeyOf<V>(c: Contribution<V>): string {
    ContributionKey(c.scope, c.key)
  }

  /** A table with one entry for each of the first `n` contributions, under its own key. */
  ghost predicate Tabulates<V>(table: map<string, Contribution<V>>, contributions: seq<Contribution<V>>, n: nat)
    requires n <= |contributions|
  {
    && (forall i | 0 <= i < n :: KeyOf(contributions[i]) in table && table[KeyOf(contributions[i])] == contributions[i])
    && (forall k | k in table :: exists i | 0 <= i < n :: k == KeyOf(contributions[i]))
  }

  /** Contribution `i` is the first at fault, and this is what is wrong with it. */
  ghost predicate FirstFault<V>(owner: string, contributions: seq<Contribution<V>>, i: nat, error: Rejection)
    requires i < |contributions|
  {
    && AllAcceptable(owner, contributions, i)
    && DistinctKeys(contributions, i)
    && if Acceptable(owner, contributions[i]) then error.DuplicateKey? && !DistinctKeys(contributions, i + 1)
       else AtFault(owner, contributions[i], error)
  }

  lemma KeysTellApart<V>(table: map<string, Contribution<V>>, contributions: seq<Contribution<V>>, i: nat)
    requires i < |contributions| && Tabulates(table, contributions, i)
    ensures KeyOf(contributions[i]) in table <==> exists j | 0 <= j < i :: SameKey(contributions[j], contributions[i])
  {
    var c := contributions[i];
    forall j | 0 <= j < i
      ensures KeyOf(contributions[j]) == KeyOf(c) <==> SameKey(contributions[j], c)
    {
      ContributionKeyIsInjective(contributions[j].scope, contributions[j].key, c.scope, c.key);
    }
  }

  lemma TableGrows<V>(table: map<string, Contribution<V>>, contributions: seq<Contribution<V>>, i: nat)
    requires i < |contributions| && Tabulates(table, contributions, i)
    requires KeyOf(contributions[i]) !in table
    ensures Tabulates(table[KeyOf(contributions[i]) := contributions[i]], contributions, i + 1)
  {
    var key := KeyOf(contributions[i]);
    var grown := table[key := contributions[i]];
    forall j | 0 <= j < i
      ensures KeyOf(contributions[j]) != key
    {
      assert KeyOf(contributions[j]) in table;
    }
    forall k | k in grown
      ensures exists j | 0 <= j < i + 1 :: k == KeyOf(contributions[j])
    {
      if k != key {
        var j :| 0 <= j < i && k == KeyOf(contributions[j]);
      }
    }
  }

  lemma DistinctGrows<V>(contributions: seq<Contribution<V>>, i: nat)
    requires i < |contributions| && DistinctKeys(contributions, i)
    requires forall j | 0 <= j < i :: !SameKey(contributions[j], contributions[i])
    ensures DistinctKeys(contributions, i + 1)
  {
  }

  lemma FaultRefuses<V>(owner: string, contributions: seq<Contribution<V>>, i: nat, error: Rejection)
    requires i < |contributions| && FirstFault(owner, contributions, i, error)
    ensures !AllAcceptable(owner, contributions, |contributions|) || !DistinctKeys(contributions, |contributions|)
  {
    if !DistinctKeys(contributions, i + 1) {
      var j, k :| 0 <= j < k < i + 1 && SameKey(contributions[j], contributions[k]);
    }
  }

  /** The first `n` contributions are accepted, and tabulated. */
  ghost predicate AcceptedUpTo<V>(owner: string, table: map<string, Contribution<V>>,
                                  contributions: seq<Contribution<V>>, n: nat)
    requires n <= |contributions|
  {
    AllAcceptable(owner, contributions, n) && DistinctKeys(contributions, n) && Tabulates(table, contributions, n)
  }

  /** One turn of the constructor's loop. */
  method AddContribution<V>(owner: string, table: map<string, Contribution<V>>,
                            contributions: seq<Contribution<V>>, i: nat)
    returns (r: Result<map<string, Contribution<V>>, Rejection>)
    requires i < |contributions| && AcceptedUpTo(owner, table, contributions, i)
    ensures r.Success? ==> AcceptedUpTo(owner, r.value, contributions, i + 1)
    ensures r.Failure? ==> FirstFault(owner, contributions, i, r.error)
  {
    var c := contributions[i];
    var fault := Fault(owner, c);
    if fault.Some? {
      FaultIsMeant(owner, c);
      return Failure(fault.value);
    }
    KeysTellApart(table, contributions, i);
    if KeyOf(c) in table {
      return Failure(DuplicateKey);
    }
    TableGrows(table, contributions, i);
    DistinctGrows(contributions, i);
    r := Success(table[KeyOf(c) := c]);
  }

  /** The constructor's loop. It accepts exactly the lists of acceptable contributions with
      distinct scopes and keys, and otherwise reports the first contribution at fault. */
  method Tabulate<V>(owner: string, contributions: seq<Contribution<V>>)
    returns (r: Result<map<string, Contribution<V>>, Rejection>)
    ensures r.Success? <==>
            && !Text.JsBlank(owner)
            && AllAcceptable(owner, contributions, |contributions|)
            && DistinctKeys(contributions, |contributions|)
    ensures r.Success? ==> Tabulates(r.value, contributions, |contributions|)
    ensures r.Failure? ==>
              if Text.JsBlank(owner) then r.error == EmptyOwner
              else exists i | 0 <= i < |contributions| :: FirstFault(owner, contributions, i, r.error)
  {
    if Text.JsBlank(owner) {
      return Failure(EmptyOwner);
    }
    var table: map<string, Contribution<V>> := map[];
    for i := 0 to |contributions|
      invariant AcceptedUpTo(owner, table, contributions, i)
    {
      var grown := AddContribution(owner, table, contributions, i);
      if grown.Failure? {
        FaultRefuses(owner, contributions, i, grown.error);
        return Failure(grown.error);
      }
      table := grown.value;
    }
    r := Success(table);
  }

  class ConfigurationRuntime<V(==)> {
    const pluginData: PluginDataStore<(Scope, string), V>
    const legacy: (Scope, string) -> LegacyRead<V>
    const contributions: map<string, Contribution<V>>

    /** Only `Tabulate` makes the table. */
    constructor (table: map<string, Contribution<V>>, pluginData: PluginDataStore<(Scope, string), V>,
                 legacy: (Scope, string) -> LegacyRead<V>)
      ensures this.contributions == table && this.pluginData == pluginData && this.legacy == legacy
    {
      this.contributions, this.pluginData, this.legacy := table, pluginData, legacy;
    }

    /** The accepted contribution for a record, found by its scope kind and key alone. */
    function Lookup(scope: Scope, key: string): (r: Result<Contribution<V>, string>)
    {
      var k := ContributionKey(scope.Kind(), key);
      if k in contributions then Success(contributions[k]) else Failure(UNKNOWN)
    }

    lemma LookupFindsTheOwner(accepted: seq<Contribution<V>>, scope: Scope, key: string)
      requires Tabulates(contributions, accepted, |accepted|) && DistinctKeys(accepted, |accepted|)
      ensures var r := Lookup(scope, key);
              && (r.Success? <==> exists i | 0 <= i < |accepted| ::
                    accepted[i].scope == scope.Kind() && accepted[i].key == key)
              && forall i | 0 <= i < |accepted| && accepted[i].scope == scope.Kind() && accepted[i].key == key ::
                   r == Success(accepted[i])
    {
      forall i | 0 <= i < |accepted|
        ensures KeyOf(accepted[i]) == ContributionKey(scope.Kind(), key)
                <==> accepted[i].scope == scope.Kind() && accepted[i].key == key
      {
        ContributionKeyIsInjective(accepted[i].scope, accepted[i].key, scope.Kind(), key);
      }
    }

    /** What the legacy reader answers for a contribution. */
    function LegacyFor(c: Contribution<V>, scope: Scope): LegacyRead<V> {
      if c.legacySource.Some? then legacy(scope, c.legacySource.value.key) else Missing
    }

    method Inspect(c: Contribution<V>, scope: Scope) returns (r: Result<Inspection<V>, string>)
      ensures r.Success? <==> c.scope == scope.Kind()
      ensures r.Failure? ==> r.error == SCOPE_MISMATCH
      ensures r.Success? ==> r.value == Configuration.Inspect(c, pluginData.At((scope, c.key)), LegacyFor(c, scope))
    {
      if c.scope != scope.Kind() {
        return Failure(SCOPE_MISMATCH);
      }
      var record := pluginData.Read((scope, c.key));
      if record.Some? {
        return Success(InspectRecord(c, record.value));
      }
      if c.legacySource.None? {
        return Success(Default(c.defaults));
      }
      r := Success(InspectLegacy(c, legacy(scope, c.legacySource.value.key)));
    }

    method Apply(c: Contribution<V>, scope: Scope, i: Inspection<V>) returns (r: Answer<V>)
      requires Applicable(c, i)
      modifies pluginData
      ensures Call(pluginData.At((scope, c.key)), r) == ApplyTo(c, old(pluginData.At((scope, c.key))), i)
      ensures pluginData.records - {(scope, c.key)} == old(pluginData.records) - {(scope, c.key)}
    {
      match i
      case Invalid(code) => r := Failure(code);
      case Stored(record, value) => r := Success(Resolution(record, value, false));
      case Default(value) =>
        var written := pluginData.WriteRecord((scope, c.key), None, c.schemaVersion, value);
        r := Answered(written, value);
      case Legacy(legacyValue, value, migration) =>
        var seeded := pluginData.WriteRecord((scope, c.key), None, c.legacySource.value.schemaVersion,
                                             if migration.None? then value else legacyValue);
        if migration.None? || seeded.Failure? {
          r := Answered(seeded, value);
        } else {
          r := MigrateTo(c, scope, seeded.value, value, migration.value);
        }
      case Outdated(record, value, step) => r := MigrateTo(c, scope, record, value, step);
    }

    static function Answered(written: Outcome<V>, value: V): Answer<V> {
      match written
      case Success(record) => Success(Resolution(record, value, true))
      case Failure(code) => Failure(code)
    }

    method MigrateTo(c: Contribution<V>, scope: Scope, record: Record<V>, value: V, step: Migration<V>)
      returns (r: Answer<V>)
      modifies pluginData
      ensures Call(pluginData.At((scope, c.key)), r) ==
              Resolved(Upgrade(c, old(pluginData.At((scope, c.key))), record, value, step), value)
      ensures pluginData.records - {(scope, c.key)} == old(pluginData.records) - {(scope, c.key)}
    {
      var migrated := pluginData.MigrateRecord((scope, c.key), record.revision,
        Provenance(step.migrationId, record.schemaVersion, c.schemaVersion), value);
      r := Answered(migrated, value);
    }

    method Resolve(c: Contribution<V>, scope: Scope) returns (r: Answer<V>)
      modifies pluginData
      ensures Call(pluginData.At((scope, c.key)), r) ==
              if c.scope != scope.Kind() then Call(old(pluginData.At((scope, c.key))), Failure(SCOPE_MISMATCH))
              else Configuration.Resolve(c, old(pluginData.At((scope, c.key))), LegacyFor(c, scope))
      ensures pluginData.records - {(scope, c.key)} == old(pluginData.records) - {(scope, c.key)}
    {
      var inspection := Inspect(c, scope);
      if inspection.Failure? {
        return Failure(inspection.error);
      }
      r := Apply(c, scope, inspection.value);
    }

    method Update(c: Contribution<V>, scope: Scope, value: V) returns (r: Answer<V>)
      modifies pluginData
      ensures c.scope == scope.Kind() ==>
                Call(pluginData.At((scope, c.key)), r) ==
                Configuration.Update(c, old(pluginData.At((scope, c.key))), LegacyFor(c, scope), value)
      ensures c.scope != scope.Kind() ==>
                && pluginData.At((scope, c.key)) == old(pluginData.At((scope, c.key)))
                && r == Failure(if c.validate(value).Failure? then c.validate(value).error else SCOPE_MISMATCH)
      ensures pluginData.records - {(scope, c.key)} == old(pluginData.records) - {(scope, c.key)}
    {
      var validation := c.validate(value);
      if validation.Failure? {
        return Failure(validation.error);
      }
      var current := Resolve(c, scope);
      if current.Failure? {
        return current;
      }
      var record := pluginData.WriteRecord((scope, c.key), Some(current.value.record.revision),
                                           c.schemaVersion, validation.value);
      r := Answered(record, validation.value);
    }
  }
}
