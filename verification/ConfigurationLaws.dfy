/** What a single configuration call guarantees when nobody else touches its record. */
module ConfigurationLaws {
  import opened Wrappers
  import opened PluginData
  import opened Configuration

  /** The call left the record at the contribution's schema version, and returned it. */
  lemma ResolveReachesItsSchema<V>(c: Contribution<V>, slot: Slot<V>, read: LegacyRead<V>)
    requires Resolve(c, slot, read).answer.Success?
    ensures var call := Resolve(c, slot, read); var r := call.answer.value;
            && call.slot == Some(r.record)
            && r.record.schemaVersion == c.schemaVersion
            && (r.changed <==> call.slot != slot)
            && (slot.Some? ==> slot.value.schemaVersion <= c.schemaVersion)
  {
  }

  /** A legacy import has two durable steps, the seed and the migration. The slot that a
      caller leaves behind when it stops between them. */
  function SeedOnly<V>(c: Contribution<V>, read: LegacyRead<V>): Slot<V>
    requires InspectLegacy(c, read).Legacy?
  {
    Seed(c, None, InspectLegacy(c, read)).slot
  }

  /** Crash recovery: stopping between the two durable steps of a legacy import and resolving
      again, whatever the legacy reader says the second time, gives the record, revision and
      value of the uninterrupted import. */
  lemma InterruptedImportRecovers<V>(c: Contribution<V>, read: LegacyRead<V>, later: LegacyRead<V>)
    requires InspectLegacy(c, read).Legacy? && InspectLegacy(c, read).migration.Some?
    ensures Resolve(c, None, read).answer.Success? ==>
              && SeedOnly(c, read).Some?
              && Resolve(c, SeedOnly(c, read), later) == Resolve(c, None, read)
  {
  }

  /** The value that a successful resolve answers with, known from the inspection before it. */
  function InspectedValue<V>(i: Inspection<V>): V
    requires !i.Invalid?
  {
    i.value
  }

  /** Before the call: resolving twice will answer twice the same. Either the value is stored
      already, or validation leaves the value to be written alone. */
  ghost predicate AnswersTwice<V>(c: Contribution<V>, i: Inspection<V>) {
    i.Stored? || (!i.Invalid? && c.validate(InspectedValue(i)) == Success(InspectedValue(i)))
  }

  /** The first resolve writes exactly if inspection did not find a stored value, and it answers
      with the inspected value. */
  lemma FirstResolve<V>(c: Contribution<V>, slot: Slot<V>, read: LegacyRead<V>)
    requires Resolve(c, slot, read).answer.Success?
    ensures var i := Inspect(c, slot, read); var r := Resolve(c, slot, read).answer.value;
            !i.Invalid? && r.value == InspectedValue(i) && (r.changed <==> !i.Stored?)
  {
  }

  /** Resolving twice: the second call writes nothing and finds the same record. It answers with
      the same value exactly when inspection before the first call finds a stored value, or a
      value that validation leaves alone. */
  lemma SecondResolveIsQuiet<V>(c: Contribution<V>, slot: Slot<V>, read: LegacyRead<V>, later: LegacyRead<V>)
    requires Resolve(c, slot, read).answer.Success?
    ensures var first := Resolve(c, slot, read); var second := Resolve(c, first.slot, later);
            && second.slot == first.slot
            && (second.answer.Success? ==> && second.answer.value.record == first.answer.value.record
                                           && !second.answer.value.changed)
            && (second == first.(answer := Success(first.answer.value.(changed := false))) <==>
                  AnswersTwice(c, Inspect(c, slot, read)))
  {
    ResolveReachesItsSchema(c, slot, read);
    FirstResolve(c, slot, read);
  }

  /** A contribution whose validator is not idempotent: it drops a leading blank each time. */
  const TRIMMING: Contribution<string> := Contribution("plugin.greeting", "plugin", Global, "greeting", 1, "  hello",
    value => if value == "" then Failure("greeting.empty")
             else if value[0] == ' ' then Success(value[1..])
             else Success(value),
    [], None)

  /** The runtime accepts it, and its first two resolves answer with different values. */
  lemma TrimmingAnswersDiffer()
    ensures Acceptable("plugin", TRIMMING)
    ensures var first := Resolve(TRIMMING, None, Missing); var second := Resolve(TRIMMING, first.slot, Missing);
            && first.answer.Success? && first.answer.value.value == "  hello"
            && second.answer.Success? && second.answer.value.value == " hello"
  {
    assert TRIMMING.key[0] == 'g';
    assert "  hello"[1..] == " hello";
  }
}
