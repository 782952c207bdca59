/** What the host's validators and migrations make of a value, field by field. */
module HostMigrations {
  import opened Wrappers
  import opened Configuration
  import opened HostSchemas
  import ConfigurationValues
  import Text

  /** The result is a plain object with exactly these keys, each with the value it has in `source`. */
  ghost predicate Picks(source: Js, keys: set<string>, result: Js) {
    && source.Obj? && result.Obj? && result.plain
    && result.fields.Keys == keys <= source.fields.Keys
    && forall key | key in keys :: result.fields[key] == source.fields[key]
  }

  /** The result is a plain object with exactly the keys of the defaults. Each has the value it
      has in `source` if it is there, and its default otherwise. */
  ghost predicate Overrides(source: Js, defaults: Js, result: Js) {
    && source.Obj? && defaults.Obj? && result.Obj? && result.plain
    && result.fields.Keys == defaults.fields.Keys
    && forall key | key in defaults.fields ::
         result.fields[key] == if key in source.fields then source.fields[key] else defaults.fields[key]
  }

  /** The property is there and satisfies the test. */
  ghost predicate Has(value: Js, key: string, test: Js -> bool) {
    value.Obj? && key in value.fields && test(value.fields[key])
  }

  /** The property satisfies the test if it is there. */
  ghost predicate HasIfAny(value: Js, key: string, test: Js -> bool) {
    value.Obj? && (key in value.fields ==> test(value.fields[key]))
  }

  predicate Boolean(value: Js) {
    value == Bool(true) || value == Bool(false)
  }

  predicate BooleanOrNothing(value: Js) {
    Boolean(value) || value == Null || value == Undefined
  }

  predicate Positive(value: Js) {
    value.Num? && value.n > 0.0
  }

  predicate IsNumber(value: Js, k: nat) {
    value == Num(k as real)
  }

  ghost predicate Count(value: Js) {
    exists k: nat :: IsNumber(value, k) && k <= 9_007_199_254_740_991
  }

  predicate Named(value: Js) {
    value.Str? && exists i | 0 <= i < |value.s| :: !Text.JsSpace(value.s[i])
  }

  // ----- runtime -----

  predicate Adapter(value: Js) {
    value == Str("standard") || value == Str("layman")
  }

  predicate OldAdapter(value: Js) {
    Adapter(value) || value == Str("legacy")
  }

  lemma RuntimeIsValidated(value: Js)
    ensures ValidateRuntime(value).Success? <==> Has(value, "canvasAdapter", Adapter)
    ensures ValidateRuntime(value).Success? ==> Picks(value, {"canvasAdapter"}, ValidateRuntime(value).value)
  {
  }

  /** The runtime migration turns the adapter "legacy" into "standard" and keeps every other one. */
  lemma RuntimeIsMigrated(value: Js)
    ensures MigrateRuntime(value).Success? <==> Has(value, "canvasAdapter", OldAdapter)
    ensures MigrateRuntime(value).Success? ==>
              var adapter := value.fields["canvasAdapter"];
              MigrateRuntime(value).value == Plain(map["canvasAdapter" :=
                if adapter == Str("legacy") then Str("standard") else adapter])
  {
    assert |"legacy"| == 6 && |"standard"| == 8 && "legacy"[1] == 'e' && "layman"[1] == 'a';
    if value.Obj? {
      var adapter := value.Get("canvasAdapter");
      RuntimeIsValidated(Plain(map["canvasAdapter" := if adapter == Str("legacy") then Str("standard") else adapter]));
    }
  }

  /** The canvas of the old "ui" settings becomes the adapter, at version 3 and two revisions
      after nothing. Without a known canvas nothing is stored. */
  lemma CanvasIsImported(ui: Js)
    ensures var call := Resolve(RUNTIME, None, Found(ui));
            && (call.answer.Success? <==> Has(ui, "canvas", OldAdapter))
            && (call.answer.Failure? ==> call.slot == None)
            && (call.answer.Success? ==>
                  && call.slot.Some? && call.slot.value.schemaVersion == 3 && call.slot.value.revision == 2
                  && call.slot.value.value == call.answer.value.value == Plain(map["canvasAdapter" :=
                       if ui.fields["canvas"] == Str("legacy") then Str("standard") else ui.fields["canvas"]]))
  {
    var imported := LegacyCanvas(ui).value;
    RuntimeIsMigrated(imported);
    var migrated := MigrateRuntime(imported);
    if migrated.Success? {
      RuntimeIsValidated(migrated.value);
      assert ValidateRuntime(migrated.value).value.fields == migrated.value.fields;
    }
    assert imported.fields["canvasAdapter"] == if ui.Obj? && ui.Get("canvas").Str? then ui.Get("canvas") else Null;
    ConfigurationValues.LegacyIsImportedAndMigrated(RUNTIME, ui, 0, migrated);
  }

  // ----- editor -----

  predicate KnownEditor(value: Js) {
    || value == Null || value == Str("vscode") || value == Str("zed")
    || value == Str("cursor") || value == Str("sublime_text")
  }

  predicate EditorOrNothing(value: Js) {
    KnownEditor(value) || value == Undefined
  }

  lemma EditorIsValidated(value: Js)
    ensures ValidateEditor(value).Success? <==> Has(value, "preferredEditor", KnownEditor)
    ensures ValidateEditor(value).Success? ==> Picks(value, {"preferredEditor"}, ValidateEditor(value).value)
  {
  }

  /** The editor migration turns a missing editor into null and keeps every other one. */
  lemma EditorIsMigrated(value: Js)
    ensures MigrateEditor(value).Success? <==> HasIfAny(value, "preferredEditor", EditorOrNothing)
    ensures MigrateEditor(value).Success? ==>
              MigrateEditor(value).value == Plain(map["preferredEditor" :=
                if "preferredEditor" !in value.fields || value.fields["preferredEditor"].Undefined?
                then Null else value.fields["preferredEditor"]])
  {
  }

  // ----- projects -----

  /** Every field of the value but this one is JSON. */
  ghost predicate RestIsJson(value: Js, key: string) {
    value.Obj? && forall k | k in value.fields && k != key :: value.fields[k].JsonSafe()
  }

  /** Validation keeps every field of a project setting. */
  lemma ProjectsAreValidated(value: Js)
    ensures ValidateProjects(value).Success? <==>
              Has(value, SHOW, Boolean) && value.plain && RestIsJson(value, SHOW)
    ensures ValidateProjects(value).Success? ==> ValidateProjects(value).value == value
  {
    if Has(value, SHOW, Boolean) {
      assert value.fields[SHOW := value.Get(SHOW)] == value.fields;
      assert value.fields[SHOW].JsonSafe();
    }
  }

  /** The projects migration turns a missing or null flag into true, and keeps every other field. */
  lemma ProjectsAreMigrated(value: Js)
    ensures MigrateProjects(value).Success? <==>
              HasIfAny(value, SHOW, BooleanOrNothing) && RestIsJson(value, SHOW)
    ensures MigrateProjects(value).Success? ==>
              MigrateProjects(value).value == Plain(value.fields[SHOW :=
                if SHOW in value.fields && value.fields[SHOW].Bool? then value.fields[SHOW] else Bool(true)])
  {
    if value.Obj? {
      var show := value.Get(SHOW);
      var settled := if show.Undefined? || show.Null? then Bool(true) else show;
      var migrated := Plain(value.fields[SHOW := settled]);
      ProjectsAreValidated(migrated);
      assert RestIsJson(migrated, SHOW) <==> RestIsJson(value, SHOW) by {
        assert forall k | k in value.fields && k != SHOW :: migrated.fields[k] == value.fields[k];
      }
    }
  }

  // ----- keybindings -----

  lemma KeybindingsAreValidated(value: Js)
    ensures ValidateKeybindings(value).Success? <==>
              && Has(value, "shiftEnterNewline", Boolean)
              && Has(value, "optionDeleteWord", Boolean)
              && Has(value, "cmdKClear", Boolean)
    ensures ValidateKeybindings(value).Success? ==>
              Picks(value, {"shiftEnterNewline", "optionDeleteWord", "cmdKClear"}, ValidateKeybindings(value).value)
  {
  }

  /** Migrated keybindings are the source's where it has them, and the defaults elsewhere. */
  lemma KeybindingsAreMigrated(value: Js)
    ensures MigrateKeybindings(value).Success? <==>
              && HasIfAny(value, "shiftEnterNewline", Boolean)
              && HasIfAny(value, "optionDeleteWord", Boolean)
              && HasIfAny(value, "cmdKClear", Boolean)
    ensures MigrateKeybindings(value).Success? ==>
              Overrides(value, KEYBINDING_DEFAULTS, MigrateKeybindings(value).value)
  {
    if value.Obj? {
      KeybindingsAreValidated(Plain(KEYBINDING_DEFAULTS.fields + value.fields));
    }
  }

  // ----- terminal -----

  const TERMINAL_KEYS := {"cursorStyle", "cursorBlink", "scrollbackBytes", "fontFamily", "fontSize",
                          "urlAllowlist", "confirmUnsafePaste"}

  predicate KnownCursor(value: Js) {
    value == Str("block") || value == Str("underline") || value == Str("bar")
  }

  /** Naming every scheme: a letter, then letters, digits and the three marks. */
  predicate Schemes(value: Js) {
    value.Arr? && forall item | item in value.items ::
      item.Str? && 0 < |item.s| && Letter(item.s[0])
      && forall c | c in item.s :: Letter(c) || '0' <= c <= '9' || c in "+.-"
  }

  lemma CountsAreSafeIntegers(value: Js)
    ensures SafeNonNegativeInteger(value) <==> Count(value)
  {
    if SafeNonNegativeInteger(value) {
      assert IsNumber(value, value.n.Floor);
    }
  }

  lemma SchemesAreAllowed(value: Js)
    ensures UrlAllowlist(value) <==> Schemes(value)
  {
  }

  lemma TerminalIsValidated(value: Js)
    ensures ValidateTerminal(value).Success? <==>
              && Has(value, "cursorStyle", KnownCursor) && Has(value, "cursorBlink", Boolean)
              && Has(value, "scrollbackBytes", Count) && Has(value, "fontFamily", Named)
              && Has(value, "fontSize", Positive) && Has(value, "urlAllowlist", Schemes)
              && Has(value, "confirmUnsafePaste", Boolean)
    ensures ValidateTerminal(value).Success? ==> Picks(value, TERMINAL_KEYS, ValidateTerminal(value).value)
  {
    if value.Obj? {
      CountsAreSafeIntegers(value.Get("scrollbackBytes"));
      SchemesAreAllowed(value.Get("urlAllowlist"));
    }
  }

  /** Migrated terminal settings are the source's where it has them, and the defaults elsewhere. */
  lemma TerminalIsMigrated(value: Js)
    ensures MigrateTerminal(value).Success? <==>
              && HasIfAny(value, "cursorStyle", KnownCursor) && HasIfAny(value, "cursorBlink", Boolean)
              && HasIfAny(value, "scrollbackBytes", Count)
              && HasIfAny(value, "fontFamily", Named)
              && HasIfAny(value, "fontSize", Positive) && HasIfAny(value, "urlAllowlist", Schemes)
              && HasIfAny(value, "confirmUnsafePaste", Boolean)
    ensures MigrateTerminal(value).Success? ==> Overrides(value, TERMINAL_DEFAULTS, MigrateTerminal(value).value)
  {
    TerminalDefaultsAreValid();
    TerminalIsValidated(TERMINAL_DEFAULTS);
    if value.Obj? {
      TerminalIsValidated(Plain(TERMINAL_DEFAULTS.fields + value.fields));
    }
  }

  // ----- sidebar -----

  lemma SidebarIsValidated(value: Js)
    ensures ValidateSidebar(value).Success? <==>
              && Has(value, "fontSize", Positive) && Has(value, "fontFamily", Named)
              && Has(value, "width", Positive)
    ensures ValidateSidebar(value).Success? ==>
              Picks(value, {"fontSize", "fontFamily", "width"}, ValidateSidebar(value).value)
  {
  }

  /** Migrated sidebar settings are the source's where it has them, and the defaults elsewhere. */
  lemma SidebarIsMigrated(value: Js)
    ensures MigrateSidebar(value).Success? <==>
              && HasIfAny(value, "fontSize", Positive) && HasIfAny(value, "fontFamily", Named)
              && HasIfAny(value, "width", Positive)
    ensures MigrateSidebar(value).Success? ==> Overrides(value, SIDEBAR_DEFAULTS, MigrateSidebar(value).value)
  {
    HostSidebarIsSettled();
    SidebarIsValidated(SIDEBAR_DEFAULTS);
    if value.Obj? {
      SidebarIsValidated(Plain(SIDEBAR_DEFAULTS.fields + value.fields));
    }
  }

  // ----- import -----

  /** The migrations lead to values that validation leaves alone. */
  lemma MigratedIsSettled(i: nat, value: Js)
    requires i < |HOST_CONTRIBUTIONS|
    requires var c := HOST_CONTRIBUTIONS[i]; c.migrations[0].migrate(value).Success?
    ensures var c := HOST_CONTRIBUTIONS[i]; var migrated := c.migrations[0].migrate(value);
            c.validate(migrated.value) == migrated
  {
    HostIsSettled(i);
  }

  /** The old settings of every contribution but the runtime are stored as migrated, at version
      2 and two revisions after nothing, or not at all when the migration refuses them. */
  lemma SettingsAreImported(i: nat, value: Js)
    requires 1 <= i < |HOST_CONTRIBUTIONS|
    ensures var c := HOST_CONTRIBUTIONS[i]; var call := Resolve(c, None, Found(value));
            var migrated := c.migrations[0].migrate(value);
            if migrated.Failure? then call == Call(None, Failure(migrated.error))
            else && call.answer.Success? && call.slot.Some?
                 && call.slot.value.schemaVersion == 2 && call.slot.value.revision == 2
                 && call.slot.value.value == call.answer.value.value == migrated.value
  {
    var c := HOST_CONTRIBUTIONS[i];
    if c.migrations[0].migrate(value).Success? {
      MigratedIsSettled(i, value);
    }
    ConfigurationValues.LegacyIsImportedAndMigrated(c, value, 0, c.migrations[0].migrate(value));
  }
}
