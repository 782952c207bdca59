/** The six host-owned configuration schemas over arbitrary JavaScript values. */
module HostSchemas {
  import opened Wrappers
  import opened PluginData
  import opened Configuration
  import Text
  import ConfigurationLaws
  import opened ConfigurationRuntimeClass

  /** A JavaScript value as the validators can tell values apart. `plain` says whether an
      object's prototype is `Object.prototype`. */
  datatype Js =
    | Undefined | Null | Bool(b: bool) | Num(n: real) | NotFinite | Str(s: string)
    | Arr(items: seq<Js>) | Obj(fields: map<string, Js>, plain: bool) | Opaque
  {
    /** Property access; an absent property reads as undefined. */
    function Get(key: string): Js
      requires Obj?
    {
      if key in fields then fields[key] else Undefined
    }

    /** `moduleJson` on a finite tree. */
    predicate JsonSafe() {
      match this
      case Null => true
      case Bool(_) => true
      case Num(_) => true
      case Str(_) => true
      case Arr(items) => forall i | 0 <= i < |items| :: items[i].JsonSafe()
      case Obj(fields, plain) => plain && forall k | k in fields :: fields[k].JsonSafe()
      case _ => false
    }
  }

  const HOST_MODULE := "shipctl.host"
  const HOST_SCHEMA: nat := 2
  const RUNTIME_SCHEMA: nat := 3

  const INVALID_RUNTIME := "configuration.invalid-runtime"
  const INVALID_EDITOR := "configuration.invalid-editor"
  const INVALID_PROJECTS := "configuration.invalid-projects"
  const INVALID_KEYBINDINGS := "configuration.invalid-keybindings"
  const INVALID_TERMINAL := "configuration.invalid-terminal"
  const INVALID_SIDEBAR := "configuration.invalid-sidebar"

  function Plain(fields: map<string, Js>): Js {
    Obj(fields, true)
  }

  predicate NonEmptyString(value: Js) {
    value.Str? && !Text.JsBlank(value.s)
  }

  predicate SafeNonNegativeInteger(value: Js) {
    value.Num? && 0.0 <= value.n <= Text.MAX_SAFE_INTEGER as real && value.n.Floor as real == value.n
  }

  predicate PositiveNumber(value: Js) {
    value.Num? && 0.0 < value.n
  }

  predicate Letter(c: char) {
    'a' <= c <= 'z' || 'A' <= c <= 'Z'
  }

  predicate SchemeChar(c: char) {
    Letter(c) || '0' <= c <= '9' || c == '+' || c == '.' || c == '-'
  }

  predicate ValidScheme(s: string) {
    s != "" && Letter(s[0]) && forall i | 0 <= i < |s| :: SchemeChar(s[i])
  }

  predicate UrlAllowlist(value: Js) {
    value.Arr? && forall i | 0 <= i < |value.items| :: value.items[i].Str? && ValidScheme(value.items[i].s)
  }

  // ----- runtime -----

  const RUNTIME_DEFAULTS := Plain(map["canvasAdapter" := Str("standard")])

  function ValidateRuntime(value: Js): Validation<Js> {
    if value.Obj? && value.Get("canvasAdapter") in {Str("standard"), Str("layman")}
    then Success(Plain(map["canvasAdapter" := value.Get("canvasAdapter")]))
    else Failure(INVALID_RUNTIME)
  }

  function MigrateRuntime(value: Js): Validation<Js> {
    if !value.Obj? then Failure(INVALID_RUNTIME)
    else
      var adapter := value.Get("canvasAdapter");
      ValidateRuntime(Plain(map["canvasAdapter" := if adapter == Str("legacy") then Str("standard") else adapter]))
  }

  function LegacyCanvas(value: Js): Option<Js> {
    Some(Plain(map["canvasAdapter" := if value.Obj? && value.Get("canvas").Str? then value.Get("canvas") else Null]))
  }

  // ----- editor -----

  const EDITOR_DEFAULTS := Plain(map["preferredEditor" := Null])

  function ValidateEditor(value: Js): Validation<Js> {
    if value.Obj? && value.Get("preferredEditor") in
         {Null, Str("vscode"), Str("zed"), Str("cursor"), Str("sublime_text")}
    then Success(Plain(map["preferredEditor" := value.Get("preferredEditor")]))
    else Failure(INVALID_EDITOR)
  }

  function MigrateEditor(value: Js): Validation<Js> {
    if !value.Obj? then Failure(INVALID_EDITOR)
    else
      var editor := value.Get("preferredEditor");
      ValidateEditor(Plain(map["preferredEditor" := if editor.Undefined? then Null else editor]))
  }

  // ----- projects -----

  const SHOW := "showAgentSessionsInSidebar"
  const PROJECT_DEFAULTS := Plain(map[SHOW := Bool(true)])

  function ValidateProjects(value: Js): Validation<Js> {
    if !value.Obj? || !value.Get(SHOW).Bool? || !value.JsonSafe() then Failure(INVALID_PROJECTS)
    else Success(Plain(value.fields[SHOW := value.Get(SHOW)]))
  }

  function MigrateProjects(value: Js): Validation<Js> {
    if !value.Obj? then Failure(INVALID_PROJECTS)
    else
      var show := value.Get(SHOW);
      ValidateProjects(Plain(value.fields[SHOW := if show.Undefined? || show.Null? then Bool(true) else show]))
  }

  // ----- keybindings -----

  const KEYBINDING_DEFAULTS := Plain(map[
    "shiftEnterNewline" := Bool(true), "optionDeleteWord" := Bool(true), "cmdKClear" := Bool(true)])

  function ValidateKeybindings(value: Js): Validation<Js> {
    if && value.Obj?
       && value.Get("shiftEnterNewline").Bool?
       && value.Get("optionDeleteWord").Bool?
       && value.Get("cmdKClear").Bool?
    then Success(Plain(map[
      "shiftEnterNewline" := value.Get("shiftEnterNewline"),
      "optionDeleteWord" := value.Get("optionDeleteWord"),
      "cmdKClear" := value.Get("cmdKClear")]))
    else Failure(INVALID_KEYBINDINGS)
  }

  /** `{ ...defaults, ...source }`, validated. */
  function OverDefaults(validate: Js -> Validation<Js>, defaults: Js, code: string, value: Js): Validation<Js>
    requires defaults.Obj?
  {
    if value.Obj? then validate(Plain(defaults.fields + value.fields)) else Failure(code)
  }

  function MigrateKeybindings(value: Js): Validation<Js> {
    OverDefaults(ValidateKeybindings, KEYBINDING_DEFAULTS, INVALID_KEYBINDINGS, value)
  }

  // ----- terminal -----

  const TERMINAL_DEFAULTS := Plain(map[
    "cursorStyle" := Str("block"),
    "cursorBlink" := Bool(true),
    "scrollbackBytes" := Num(16777216.0),
    "fontFamily" := Str("MesloLGS NF"),
    "fontSize" := Num(14.0),
    "urlAllowlist" := Arr([Str("http"), Str("https")]),
    "confirmUnsafePaste" := Bool(false)])

  function ValidateTerminal(value: Js): Validation<Js> {
    if && value.Obj?
       && value.Get("cursorStyle") in {Str("block"), Str("underline"), Str("bar")}
       && value.Get("cursorBlink").Bool?
       && SafeNonNegativeInteger(value.Get("scrollbackBytes"))
       && NonEmptyString(value.Get("fontFamily"))
       && PositiveNumber(value.Get("fontSize"))
       && UrlAllowlist(value.Get("urlAllowlist"))
       && value.Get("confirmUnsafePaste").Bool?
    then Success(Plain(map[
      "cursorStyle" := value.Get("cursorStyle"),
      "cursorBlink" := value.Get("cursorBlink"),
      "scrollbackBytes" := value.Get("scrollbackBytes"),
      "fontFamily" := value.Get("fontFamily"),
      "fontSize" := value.Get("fontSize"),
      "urlAllowlist" := value.Get("urlAllowlist"),
      "confirmUnsafePaste" := value.Get("confirmUnsafePaste")]))
    else Failure(INVALID_TERMINAL)
  }

  function MigrateTerminal(value: Js): Validation<Js> {
    OverDefaults(ValidateTerminal, TERMINAL_DEFAULTS, INVALID_TERMINAL, value)
  }

  // ----- sidebar -----

  const SIDEBAR_FONT := "SF Pro Display, IBM Plex Sans, Segoe UI, sans-serif"
  const SIDEBAR_DEFAULTS := Plain(map[
    "fontSize" := Num(13.0),
    "fontFamily" := Str(SIDEBAR_FONT),
    "width" := Num(288.0)])

  function ValidateSidebar(value: Js): Validation<Js> {
    if && value.Obj?
       && PositiveNumber(value.Get("fontSize"))
       && NonEmptyString(value.Get("fontFamily"))
       && PositiveNumber(value.Get("width"))
    then Success(Plain(map[
      "fontSize" := value.Get("fontSize"),
      "fontFamily" := value.Get("fontFamily"),
      "width" := value.Get("width")]))
    else Failure(INVALID_SIDEBAR)
  }

  function MigrateSidebar(value: Js): Validation<Js> {
    OverDefaults(ValidateSidebar, SIDEBAR_DEFAULTS, INVALID_SIDEBAR, value)
  }

  // ----- the contributions -----

  function FromVersionOne(migrationId: string, migrate: Js -> Validation<Js>): seq<Migration<Js>> {
    [Migration(1, migrationId, migrate)]
  }

  /** A legacy source without a transformation of its own. */
  function Verbatim(key: string): Option<LegacySource<Js>> {
    Some(LegacySource(key, 1, value => Some(value)))
  }

  const RUNTIME := Contribution("shipctl.host.runtime", HOST_MODULE, Global, "runtime",
    RUNTIME_SCHEMA, RUNTIME_DEFAULTS,
    ValidateRuntime,
    [Migration(1, "shipctl.host.runtime.v1-to-v3", MigrateRuntime),
     Migration(2, "shipctl.host.runtime.v2-to-v3", MigrateRuntime)],
    Some(LegacySource("ui", 1, LegacyCanvas)))

  const EDITOR := Contribution("shipctl.host.editor", HOST_MODULE, Global, "editor", HOST_SCHEMA, EDITOR_DEFAULTS,
    ValidateEditor, FromVersionOne("shipctl.host.editor.v1-to-v2", MigrateEditor), Verbatim("editor"))

  const PROJECTS := Contribution("shipctl.host.projects", HOST_MODULE, Global, "projects",
    HOST_SCHEMA, PROJECT_DEFAULTS,
    ValidateProjects, FromVersionOne("shipctl.host.projects.v1-to-v2", MigrateProjects), Verbatim("projects"))

  const KEYBINDINGS := Contribution("shipctl.host.keybindings", HOST_MODULE, Global, "keybindings", HOST_SCHEMA,
    KEYBINDING_DEFAULTS, ValidateKeybindings,
    FromVersionOne("shipctl.host.keybindings.v1-to-v2", MigrateKeybindings), Verbatim("keybindings"))

  const TERMINAL := Contribution("shipctl.host.terminal", HOST_MODULE, Global, "terminal",
    HOST_SCHEMA, TERMINAL_DEFAULTS,
    ValidateTerminal, FromVersionOne("shipctl.host.terminal.v1-to-v2", MigrateTerminal), Verbatim("terminal"))

  const SIDEBAR := Contribution("shipctl.host.sidebar", HOST_MODULE, Global, "sidebar", HOST_SCHEMA, SIDEBAR_DEFAULTS,
    ValidateSidebar, FromVersionOne("shipctl.host.sidebar.v1-to-v2", MigrateSidebar), Verbatim("sidebar"))

  const HOST_CONTRIBUTIONS := [RUNTIME, EDITOR, PROJECTS, KEYBINDINGS, TERMINAL, SIDEBAR]

  // ----- laws -----

  /** Validation accepts its own output unchanged, and the defaults. */
  ghost predicate Settled<V(!new)>(c: Contribution<V>) {
    && c.validate(c.defaults) == Success(c.defaults)
    && forall value: V :: c.validate(value).Success? ==> c.validate(c.validate(value).value) == c.validate(value)
  }

  /** Every value that a resolve returns is one that validation leaves alone. */
  lemma ResolvedValuesAreSettled<V(!new)>(c: Contribution<V>, slot: Slot<V>, read: LegacyRead<V>)
    requires Settled(c) && Resolve(c, slot, read).answer.Success?
    ensures var value := Resolve(c, slot, read).answer.value.value; c.validate(value) == Success(value)
  {
  }

  /** A contribution whose validator is settled reaches a fixed point in one resolve: the next
      one writes nothing and answers with the same record and value. */
  lemma ResolveIsIdempotent<V(!new)>(c: Contribution<V>, slot: Slot<V>, read: LegacyRead<V>, later: LegacyRead<V>)
    requires Settled(c) && Resolve(c, slot, read).answer.Success?
    ensures var first := Resolve(c, slot, read);
            Resolve(c, first.slot, later) == first.(answer := Success(first.answer.value.(changed := false)))
  {
    ResolvedValuesAreSettled(c, slot, read);
    ConfigurationLaws.SecondResolveIsQuiet(c, slot, read, later);
  }

  lemma ProjectsAreSettled(value: Js)
    requires ValidateProjects(value).Success?
    ensures ValidateProjects(ValidateProjects(value).value) == ValidateProjects(value)
  {
    var result := ValidateProjects(value).value;
    assert SHOW in value.fields && value.fields[SHOW := value.Get(SHOW)] == value.fields;
    assert result == value;
  }

  lemma TerminalIsSettled(value: Js)
    requires ValidateTerminal(value).Success?
    ensures ValidateTerminal(ValidateTerminal(value).value) == ValidateTerminal(value)
  {
  }

  lemma NotBlank(s: string)
    requires s != "" && !Text.JsSpace(s[0])
    ensures !Text.JsBlank(s)
  {
  }

  lemma EndsInALetter(s: string)
    requires s != "" && !Text.JsSpace(s[|s| - 1])
    ensures !Text.JsBlank(s)
  {
  }

  /** A host contribution whose validator is settled is accepted by the runtime. */
  lemma HostIsAcceptable(c: Contribution<Js>)
    requires Settled(c) && c.moduleId == HOST_MODULE && c.id != "" && 1 <= c.schemaVersion <= Text.MAX_SAFE_INTEGER
    requires c.key != "" && !Text.JsSpace(c.key[0])
    requires forall i | 0 <= i < |c.migrations| ::
               && 1 <= c.migrations[i].fromSchemaVersion < c.schemaVersion
               && c.migrations[i].migrationId != "" && !Text.JsSpace(c.migrations[i].migrationId[0])
    ensures Acceptable(HOST_MODULE, c)
  {
    NotBlank(c.key);
    forall i | 0 <= i < |c.migrations|
      ensures !Text.JsBlank(c.migrations[i].migrationId)
    {
      NotBlank(c.migrations[i].migrationId);
    }
  }

  /** All six host contributions are accepted by the runtime and reach a fixed point in one
      resolve (with `ResolveIsIdempotent`), whatever record or legacy value they start from. */
  lemma HostRuntimeIsSettled()
    ensures Settled(RUNTIME) && Acceptable(HOST_MODULE, RUNTIME)
  {
    assert RUNTIME_DEFAULTS.Get("canvasAdapter") == Str("standard");
    HostIsAcceptable(RUNTIME);
  }

  lemma HostEditorIsSettled()
    ensures Settled(EDITOR) && Acceptable(HOST_MODULE, EDITOR)
  {
    assert EDITOR_DEFAULTS.Get("preferredEditor") == Null;
    HostIsAcceptable(EDITOR);
  }

  lemma HostProjectsAreSettled()
    ensures Settled(PROJECTS) && Acceptable(HOST_MODULE, PROJECTS)
  {
    assert PROJECT_DEFAULTS.Get(SHOW) == Bool(true) && PROJECT_DEFAULTS.JsonSafe();
    assert PROJECT_DEFAULTS.fields[SHOW := Bool(true)] == PROJECT_DEFAULTS.fields;
    forall value: Js | ValidateProjects(value).Success?
      ensures ValidateProjects(ValidateProjects(value).value) == ValidateProjects(value)
    {
      ProjectsAreSettled(value);
    }
    HostIsAcceptable(PROJECTS);
  }

  lemma HostKeybindingsAreSettled()
    ensures Settled(KEYBINDINGS) && Acceptable(HOST_MODULE, KEYBINDINGS)
  {
    HostIsAcceptable(KEYBINDINGS);
  }

  lemma TerminalDefaultsAreValid()
    ensures ValidateTerminal(TERMINAL_DEFAULTS) == Success(TERMINAL_DEFAULTS)
  {
    NotBlank("MesloLGS NF");
  }

  lemma HostTerminalIsSettled()
    ensures Settled(TERMINAL) && Acceptable(HOST_MODULE, TERMINAL)
  {
    TerminalDefaultsAreValid();
    forall value: Js | ValidateTerminal(value).Success?
      ensures ValidateTerminal(ValidateTerminal(value).value) == ValidateTerminal(value)
    {
      TerminalIsSettled(value);
    }
    HostIsAcceptable(TERMINAL);
  }

  lemma HostSidebarIsSettled()
    ensures Settled(SIDEBAR) && Acceptable(HOST_MODULE, SIDEBAR)
  {
    EndsInALetter(SIDEBAR_FONT);
    HostIsAcceptable(SIDEBAR);
  }

  lemma HostIsSettled(i: nat)
    requires i < |HOST_CONTRIBUTIONS|
    ensures Settled(HOST_CONTRIBUTIONS[i]) && Acceptable(HOST_MODULE, HOST_CONTRIBUTIONS[i])
  {
    if i == 0 {
      HostRuntimeIsSettled();
    } else if i == 1 {
      HostEditorIsSettled();
    } else if i == 2 {
      HostProjectsAreSettled();
    } else if i == 3 {
      HostKeybindingsAreSettled();
    } else if i == 4 {
      HostTerminalIsSettled();
    } else {
      HostSidebarIsSettled();
    }
  }

  lemma HostKeysStartDifferently(i: nat, j: nat)
    requires i < j < |HOST_CONTRIBUTIONS|
    ensures HOST_CONTRIBUTIONS[i].key != HOST_CONTRIBUTIONS[j].key
  {
    var initials := ['r', 'e', 'p', 'k', 't', 's'];
    assert HOST_CONTRIBUTIONS[i].key[0] == initials[i];
    assert HOST_CONTRIBUTIONS[j].key[0] == initials[j];
  }

  /** The runtime's constructor accepts the host contributions together. */
  lemma HostContributionsAreAccepted()
    ensures AllAcceptable(HOST_MODULE, HOST_CONTRIBUTIONS, |HOST_CONTRIBUTIONS|)
    ensures DistinctKeys(HOST_CONTRIBUTIONS, |HOST_CONTRIBUTIONS|)
  {
    forall i | 0 <= i < |HOST_CONTRIBUTIONS|
      ensures Acceptable(HOST_MODULE, HOST_CONTRIBUTIONS[i])
    {
      HostIsSettled(i);
    }
    forall i, j | 0 <= i < j < |HOST_CONTRIBUTIONS|
      ensures !SameKey(HOST_CONTRIBUTIONS[i], HOST_CONTRIBUTIONS[j])
    {
      HostKeysStartDifferently(i, j);
    }
  }

  /** Every host contribution reaches a fixed point in one resolve, whatever stored record or
      legacy value it starts from. */
  lemma HostResolveIsIdempotent(i: nat, slot: Slot<Js>, read: LegacyRead<Js>, later: LegacyRead<Js>)
    requires i < |HOST_CONTRIBUTIONS| && Resolve(HOST_CONTRIBUTIONS[i], slot, read).answer.Success?
    ensures var c := HOST_CONTRIBUTIONS[i]; var first := Resolve(c, slot, read);
            Resolve(c, first.slot, later) == first.(answer := Success(first.answer.value.(changed := false)))
  {
    HostIsSettled(i);
    ResolveIsIdempotent(HOST_CONTRIBUTIONS[i], slot, read, later);
  }
}
