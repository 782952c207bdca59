# Verification of Shipctl's runtime protocols and compilers

This project models the parts of Shipctl whose correctness rests on interleavings or on two
pieces of code agreeing with each other, and proves what they promise. Protocols are state
machines whose steps are the stretches of code between two `await`s (or two looks at a
channel); whatever the outside world decides is a parameter of a step, and the theorems speak of
every sequence of steps. Code that changes things in place is a class or a method with loops,
shown to take those steps; code that computes a value is a function.

`dafny verify dfyconfig.toml` checks everything.

**The runtime message bridge.** `BridgeProtocol` has the steps of `MessageBusBridge` (frames,
observers, handlers, replies, reconcile, deactivate, close) and a log of what an observer can
see; `BridgeLog` reads the log; `BridgeInvariant` is the invariant; `BridgeSafety` has the
theorems, stated on the log alone; `BridgeHandlers` says which handlers a frame reaches;
`MessageBusBridge` is the class with the source's fields.

**The configuration runtime.** `PluginData` is the revisioned native store, `Configuration` what
one call decides, `ConfigurationRuntime` the class, `ConfigurationLaws` and `ConfigurationValues`
the laws of single calls, `ConfigurationRuns` and `ConfigurationImports` the interleavings of many
runtimes, `HostSchemas` the six host schemas and `HostMigrations` what becomes of each setting.

**The contribution catalog.** `Contributions`, `SurfaceRegistries`, `CanvasCatalog`,
`WorkspaceCatalog` and `WorkspaceSnapshot` have the parts, `CatalogLayers` shows what the second
layer of validation can still find, `CatalogViews` and `CatalogCompiler` compile, `CatalogSteps` and
`CatalogRuns` move a compiled catalog on, `CatalogLaws`, `CatalogPermutation`, `CatalogDefinitions`
and `CatalogExample` have the theorems.

**JSON, menu and small protocols.** `HeapJson` is the check of possibly cyclic values,
`CanonicalJson` the comparison by printed text, `StableId`, `NativeMenu`, `NativeMenuLaws` and
`NativeMenuErrors` the menu compiler, `EventLeases`, `EventLeaseLaws` and `EventLease` the event
subscriptions, `InstanceWatch`, `InstanceStart`, `InstanceOutcomes`, `InstanceStarter` and
`InstanceStop` the command line's start and stop, `FontCache`, `FontAnswers` and `FontLoader` the
single-flight font cache. `Ordering`, `Text` and `Wrappers` are shared.

What the proofs turned up about the code:

- Right after `create` a renderer keeps its definition as the panel wrote it, while the snapshot
  of the same view sorts the capability list. They are equal
  exactly if the list was sorted (`CatalogLaws.FreshRenderersAgree`, with an example in
  `CatalogExample.UnsortedCapabilitiesDisagree`); after any revision change or host definition
  they are always equal.
- A second `resolve` returns the same record. It returns the same value exactly if inspection
  before the first call finds a stored value, or a value that validation leaves alone
  (`ConfigurationLaws.SecondResolveIsQuiet`, with a contribution for which the values differ in
  `TrimmingAnswersDiffer`). All host schemas have validators that leave their own output alone.
- The menu a list of contributions compiles to does not depend on their order, but the reported
  error can (`NativeMenu.ErrorDependsOnOrder`). It does not exactly if the contributions of the
  first place at fault are uniform (`NativeMenuErrors.ErrorIsOrderFreeExactly`), and never if no
  two contributions share a place.
- A scheduler subscription whose context closes while the native side is registering is refused
  and, unlike a repository subscription, does not release its native observer
  (`EventLeaseLaws.LeakingRun`). No other subscription is in that position
  (`OnlyRefusedDeliveriesLeak`), and the observer stays exactly until the close of the native
  bridge drops it (`RefusedKeepsItsObserver`).
- A failing scheduler listener ends its deliveries and makes disposal reject
  (`EventLeaseLaws.FailedListenerRun`; `OnlyUncaughtFailuresLose` and `DisposalReportsFailures`
  say when exactly). Repository and session listeners do neither.
- If waiting for the launched child fails, its exit is never announced and `start` can wait on a
  channel to which nothing is sent (`InstanceStart.FailedWaitBlocks`). That is the only such case:
  in a run without it, a blocked start has a running child (`InstanceStart.NoWakeIsLost`).
- The font cache keeps an entry exactly while a load runs, provided that a fetch does not throw in
  the call itself; then the clean-up would run before the entry is made. The condition is exact
  (`FontCache.EntryOutlivesItsLoad`). The one fetch in the repository returns the promise of the
  asynchronous `invoke` (core/frontend/platform/fonts.ts:10-12) and so does not throw that way;
  `invoke` itself is not part of this model.

## Model

| member | source | states |
|---|---|---|
| `BridgeSafety.OneAtATimeInArrivalOrder` | core/frontend/host/messageBusBridge.ts:201-216 | in every run, turn 2k of the dispatch queue starts the k-th frame received and turn 2k+1 finishes it: one frame at a time, in arrival order, none skipped or repeated |
| `BridgeSafety.PortRequestsAreAnswered` | core/frontend/host/messageBusBridge.ts:308-419 | a correlated port request received before close() has at least one reply attempt and at most one acknowledged reply once its dispatch is over, also when its handler or its first reply fails |
| `BridgeSafety.FinishedFramesAreAccounted` | core/frontend/host/messageBusBridge.ts:308-419 | the complete account of a finished frame: that its handlers settled and were cut short only by a failure, which verdict, which replies in which order, which failure report |
| `BridgeSafety.AdmissionFollowsTheLog` | core/frontend/host/messageBusBridge.ts:308-325 | the admission decided when a dispatch begins is the one that the installs, deactivations and close() before it call for; handlers entered are a prefix of the admitted ones and pass the generation fence |
| `BridgeSafety.NothingEntersAfterClose` | core/frontend/host/messageBusBridge.ts:308-325 | a frame whose dispatch begins after close() enters no handler |
| `BridgeSafety.NativeCloseWaits` | core/frontend/host/messageBusBridge.ts:425-435 | native close happens at most once, after close(), and only when every frame received before close() has settled |
| `BridgeSafety.ReconcilesFormAChain` | core/frontend/host/messageBusBridge.ts:235-255 | overlapping reconciles: accepted ones form a chain in which each was issued at the generation published by the one before, so generations strictly increase and at most one reconcile per generation is installed |
| `BridgeSafety.FieldsFollowTheLog` | core/frontend/host/messageBusBridge.ts:244-255 | the fence is the newest installed generation, never ahead of the native one, and the live table is the last accepted set minus later deactivations |
| `BridgeSafety.NeverStuck` | core/frontend/host/messageBusBridge.ts:201-216 | while a frame is queued or running, some settlement or the next start makes progress |
| `BridgeSafety.IdleQueueReleases` | core/frontend/host/messageBusBridge.ts:235-249 | once the queue is idle, every waiting reconcile can be sent and a bridge whose close() was called can be closed |
| `BridgeSafety.ReconcilesWait` | core/frontend/host/messageBusBridge.ts:242-248 | a reconcile is sent only when every frame received before its call has its verdict, and names the generation in force |
| `BridgeSafety.InstallsWereAsked` | core/frontend/host/messageBusBridge.ts:235-255 | an installed activation set is the one its call asked for, under the generation it was sent with |
| `BridgeHandlers.DirectedFramesReachTheirHandlers` | core/frontend/host/messageBusBridge.ts:333-336 | read off the directed table of the admitting activation: a finished directed frame entered exactly its endpoint's handlers in order, or a prefix if one failed; it is unavailable exactly if there is none, and failed exactly if one failed |
| `BridgeHandlers.BroadcastsReachEverySubscriber` | core/frontend/host/messageBusBridge.ts:337-350 | read off the broadcast table: a finished broadcast entered every subscriber of its endpoint, whatever failed; unavailable exactly if there is none, failed exactly if one failed |
| `BridgeHandlers.PortRequestsReachTheirHandler` | core/frontend/host/messageBusBridge.ts:351-362 | read off the port table: a correlated request entered exactly the one handler of its port; unavailable exactly without a correlation id or a handler; accepted exactly if the handler succeeded and its response was acknowledged |
| `BridgeHandlers.HandlersTakeTurns` | core/frontend/host/messageBusBridge.ts:333-336 | handlers of a directed frame run one after the other: each is entered only when all before it have succeeded |
| `BridgeHandlers.TableHoldsTheLast` | core/frontend/host/messageBusBridge.ts:195-198 | the table has an activation for an id exactly if the list has one, and it is the last of the list |
| `BridgeHandlers.AdmittedIsAddressed` | core/frontend/host/messageBusBridge.ts:308-325 | a frame is admitted by an activation that carries the id the frame names and that belongs to the first set or to one that a reconcile installed |
| `BridgeInvariant.RunKeeps` | core/frontend/host/messageBusBridge.ts:308-435 | the invariant that ties fields, suspended calls and log together holds after every sequence of events |
| `MessageBusBridgeClass.MessageBusBridge.OnFrame` | core/frontend/host/messageBusBridge.ts:210-214 | the native callback chains one frame; nothing else changes |
| `MessageBusBridgeClass.MessageBusBridge.BeginDispatch` | core/frontend/host/messageBusBridge.ts:308-325 | the synchronous start of `dispatch` takes the transition `Begin` |
| `MessageBusBridgeClass.MessageBusBridge.RejectFrame` | core/frontend/host/messageBusBridge.ts:389-419 | `#rejectFrame` up to its first await takes the transition `Reject` |
| `MessageBusBridgeClass.MessageBusBridge.AfterObserver` | core/frontend/host/messageBusBridge.ts:327-350 | the code after the observer settled takes the transition `Observed` |
| `MessageBusBridgeClass.MessageBusBridge.AfterHandler` | core/frontend/host/messageBusBridge.ts:332-373 | the code after a handler settled takes the transition `HandlerSettled` |
| `MessageBusBridgeClass.MessageBusBridge.AfterAllSubscribers` | core/frontend/host/messageBusBridge.ts:337-350 | the code after all broadcast subscribers settled takes the transition `Gathered` |
| `MessageBusBridgeClass.MessageBusBridge.AfterReply` | core/frontend/host/messageBusBridge.ts:355-373 | the code after a reply settled, including the catch path that replies again, takes the transition `ReplySettled` |
| `MessageBusBridgeClass.MessageBusBridge.AfterReconcile` | core/frontend/host/messageBusBridge.ts:249-255 | an answered reconcile installs its set and generation, a refused one changes nothing |
| `MessageBusBridgeClass.MessageBusBridge.DeactivateActivation` | core/frontend/host/messageBusBridge.ts:301-306 | exactly one activation leaves the table |
| `MessageBusBridgeClass.MessageBusBridge.Close` | core/frontend/host/messageBusBridge.ts:425-435 | the first call closes and waits for the frames received so far, a second call changes nothing |
| `PluginData.PluginDataStore.WriteRecord` | core/backend/src/plugin_data/mod.rs:293-330 | compare-and-swap write of one record; the other records are untouched |
| `PluginData.PluginDataStore.MigrateRecord` | core/backend/src/plugin_data/mod.rs:332-452 | migration of one record with replay, provenance conflict, stale and revision-limit cases, as the adapter accepts its answer; the other records are untouched |
| `PluginData.Write` | core/backend/src/plugin_data/mod.rs:569-600 | a write succeeds exactly on the expected revision below the last one, with a schema version; it then stores the given value at that version and the next revision and keeps the migrations; a failure changes nothing |
| `PluginData.Migrate` | core/frontend/platform/pluginDataAdapter.ts:319-336 | an accepted migration answer is the record in the store, at the expected revision plus one and the target schema; a migration that changes the store replaces exactly the expected record by the given value and records the step |
| `Configuration.ContributionKeyIsInjective` | core/frontend/configuration/runtime.ts:92-94 | scope kind and key can be read back from the table key |
| `ConfigurationRuntimeClass.AddContribution` | core/frontend/configuration/runtime.ts:127-167 | one turn of the constructor's loop: the contribution is tabulated, or is the first at fault |
| `ConfigurationRuntimeClass.Tabulate` | core/frontend/configuration/runtime.ts:122-170 | the constructor accepts exactly the acceptable contributions with distinct scopes and keys, tabulates each under its key, and otherwise reports the first at fault |
| `ConfigurationRuntimeClass.ConfigurationRuntime.LookupFindsTheOwner` | core/frontend/configuration/runtime.ts:172-188 | a lookup succeeds exactly if some accepted contribution owns scope kind and key, and returns that one |
| `ConfigurationRuntimeClass.ConfigurationRuntime.Inspect` | core/frontend/configuration/runtime.ts:194-262 | inspection of the stored record, or of the legacy source when there is none |
| `ConfigurationRuntimeClass.ConfigurationRuntime.Apply` | core/frontend/configuration/runtime.ts:264-318 | the durable steps of one inspection, with their effect on exactly one record |
| `ConfigurationRuntimeClass.ConfigurationRuntime.Resolve` | core/frontend/configuration/runtime.ts:320-325 | resolve leaves in the store what the specification function gives, touching one record |
| `ConfigurationRuntimeClass.ConfigurationRuntime.Update` | core/frontend/configuration/runtime.ts:327-349 | update validates, resolves and swaps, touching one record |
| `ConfigurationLaws.ResolveReachesItsSchema` | core/frontend/configuration/runtime.ts:264-325 | a successful resolve leaves the record it returns, at the contribution's schema version, never lowers the version, and says truly whether it wrote |
| `ConfigurationLaws.InterruptedImportRecovers` | core/frontend/configuration/runtime.ts:286-317 | a legacy import stopped between seed and migration and resolved again ends in the same record, revision and value as an uninterrupted one |
| `ConfigurationLaws.FirstResolve` | core/frontend/configuration/runtime.ts:264-325 | a resolve answers with the inspected value, and writes exactly if inspection did not find it stored |
| `ConfigurationLaws.SecondResolveIsQuiet` | core/frontend/configuration/runtime.ts:264-325 | a second resolve writes nothing and returns the same record; it returns the same value exactly if inspection before the first call finds a stored value, or one that validation leaves alone |
| `ConfigurationLaws.TrimmingAnswersDiffer` | core/frontend/configuration/runtime.ts:264-325 | an accepted contribution whose first two resolves answer with different values |
| `ConfigurationValues.StoredIsAnswered` | core/frontend/configuration/runtime.ts:372-382 | a record at the contribution's version is left alone and answered as validated, or refused with the validator's code |
| `ConfigurationValues.OlderIsMigrated` | core/frontend/configuration/runtime.ts:363-413 | an older record is replaced by what the first migration from its version, once validated, makes of it, with its provenance added and the next revision, and that value is the answer; exactly when this succeeds, and that a failure leaves the record alone |
| `ConfigurationValues.OthersAreRefused` | core/frontend/configuration/runtime.ts:383-404 | a record of a newer version, or one that no migration starts from, is left alone, each with its error |
| `ConfigurationValues.DefaultsAreStored` | core/frontend/configuration/runtime.ts:202-222 | without a record and a legacy value, the defaults are stored at revision 1 and answered |
| `ConfigurationValues.LegacyIsImported` | core/frontend/configuration/runtime.ts:230-235 | a legacy value of the contribution's version is stored and answered as transformed and validated, or nothing is stored |
| `ConfigurationValues.LegacyIsImportedAndMigrated` | core/frontend/configuration/runtime.ts:247-261 | an older legacy value is stored as transformed and then migrated by the first migration from its version; nothing is stored if the migrated value is refused |
| `ConfigurationValues.LegacyIsRefused` | core/frontend/configuration/runtime.ts:207-253 | the errors of an unreadable, untransformable, newer or unmigratable legacy value, none of which stores anything |
| `ConfigurationValues.WrittenIsAnswered` | core/frontend/configuration/runtime.ts:264-318 | a resolve that writes answers with the value it wrote; one that does not answers with the record's value once validated |
| `ConfigurationValues.UpdateStoresTheValue` | core/frontend/configuration/runtime.ts:327-349 | a successful update stores and answers the validated value, at the contribution's version and one revision after the record that resolving found; exactly when it fails, with which error, and what it then leaves |
| `ConfigurationValues.UpdateReplacesTheValue` | core/frontend/configuration/runtime.ts:327-349 | an update of a record at the contribution's version changes its value and its revision alone |
| `ConfigurationRuns.ChangesFormAChain` | core/frontend/configuration/runtime.ts:264-349 | runtimes of different schema versions interleaved at every await, with lost answers, failures and stops: changes form a gap-free chain of revisions, the schema version never decreases, a newer record is never touched; a first write stores the defaults or the imported legacy value, a migration what it makes of the record before it, and an update replaces exactly the record its own resolve returned by the validated value of its call |
| `ConfigurationRuns.AnswersWereStored` | core/frontend/configuration/runtime.ts:420-464 | no update is lost: a successful call's record was in the store at the caller's schema version and later records only have higher revisions; the record of an update holds the answered value, which is the validated value of the call |
| `ConfigurationRuns.UpdatesWereRequested` | core/frontend/configuration/runtime.ts:327-349 | every value that an update stored or answered was passed to a call of that client |
| `ConfigurationRuns.RunKeeps` | core/frontend/configuration/runtime.ts:264-464 | the invariant of the interleaved runtimes holds after every sequence of events |
| `ConfigurationImports.ImportsAreConfluent` | core/frontend/configuration/runtime.ts:207-261 | any number of interleaved, failing and restarting resolves from an absent record: the record is absent, the seed, or the record of one uninterrupted call, and every success returns that record |
| `HostSchemas.ResolveIsIdempotent` | core/frontend/configuration/runtime.ts:264-325 | for a contribution with an idempotent validator that fixes its defaults, a second resolve writes nothing and returns the same record and value |
| `HostSchemas.HostIsSettled` | core/frontend/configuration/schemas.ts:150-306 | all six host validators leave their own output alone and fix their defaults, and the runtime accepts the six contributions |
| `HostSchemas.HostContributionsAreAccepted` | core/frontend/configuration/schemas.ts:308-373 | the runtime's constructor accepts the six host contributions together |
| `HostSchemas.HostResolveIsIdempotent` | core/frontend/configuration/schemas.ts:308-373 | every host contribution reaches a fixed point in one resolve, from any record or legacy value |
| `HostMigrations.RuntimeIsMigrated` | core/frontend/configuration/schemas.ts:158-166 | the runtime migration turns the adapter "legacy" into "standard" and keeps the two others; it refuses everything else |
| `HostMigrations.CanvasIsImported` | core/frontend/configuration/schemas.ts:308-327 | the canvas of the old "ui" settings is stored as the adapter, at version 3 and revision 2, exactly if it is a known one |
| `HostMigrations.EditorIsMigrated` | core/frontend/configuration/schemas.ts:191-196 | a missing editor becomes null, every other known one is kept, and the rest is refused |
| `HostMigrations.ProjectsAreMigrated` | core/frontend/configuration/schemas.ts:216-223 | a missing or null flag becomes true and every other field is kept; refused exactly for another flag or a field that is not JSON |
| `HostMigrations.KeybindingsAreMigrated` | core/frontend/configuration/schemas.ts:240-244 | each keybinding is the source's if the source has it and the default otherwise; refused exactly if one that it has is no boolean |
| `HostMigrations.TerminalIsMigrated` | core/frontend/configuration/schemas.ts:281-285 | each terminal setting is the source's if the source has it and the default otherwise; refused exactly if one that it has is invalid |
| `HostMigrations.SidebarIsMigrated` | core/frontend/configuration/schemas.ts:302-306 | each sidebar setting is the source's if the source has it and the default otherwise; refused exactly if one that it has is invalid |
| `HostMigrations.RuntimeIsValidated` | core/frontend/configuration/schemas.ts:150-156 | accepted exactly with a bundled adapter, which is kept |
| `HostMigrations.EditorIsValidated` | core/frontend/configuration/schemas.ts:183-189 | accepted exactly with a known editor or null, which is kept |
| `HostMigrations.ProjectsAreValidated` | core/frontend/configuration/schemas.ts:198-214 | accepted exactly with a boolean flag and JSON fields; every field is kept |
| `HostMigrations.KeybindingsAreValidated` | core/frontend/configuration/schemas.ts:225-238 | accepted exactly with three booleans, which are kept |
| `HostMigrations.TerminalIsValidated` | core/frontend/configuration/schemas.ts:246-279 | accepted exactly with seven valid settings, which are kept |
| `HostMigrations.SidebarIsValidated` | core/frontend/configuration/schemas.ts:287-300 | accepted exactly with three valid settings, which are kept |
| `HostMigrations.SettingsAreImported` | core/frontend/configuration/schemas.ts:328-373 | the old settings of the other five contributions are stored as migrated, at version 2 and revision 2, or not at all |
| `HeapJson.JsonSafe` | core/frontend/platform/pluginDataAdapter.ts:127-139 | the depth-first check ends on every finite graph, cyclic or shared, leaves the ancestors as it found them, and answers true exactly if the graph below is acyclic and admissible |
| `HeapJson.IsJson` | core/frontend/configuration/schemas.ts:83-94 | the call without ancestors is exact |
| `HeapJson.CleanStep` | core/frontend/platform/pluginDataAdapter.ts:132-138 | being acyclic and admissible, one level at a time |
| `HeapJson.CleanMeansFiniteTree` | core/frontend/platform/pluginDataAdapter.ts:127-139 | the check holds of exactly the values that stand for a finite JSON tree |
| `HeapJson.UnfoldingIsUnique` | core/frontend/platform/pluginDataAdapter.ts:127-139 | a value stands for at most one tree |
| `CanonicalJson.StringifyIsInjective` | core/frontend/host/moduleArtifactLoader.ts:160-162 | the printed text determines the JSON tree (sections 4 to 7 of RFC 8259) |
| `CanonicalJson.SameJsonMeansSimilar` | core/frontend/host/moduleArtifactLoader.ts:148-162 | `sameJson` holds exactly if the trees are equal up to the order of object members at every depth |
| `CanonicalJson.SimilarHaveOneCanonical` | core/frontend/host/moduleArtifactLoader.ts:148-158 | trees equal up to member order have one canonical form |
| `CanonicalJson.OneCanonicalMeansSimilar` | core/frontend/host/moduleArtifactLoader.ts:148-158 | trees with one canonical form are equal up to member order |
| `CanonicalJson.ParseGrants` | core/frontend/host/moduleArtifactLoader.ts:164-173 | accepts exactly arrays of unique strings, and sorts them |
| `CanonicalJson.GrantsAgree` | core/frontend/host/moduleArtifactLoader.ts:442-451 | comparing sorted grants as JSON compares the grants as bags |
| `CanonicalJson.CompareGrants` | core/frontend/host/moduleArtifactLoader.ts:442-451 | runtime grants are accepted exactly if they are a permutation of unique admitted ones, and each refusal has its error |
| `StableId.SplitWords` | core/backend/src/menu.rs:422-437 | splitting at one separator leaves the conditions on the other separators to the pieces |
| `StableId.SegmentParts` | core/backend/src/menu.rs:425-436 | a segment is dashed words exactly if its parts between dashes are plain words |
| `StableId.IsDashed` | core/backend/src/menu.rs:425-436 | the inner loop, over the parts of one segment |
| `StableId.IsStableDottedId` | core/backend/src/menu.rs:422-437 | the nested splits accept exactly the strings over lower-case letters, digits, dots and dashes that contain a dot and have no leading, trailing or adjacent separators |
| `NativeMenu.CollectCommandIds` | core/backend/src/menu.rs:344-354 | the walk collects the command ids of nested submenus in order |
| `NativeMenu.ValidateContribution` | core/backend/src/menu.rs:379-420 | the first fault of a contribution; none exactly if it is valid |
| `NativeMenu.AddContributions` | core/backend/src/menu.rs:189-218 | the loop succeeds exactly if all contributions are valid, new and distinct, and otherwise reports the first at fault |
| `NativeMenu.Compile` | core/backend/src/menu.rs:165-318 | compilation succeeds exactly on that condition, yields the whole menu, and otherwise reports the first fault in place order |
| `NativeMenu.CompiledCommands` | core/backend/src/menu.rs:344-377 | the commands of a compiled menu, found through submenus, are the core commands and the contributed ones, each exactly once |
| `NativeMenuLaws.FileSection` | core/backend/src/menu.rs:165-250 | the File section has the new items with their labels and accelerators, one entry for each contribution in the order of their places with its own id, label and accelerator, and its tail |
| `NativeMenuLaws.AppCommands` | core/backend/src/menu.rs:227-246 | the labels and accelerators of the commands of the App section, by id |
| `NativeMenuLaws.ViewCommands` | core/backend/src/menu.rs:264-300 | the labels and accelerators of the commands of the View section and its submenus, by id |
| `NativeMenuLaws.FaultsMean` | core/backend/src/menu.rs:379-420 | what each error says of a contribution, and that one without an error has a label and no blank accelerator |
| `NativeMenu.OrderOfContributionsIsForgotten` | core/backend/src/menu.rs:189-218 | permuting the contributions changes neither success nor the menu |
| `NativeMenu.FaultIsReported` | core/backend/src/menu.rs:201-211 | the error that walking the sorted list reports is that of its first fault |
| `NativeMenuErrors.SortIsStable` | core/backend/src/menu.rs:189-200 | contributions of one place keep the order of the input |
| `NativeMenuErrors.GroupDecides` | core/backend/src/menu.rs:189-218 | whatever the order of the input, the contributions of the first place at fault, in that order, decide the error |
| `NativeMenuErrors.ErrorIsOrderFreeExactly` | core/backend/src/menu.rs:189-218 | every order of a list reports the same error exactly if the contributions of the first place at fault are uniform: with their id taken, all have the same fault or none; with it new, all are valid if two are, and otherwise the invalid ones share one fault |
| `NativeMenuErrors.DistinctPlacesAreOrderFree` | core/backend/src/menu.rs:189-218 | if no two contributions share a place, every order reports the same error |
| `NativeMenu.ErrorDependsOnOrder` | core/backend/src/menu.rs:189-218 | two contributions of one place whose two orders report different errors |
| `SurfaceRegistries.PanelRegistry.Register` | core/frontend/host/panelRegistry.ts:45-65 | a panel is registered if its id is namespaced and new; otherwise nothing changes |
| `SurfaceRegistries.CreatePanelRegistry` | core/frontend/host/panelRegistry.ts:35-43 | registration in order stops at the first fault |
| `SurfaceRegistries.GlobalSurfaceRegistry.RegisterSurface` | core/frontend/host/globalSurfaceRegistry.ts:61-79 | a surface is registered if its id is namespaced and new; otherwise nothing changes |
| `SurfaceRegistries.GlobalSurfaceRegistry.RegisterNavigation` | core/frontend/host/globalSurfaceRegistry.ts:81-116 | navigation is registered if its id is namespaced and new and its surface is there, of the same module; otherwise nothing changes |
| `SurfaceRegistries.CreateGlobalSurfaceRegistry` | core/frontend/host/globalSurfaceRegistry.ts:48-59 | all surfaces, then all navigation, stopping at the first fault |
| `SurfaceRegistries.NoFault` | core/frontend/host/panelRegistry.ts:35-65 | registration of a list succeeds exactly if no entry has a fault after those before it |
| `SurfaceRegistries.FaultsMean` | core/frontend/host/panelRegistry.ts:45-65 | which registrations are refused, and with which error, in terms of ids, namespaces and the entries registered before |
| `Contributions.NamespacedMeans` | core/frontend/host/panelRegistry.ts:19-22 | a namespaced id is a namespace without a dot, a dot, and a name |
| `Contributions.OrderedByFields` | core/frontend/host/workspaceContributionCatalog.ts:286-289 | collected entries are sorted by order, an absent order counting as 0, and then by id |
| `CanvasCatalog.AssertUniqueModuleIds` | core/frontend/host/canvasSurfaceCatalog.ts:148-160 | true exactly if no module id repeats |
| `CanvasCatalog.CompilesExactly` | core/frontend/host/canvasSurfaceCatalog.ts:378-468 | for arbitrary modules and activations: a canvas catalog is compiled exactly if module ids are distinct, its families are activated and owned, panels, surfaces and navigation have namespaced and distinct ids, and every target is offered by the owner of its entry |
| `CanvasCatalog.FaultsMean` | core/frontend/host/canvasSurfaceCatalog.ts:315-333 | a target error says that no entry has the named id, or that one of another owner has it |
| `CanvasCatalog.ActivationFaultsMean` | core/frontend/host/canvasSurfaceCatalog.ts:175-203 | which activations are refused, each with its error |
| `CanvasCatalog.Create` | core/frontend/host/canvasSurfaceCatalog.ts:378-468 | success exactly on that condition, with the branches of the specification |
| `WorkspaceCatalog.SourcesFor` | core/frontend/host/workspaceContributionCatalog.ts:206-255 | sources are accepted exactly if the revision is valid, every module is activated, ids are distinct and activations live and matching; an error names a cause that is there |
| `WorkspaceCatalog.Collect` | core/frontend/host/workspaceContributionCatalog.ts:257-289 | a family is collected exactly if all its contributions belong to their sources and ids are distinct; the result is ordered |
| `WorkspaceCatalog.AssertOwnedTargets` | core/frontend/host/workspaceContributionCatalog.ts:297-321 | every target exists and has the owner of its entry, or the first fault is reported |
| `CatalogDefinitions.SourcesAreGiven` | core/frontend/host/workspaceContributionCatalog.ts:206-240 | the sources of an input are its modules with their activations and offers, and its further sources, each once |
| `CatalogDefinitions.EntriesAreOffers` | core/frontend/host/workspaceContributionCatalog.ts:257-289 | the entries of a family are the contributions that the sources offer in it, owned by module and activation of their source |
| `CatalogDefinitions.AcceptedExactly` | core/frontend/host/workspaceContributionCatalog.ts:242-321 | the workspace layer accepts exactly live sources with distinct modules, owned contributions with distinct ids, and targets that an entry's own owner offers |
| `WorkspaceCatalog.LabelBySurface` | core/frontend/host/workspaceContributionCatalog.ts:403-413 | the loop computes `Labels` |
| `CatalogPermutation.LabelIsTheLeast` | core/frontend/host/workspaceContributionCatalog.ts:403-413 | a surface is labelled by the navigation entry for it that is least by order and id, or by its own id |
| `CatalogLayers.CanvasAddsOnlyNamespacing` | core/frontend/host/workspaceContributionCatalog.ts:451-465 | once the workspace checks pass, the canvas catalog succeeds exactly if every panel, surface and navigation id is namespaced, with a known result, and else complains about the first family with an id that is not; all its other errors are unreachable |
| `CatalogLayers.RegistriesAskForNamespaces` | core/frontend/host/canvasSurfaceCatalog.ts:378-409 | on accepted sources the two registries complain about nothing but namespaces |
| `CatalogLayers.CanvasResolves` | core/frontend/host/canvasSurfaceCatalog.ts:409-468 | on accepted sources the second half of the canvas compiler never fails |
| `CatalogCompiler.LookupsSucceed` | core/frontend/host/workspaceContributionCatalog.ts:466-493 | the "no accepted owner" lookups of the compiler always find the entry they are for |
| `CatalogCompiler.BuildPanels` | core/frontend/host/workspaceContributionCatalog.ts:466-480 | the loop over canvas panels: success and result, and what each of its errors says of the panels |
| `CatalogCompiler.BuildSurfaces` | core/frontend/host/workspaceContributionCatalog.ts:481-492 | the loop over canvas surfaces after the panels: success, result and error |
| `CatalogCompiler.Create` | core/frontend/host/workspaceContributionCatalog.ts:427-531 | compilation succeeds exactly on a stated condition, with a stated state; every error is one that the input deserves, and it is the first of: a panel against its scope, a panel and a surface of one id, definitions that are not admitted |
| `CatalogDefinitions.CompilableExactly` | core/frontend/host/workspaceContributionCatalog.ts:427-531 | that condition in the fields of the contributions: the layers' checks, a safe revision, no panel against its scope, no id shared by a panel and a surface, and well-formed names, owners, labels and capabilities of every view |
| `CatalogDefinitions.PanelsArePublished` | core/frontend/host/workspaceContributionCatalog.ts:323-363 | every offered panel of a compiled catalog is published under its id with its label, owner, scope and loader; closing disposes of it; it is multiple, one per resource or single exactly as it is no singleton, per project or global, never against its scope; its renderer has that definition |
| `CatalogDefinitions.SurfacesArePublished` | core/frontend/host/workspaceContributionCatalog.ts:365-387 | every offered global surface is published under its id as one global view that closing hides, with its loader and the label that navigation gives it |
| `WorkspaceSnapshot.ParseGivesASnapshot` | core/frontend/workspace/catalog.ts:172-209 | an admitted snapshot is sound, sorted, claims no identity twice and is its own admitted form |
| `WorkspaceSnapshot.ParsesExactly` | core/frontend/workspace/catalog.ts:172-209 | a snapshot is admitted exactly with a safe revision, well-formed names and no identity claimed twice, and then has the definitions with sorted names in the order of their views |
| `Text.WorkspaceNameMeans` | core/frontend/workspace/internal.ts:17-22 | a workspace name is two or more names with dots between them |
| `WorkspaceSnapshot.SnapshotsReparse` | core/frontend/workspace/catalog.ts:172-209 | admitting an admitted snapshot under another revision changes only the revision |
| `WorkspaceSnapshot.AdmittedWhenSorted` | core/frontend/workspace/catalog.ts:43-48 | a definition's lists are the admitted ones exactly if they are sorted |
| `CatalogSteps.Rebind` | core/frontend/host/workspaceContributionCatalog.ts:606-613 | every renderer gets the snapshot's definition of its view, or the failure names a view without one |
| `CatalogSteps.WithRegistryRevision` | core/frontend/host/workspaceContributionCatalog.ts:595-621 | only an invalid revision is refused; the same revision returns the same catalog; another one moves the snapshot and rebinds every renderer |
| `CatalogSteps.WithHostWorkspaceDefinitions` | core/frontend/host/workspaceContributionCatalog.ts:628-672 | succeeds exactly if the definitions are sound and claim no identity twice or already taken; a taken view is told apart from an invalid snapshot |
| `CatalogSteps.IdentitiesPermute` | core/frontend/workspace/catalog.ts:195-203 | whether identities repeat does not depend on the order of definitions |
| `CatalogRuns.BatchesMerge` | core/frontend/host/workspaceContributionCatalog.ts:628-672 | two batches of host definitions are admissible one after the other exactly if they are together, with the same snapshot |
| `CatalogRuns.RunsReachTheirDestination` | core/frontend/host/workspaceContributionCatalog.ts:595-672 | a run of both operations succeeds exactly if its revisions are valid and its definitions admissible all at once, and leads where that leads, whatever the order |
| `CatalogLaws.CompiledIsCoherent` | core/frontend/host/workspaceContributionCatalog.ts:466-531 | a compiled catalog has one revision, an admitted snapshot, and renderers bound to it |
| `CatalogLaws.FreshRenderersAgree` | core/frontend/host/workspaceContributionCatalog.ts:323-363 | right after compilation a renderer has the snapshot's definition exactly if its panel lists its capabilities in order |
| `CatalogLaws.ViewsAreSurfaces` | core/frontend/host/workspaceContributionCatalog.ts:466-500 | the views of a compiled catalog are exactly its panels and global surfaces: each has a renderer and a definition, nothing else has |
| `CatalogLaws.CanvasListsEverything` | core/frontend/host/canvasSurfaceCatalog.ts:349-376 | the canvas lists hold every offered contribution once, in its order, and every targeted one with the target it names, of its own owner |
| `CatalogLaws.RecordsAreComplete` | core/frontend/host/workspaceContributionCatalog.ts:501-513 | the records are sorted by family and id, exactly one for every collected contribution, with its id, its owner, and its target or view if its family has them, and no others |
| `CatalogExample.UnsortedCapabilitiesDisagree` | core/frontend/host/workspaceContributionCatalog.ts:466-500 | a concrete source for which they differ |
| `CatalogLaws.EveryRunAgrees` | core/frontend/host/workspaceContributionCatalog.ts:466-672 | after every run: one revision, every renderer bound to the snapshot's definition of its view, one owner, untouched records, and lookups that return the unique element of the ordered lists |
| `CatalogPermutation.OrderOfSourcesIsForgotten` | core/frontend/host/workspaceContributionCatalog.ts:206-289 | permuting sources and the contributions inside them changes neither success nor anything in the compiled state |
| `EventLeaseLaws.DeliveriesAreAnOrderedPrefix` | core/frontend/platform/git.ts:383-416 | in every run the listener calls are a prefix of the accepted events, in scope, one at a time, with strictly increasing sequence |
| `EventLeaseLaws.ArrivalsAreChained` | core/frontend/platform/git.ts:392-397 | an arrival is chained, with the right number, exactly if the subscription is open for it: a change of its project, a sound frame with a new safe number, or a session of its record and project |
| `EventLeaseLaws.ChainIsWhatWasAccepted` | core/frontend/platform/assistantLaunch.ts:570-577 | the chain is exactly the arrivals that the subscription was open for, in order |
| `EventLeaseLaws.ChainsExtend` | core/frontend/platform/scheduler.ts:314-330 | what is chained stays in its place, and what is over stays as it is |
| `EventLeaseLaws.NoCallStartsAfterClosing` | core/frontend/platform/git.ts:400-402 | once the lease or its context has closed no listener call starts |
| `EventLeaseLaws.FinishedStaysQuiet` | core/frontend/platform/git.ts:412-416 | when disposal finishes normally no call is running, the native side is released, and nothing happens any more |
| `EventLeaseLaws.DisposalReportsFailures` | core/frontend/platform/scheduler.ts:331-335 | disposal of a scheduler subscription fails, after its native side was released, exactly if a listener call failed; the others never do |
| `EventLeaseLaws.FailedDisposalsHaveCauses` | core/frontend/platform/scheduler.ts:331-335 | in every run a disposal fails only after the native side refused to unlisten, or a listener of a scheduler subscription failed |
| `EventLeaseLaws.RefusalsHaveCauses` | core/frontend/platform/git.ts:403-411 | a subscription is refused only after its registration failed or its context closed |
| `EventLeaseLaws.OnlyUncaughtFailuresLose` | core/frontend/platform/scheduler.ts:319-327 | a live subscription whose chain has settled has missed an event exactly if it is a scheduler subscription and an earlier call failed |
| `EventLeaseLaws.NeverStuck` | core/frontend/platform/assistantLaunch.ts:573-576 | a waiting event is never stuck behind nothing |
| `EventLeaseLaws.OnlyRefusedDeliveriesLeak` | core/frontend/platform/scheduler.ts:312-336 | a registered subscription can release its native side itself, except exactly a scheduler subscription whose context closed while it was opening |
| `EventLeaseLaws.RefusedKeepsItsObserver` | core/backend/src/scheduler/leases.rs:593-599 | a refused subscription keeps its native observer exactly until the close of the native bridge drops it |
| `EventLeaseLaws.LeakingRun` | core/frontend/platform/scheduler.ts:312-336 | the run that leads there |
| `EventLeaseLaws.FailedListenerRun` | core/frontend/platform/scheduler.ts:319-335 | a run in which a failed listener call drops the next delivery and makes disposal fail |
| `EventLeases.RunKeeps` | core/frontend/platform/git.ts:383-416 | the invariant of a subscription holds after every sequence of events |
| `EventLeaseClass.EventLease.Receive` | core/frontend/platform/git.ts:392-397 | the native callback takes the step `Arrives` on the shared counter and the chain |
| `EventLeaseClass.EventLease.Take` | core/frontend/platform/scheduler.ts:319-327 | a chained link calls the listener only if lease and context are open |
| `EventLeaseClass.EventLease.OpenSettles` | core/frontend/platform/git.ts:392-411 | the answer to the registration, with the undo of a repository subscription |
| `EventLeaseClass.EventLease.BeginDispose` | core/frontend/platform/assistantLaunch.ts:578-582 | the synchronous part of disposal |
| `EventLeaseClass.EventLease.FinishDispose` | core/frontend/platform/scheduler.ts:331-335 | waiting for the chain, and whether it rejects |
| `EventLeaseClass.EventLease.NativeReleases` | core/tauri/src/message_bridge.rs:664-672 | the close of the native bridge drops the observers of its activations |
| `InstanceStart.NoWakeIsLost` | cli/src/instances.rs:178-210 | a start that waits with nothing on its way saw the directory as it is, with the name absent, and its child is running, or unobservable if waiting for it has failed in the run |
| `InstanceStart.UnobservedAfterFailedWait` | cli/src/instances.rs:171-175 | in every run the exit of the child is unobservable exactly if waiting for it has failed |
| `InstanceStart.UnobservedIsNeverAnnounced` | cli/src/instances.rs:171-175 | then no wake for an exit is ever sent |
| `InstanceStart.ExitsAreAnnounced` | cli/src/instances.rs:171-175 | otherwise the wake for an exit is due or in the channel while the loop runs |
| `InstanceStart.FailedWaitBlocks` | cli/src/instances.rs:116-210 | a run in which waiting for the child fails and the start waits with nothing left to do |
| `InstanceStart.LaunchesOnceAndCleared` | cli/src/instances.rs:123-174 | at most one child per call, launched only after both looks of a round with the watcher registered found name and state root free |
| `InstanceStart.OutcomesAreTrue` | cli/src/instances.rs:116-210 | what each result says about the directory, the state root and the child; a name in use is a live instance with another state root |
| `InstanceOutcomes.StepsDecide` | cli/src/instances.rs:693-715 | one look decides by what is under the name: the requested root is a success, started after the launch and ready otherwise, another root a name in use, an unreadable entry its code, and only an absent name goes on; likewise every other step that can end the call |
| `InstanceOutcomes.OutcomesAreDecided` | cli/src/instances.rs:116-210 | every finished run has a step that ended it and decided its outcome; a fault of the watcher has happened before |
| `InstanceOutcomes.ReadyInstanceIsReported` | cli/src/instances.rs:178-210 | once the launched instance is listed with the requested root and no watcher fault is on its way, a quiet run ends by reporting it, as started unless the child has exited |
| `InstanceOutcomes.LaunchedInstanceIsReported` | cli/src/instances.rs:116-210 | the same from the beginning of the call, with any outside steps before the quiet ones |
| `InstanceOutcomes.ExitedLaunchFails` | cli/src/instances.rs:178-210 | once the child has exited while the name is absent, a quiet run ends with a failed launch |
| `InstanceStart.QuietRunsEnd` | cli/src/instances.rs:178-210 | without help from outside a start stops after a bounded number of steps, done or waiting for something that has not happened |
| `InstanceStart.RunKeeps` | cli/src/instances.rs:116-210 | the invariant of a start holds after every sequence of steps |
| `InstanceStarter.Run` | cli/src/instances.rs:116-210 | the whole call, with the world acting at every pause, is a run of the state machine that ends done or waiting on an empty channel |
| `InstanceStarter.AwaitReadiness` | cli/src/instances.rs:178-210 | the loop: look, wait, react |
| `InstanceStop.StopsWhenTheInstanceIsGone` | cli/src/instances.rs:310-354 | stop succeeds only when the directory no longer lists the instance, and waits with nothing on its way only while it does |
| `InstanceStop.FailuresHaveCauses` | cli/src/instances.rs:310-354 | a stop fails only after the watcher could not be registered, the request failed or the watcher reported a fault |
| `InstanceStop.NamedByTheAnswer` | cli/src/instances.rs:310-354 | a stop waits for and reports the instance that its request was answered with |
| `InstanceStop.GoneInstanceIsReported` | cli/src/instances.rs:310-354 | once the instance is gone and no watcher fault is on its way, a quiet run ends by reporting it |
| `InstanceStop.QuietRunsEnd` | cli/src/instances.rs:310-354 | without help from outside a stop ends after a bounded number of steps, done or waiting for an instance that is still listed |
| `InstanceWatch.EnvironmentIsNoticed` | cli/src/instances.rs:719-744 | no change, notification or fault can make a change go unnoticed |
| `FontCache.OneLoadAtATime` | core/frontend/appearance/fontLoader.ts:55-102 | at most one load per family runs, and a family is fetched again only after each earlier load of it failed |
| `FontAnswers.LoadsAnswerTruly` | core/frontend/appearance/fontLoader.ts:62-100 | a finished load answered true exactly if a face registered and the document became ready, false exactly if all fetched faces settled and none registered, and rejected exactly if the fetch threw or failed or the document did |
| `FontCache.EntriesAreRunningLoads` | core/frontend/appearance/fontLoader.ts:59-102 | with a fetch that never throws in the call itself, an entry exists exactly while a load of its family runs |
| `FontCache.EntryOutlivesItsLoad` | core/frontend/appearance/fontLoader.ts:62-102 | in any run, an entry is there without a running load exactly if a fetch of the family threw in the call itself |
| `FontCache.RetriedAfterFailure` | core/frontend/appearance/fontLoader.ts:55-102 | with such a fetch, a call fetches a family exactly if every earlier load of it has failed |
| `FontCache.StuckExactlyAfterThrow` | core/frontend/appearance/fontLoader.ts:55-102 | in any run, after failed loads only, a call does not fetch exactly if one of them threw in the call itself |
| `FontCache.ThrownStaysRejected` | core/frontend/appearance/fontLoader.ts:93-100 | after a throw in the call itself every later call gets the same rejected promise |
| `FontCache.ThrowingRun` | core/frontend/appearance/fontLoader.ts:62-100 | a run of one call whose fetch throws |
| `FontCache.RunKeeps` | core/frontend/appearance/fontLoader.ts:38-102 | the invariant of the cache holds after every sequence of calls and settlements |
| `FontLoaderClass.FontLoader.EnsureFamilyLoaded` | core/frontend/appearance/fontLoader.ts:55-62 | the call up to its first await: its answer, and when it starts a load |
| `FontLoaderClass.FontLoader.FaceSettles` | core/frontend/appearance/fontLoader.ts:67-92 | the loop over faces, one settlement at a time |
| `FontLoaderClass.FontLoader.ReadySettles` | core/frontend/appearance/fontLoader.ts:88-95 | the end of a load that registered a face |

## Left out

- `open` of the bridge, two overlapping opens, close during an open, and direct outside calls of `dispatch`: the model starts from an opened bridge whose dispatches come from its queue.
- Payloads, sequence numbers and response envelopes of frames, the grouping of declarations into activations, and client and scheduler bindings: they take no part in the decisions modelled.
- The native message bus: its answers to reconcile are assumed to accept only the current generation and to publish a larger one.
- A handler table used by a dispatch admitted before a reconcile: such a dispatch goes on with the table it was admitted with, as in the code, and nothing more is claimed.
- Grants, denials and cancellation of plugin data, and file input and output of the native store: a durable step may fail before or after it takes effect.
- Migrations of several records in one transaction, and records of several modules: every call modelled touches one record.
- Legacy record maps of the native store: the model has the legacy reader of the configuration runtime only.
- Sparse arrays, undefined members, negative zero, unpaired surrogates and the order that JavaScript gives integer-like keys: JSON trees have keys in one order, and a number is its printed text.
- `localeCompare`, default `sort` and Rust's string order: one total order on strings stands for each of them, and only totality is used.
- Loaders, icons, regions and the frozen copies of catalog entries: a contribution has the fields that validation and ordering read, and all families share one record of them.
- Built-in surfaces of the canvas catalog and its static form without activations: the workspace catalog never uses them.
- Maps that remember insertion order: a registry's map is the sequence of its entries, and the nine `collect` calls are one loop over the nine families.
- Closed field sets and the first schema version of a workspace snapshot: definitions arrive with fields of the right types.
- Rendering of the native menu and its platform accelerators.
- Second calls of a lease's `dispose`, which return at once, and the disposal of all leases of an activation.
- The set of listeners that assistant changes are published to: one subscription is modelled, and other subscriptions appear as steps that raise the shared counter.
- Archive checks, state-root resolution and launch arguments of `start`: preparing, watching and spawning succeed or fail as the outside world decides.
- Registration of a font face with the document: a face either registers or fails.
- InstanceStart.NoWakeIsLost: assumes that every change of the directory is followed by a notification; liveness of instances that no file change announces is not modelled.
- Cyclic values given to the host validators: `HostSchemas` has finite values, and `HeapJson` has the check that turns cyclic ones away.
- Which activations the native bridge has registered when it closes: the drop of an activation's observers is a step that the outside world may take.
