# RustTS, modelled and proved

RustTS is a single-threaded engine that runs TypeScript mods inside a Rust host. Its
difficulty lies in caches, fast paths and protocols that have to agree with something
simpler. This project states that simpler thing for each of them and proves the agreement:

- **Project discovery** (`Stamps`, `ProjectModel`, `ProjectLaws`, `Discovery`,
  `IncrementalDiscovery`, `StaleResolver`, `WatchedFailures`): a walk of the import graph that reuses the
  previous walk finds what a walk from nothing finds, which is what is reachable; what it
  watches is what its answer depends on.
- **Derived codecs and schemas** (`Metadata`, `Decimal`, `FloatText`, `Descriptors`,
  `Encoding`, `Decoding`, `DerivedSchema`, `EncodedIsValid`, `SchemaDependencies`,
  `LeftOutFields`, `LeftOutVariants`, `RoundTrip`, `Validation`, `ValidationContexts`, `ObjectHelpers`): the
  macro's output is an interpreter over type descriptors with two back ends, a codec and a
  schema. What a type encodes to passes its own schema, and decodes back.
- **Async host calls** (`HostCalls`, `HostProtocol`, `Pumping`): resolver threads and the
  engine thread interleaved step by step; no wake-up is lost, no call settles twice or is
  forgotten.
- **Timers, events and budgets** (`Times`, `TimerModel`, `TimerLaws`, `TimerRuns`,
  `ScriptTimers`, `AdvanceTimers`, `TimerDelivery`, `Events`, `Dispatch`, `BatchedDelivery`,
  `Execution`): early exits,
  in-place compaction, snapshots and per-context batches against plain loops, with script
  callbacks as arbitrary functions.
- **Deferred results and script lifecycle** (`Tasks`, `ModuleIds`, `ModuleStore`,
  `ModuleIsolation`, `LifecycleModel`, `LifecycleLaws`, `Lifecycle`): results published
  once, exact bookkeeping after any history of loads, and module graphs that never reach
  each other.
- **Source maps and the transpile cache** (`SourceMaps`, `Transpilation`).

Code that changes state step by step is a class or a method with loops, tied by its
contract to functions on values; the laws are lemmas about those functions. Scripts,
handlers, files, the compiler and the resolver are function parameters, so every theorem
holds for all of them. `Wrappers` holds `Option` and `Result`.

What the proofs found:

- An unchanged project keeps its resolver when a `tsconfig.json` appears *above* the
  entry's directory where there was none: nothing up there is watched
  (`IncrementalDiscovery.ReusedResolverIsFresh`, `StaleResolver.TsconfigAboveIsNotNoticed`).
- A failed load watches the directories of the modules it visited, not the places where
  the failing request looked: installing a missing package into an existing
  `node_modules` is not noticed (`WatchedFailures.InstalledPackageIsNotNoticed`).
- A flattened struct field that serializing leaves out still has its required keys in the
  schema, which then refuses the encoded value
  (`LeftOutFields.SkippedFlattenedStructIsRefused`).
- The integer map key `-0` parses but does not print back
  (`Decimal.ParsedKeyPrintsBack`).
- `Engine::emit` documents one encoding of the payload per script; the code encodes once
  per visit to a context, so a handler that changes the payload changes it for the next
  script of its group. A payload that cannot be encoded for a group is reported without
  looking whether the operation must stop. The two deliveries differ exactly there
  (`BatchedDelivery.ByContextIsOneByOne`).
- The handle of a cancelled request is filled again after the host took the cancellation
  exactly when another participant's pending task is dropped later
  (`Tasks.RefilledExactly`, `Tasks.TakenHandleIsRefilled`).

## Model

| member | source | states |
|---|---|---|
| Stamps.UnchangedAgrees | src/compiler/stamp.rs:48-52 | watched paths that show no change look as they did when stamped |
| Stamps.RestampedReportsOnce | src/runner/engine/lifecycle.rs:223-246 | after a failed reload was merged and restamped, a change shows exactly when one of the files either version looked at is touched again |
| Stamps.WatchedFiles.WatchPath | src/compiler/stamp.rs:35-40 | a path keeps its first stamp |
| Stamps.WatchedFiles.WatchStamped | src/compiler/stamp.rs:42-45 | a stamp taken earlier replaces any other |
| Stamps.WatchedFiles.AnyChanged | src/compiler/stamp.rs:47-52 | true exactly when some watched path differs from its stamp |
| Stamps.WatchedFiles.Restamp | src/compiler/stamp.rs:54-59 | every stamp is the current one |
| Stamps.WatchedFiles.Merge | src/compiler/stamp.rs:61-65 | all paths of both, the other's stamps winning |
| ProjectModel.TsconfigIsFile | src/compiler/resolver.rs:32-49 | the project root is the entry's directory or above it |
| ProjectModel.Visit | src/compiler/project.rs:181-235 | the depth-first walk from nothing, which only adds modules and terminates by unvisited files |
| ProjectLaws.LoadsSame | src/compiler/project.rs:58-65 | a module loads alike wherever its file, the directories up to the root, the tsconfig chain and the package.json files look alike |
| ProjectLaws.VisitExplores | src/compiler/project.rs:181-235 | a walk adds only reached modules, each as loading it afresh gives, with all their imports; it fails at a reached module that does not load |
| ProjectLaws.DiscoveryIsReachability | src/compiler/project.rs:90-168 | discovery succeeds exactly when everything in the import graph of the entry loads, and then returns exactly that graph |
| Discovery.KnownStillHolds | src/compiler/project.rs:201-211 | while the watched structure is unchanged, a remembered module whose own stamp is unchanged is what loading it afresh gives |
| Discovery.Discovery.constructor | src/compiler/project.rs:119-127 | a walk starts with nothing visited |
| Discovery.Discovery.VisitPath | src/compiler/project.rs:184-235 | the reusing walk visits what the walk from nothing visits, with its outcome, and watches the new modules' surroundings and nothing else |
| Discovery.Discovery.LoadModule | src/compiler/project.rs:201-213 | reusing a module, its source or neither gives what loading afresh gives |
| Discovery.Discovery.Enter | src/compiler/project.rs:222-234 | a loaded module joins the visited ones before its imports are visited |
| Discovery.Discovery.Join | src/compiler/project.rs:222-230 | everything a joining module was resolved through is watched |
| Discovery.Discovery.Fail | src/compiler/project.rs:214-221 | a module that does not load is watched with the stamp its loading used |
| Discovery.Discovery.VisitDependencies | src/compiler/project.rs:231-234 | imports are visited in order until one fails |
| Discovery.Discovery.VisitNext | src/compiler/project.rs:231-234 | one more import keeps everything watched so far |
| Discovery.Discovery.WatchDirectories | src/compiler/project.rs:190-198 | exactly the directories from the module up to the root become watched |
| Discovery.Discovery.WatchPackageJsons | src/compiler/project.rs:222-224 | exactly the package.json files become watched |
| Discovery.Discovery.Resolve | src/compiler/project.rs:237-272 | the request loop resolves in order, leaves external requests alone and stops at the first failure |
| IncrementalDiscovery.DiscoverProject | src/compiler/project.rs:90-168 | with any previous state the outcome is that of a walk from nothing with the resolver in use; the state, the listed modules and what is watched are right for the next one |
| IncrementalDiscovery.ReusedResolverIsFresh | src/compiler/project.rs:98-103 | a kept resolver is the one a fresh discovery would create if and only if no tsconfig.json appeared where none was found |
| IncrementalDiscovery.StaleResolverMisnamesEntry | src/compiler/project.rs:98-103 | otherwise the reused discovery differs from a fresh one: it names the entry by another path |
| StaleResolver.TsconfigAboveIsNotNoticed | src/compiler/project.rs:98-103 | such a history exists: two concrete moments between which nothing watched changed, and a wrong answer in the second |
| IncrementalDiscovery.Session | src/compiler/project.rs:90-168 | over any history of edits and discoveries in which no tsconfig.json appears above an entry that had none, every answer is that of discovery from nothing |
| IncrementalDiscovery.DiscoverAgain | src/compiler/project.rs:90-168 | one discovery of a session, and the state it hands on |
| IncrementalDiscovery.UnchangedProjectStays | src/runner/engine/lifecycle.rs:178-203 | while nothing watched changed, discovering again gives the same modules |
| WatchedFailures.FailureIsStillThere | src/compiler/project.rs:46-49 | a failed discovery still fails while nothing it watches changed, if what the failing request looked at is watched |
| WatchedFailures.ImportStays | src/compiler/project.rs:190-198 | a module whose import's directories look alike still imports it or does not load |
| WatchedFailures.InstalledPackageIsNotNoticed | src/compiler/project.rs:46-49 | without that condition a discovery that would now succeed shows no watched change |
| Decimal.PrintedIntIsCanonical | src/contract/codec/maps.rs:57-92 | a printed integer key is canonical decimal text and parses back |
| Decimal.ParsedKeyPrintsBack | src/contract/codec/maps.rs:69-92 | a parsed key prints as the text it came from, exactly unless that was `-0` |
| Decimal.PrintIntInjective | src/contract/codec/maps.rs:63-68 | different integer keys have different texts |
| Decimal.PrintedU64ParsesBack | src/runner/module_loader/graph.rs:45-51 | a printed graph id parses back |
| FloatText.IntegersReadAsFinite | src/contract/validation.rs:403-408 | the text of every primitive integer is a numeric record key |
| Validation.MoreResolvingAcceptsMore | src/contract/validation.rs:76-99 | validation accepts monotonically more as more references are being resolved |
| Validation.StrictImpliesLenient | src/contract/validation.rs:210-275 | a value accepted strictly is accepted leniently |
| ValidationContexts.ValidationContext.ValidateType | src/contract/validation.rs:36-74 | the validator accepts exactly the valid values, restores the reference stack either way, and terminates on cyclic schemas |
| ValidationContexts.ValidationContext.ValidateTypeRef | src/contract/validation.rs:76-99 | following a reference pushes and pops it, meeting it again accepts |
| ValidationContexts.ValidationContext.Follow | src/contract/validation.rs:92-99 | while a reference is followed its name counts as being resolved, and no longer |
| ValidationContexts.ValidationContext.ValidateObject | src/contract/validation.rs:210-275 | declared, rest and undeclared fields |
| ValidationContexts.ValidationContext.ValidateDeclaredFields | src/contract/validation.rs:231-250 | a declared field is valid, or absent and optional |
| ValidationContexts.ValidationContext.ValidateRestFields | src/contract/validation.rs:252-264 | every undeclared field is of the rest type |
| ValidationContexts.ValidationContext.ValidateArray | src/contract/validation.rs:277-292 | every element is valid |
| ValidationContexts.ValidationContext.ValidateTuple | src/contract/validation.rs:294-316 | the length and every element match |
| ValidationContexts.ValidationContext.ValidateTaggedEnum | src/contract/validation.rs:343-367 | the tag selects the variant, whose fields are checked around it |
| ValidationContexts.ValidationContext.ValidateRecord | src/contract/validation.rs:369-392 | every key and value is valid |
| ValidationContexts.ValidationContext.ValidateUnion | src/contract/validation.rs:410-425 | some member accepts |
| EncodedIsValid.EncodedValueIsValid | rustts_macros/src/codec/shape.rs:25-99 | everything a value of any type encodes to is strictly valid against the type its schema refers to it by |
| EncodedIsValid.EncodedDeclIsValid | rustts_macros/src/codec/enum_codec.rs:55-109 | the same for a deriving type's own schema, all shapes and four taggings, with its undeclared keys exactly those its flattened maps write |
| EncodedIsValid.ExpandedValueIsValid | rustts_macros/src/schema/fields.rs:43-75 | a flattened or merged value fits the schema merged for it |
| EncodedIsValid.EncodedExternalIsValid | rustts_macros/src/schema/enums.rs:86-101 | externally tagged variants |
| EncodedIsValid.EncodedInternalIsValid | rustts_macros/src/schema/enums.rs:103-125 | internally tagged variants, newtypes merged next to the tag |
| EncodedIsValid.EncodedAdjacentIsValid | rustts_macros/src/schema/enums.rs:127-142 | adjacently tagged variants, optional content included |
| EncodedIsValid.EncodedFieldsFit | rustts_macros/src/codec/shape.rs:52-81 | encoding the fields of a struct keeps its properties within the schema assembled so far |
| EncodedIsValid.FlattenAppends | src/contract/schema/object.rs:38-97 | flattening a schema keeps the fields there were and appends the flattened ones in order |
| SchemaDependencies.AllSchemasIsFaithful | src/contract/schema.rs:79-100 | with unique names, whatever a reference finds is the schema of the type it names |
| SchemaDependencies.DependenciesAreSchemas | rustts_macros/src/schema/mod.rs:36-97 | the dependencies a schema carries are schemas of deriving types, recursive types cut |
| SchemaDependencies.OwnSchemaAccepts | src/contract/schema.rs:50-71 | end to end: what a type encodes to, its own schema with its own dependencies accepts, strictly and leniently |
| LeftOutFields.LeftOutFieldsDecideValidity | rustts_macros/src/schema/fields.rs:108-176 | a struct's encoded value is valid if and only if no flattened field that serializing left out requires a key |
| LeftOutVariants.LeftOutFieldsDecideVariant | rustts_macros/src/schema/enums.rs:86-142 | so is a struct variant's, externally, internally or adjacently tagged, if and only if the same holds of its fields |
| LeftOutFields.SkippedFlattenedStructIsRefused | rustts_macros/src/schema/fields.rs:108-176 | a smallest struct whose encoded value its own schema refuses |
| RoundTrip.DecodesBack | rustts_macros/src/codec/enum_codec.rs:112-260 | every recoverable value decodes from what it encodes to, for all types that do not hand a value on to themselves, all shapes and all taggings |
| RoundTrip.PayloadDecodesBack | rustts_macros/src/codec/shape.rs:103-174 | the same for the payload of a shape, next to an internal tag or not |
| RoundTrip.FieldDecodesBack | rustts_macros/src/codec/shape.rs:188-220 | a field read under its names and aliases, defaulted, or flattened from the keys left over |
| RoundTrip.VariantDecodesBack | rustts_macros/src/codec/enum_codec.rs:130-260 | a variant read under each tagging |
| RoundTrip.EntriesDecodeBack | src/contract/codec/maps.rs:95-152 | maps with text and integer keys |
| RoundTrip.DecodeDependsOnReads | src/contract/codec/derive.rs:57-112 | decoding depends only on the properties a type reads, so flattened siblings do not disturb each other |
| RoundTrip.OptionRecoversExactly | rustts_macros/src/codec/shape.rs:188-207 | `Some` comes back if and only if its content is not written as null |
| RoundTrip.UntaggedRecoversExactly | rustts_macros/src/codec/enum_codec.rs:241-260 | an untagged variant comes back if and only if every earlier variant refuses its payload |
| RoundTrip.FlattenedMapRecoversExactly | rustts_macros/src/codec/shape.rs:209-220 | a flattened map comes back if and only if it wrote every key its struct does not claim |
| ObjectHelpers.ObjectSchemaBuilder.Field | src/contract/schema/object.rs:24-27 | a declared field goes last |
| ObjectHelpers.ObjectSchemaBuilder.Flatten | src/contract/schema/object.rs:38-57 | merges exactly the schemas that can be described, and refuses where the program panics |
| ObjectHelpers.ObjectSchemaBuilder.MergeFields | src/contract/schema/object.rs:71-86 | fields join in order, a duplicate is refused |
| ObjectHelpers.ObjectSchemaBuilder.MergeRest | src/contract/schema/object.rs:88-97 | two flattened maps must agree |
| ObjectHelpers.FlattenedNamesStayDistinct | src/contract/schema/object.rs:71-86 | flattening never declares a name twice and keeps what was declared |
| ObjectHelpers.JsObject.MergeObject | src/contract/codec/derive.rs:154-181 | copies an object's properties over, nothing for null, and refuses other values untouched |
| ObjectHelpers.JsObject.Without | src/contract/codec/derive.rs:183-199 | a new object with exactly the keys not excluded |
| ObjectHelpers.JsObject.OnlyKnownFields | src/contract/codec/derive.rs:201-223 | accepts exactly when every key is known |
| HostCalls.PollSettlesWaiting | src/runner/host_promises.rs:75-98 | a poll that fails nowhere settles exactly the answers whose calls wait, oldest first, and empties the inbox |
| HostCalls.FailedPollKeepsTheRest | src/runner/host_promises.rs:83-98 | a poll that fails settled what came before and leaves queued what came after |
| HostCalls.ReplyInbox.Push | src/contract/host_resolver.rs:86-100 | queues last, or hands the settlement back once cancelled |
| HostCalls.ReplyInbox.Pop | src/contract/host_resolver.rs:76-79 | takes the oldest |
| HostCalls.ReplyInbox.Cancel | src/contract/host_resolver.rs:81-87 | refuses from now on and empties the queue |
| HostCalls.HostPromises.Poll | src/runner/host_promises.rs:87-97 | the pop loop is the reference poll |
| HostCalls.HostPromises.Cancel | src/runner/host_promises.rs:99-110 | nothing queued, nothing waiting |
| HostCalls.HostPromises.Call | src/runner/host_promises.rs:118-157 | a call waits under a fresh id, or rejects at once when cancelled, its input is bad or its handler fails |
| HostCalls.HostResolver.Resolve | src/contract/host_resolver.rs:151-165 | queues one answer, the encoding error included, unless the version is gone |
| HostCalls.HostResolver.Reject | src/contract/host_resolver.rs:173-176 | queues one rejection, unless the version is gone |
| HostCalls.HostResolver.Drop | src/contract/host_resolver.rs:192-199 | an unsettled resolver still queues one answer |
| HostProtocol.InvStays | src/contract/host_resolver.rs:91-100 | every step of every interleaving keeps the protocol's invariant |
| HostProtocol.LoweredFlagMeansNoAnswers | src/runner/engine/host_driven.rs:127-163 | no lost wake-up: at rest with the flag lowered, no loaded script has an answer queued |
| HostProtocol.PumpingKeepsWakeUp | src/runner/engine/host_driven.rs:131-163 | swapping the flag, looking, polling and re-raising never strand an answer |
| HostProtocol.LoadingKeepsWakeUp | src/runner/engine/lifecycle.rs:345-410 | nor do loads, replacements and unloads, of a script still mounting included |
| HostProtocol.CallsSettleOnceInOrder | src/contract/host_resolver.rs:151-199 | over any run each call settles at most once, in answer order, by the answer its resolver queued; every issued call of a loaded script waits, settled or failed, and a waiting one has an unsettled resolver or a queued answer |
| HostProtocol.CancelledStaysSilent | src/runner/host_promises.rs:99-110 | after a cancellation nothing is queued, waits or settles, whatever resolvers do |
| Pumping.Pump | src/runner/engine/host_driven.rs:131-163 | one pump polls every script up to an interrupt and re-raises the flag exactly when stopped or failed |
| Pumping.DeliveredIsEmpty | src/runner/engine/host_driven.rs:158-161 | a pump that leaves the flag lowered leaves nothing queued |
| TimerModel.IndexOf | assets/context_prelude.js:193-201 | a timer found by id has that id and was not cancelled |
| TimerLaws.MinDueBounds | assets/context_prelude.js:155-165 | the rescheduled time is the earliest due time of a live timer |
| TimerLaws.AddStays | assets/context_prelude.js:166-187 | adding a timer keeps ids increasing and the bound below its due time |
| TimerLaws.ClearStays | assets/context_prelude.js:188-201 | clearing one keeps the count and the bound |
| TimerLaws.SweepStays | assets/context_prelude.js:263-273 | the sweep leaves no cancelled timer and keeps the rest in order |
| TimerLaws.RunStays | assets/context_prelude.js:233-280 | a run keeps the invariant even when interrupted; one that completes reports the exact next due time |
| TimerRuns.AlwaysConsistent | assets/context_prelude.js:150-280 | the invariant holds after any sequence of set, cleared and run timers |
| TimerRuns.RunOrder | assets/context_prelude.js:234-258 | a run considers exactly the timers live and due at entry, once each, by due time and then id |
| TimerRuns.RunFires | assets/context_prelude.js:230-280 | it fires those, skipping the ones cleared before their turn, never one added meanwhile, and stops only where interrupted |
| TimerRuns.RunLeaves | assets/context_prelude.js:208-273 | every earlier timer is gone if cleared, over or due one interval later if it fired, and otherwise untouched |
| TimerRuns.DueFires | assets/context_prelude.js:256-262 | a due timer that nothing clears fires unless the run is interrupted |
| ScriptTimers.ScriptTimers.AddTimer | assets/context_prelude.js:166-187 | list, map, id and schedule after adding, against the values |
| ScriptTimers.ScriptTimers.ClearTimer | assets/context_prelude.js:193-201 | clearing through the map is clearing in the list |
| ScriptTimers.ScriptTimers.Retire | assets/context_prelude.js:188-192 | a retired timer leaves the map and is counted |
| ScriptTimers.ScriptTimers.Reschedule | assets/context_prelude.js:155-165 | the engine is told the earliest live due time |
| ScriptTimers.ScriptTimers.Fire | assets/context_prelude.js:208-229 | a timer cleared meanwhile does nothing; else it is over or postponed before its callback runs |
| ScriptTimers.ScriptTimers.CollectDue | assets/context_prelude.js:236-248 | the due timers in creation order |
| ScriptTimers.SortByDue | assets/context_prelude.js:258 | by due time, then id |
| ScriptTimers.ScriptTimers.FireDue | assets/context_prelude.js:255-262 | the firing loop over timers shared with the list is the firing of their ids |
| ScriptTimers.ScriptTimers.SweepFinished | assets/context_prelude.js:263-272 | the in-place compaction keeps exactly the live timers, in order, and the map |
| ScriptTimers.ScriptTimers.RunTimers | assets/context_prelude.js:233-280 | a whole run, interrupted or not, is the reference run |
| AdvanceTimers.TimerEngine.Hook | src/runner/timers.rs:95-98 | the schedule hook sets the script's time and lowers the bound |
| AdvanceTimers.TimerEngine.Advance | src/runner/engine/host_driven.rs:35-99 | the early return and the batching visit exactly what a loop over every script visits, with its errors, and keep the bound |
| AdvanceTimers.TimerEngine.VisitContexts | src/runner/engine/host_driven.rs:44-85 | one visit per context is one script after another |
| AdvanceTimers.TimerEngine.EarliestNext | src/runner/engine/host_driven.rs:86-93 | the bound is set to the earliest next due time |
| AdvanceTimers.NoneDue | src/runner/engine/host_driven.rs:36-40 | before the bound a loop over every script does nothing |
| AdvanceTimers.HistoryStaysBounded | src/runner/timers.rs:47-74 | after any history of loads, reloads, unloads, scheduling and stopped calls the bound is never late |
| TimerDelivery.AdvanceFiresEveryDueTimer | src/runner/engine/host_driven.rs:52-84 | visiting only the scripts that asked to be run fires the same callbacks, with the same first error, as running the timers of every loaded script in load order |
| TimerDelivery.UnaskedFiresNothing | src/runner/engine/host_driven.rs:68-70 | a script whose reported due time has not come has nothing to fire |
| Events.EventHandlers.Register | assets/context_prelude.js:77-86 | `ctx.on` appends, and the engine's copy follows |
| Events.EventHandlers.Unregister | assets/context_prelude.js:87-101 | `ctx.off` removes the first occurrence, and the event with its last handler |
| Events.EventHandlers.Record | src/runner/events.rs:76-94 | the table holds exactly the registered events, one entry each, despite swap removal |
| Events.EventHandlers.Snapshot | src/runner/events.rs:43-52 | a delivery takes the list as registered, in order |
| Events.EventHandlers.Listens | src/runner/events.rs:35-41 | true exactly when a handler is registered |
| Dispatch.NoHandlerAfterStop | src/runner/engine/dispatch.rs:108-176 | whatever handlers do, once a stop was found, after a handler or after a delivery, no handler is run and no script counted |
| BatchedDelivery.ByContextIsOneByOne | src/runner/engine/dispatch.rs:103-192 | batched delivery gives the handlers run, their payloads, the count and the first error of serving one script after another if and only if every visit agrees: what a script leaves of the payload is what it was given wherever a later script of its visit gets it, and no stop is found among the scripts of a visit that cannot encode it, unless nothing is left to deliver |
| BatchedDelivery.HarmlessAgrees | src/runner/engine/dispatch.rs:103-105 | every visit agrees where handlers never change a payload and every context can encode it |
| BatchedDelivery.ChangedPayloadIsShared | src/runner/engine/dispatch.rs:151-168 | a handler that changes its payload makes two scripts of one context disagree, and two of different contexts not |
| BatchedDelivery.StopIsOverlooked | src/runner/engine/dispatch.rs:178-188 | a concrete stop found while a shared payload cannot be encoded, after which another context is entered |
| Dispatch.Dispatcher.Deliver | src/runner/events.rs:114-151 | the handler loop runs a snapshot in order until a stop and keeps the first error |
| Dispatch.Dispatcher.EnterContext | src/runner/engine/dispatch.rs:121-190 | one visit to a context, an encoding failure included |
| Dispatch.Dispatcher.Emit | src/runner/engine/dispatch.rs:106-192 | the batching loop is the delivery by context |
| Execution.ExecutionControl.Interrupted | src/runner/execution.rs:50-57 | starts the clock, then stops if asked to or expired, and remembers it |
| Execution.ExecutionControl.BeginClock | src/runner/execution.rs:69-79 | sets the deadline once, without wrap-around or a pending sentinel |
| Execution.ExecutionControl.BudgetExpired | src/runner/execution.rs:94-99 | sentinels never expire |
| Execution.ExecutionControl.EnterOperation | src/runner/execution.rs:103-117 | clears requests and stops, and pends the budget or has none |
| Execution.DeadlineRepresentsBudget | src/runner/execution.rs:69-79 | over any events the deadline stands for the operation's budget, and a started one is never the pending sentinel |
| Execution.ExpiresExactly | src/runner/execution.rs:94-99 | a budget is used up exactly from its start plus its length, when that is representable |
| Execution.ExpiryLasts | src/runner/execution.rs:94-99 | and stays so until the operation ends |
| Execution.FoundStopLasts | src/runner/execution.rs:47-64 | a stop found by a check is seen until the next operation starts |
| Execution.RequestIsSeen | src/runner/execution.rs:81-90 | an interrupt requested after the start is seen by every later check, and by nothing once the next operation started |
| Tasks.CollectIsInOrder | src/runner/tasks.rs:162-179 | the result is every reply in slot order, or the error of the first slot that failed |
| Tasks.PendingCall.CompleteWith | src/runner/tasks.rs:39-44 | fills an empty handle only |
| Tasks.PendingCall.Take | src/runner/tasks.rs:52-56 | takes and empties |
| Tasks.RequestResults.RecordReply | src/runner/tasks.rs:157-160 | a settled reply fills its slot and may publish |
| Tasks.RequestResults.FailWith | src/runner/tasks.rs:147-150 | a failed dispatch takes the last slot |
| Tasks.RequestResults.ActivateResults | src/runner/tasks.rs:152-155 | nothing is published before every handler ran |
| Tasks.RequestResults.CancelRequest | src/runner/tasks.rs:90-97 | a retired participant cancels an unfinished request |
| Tasks.RequestResults.PublishIfReady | src/runner/tasks.rs:162-179 | publishes exactly when active, unfinished and every slot is filled |
| Tasks.RequestResults.Publish | src/runner/tasks.rs:177-178 | what the aggregator publishes is what the handle is completed with |
| Tasks.PublishedOnce | src/runner/tasks.rs:99-180 | over any life the aggregator completes the handle at most once, with what the slots' outcomes amount to whatever the order of settling, or with a cancellation; a reply always finds its slot |
| Tasks.HandleHoldsResult | src/runner/tasks.rs:39-56 | the step that finishes a request puts exactly that into the empty handle, where it stays until it is taken |
| Tasks.FinishedStays | src/runner/tasks.rs:157-166 | nothing that happens to a finished request changes what it published, and only a take or the drop of a watching task its handle |
| Tasks.RefilledExactly | src/runner/tasks.rs:271-277 | a taken handle of a finished request is filled again if and only if a task that still watches is dropped after the take |
| Tasks.DeliveredIsNotRefilled | src/runner/tasks.rs:237-268 | so never after a result that was not a cancellation |
| Tasks.TakenHandleIsRefilled | src/runner/engine/lifecycle.rs:580-586 | it happens: of two pending participants one is unloaded, the host takes, the other is unloaded |
| Tasks.ScriptTask.Poll | src/runner/tasks.rs:237-268 | a settled Promise completes the handle once |
| Tasks.ScriptTask.Drop | src/runner/tasks.rs:271-277 | a task dropped before that cancels it, once |
| ModuleIds.ScriptModuleGraph | src/runner/module_loader/graph.rs:43-70 | a script module's id parses to its graph, whatever its own id |
| ModuleIds.EnvModuleGraph | src/runner/module_loader/graph.rs:29-51 | so does an environment module's |
| ModuleIds.HostInstanceGraph | src/runner/module_loader/graph.rs:33-51 | so does a host instance's, which stands for its host module |
| ModuleIds.ScriptModuleIdsDiffer | src/runner/module_loader/graph.rs:68-70 | different modules or graphs have different ids |
| ModuleStore.WorkerModuleStore.ResolveImport | src/runner/module_loader/store/resolution.rs:8-43 | the order of the rules, the engine's own import used up |
| ModuleStore.WorkerModuleStore.Insert | src/runner/module_loader/store/insertion.rs:39-58 | a project's modules and resolutions go in under its graph, or nothing does |
| ModuleStore.WorkerModuleStore.InsertModule | src/runner/module_loader/store/insertion.rs:72-106 | requests lead to the graph's own modules where they can |
| ModuleStore.WorkerModuleStore.Remove | src/runner/module_loader/store/removal.rs:6-21 | sources, resolutions both ways and the group mark go |
| ModuleIsolation.ResolvesWithinGraph | src/runner/module_loader/store/resolution.rs:8-43 | whatever an import resolves to is a host module or of the importer's graph |
| ModuleIsolation.EntryImportIsOnce | src/runner/module_loader/store.rs:92-104 | the engine's own import is let through once |
| ModuleIsolation.RunsStayIsolated | src/runner/module_loader/store/insertion.rs:22-106 | over any insertions and removals resolutions stay within graphs |
| ModuleIsolation.ReachesOnlyItsOwn | src/runner/module_loader/store/resolution.rs:29-36 | so does everything reachable, however many imports away and whatever was loaded in between |
| ModuleIsolation.HostInstanceLoads | src/runner/module_loader/store/resolution.rs:46-61 | a grouped script gets its graph's own instance of a group host module, which loads with that module's source |
| ModuleIsolation.RemovalKeepsOthers | src/runner/module_loader/store/removal.rs:4-10 | removing a graph leaves every other as it was |
| LifecycleLaws.FailedLoadRestoresStore | src/runner/engine/lifecycle.rs:313-319 | inserting a graph, marked or not, and removing it restores the store |
| LifecycleLaws.LoadKeepsInv | src/runner/engine/lifecycle.rs:281-322 | a load, a reload or a move between groups keeps group counts, environments, marks, store and task count exact |
| LifecycleLaws.UnloadKeepsInv | src/runner/engine/lifecycle.rs:577-601 | so does an unload |
| LifecycleLaws.FailedLoadKeepsInv | src/runner/engine/lifecycle.rs:402-409 | so does a failed load |
| LifecycleLaws.HistoryKeepsInv | src/runner/engine/lifecycle.rs:281-601 | so does any history of them with deferred calls between |
| Lifecycle.ScriptEngine.constructor | src/runner/engine/mod.rs:176-214 | an engine starts empty and exact |
| Lifecycle.ScriptEngine.Load | src/runner/engine/lifecycle.rs:98-115 | a load that fails anywhere leaves all but a used graph id and finished tasks; one that mounts takes its predecessor's place, which retires |
| Lifecycle.ScriptEngine.MountGraph | src/runner/engine/lifecycle.rs:281-322 | the part of it after the graph was inserted |
| Lifecycle.ScriptEngine.Mount | src/runner/engine/lifecycle.rs:347-434 | a failed mount undoes its group and environment |
| Lifecycle.ScriptEngine.ReplaceScript | src/runner/engine/lifecycle.rs:565-575 | a reload keeps its place in load order |
| Lifecycle.ScriptEngine.Retire | src/runner/engine/lifecycle.rs:580-601 | a retired version gives up tasks, modules, environment and its place in its group, and an empty group goes |
| Lifecycle.ScriptEngine.Unload | src/runner/engine/lifecycle.rs:251-262 | a missing script changes nothing |
| Lifecycle.ScriptEngine.PollTasks | src/runner/engine/host_driven.rs:208-224 | harvesting keeps the task count the sum of the scripts' tasks |
| SourceMaps.AdvanceTwice | src/compiler/source_map.rs:154-169 | moving the column cursor in two steps is moving it in one, and bytes never shrink |
| SourceMaps.ByteColumns.Visit | src/compiler/source_map.rs:154-169 | for positions in output order the cursor gives the byte column counted from the line's start |
| SourceMaps.FromCodegen | src/compiler/source_map.rs:38-48 | every mapping is converted so, and the table is sorted |
| SourceMaps.PartitionPoint | src/compiler/source_map.rs:92-94 | how many mappings come at or before a position |
| SourceMaps.OriginalPosition | src/compiler/source_map.rs:88-97 | the last mapping at or before a position on its line, or none if and only if there is none |
| Transpilation.StoredArtifactLoads | src/cache/store.rs:30-75 | a stored artifact loads as the module it was stored for |
| Transpilation.Transpiler.constructor | src/runner/transpile.rs:53-60 | nothing is remembered at first |
| Transpilation.Transpiler.Inline | src/runner/transpile.rs:62-78 | an inline script gets what compiling it afresh gives, whatever the memo and the disk hold |
| Transpilation.Transpiler.Module | src/runner/transpile.rs:147-160 | so does a project module |
| Transpilation.Transpiler.Imports | src/runner/transpile.rs:94-104 | so do a module's import requests |
| Transpilation.Transpiler.Project | src/runner/transpile.rs:108-138 | so does every module of a project, or its first error |
| Transpilation.Transpiler.Remembered | src/runner/transpile.rs:162-177 | whatever is remembered is what its source compiles to |
| Transpilation.Transpiler.Remember | src/runner/transpile.rs:179-190 | a remembered module is in the memo and, if it can be written, on disk |
| Transpilation.Transpiler.RetainUsed | src/runner/transpile.rs:140-145 | forgetting keeps exactly the used modules |

## Left out

- RoundTrip.DecodesBack: types whose decoder hands a value on to itself, through a newtype, a flattened field, an `Option` or an untagged or merged payload behind a `Box`, are not modelled: decoding such a value does not end. Types are numbered so that each comes after those it hands its own value on to.
- EncodedIsValid.EncodedDeclIsValid: types that only decode have no encoded value, so every type of an environment describes encoding.
- ProjectModel.FindTsconfig: takes anything called `tsconfig.json` for a file, where the source passes over a directory of that name.
- ProjectLaws.FootprintIsWatched: an assumption about the resolver. A lookup in an existing directory that is not above either module, such as a `paths` target or a `node_modules` beside the importer that was tried first, is not watched and can violate it.
- IncrementalDiscovery.DiscoverProject: files do not change during one discovery, paths are canonical (no symbolic links), and the resolver's own file cache is taken to agree with the file system.
- ScriptTimers.ScriptTimers.RunTimers: an interrupt ends a run inside a callback; one that lands in the prelude's own loops is not modelled.
- HostProtocol.InvStays: the two halves of a cancellation, the inbox and the waiting Promises, are one step, since only the engine thread sees the second.
- Lifecycle.ScriptEngine.Load: fewer than 2^64 loads, so graph ids do not wrap around.
- SourceMaps.ByteColumns.Visit: lines and columns are not cut to 32 bits.
- Transpilation.Transpiler.Inline: keys do not collide, artifacts are not forged, and whether a source compiles depends only on its text and extension; diagnostics may name the path.
- QuickJS, foreign calls and reference counts: running JavaScript is an arbitrary function or an arbitrary list of steps.
- oxc parsing, transforming, resolving and source map text: functions of their inputs, with the laws stated by `ProjectLaws.Lawful` and `Transpilation.Lawful`.
- File system calls, atomic renames and their retries, real clocks.
- Lock poisoning, panics, running out of memory, and a deferred request whose watching fails after its slot was reserved.
- Error and diagnostic texts, paths inside validation errors, console output, generated TypeScript text.
- Attribute parsing, compile-time checks and renaming in the macro crate: names and accepted shapes are inputs.
- `transparent`, `into`, `from`, `remote` and the JSON codec of containers, `with` modules, and schema overrides.
- Conversion of JavaScript values to JSON before validation: values are taken as validation sees them; `-0.0` and the texts of number literals are not told apart.
- `Box`, `Arc`, byte arrays and other ecosystem codecs, which encode as what they hold.
- Prototypes, inherited properties and `__proto__`: objects are finite maps from texts.
- Timer functions handed from one script of a group to another.
- Memory limits, garbage collection, statistics, source locations of errors.
