# Nanocl: a verified model of its state and protocols

Nanocl is a container orchestrator: a daemon (`nanocld`) that stores objects, reacts to events and drives
containers, a command line client (`nanocl`) that applies statefiles, and controllers such as the proxy
(`ncproxy`). This project models the parts that carry state and invariants, and proves what they keep.

| module | file | what it models |
|---|---|---|
| `Options`, `Events` | `Options.dfy`, `Events.dfy` | events, actors, native actions, the matching of a condition and an event |
| `EventLoop` | `EventLoop.dfy` | the daemon's single event loop and the tasks it spawns, as one interleaved state machine |
| `TaskManagement` | `TaskManager.dfy` | the task manager's methods, tied to the steps of that machine |
| `Dispatch` | `Dispatch.dfy` | which event gets a task, what aborts one, and what a failed one reports, on the fields of events |
| `RawEmitter`, `Subscriptions` | `RawEmitter.dfy`, `Subscriptions.dfy` | fan-out over bounded queues with stop conditions, and every subscriber of every run |
| `EventCodec` | `EventCodec.dfy` | a printer and parser of events that meet what the stream asks of them |
| `EventStream` | `EventStream.dfy` | newline framing, reassembly from chunks, and the client that waits on the stream |
| `GenericFilter` | `GenericFilter.dfy` | the compiler from generic filters to SQL predicates, under three-valued logic |
| `FilterTable` | `FilterTable.dfy` | what each clause does on each column type, on rows and comparisons alone |
| `Specs`, `Store`, `StoreRuns` | `Specs.dfy`, `Store.dfy`, `StoreRuns.dfy` | specs, statuses and object rows, and operations that write them statement by statement |
| `CompletedOperations` | `CompletedOperations.dfy` | what completed creations, puts and clearings leave in the store |
| `KeyClaims` | `KeyClaims.dfy` | exactly when two object tables can come to hold one key |
| `ClearingTasks` | `ClearingTasks.dfy` | the event loop and the store together: which task clears which object |
| `CargoHistory` | `CargoHistory.dfy` | creation, put, patch and revert of a cargo, and its append-only history |
| `CargoPatch` | `CargoPatch.dfy` | the in-place merges of environment and volume lists |
| `StateTree` | `StateTree.dfy` | flattening of nested statefiles |
| `StateApply`, `Convergence`, `Orphans` | `StateApply.dfy`, `Convergence.dfy`, `Orphans.dfy` | applying a statefile, applying it again, and removing orphans |
| `ApplyTrace` | `ApplyTrace.dfy` | every request an apply sends and where each answer stops it |
| `BootSync`, `BootAgreement` | `BootSync.dfy`, `BootAgreement.dfy` | boot synchronisation of the process table and of cargoes with the node's containers |
| `Debouncer` | `Debouncer.dfy` | the proxy's reload debouncer, with time |
| `VmImages` | `VmImages.dfy` | the parent/child forest of vm images |

Code that runs concurrently (event loop and tasks, store operations, image operations, subscribers, the
debouncer's tasks) is a state machine whose runs are all finite sequences of enabled moves; a theorem about
`ValidRun(run)` speaks of every interleaving. Code that loops or updates an object in place is a method or
a class, proved equal to a function of its inputs or of the old state, and the promises are lemmas about
that function.

Where the code does less than its documentation or its intent says, the code is kept, and the exact
condition is proved:

- job task bodies are not serialised (`EventLoop.SerialisedIffNotJob`, `EventLoop.JobsOverlap`), so a job can be
  deleted twice at once (`EventLoop.JobDeletedTwice`), and then a job and a cargo can end with the same key
  (`KeyClaims.TwoTablesOneKey`); the exact condition is that no clearing deletes a status which a creation has
  claimed (`KeyClaims.DisjointForGoodIff`), which holds while no job is cleared twice at once
  (`ClearingTasks.KeysStayDisjoint`) and is needed (`ClearingTasks.TwoBodiesOneKey`);
- "sub states first" holds only up to nesting depth one (`StateTree.SubStatesFirstIff`,
  `StateTree.MiddleComesFirst`, `crates/nanocl_stubs/src/statefile.rs:147`);
- a condition added to a filter does not confine its alternatives unless each has a clause that forces it
  (`GenericFilter.ForcedIffConfined`, `GenericFilter.NamespaceEscapes`);
- a new environment value that equals the whole old entry text is dropped (`CargoPatch.PlainReadingIff`,
  `CargoPatch.DroppedAssignment`);
- a patch without a replication mode erases the stored one (`CargoPatch.EmptyPatchKeepsIff`);
- a chunk that reaches into the next message breaks the stream (`EventStream.PrintThenReassemble`,
  `EventStream.TwoInOneChunk`);
- a secret whose kind or immutable flag differs is patched on every apply, for ever (`Convergence.SecondApply`);
- orphans beyond the hundredth listed member survive (`Orphans.GroupIsTheFile`, `Orphans.PageIsWholeIff`,
  `Orphans.BigGroupsOverflow`);
- a second boot stores a spec when a namespace refused by the first can now be registered
  (`BootAgreement.SecondBootIsQuiet`, `BootAgreement.RetriedNamespaceStoresASpec`);
- the snapshot request does not check its image's kind, so snapshots of snapshots occur; one operation at a time,
  they occur exactly when such a request names a snapshot (`VmImages.SequentialBaseParentsIff`,
  `VmImages.SnapshotOfSnapshot`, `VmImages.ReusedName`);
- a cargo creation refused because its key is taken leaves its spec in the holder's history
  (`CargoHistory.FailedCreationStaysInHistory`);
- a subscription landing between an emission's two locks is lost (`RawEmitter.GapLosesSubscriptions`).

## Model

| member | source | states |
|---|---|---|
| EventLoop.BodiesAreSerialised | bin/nanocld/src/tasks/task_manager.rs:40-92 | in every interleaving, a cargo or vm key has at most one unfinished task body, a body begins only after the bodies of all earlier events on that key ended, and none is aborted |
| EventLoop.LeavingRemovesNoLaterTask | bin/nanocld/src/tasks/task_manager.rs:54-68 | a task that ends removes from the map its own entry or nothing, never the entry of a later task with its key, even when it ends before it was inserted |
| EventLoop.RunKeepsInv | bin/nanocld/src/tasks/task_manager.rs:40-92 | the invariant behind both, over spawn, insert, poll, remove and abort steps in any order |
| EventLoop.ClearKeepsInv | bin/nanocld/src/tasks/task_manager.rs:86-92 | the removal after a wait meets only a finished task, so it aborts nothing |
| EventLoop.NoDeadlock | bin/nanocld/src/tasks/task_manager.rs:24-32 | until the loop is idle again either it or the task it polls can move, and a polled task that has not finished always can |
| EventLoop.RankFalls | bin/nanocld/src/tasks/task_manager.rs:24-32 | while the loop is busy every step of it or of the polled task decreases a rank and no other step increases it |
| EventLoop.ReturnsToIdle | bin/nanocld/src/system/system_state.rs:57-73 | from every point of every run at most nine such steps bring the loop back to taking the next event |
| EventLoop.RunKeepsProvenance | bin/nanocld/src/system/event.rs:215-264 | the invariant behind `Dispatch.TaskPerEvent` and `Dispatch.EventPerTask`: tasks answer the events the plan spawns for, under the key of the event's object, only the last of them possibly still pending |
| EventLoop.TaskKeyInjective | bin/nanocld/src/system/event.rs:233 | distinct objects have distinct task keys, whatever characters their names hold |
| EventLoop.JobsOverlap | bin/nanocld/src/system/event.rs:235-244 | a run in which two bodies of one job run at once and the first to end unregisters the second |
| EventLoop.JobDeletedTwice | bin/nanocld/src/system/event.rs:239-242 | a run in which two deletion bodies of one job are unfinished at once, the second destruction having found nothing to abort |
| EventLoop.SerialisedIffNotJob | bin/nanocld/src/system/event.rs:235-264 | an object's bodies are serialised in all runs if and only if it is not a job |
| Dispatch.TaskPerEvent | bin/nanocld/src/system/event.rs:84-259 | over every run: an event dealt with has a task if and only if it is normal, has an actor, and reads "starting", "stopping" or "destroying" of a job, cargo or vm, or "updating" of a cargo or vm |
| Dispatch.EventPerTask | bin/nanocld/src/system/event.rs:215-259 | in every run each task answers exactly one such event, under the text `Job@`, `Cargo@` or `Vm@` and the event's key, and no event has two tasks |
| Dispatch.AnyEventsArrive | bin/nanocld/src/system/system_state.rs:57-73 | every sequence of events can be received and dealt with, one after the other |
| Dispatch.OnlyDestructionAborts | bin/nanocld/src/system/event.rs:235-244 | in every run an aborted task is one of a job that a later "destroying" event names |
| Dispatch.DestructionAborts | bin/nanocld/src/system/event.rs:239-242 | the loop's answer to a job's destruction leaves the registered task finished and unregistered, whatever tasks did in between |
| Dispatch.TasksMayFail | bin/nanocld/src/tasks/task_manager.rs:54-67 | a spawned task can run its whole course from any state, with its body succeeding or failing |
| Dispatch.FailuresAreHandled | bin/nanocld/src/tasks/task_manager.rs:54-63 | in every run a task whose body failed is over only after its error handler has run, unless it was aborted |
| Dispatch.FailureReachesWaiters | bin/nanocld/src/system/event.rs:262-288 | the failure of any task of any run is reported as an error event with the same actor, the error as note and the finished form of the action; every waiter on its key fails on it, and it ends exactly the streams that wait for that action |
| TaskManagement.TaskManager.RemoveTask | bin/nanocld/src/tasks/task_manager.rs:71-79 | aborting and unregistering is the machine's `RemoveTask` |
| TaskManagement.TaskManager.AddTask | bin/nanocld/src/tasks/task_manager.rs:40-69 | spawning and registering are the loop's dispatch and insert steps, whatever other tasks do between the two |
| TaskManagement.TaskManager.WaitTask | bin/nanocld/src/tasks/task_manager.rs:86-92 | with any steps of other tasks between two looks, the wait ends at once without a registered task, and otherwise with the first poll that finds it finished; it then has unregistered the key and aborted nothing; it goes on as long as no poll finds it finished |
| TaskManagement.OthersOnlyLeave | bin/nanocld/src/tasks/task_manager.rs:54-67 | what tasks do on their own only ever unregisters keys and never changes a finished task |
| TaskManagement.WaitIsThreeSteps | bin/nanocld/src/tasks/task_manager.rs:86-92 | an undisturbed wait on a finished task is the loop's fetch, poll and clear steps and leaves all tasks as they were |
| Events.ActionRoundTrip | crates/nanocl_stubs/src/system.rs:230-276 | printing undoes parsing for every text; parsing undoes printing exactly unless a free-form action is spelled like a native one |
| RawEmitter.RawEventEmitter.constructor | bin/nanocld/src/models/raw_emitter.rs:84-90 | the emitter starts with no clients |
| RawEmitter.RawEventEmitter.Subscribe | bin/nanocld/src/models/raw_emitter.rs:154-166 | a new subscriber with an empty queue and counter zero; no other subscriber changes |
| RawEmitter.RawEventEmitter.Emit | bin/nanocld/src/models/raw_emitter.rs:125-151 | every subscriber takes exactly its own step: a registered and connected one with fewer than 100 queued messages gets the message at the end of its queue and the others get nothing; it is counted, and detached by its last match; subscriptions that land between the two locks are lost |
| RawEmitter.RawEventEmitter.CheckConnection | bin/nanocld/src/models/raw_emitter.rs:93-106 | a subscriber stays registered, with a keep-alive queued, if and only if it is connected with fewer than 100 queued messages; otherwise its queue stays as it is |
| RawEmitter.KeptFind | bin/nanocld/src/models/raw_emitter.rs:127-146 | the rebuilt client list holds, for each client, what the event makes of it, whatever the list order |
| RawEmitter.GapLosesSubscriptions | bin/nanocld/src/models/raw_emitter.rs:127-149 | any subscription that lands between the two locks of an emission is lost |
| Subscriptions.RefusedIff | bin/nanocld/src/models/raw_emitter.rs:93-131 | in every run something is refused to a subscriber exactly when an emission or check finds it registered and either disconnected or with 100 messages queued |
| Subscriptions.Delivery | bin/nanocld/src/models/raw_emitter.rs:43-49 | in every run, at most 100 messages are queued, received events are an in-order duplicate-free part of those emitted while registered, and a subscriber that stayed connected and below 100 at every emission and check gets all of them |
| Subscriptions.EndsAtTheLastMatch | bin/nanocld/src/models/raw_emitter.rs:125-151 | the counter stays below n while registered; an emission ends a subscription exactly with the n-th event that matches any of its n conditions; a subscriber that keeps up is registered until then and no longer |
| Subscriptions.RunKeepsInv | bin/nanocld/src/models/raw_emitter.rs:93-166 | the invariant behind both, over subscribe, emit, check, receive and disconnect |
| Subscriptions.RunRecords | bin/nanocld/src/models/raw_emitter.rs:125-166 | the log is the run's emitted events in order, and each subscriber has the conditions of its subscription and joined after the events emitted before it |
| Subscriptions.ConnectedIff | bin/nanocld/src/models/raw_emitter.rs:43-49 | in every run a subscriber is connected exactly until its receiver goes away |
| Subscriptions.CanDrain | bin/nanocld/src/models/raw_emitter.rs:45-49 | from every point of every run a connected subscriber can take all that is queued for it |
| EventStream.ResStream | crates/nanocld_client/src/http_client.rs:454-495 | the reassembly loop yields what `Received` describes: it stops at the first document that does not parse, and ends with an error when the transport breaks |
| EventStream.TwoInOneChunk | crates/nanocld_client/src/http_client.rs:474-487 | two messages in one chunk yield nothing but an error |
| EventStream.ReachesIntoTheNext | crates/nanocld_client/src/http_client.rs:463-491 | a chunk that ends inside the next message yields nothing until a line ends, and then a single error |
| EventStream.PrintThenReassemble | crates/nanocld_client/src/http_client.rs:463-491 | for every list of events and every chunking of its printed form: exactly those events are yielded if and only if no chunk spans two messages; empty chunks are harmless |
| EventStream.WaitProcessState | bin/nanocl/src/utils/process.rs:71-88 | fails if and only if some item is an error or an error event for the key; succeeds only on a closed stream |
| EventStream.WaiterMatchesIff | crates/nanocl_stubs/src/system.rs:466-491 | a waiter's stream ends with a normal or error event, not a warning, of exactly its object whose text is its action; a condition without an actor matches nothing |
| EventStream.SeenUpToTheMatch | bin/nanocld/src/models/raw_emitter.rs:125-151 | a drained, never refused subscriber with one condition has seen the events from its subscription to the first match and no further |
| EventStream.WaitEndToEnd | bin/nanocl/src/utils/process.rs:55-89 | over every run of the emitter and every chunking without spanning chunks, once the stream is closed and drained the waiter has ended with the first matching event and succeeds if and only if no error event for its key was emitted up to it |
| EventStream.WaitOnPrefix | bin/nanocl/src/utils/process.rs:71-88 | on any part of the stream that has arrived, the waiter fails if and only if the stream broke or an event that arrived completely is an error event for its key, and otherwise waits |
| EventStream.WaitOnRunPrefix | bin/nanocl/src/utils/process.rs:55-89 | for a subscriber of any run that has kept up, over or not, the waiter fails if and only if the stream broke or an error event for its key is among the events, counted from its subscription, whose messages arrived completely |
| EventCodec.SoundEventCodec | bin/nanocld/src/models/raw_emitter.rs:60-68 | what is asked of the printer and the parser of events can be met |
| GenericFilter.CompileConditions | bin/nanocld/src/models/mod.rs:425-452 | for every iteration order: panics exactly on an unreadable date, otherwise denotes the conjunction of the effective clauses |
| GenericFilter.CompileAlternative | bin/nanocld/src/models/mod.rs:457-489 | for every iteration order: panics exactly on an unsupported clause or unreadable date on a known column, otherwise denotes the conjunction of the known-column clauses |
| GenericFilter.GenSqlQuery | bin/nanocld/src/models/mod.rs:423-494 | for every filter and every iteration order: panics exactly on `Panicky` filters and otherwise selects exactly the `Selected` rows |
| FilterTable.TextColumn | bin/nanocld/src/models/mod.rs:95-190 | for every clause on a text column, at top level or as an alternative: the query selects exactly the rows whose cell passes that comparison; `Contains` and `HasKey` are ignored or panic |
| FilterTable.JsonColumn | bin/nanocld/src/models/mod.rs:70-369 | the same for a JSON column: containment, keys and NULL tests select, every other clause is ignored at top level and panics in an alternative |
| FilterTable.UuidColumn | bin/nanocld/src/models/mod.rs:371-411 | the same for a uuid column: equality (an unreadable text being the nil uuid) and NULL tests |
| FilterTable.TimestamptzColumn | bin/nanocld/src/models/mod.rs:237-345 | the same for a date column: comparisons and lists panic on an unreadable date and otherwise select by the dates read |
| FilterTable.UnknownColumn | bin/nanocld/src/models/mod.rs:425-489 | a condition on a name that is no column selects every row, at top level and as an alternative |
| FilterTable.GroupListing | bin/nanocl/src/commands/state.rs:808-830 | the listing of a group in a namespace selects exactly that namespace's rows whose metadata contains the document |
| GenericFilter.LowerMeansAccepts | bin/nanocld/src/models/mod.rs:73-411 | a lowered clause is TRUE in three-valued logic exactly where its two-valued reading accepts the value |
| GenericFilter.ConfinedIff | crates/nanocl_stubs/src/generic.rs:263-274 | adding a condition confines the selection to it if and only if each alternative is already confined to it |
| GenericFilter.CarryingConfines | bin/nanocld/src/repositories/cargo.rs:227-232 | an added condition confines the selection when every alternative repeats it |
| GenericFilter.IgnoringEscapes | bin/nanocld/src/repositories/cargo.rs:227-232 | if the condition rejects NULL and an alternative that accepts some row never reads the condition's column, a row with NULL there escapes |
| GenericFilter.ForcedIffConfined | bin/nanocld/src/repositories/cargo.rs:227-232 | for every filter and every added condition, with distinct columns: the selection is confined to the condition if and only if each alternative has a clause that accepts nothing, or its clause on the condition's key implies the condition, or it has none there and the condition accepts every value |
| GenericFilter.EqualitiesConfinedIff | bin/nanocld/src/repositories/cargo.rs:227-232 | for filters whose alternatives are equalities, which their texts decide: an added equality confines the selection if and only if every alternative repeats it |
| GenericFilter.NamespaceEscapes | bin/nanocld/src/repositories/cargo.rs:227-235 | with one empty alternative, a listing for one namespace selects the objects of every other |
| GenericFilter.ConditionsConjoin | crates/nanocl_stubs/src/generic.rs:263-274 | without alternatives, an added condition conjoins and replaces the old condition on its column |
| StoreRuns.TablesStaySound | bin/nanocld/src/objects/cargo.rs:44-73 | after every statement of every run (interleaved, stopping anywhere) each cargo or vm row has its status and a spec stored for its own key; if no object was cleared twice at once, no key is in two object tables |
| StoreRuns.RunKeepsRefs | bin/nanocld/src/objects/vm.rs:60-84 | the invariant behind the references, over the statement orders of cargo, vm and job creation, put and clear in every run |
| CompletedOperations.StatementKeepsOthers | bin/nanocld/src/repositories/vm.rs:129-149 | no statement changes any spec, status or row of a key that is not its own |
| CompletedOperations.CompletedCargo | bin/nanocld/src/objects/cargo.rs:44-73 | a cargo creation alone on its key, amid any operations on other keys, ends with the key's earlier specs and the sent one, the created status, and a new row with the sent name pointing to that spec |
| CompletedOperations.CompletedVm | bin/nanocld/src/objects/vm.rs:60-84 | the same for a vm creation |
| CompletedOperations.CompletedJob | bin/nanocld/src/objects/job.rs:23-50 | the same for a job creation, which stores no spec |
| CompletedOperations.CompletedPut | bin/nanocld/src/repositories/vm.rs:130-149 | a put alone on its key ends with the sent status, the sent spec stored beside the earlier ones, and the row, otherwise unchanged, with the sent name and pointing to it |
| CompletedOperations.PutToNothing | bin/nanocld/src/repositories/vm.rs:136-141 | a put to an object that is not there stores no spec and changes no row; it can only have set the status |
| CompletedOperations.CreationOnTakenKey | bin/nanocld/src/objects/cargo.rs:44-57 | a creation on a key that has a status changes no row and no status; a cargo creation leaves its spec behind, a vm or job creation nothing |
| CompletedOperations.CompletedClearing | bin/nanocld/src/repositories/cargo.rs:272-277 | a clearing alone on its key ends without the object's row, without the status and, unless it is a job, without any spec of the key |
| CompletedOperations.FeasibleCompletes | bin/nanocld/src/objects/vm.rs:115-142 | from every point of every run a creation on a free key, a put to an existing object and a clearing of a key's only object can be carried through |
| StoreRuns.RunKeepsInv | bin/nanocld/src/objects/job.rs:23-34 | each key has at most one holder, a row or an operation that claimed its status, in every run that clears no object twice at once |
| KeyClaims.SafeStepIff | bin/nanocld/src/repositories/job.rs:113-117 | a safe state becomes unsafe by exactly the steps that delete a status which a live creation has claimed |
| KeyClaims.SafeIff | bin/nanocld/src/objects/job.rs:23-34 | steps outside clearings, in any order and number, can bring two tables to one key if and only if the state is unsafe |
| KeyClaims.DisjointForGoodIff | bin/nanocld/src/repositories/job.rs:113-117 | tables are disjoint at every point of a run and cannot be brought together from any, if and only if no clearing of the run deletes a claimed status |
| KeyClaims.ApartNeverTears | bin/nanocld/src/repositories/job.rs:113-117 | runs that clear no object twice at once meet that condition |
| KeyClaims.TwoTablesOneKey | bin/nanocld/src/utils/container/job.rs:137-150 | a run with two clearings of one job at once that ends with a job and a cargo of the same key |
| ClearingTasks.SerialClearsAreApart | bin/nanocld/src/utils/container/cargo.rs:466-482 | with clearings run by the deletion bodies of their objects, a cargo or vm is never cleared twice at once |
| ClearingTasks.KeysStayDisjoint | bin/nanocld/src/tasks/task_manager.rs:40-92 | in every joint run of loop, tasks and store that clears no job twice at once, no key is in two object tables nor can come to be |
| ClearingTasks.ClearedByItsOwnTask | bin/nanocld/src/system/event.rs:105-130 | in every joint run a clearing under way was begun by a task registered under its own object's kind and key, whose body is not over unless aborted |
| ClearingTasks.TwoBodiesOneKey | bin/nanocld/src/utils/container/job.rs:137-150 | a joint run from the common start in which two deletion bodies of one job clear it at once and a job and a cargo end with its key |
| StoreRuns.ForeignKeysNeverRefuse | bin/nanocld/src/repositories/cargo.rs:272-277 | with one operation at a time on each key and no resource deleting specs of a key in use, the order of statements alone keeps references intact: no foreign key ever refuses one |
| CargoHistory.StoredSpecRoundTrip | crates/nanocl_stubs/src/vm_spec.rs:79-93 | storing and reading back is the identity for cargoes under the same key and version; for vms exactly when a host configuration was given, and otherwise fills in one cpu and 512 megabytes |
| CargoHistory.ReadJoins | bin/nanocld/src/repositories/cargo.rs:60-84 | a cargo is read exactly when its row, the status and the spec the row points to are all stored, and then it is that spec |
| CargoHistory.CreationStores | bin/nanocld/src/objects/cargo.rs:27-73 | a creation succeeds exactly when the name is made of letters, digits, underscores and hyphens and the key is free; the cargo is then what was sent, in its created state, and no other cargo changes |
| CargoHistory.CargoStore.CreateCargo | bin/nanocld/src/objects/cargo.rs:29-75 | spec, status and row are written in this order up to the first refusal, wherever it is |
| CargoHistory.FailedCreationStaysInHistory | bin/nanocld/src/objects/cargo.rs:44-57 | a creation whose key is taken fails and leaves its spec in the history of the holder exactly when its name is valid; no current spec changes |
| CargoHistory.CargoStore.PutCargo | bin/nanocld/src/objects/cargo.rs:121-137 | the whole new state of a put, also when it stops after the status update |
| CargoHistory.CargoStore.PatchCargo | bin/nanocld/src/objects/cargo.rs:144-267 | a patch is a put of the merged spec |
| CargoHistory.CargoStore.RevertCargo | bin/nanocld/src/services/cargo/revert.rs:29-45 | a revert is a put of the history entry's spec |
| CargoHistory.ChangeAppends | bin/nanocld/src/repositories/cargo.rs:145-165 | a change appends exactly one history entry, keeps all earlier ones, makes what it asked for current, and leaves other cargoes alone |
| CargoHistory.HistoryIsAppendOnly | bin/nanocld/src/repositories/cargo.rs:145-165 | over any sequence of puts, patches and reverts no stored spec changes and the history grows by one per success |
| CargoHistory.RevertRestores | bin/nanocld/src/services/cargo/revert.rs:34-43 | reverting to any stored entry restores exactly that spec after any number of changes |
| CargoPatch.MergeEnv | bin/nanocld/src/objects/cargo.rs:152-182 | the in-place loop computes `Merge` |
| CargoPatch.SplitCutsAtFirst | bin/nanocld/src/objects/cargo.rs:157-162 | splitting at every equals sign and joining the tail again cuts at the first one |
| CargoPatch.MergeRefines | bin/nanocld/src/objects/cargo.rs:150-182 | with unique names in the old list, the result has unique names and is the old map overlaid in order by the new entries; entries without an equals sign stay as they are |
| CargoPatch.PlainReadingIff | bin/nanocld/src/objects/cargo.rs:171-177 | one new entry acts as the plain reading says (set, delete when empty and present, ignore without an equals sign) if and only if its value is not the whole old entry text, the case line 171 drops |
| CargoPatch.DroppedAssignment | bin/nanocld/src/objects/cargo.rs:171-177 | an assignment that is dropped: setting A to the text `A=x` while the list holds `A=x` |
| CargoPatch.MergeIdempotent | bin/nanocld/src/objects/cargo.rs:150-182 | with distinct new names and non-empty values, merging twice equals merging once |
| CargoPatch.MergeVolumes | bin/nanocld/src/objects/cargo.rs:190-202 | the in-place loop computes `AddVolumes` |
| CargoPatch.VolumesAdded | bin/nanocld/src/objects/cargo.rs:184-202 | the old volumes stay in place, and each new volume not yet present is appended once |
| CargoPatch.PatchOverlaysContainer | bin/nanocld/src/objects/cargo.rs:150-231 | a given image or command replaces, an absent one keeps, environment and volumes are merged, and a host configuration is there exactly when there was one or there is a volume |
| CargoPatch.PatchOverlaysSpec | bin/nanocld/src/objects/cargo.rs:232-262 | every given field replaces the stored one and every absent one keeps it, except that the replication mode is always the patch's |
| CargoPatch.EmptyPatchKeepsIff | bin/nanocld/src/objects/cargo.rs:232-261 | an empty patch leaves a spec unchanged if and only if it has no replication mode |
| CargoPatch.PatchIdempotent | bin/nanocld/src/objects/cargo.rs:144-267 | applying a patch with distinct names and non-empty values twice equals applying it once |
| StateTree.FlattenIsExactly | bin/nanocl/src/commands/state.rs:465-567 | the flattened list is the tree's nodes, each exactly once, in exactly the order described by `Before` |
| StateTree.RootIsLast | bin/nanocl/src/commands/state.rs:561-566 | the statefile itself is applied last |
| StateTree.SubtreesAreContiguous | bin/nanocl/src/commands/state.rs:561-566 | every sub-state and everything below it form one stretch of the list |
| StateTree.OrderByDepth | bin/nanocl/src/commands/state.rs:561-566 | a node follows its descendants if and only if its depth is even, and otherwise precedes them |
| StateTree.SubStatesFirstIff | crates/nanocl_stubs/src/statefile.rs:147 | the documented order holds if and only if no sub-state has sub-states |
| StateTree.MiddleComesFirst | bin/nanocl/src/commands/state.rs:561-566 | of three nested levels the middle one is applied before the one it includes |
| StateApply.Client.ApplySecrets | bin/nanocl/src/commands/state.rs:603-630 | the secrets loop, including panics, refusals and early return, is `SecretsFrom` |
| StateApply.Client.ApplyJobs | bin/nanocl/src/commands/state.rs:631-666 | the jobs loop, including panics on metadata that is no object, is `JobsFrom`: delete when present, then always create |
| StateApply.Client.ApplyCargoes | bin/nanocl/src/commands/state.rs:667-716 | the cargoes loop is `CargoesFrom` |
| StateApply.Client.StateApply | bin/nanocl/src/commands/state.rs:595-716 | the sections for secrets, jobs and cargoes in order, stopping at the first that fails |
| StateApply.Client.ExecRm | bin/nanocl/src/commands/generic.rs:118-185 | removal of a list of objects: refusals are skipped, a failed wait stops it |
| StateApply.Client.RemoveOrphans | bin/nanocl/src/commands/state.rs:804-887 | the listed secrets and cargoes missing from the file, and all of the file's jobs, are sent to removal, whose outcome is ignored |
| StateApply.LabelIff | bin/nanocl/src/commands/state.rs:569-586 | labelling sets the group field and keeps every other one, and fails exactly on metadata that is no object |
| StateApply.HasGroupIff | bin/nanocl/src/commands/state.rs:808-813 | the label a listing looks for is there exactly when labelling can have put it there |
| ApplyTrace.ApplyEnds | bin/nanocl/src/commands/state.rs:595-716 | for every daemon, file and answers: what is sent is, request by request, what each object takes (with reload, a put for every existing cargo), up to the first request that is not accepted or the first object that cannot be labelled; what comes before is in place and what comes after untouched |
| ApplyTrace.AcceptedApply | bin/nanocl/src/commands/state.rs:595-716 | with every request accepted an apply completes if and only if all metadata is absent or an object, and otherwise panics |
| Convergence.ApplyAchieves | bin/nanocl/src/commands/state.rs:595-716 | an apply that completes has put every secret, job and cargo of the file in place and touched no other secret or cargo |
| Convergence.SecondApply | bin/nanocl/src/commands/state.rs:595-716 | a second apply without reload never writes a cargo and changes no secret or cargo, however it ends; what it sends is a prefix of, and if it completes exactly, a patch for each secret that existed before with another kind or immutable flag and then a deletion and a creation of each job |
| Orphans.RemovalDeletes | bin/nanocl/src/commands/state.rs:979-1023 | with every deletion accepted, exactly the listed orphans and the file's jobs are gone |
| Orphans.RemovalEffect | bin/nanocl/src/commands/generic.rs:134-184 | whatever the answers, gone are exactly the names that the removal gets to and whose deletion is not refused |
| Orphans.RemovalAsks | bin/nanocl/src/commands/generic.rs:134-184 | deletions are asked for in order up to the first whose wait fails |
| Orphans.RemovalEnds | bin/nanocl/src/commands/generic.rs:178-180 | a removal fails exactly when a wait does, and never for secrets |
| Orphans.PageIsWholeIff | bin/nanocld/src/models/mod.rs:414-420 | a listing without a limit shows all members if and only if there are at most 100 |
| Orphans.BigGroupsOverflow | bin/nanocld/src/models/mod.rs:414-420 | for any group of more than 100 members there is a listing that leaves some out |
| Orphans.KeyTellsBoth | bin/nanocld/src/utils/key.rs:26-28 | for names without a dot, a key determines name and namespace |
| Orphans.GroupIsTheFile | bin/nanocl/src/commands/state.rs:804-887 | after orphan removal and an apply that completes, the group's secrets and the namespace's cargoes are those the file names and those the listing left out, hence exactly the file's with at most 100 members |
| BootSync.Daemon.SyncProcess | bin/nanocld/src/utils/system.rs:31-88 | an up-to-date row stays, a stale one gets name and data, an absent one is created, or the date is refused |
| BootSync.Daemon.SyncCargoStatus | bin/nanocld/src/utils/system.rs:115-142 | the status is set from the container's state, or left alone, or its absence reported |
| BootSync.Daemon.DeleteZombies | bin/nanocld/src/utils/system.rs:240-250 | deletion through the compiled filter removes exactly this node's rows outside the list |
| BootSync.Daemon.SyncProcesses | bin/nanocld/src/utils/system.rs:146-253 | the whole loop, wherever it stops, leaves what `RunTo` computes, less the zombies when it succeeds |
| BootSync.ZombieIff | bin/nanocld/src/utils/system.rs:241-249 | the zombie filter selects exactly the rows of this node whose key is not listed |
| BootSync.ZombieFilterCompiles | bin/nanocld/src/utils/system.rs:241-249 | the zombie filter never makes the compiler panic |
| BootSync.DotPartsIff | bin/nanocld/src/utils/system.rs:184-187 | a key splits into name and namespace exactly when a single dot separates them |
| BootSync.SlashesGo | bin/nanocld/src/utils/system.rs:31-60 | a process is named by its container with exactly the slashes removed |
| BootAgreement.TableAgrees | bin/nanocld/src/utils/system.rs:146-253 | after a successful boot every container listed with the label of its kind ("io.nanocl.c", "io.nanocl.j" or "io.nanocl.v") has a row with its inspected data; a new row carries the kind and key that a listed container with its id is labelled with; this node's rows are only such containers', and every other row is another node's, untouched |
| BootAgreement.BootKeepsStoreSound | bin/nanocld/src/utils/system.rs:183-237 | wherever a boot stops, references are intact, keys disjoint, and no spec is lost or changed |
| BootAgreement.FirstBootSettles | bin/nanocld/src/utils/system.rs:115-237 | after a successful boot each cargo is stored with the configuration of its first container, its host configuration included, and with the status that the container's state stands for, unless its namespace was refused |
| BootAgreement.StoredByBoot | bin/nanocld/src/utils/system.rs:195-235 | every spec a boot has stored is that of a listed cargo's container: its configuration under the name in the key, nothing else, at the daemon's version, under the key drawn for it |
| BootAgreement.BootRegisters | bin/nanocld/src/utils/system.rs:204-217 | wherever a boot stops it has registered the namespaces of the cargoes it created, and only namespaces of listed cargoes |
| BootAgreement.SecondBootIsQuiet | bin/nanocld/src/utils/system.rs:146-253 | a second boot over the same containers changes no process row; it succeeds without storing a spec if and only if every cargo still missing is refused its namespace again, and then it changes nothing |
| BootAgreement.RetriedNamespaceStoresASpec | bin/nanocld/src/utils/system.rs:204-217 | a container list and two boots over it of which the second stores a spec |
| Debouncer.SystemEvent.Handle | bin/ncproxy/src/models/system.rs:45-59 | a request aborts the latest task unless it has ended and spawns one that sleeps 750 ms |
| Debouncer.OnePendingReload | bin/ncproxy/src/models/system.rs:45-59 | in every run at most one reload task has not ended, and a request not yet followed by a reload start has one pending |
| Debouncer.StartsAfterSilence | bin/ncproxy/src/models/system.rs:45-59 | a request followed by more than 750 ms of silence starts a reload exactly then, one followed by less starts none |
| Debouncer.BurstStartsOneReload | bin/ncproxy/src/models/system.rs:45-91 | a burst with gaps under 750 ms starts exactly one reload, 750 ms after its last request |
| Debouncer.AnyRequestsArrive | bin/ncproxy/src/models/system.rs:45-59 | requests can come at any times: every ascending list of times is that of some run |
| VmImages.EveryImageHasARoot | bin/nanocld/src/utils/vm_image.rs:17-31 | in every interleaving no parent is ever missing, base images have none, and every image descends from a base image that exists |
| VmImages.ChecksSuffice | bin/nanocld/src/utils/vm_image.rs:17-31 | one operation at a time, the daemon's own checks are enough: neither the primary key nor the foreign key to a parent refuses a write |
| VmImages.SequentialBaseParentsIff | bin/nanocld/src/services/vm_image/create_snapshot.rs:33-35 | one operation at a time, all parents are base images throughout a run if and only if every snapshot request that goes through names a base image when it begins |
| VmImages.BaseParentsWithoutRequests | bin/nanocld/src/objects/vm.rs:46-59 | imports, vm creations, clones and deletions, one at a time, only ever give snapshots base images as parents |
| VmImages.ReusedName | bin/nanocld/src/utils/vm_image.rs:63-128 | interleaved, base parents can be lost although every snapshot request names a base image: a pending vm creation's image is deleted and its name taken by a snapshot |
| VmImages.BaseParentsIff | bin/nanocld/src/utils/vm_image.rs:63-128 | in any interleaving, all parents are base images throughout a run if and only if no snapshot row is written for a parent that is a snapshot by then |
| VmImages.VmCreationIsCareful | bin/nanocld/src/objects/vm.rs:46-55 | a vm creation that is not interrupted meets that condition, having checked for a base image |
| VmImages.SnapshotOfSnapshot | bin/nanocld/src/services/vm_image/create_snapshot.rs:33-35 | the snapshot request does not check its image's kind: a run ends with a snapshot whose parent is a snapshot |
| VmImages.EveryRowWasAskedFor | bin/nanocld/src/objects/vm.rs:46-55 | in every interleaving each row is one that an allowed request asked for: a vm's snapshot is of a base image and named after both, a clone is a base image without parent made from a snapshot |
| VmImages.CloneOutlivesItsSource | bin/nanocld/src/utils/vm_image.rs:130-160 | a run in which a clone remains when the snapshot it was made from and that snapshot's base image are deleted |

## Left out

- Docker, qemu-img, nginx, cron and dnsmasq: their answers are parameters or free choices of a run.
- Task bodies and error handlers: only their beginning, end and outcome are modelled, and the event a failure is reported by (`Dispatch.FailureReachesWaiters`); `job_ttl` and the fan-out of a secret update, which run inside the loop, leave the task map alone.
- EventLoop.BodiesAreSerialised: speaks of task bodies; an error handler runs after its task has left the map and may overlap the next body. Aborting a task is one atomic step.
- Job task bodies are outside the serialisation theorem because the code does not wait for them; the exact extent is `EventLoop.SerialisedIffNotJob`.
- Subscriptions.Delivery: holds for runs in which no subscription or connection check lands between the two locks of an emission; a subscription that does is lost (`RawEmitter.RawEventEmitter.Emit`, `RawEmitter.GapLosesSubscriptions`), and a connection check that does is not modelled.
- TaskManagement.TaskManager.WaitTask: whether a poll ever finds the task finished is up to the task; `EventLoop.ReturnsToIdle` says it can.
- EventStream.WaitEndToEnd: covers a closed and drained stream, `EventStream.WaitOnPrefix` and `EventStream.WaitOnRunPrefix` an open one; both assume of JSON what `EventStream.Sound` says (sections 2 and 7 of RFC 8259), not a JSON grammar; `EventCodec` prints events in a form of its own, not in JSON. That the client drops its receiver is not modelled.
- GenericFilter.ConfinedIff: reduces the question to the alternatives without deciding it; `GenericFilter.ForcedIffConfined` decides it clause by clause.
- GenericFilter.EqualitiesConfinedIff: the case of `GenericFilter.ForcedIffConfined` that the filter's texts alone decide.
- GenericFilter.GenSqlQuery: `order_by` and the paging of `gen_sql_multiple!` are outside; how values are compared, matched and parsed is a parameter.
- Specs are typed values: serialising to JSON and back is taken to be the identity, and Docker settings the code never inspects are one opaque field.
- CompletedOperations.CompletedPut: like its companions it speaks of an operation that no other operation, resource or deletion of specs meets on its own key; what overlapping ones keep is `StoreRuns.TablesStaySound`.
- Spec keys are random uuids; a drawn key is assumed never to have been drawn before.
- StoreRuns.TablesStaySound: store operations are steps on values and not methods of a class, because they interleave. Foreign keys from objects to specs and statuses are those of the migrations (bin/nanocld/migrations/2022-06-17-122356_cargos/up.sql:5-7, bin/nanocld/migrations/2023-03-10-234850_vms/up.sql:28-30); `StoreRuns.ForeignKeysNeverRefuse` covers runs without overlap, where they are not needed.
- ClearingTasks.KeysStayDisjoint: keys are disjoint while no job is cleared twice at once, which nothing in the daemon ensures (`EventLoop.JobDeletedTwice`). A clearing left behind by an aborted body may go on or stop.
- CargoHistory.RevertRestores: the entry may belong to any cargo, as the code does not check whose history it is in.
- Namespaces of the object tables, and the foreign key of processes to nodes, are not modelled outside boot synchronisation.
- BootSync.Daemon.SyncProcesses: the only store failures modelled are refused namespace registrations, primary keys and missing rows; other database errors end the boot in the source and are not modelled. Docker is assumed to answer about the container it was asked for and to give the same answer twice within a theorem about two boots.
- RawEmitter.RawEventEmitter.Emit: a connection check landing between the two locks is not modelled.
- StateApply.Client.StateApply: virtual machines and resources of a statefile are not modelled, nor are a job's fields other than name and metadata; the waiter is an outcome (`Unanswered`).
- StateApply.Client.RemoveOrphans: virtual machines and resources of the file are not removed here.
- Convergence.SecondApply: file names are unique, and inspections fail only for absent objects.
- Orphans.GroupIsTheFile: cargo names hold no dot (creation refuses others, bin/nanocld/src/objects/cargo.rs:34-43) and each cargo is stored under the key of its namespace and name; deletions are complete when the wait for them ends.
- VmImages.EveryImageHasARoot: in interleaved runs it rests on the table's foreign key from an image to its parent; one operation at a time the daemon's checks suffice (`VmImages.ChecksSuffice`). Rows are steps on values because operations interleave; files, sizes and resizing are outside.
- VmImages.BaseParentsIff: its condition is read off each write; `VmImages.SequentialBaseParentsIff` gives one that a caller can check before the request, for one operation at a time.
- VmImages.VmCreationIsCareful: covers a creation that nothing interrupts; `VmImages.ReusedName` shows what an interruption can do.
- Debouncer.OnePendingReload: a sleep ends exactly when it is due, and a request at that very instant may come before or after it.
- HTTP, routing, TLS, websockets, templates, command line arguments, metrics, node selection, contexts and tables: no invariant of their own.
