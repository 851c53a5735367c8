# KASandbox, verified core

A Dafny model of the parts of KASandbox whose correctness is a matter of state, order and whole runs, with proofs.

- **The state store** of the CRI multiplexer: JSON records with reserved keys (`PersistedState.dfy`), the store calls and their meaning (`StateStore.dfy`), the backend key/value layer as a two-level map (`BackendState.dfy`), and the group commit as a step machine of callers, writer, write failures, crashes and recovery (`GroupCommit.dfy`). A file image is visible after the rename and durable after the directory sync. `DurableLog`, in the same file, is the abstract log that the protocol refines.
- **Routing**: the route table beside the store (`RouteTable.dfy`), the backend registry (`Registry.dfy`), and the multiplexer's calls with whole runs of creations, removals, crashes and restarts over the durable log (`MuxRouting.dfy`).
- **Cleanup retries**: the manager and its driver (`Cleanup.dfy`), and any number of calls with the task lock beside the driver (`CleanupInterleaving.dfy`).
- **The Connect stream parser** of the Python SDK (`StreamParser.dfy`).
- **The time breakdown** of the benchmark: interval sweep (`Sweep.dfy`), tree building (`PhaseTree.dfy`), joining and merging (`BreakdownMerge.dfy`).
- **Three algorithms**: dependency closure of test cases (`CaseSelection.dfy`), the admission webhook's JSON Patch (`AdmissionPatch.dfy`), and wrapping text to a display width (`DisplayWrap.dfy`).

Objects that the source updates in place are classes, loops are loops, and each is tied to a function or a property of values; the theorems are about those. `Options.dfy` holds the option type. `dafny verify dfyconfig.toml` checks the whole project.

Environment facts enter as parameters: clocks as integer times with 0 for the zero time, flush and engine outcomes as arguments, Cleaner answers as an oracle, map and set iteration as an arbitrary choice, handler normalisation as an arbitrary function, and Unicode properties as fields of a character.

## What turned out not to hold

Where the code does not meet a plausible promise, the exact condition is proved.

- A backend save below a section that holds JSON null panics; this is the store's only panic (`BackendState.SaveUnderNonObject`).
- A cleanup task ID identifies its job if and only if backend and resource names contain no colon; every other job collides (`Cleanup.TaskIDReadsBack`, `Cleanup.ColonsCollide`).
- A failed cleanup of a record with a negative attempt count panics, unless it is at the limit (`Cleanup.CleanupManager.SaveRetryTask`).
- The retry driver keeps its bound of MaxRetries - Attempts calls beside any other callers, but it can call early or at the limit: exactly when failures were recorded since it loaded its list (`CleanupInterleaving.DriverCallsAreBounded`, `CleanupInterleaving.CalledTooSoonIff`).
- The name rule of sandbox deletion, for containers recorded without a parent, can reach the container of another sandbox exactly when one ID with a dash begins the other; the container then loses its engine unless that is the default one (`RouteTable.LegacyPrefixReachesOtherSandbox`, `MuxRouting.RemovalReachesIff`).
- The parser asks for five buffered bytes even with a cached header, so a last payload of one to four bytes stays undelivered exactly when a chunk boundary falls between its header and its last byte (`StreamParser.DeliversWholeStream`).
- The phase tree is cyclic exactly when a phase names itself as parent (`PhaseTree.AcyclicIffNoSelfParent`).
- The webhook's patch cannot be applied when the parent of something it adds is missing, as `spec.template.metadata` of a BatchSandbox may be (`AdmissionPatch.PatchMeaning`).
- A template annotation of a BatchSandbox that is not a string makes the whole read come back empty, and the patch then overwrites the string annotations too (`AdmissionPatch.OwnAnnotationsSurviveIff`); a Pod like that is refused when it is decoded.
- Wrapping to width one or less leaves over-wide lines exactly when a character is wider or the width is negative (`DisplayWrap.FitsIff`).

## Model

| member | source | states |
|---|---|---|
| PersistedState.MarshalRoundTrip | cri-multiplex/pkg/engine/state_store.go:44-100 | decoding an encoded state gives the same version, routes, tasks and sections if and only if no section uses a reserved key |
| PersistedState.Unmarshal | cri-multiplex/pkg/engine/state_store.go:71-100 | whatever the document, a state that decodes has no section under a reserved key |
| PersistedState.Load | cri-multiplex/pkg/engine/state_store.go:135-170 | start-up yields a state without reserved sections from a missing, broken or valid file |
| PersistedState.FileKeys | cri-multiplex/pkg/engine/state_store.go:14-69 | the keys under which the file keeps its version, lists, sections and the fields of a route, and which of them are left out when empty |
| PersistedState.StartUp | cri-multiplex/pkg/engine/state_store.go:71-170 | a missing or undecodable file starts empty at version 1, a value of the wrong type makes it undecodable, a missing, null or zero version counts as 1, and every other key is a section |
| StateStore.SplitPathExact | cri-multiplex/pkg/engine/state_store.go:249-278 | a path is accepted exactly when it is a section, or a section and a key, of non-empty dot-free segments with an unreserved section, and then it means that section and key |
| StateStore.UpsertRouteRecord | cri-multiplex/pkg/engine/state_store.go:496-511 | the loop computes the record list in which every record with the key is replaced, or the record is appended if there was none |
| StateStore.DeleteRouteRecord | cri-multiplex/pkg/engine/state_store.go:513-522 | the loop removes every record with the kind and ID and keeps the order of the rest |
| StateStore.UpsertCleanupTask | cri-multiplex/pkg/engine/state_store.go:524-542 | the same for tasks; a task without a creation time carries the first one found on the records it replaces, one with a creation time simply replaces them |
| StateStore.DeleteTaskRecord | cri-multiplex/pkg/engine/state_store.go:544-552 | the loop removes every task with the ID |
| StateStore.UpsertInPlace | cri-multiplex/pkg/engine/state_store.go:496-542 | a saved record or task stands where the ones it replaces stood, or at the end, and every other keeps its place |
| StateStore.DropInOrder | cri-multiplex/pkg/engine/state_store.go:544-552 | deleting tasks keeps the rest in order |
| StateStore.StepKeepsNoReserved | cri-multiplex/pkg/engine/state_store.go:249-328 | no store call can put a section under a reserved key |
| StateStore.ReturnKeepsState | cri-multiplex/pkg/engine/state_store.go:379-417 | a call that returns without flushing leaves the state as it was, up to the normalised version |
| StateStore.StepIgnoresVersion | cri-multiplex/pkg/engine/state_store.go:172-417 | no call depends on the stored version number |
| StateStore.ReachableStateRoundTrips | cri-multiplex/pkg/engine/state_store.go:44-170 | every state reachable by any calls from any start-up file survives encoding and decoding unchanged |
| StateStore.JSONStateStore.constructor | cri-multiplex/pkg/engine/state_store.go:135-170 | the object starts in the loaded state |
| StateStore.JSONStateStore.SaveRoute | cri-multiplex/pkg/engine/state_store.go:172-182 | changes the whole state as the call's meaning says; error exactly when the flush fails |
| StateStore.JSONStateStore.DeleteRoute | cri-multiplex/pkg/engine/state_store.go:184-193 | likewise |
| StateStore.JSONStateStore.SaveCleanupTask | cri-multiplex/pkg/engine/state_store.go:204-217 | likewise, with creation and update times |
| StateStore.JSONStateStore.DeleteCleanupTask | cri-multiplex/pkg/engine/state_store.go:219-227 | likewise |
| StateStore.JSONStateStore.SaveBackendState | cri-multiplex/pkg/engine/state_store.go:280-328 | new state and outcome, including the rejected paths, the non-object section and the panic |
| StateStore.JSONStateStore.LoadBackendState | cri-multiplex/pkg/engine/state_store.go:331-367 | found value, absence or error, with the state untouched |
| StateStore.JSONStateStore.DeleteBackendState | cri-multiplex/pkg/engine/state_store.go:370-417 | new state and outcome; a call with nothing to delete does not flush |
| BackendState.StepRefinesMap | cri-multiplex/pkg/engine/state_store.go:280-417 | every call refines a two-level map, leaves routes and tasks alone, rejects exactly the malformed paths and then changes nothing |
| BackendState.LoadRefinesMap | cri-multiplex/pkg/engine/state_store.go:331-367 | a load answers what the two-level map holds |
| BackendState.ReadsLastWrite | cri-multiplex/pkg/engine/state_store.go:280-417 | after any history of calls, reading a child gives what the last call naming it or its section left |
| BackendState.DeletingLastChildDropsSection | cri-multiplex/pkg/engine/state_store.go:396-417 | deleting a child drops its section exactly when it was the only child |
| BackendState.SaveUnderNonObject | cri-multiplex/pkg/engine/state_store.go:297-328 | a save below a section panics exactly when the section is JSON null and errors exactly when it is another non-object |
| BackendState.FlushesIff | cri-multiplex/pkg/engine/state_store.go:280-417 | a call waits for a write exactly when there is something to write: a well-formed save, or a delete of what is there |
| BackendState.UnderNonObject | cri-multiplex/pkg/engine/state_store.go:331-417 | reading or deleting below a null section finds nothing, below any other non-object it is an error, and nothing changes |
| DurableLog.ExtendIsSteps | cri-multiplex/pkg/engine/state_store.go:424-463 | a list of flushed calls is a sequence of single steps of the durable log |
| DurableLog.FloorNeverLost | cri-multiplex/pkg/engine/state_store.go:424-494 | what lies below the durable floor stays at its place in the log over every run |
| GroupCommit.StepInv | cri-multiplex/pkg/engine/state_store.go:424-494 | every step of callers, writer, failures, crash and recovery keeps the protocol invariant |
| GroupCommit.RunInv | cri-multiplex/pkg/engine/state_store.go:424-494 | and so does every run |
| GroupCommit.Durability | cri-multiplex/pkg/engine/state_store.go:419-494 | once a call has returned nil, the visible file and every image a crash could bring back hold the fold of a log prefix containing its mutation, then and after any further run with crashes |
| GroupCommit.VisibleNeverShrinks | cri-multiplex/pkg/engine/state_store.go:442-494 | between crashes the log prefix a reader sees never shrinks |
| GroupCommit.StepRefinesDurableLog | cri-multiplex/pkg/engine/state_store.go:419-494 | every step is a step of a log with a durable floor, and a call that returns nil lies below the floor |
| GroupCommit.NoLostWakeup | cri-multiplex/pkg/engine/state_store.go:424-463 | in every reachable state flushing holds exactly when one writer is live, a blocked call's batch is closed, pending or in flight under it, the write that releases a call covers its mutation, and the writer always has a step while a call is blocked |
| GroupCommit.CallJoinsBatch | cri-multiplex/pkg/engine/state_store.go:424-440 | a mutation is in memory and at the end of the log at once, and its caller waits on a batch whose write is still to come; a call with nothing to write does not wait |
| GroupCommit.NilIffSynced | cri-multiplex/pkg/engine/state_store.go:424-494 | a blocked call returns nil, and is acknowledged at its position, if and only if a directory sync succeeds while its batch is in flight, over every run without a crash |
| GroupCommit.WriteDecidesReturn | cri-multiplex/pkg/engine/state_store.go:424-494 | from a write or a rename under way, failure and success are both possible, each lets the call return, and only the synced write acknowledges it |
| GroupCommit.ReleasedAfterTwoWrites | cri-multiplex/pkg/engine/state_store.go:424-463 | whatever other callers do, a blocked call can return after two snapshot writes or seven writer steps |
| RouteTable.ViewUpsert | cri-multiplex/pkg/engine/route_store.go:143-172 | the last-wins reading of the records after an upsert is the old reading with one entry set |
| RouteTable.ViewKeep | cri-multiplex/pkg/engine/route_store.go:85-172 | the reading after removing records is the old reading without those entries |
| RouteTable.DropIsKeep | cri-multiplex/pkg/engine/route_store.go:85-140 | deleting records one key at a time is the removal of the set of keys |
| RouteTable.LastWins | cri-multiplex/pkg/engine/route_store.go:143-172 | the index holds for each ID what the last record of its kind says, and nothing else |
| RouteTable.SettingIsExact | cri-multiplex/pkg/engine/route_store.go:37-60 | setting a route makes it what index and records say about the ID, and leaves every other alone |
| RouteTable.ContainerDeletionIsExact | cri-multiplex/pkg/engine/route_store.go:125-140 | deleting a container removes it from index and records, and nothing else |
| RouteTable.IndexAgreesWithStore | cri-multiplex/pkg/engine/route_store.go:37-172 | after any operations on a restored table the in-memory maps equal the last-wins reading of the records, so restoring again changes nothing |
| RouteTable.SandboxDeletionIsExact | cri-multiplex/pkg/engine/route_store.go:85-122 | deleting a sandbox removes from memory and from the records the pod, the containers recorded under it and the legacy containers named after it, and nothing else |
| RouteTable.RecordedParentRule | cri-multiplex/pkg/engine/route_store.go:85-122 | a container with a recorded parent goes, from memory and from the records, exactly when that parent is the deleted sandbox; a pod record exactly when it is that sandbox |
| RouteTable.LegacyPrefixReachesOtherSandbox | cri-multiplex/pkg/engine/route_store.go:97-103 | for any two sandbox IDs, deleting one can take a parentless container named after the other if and only if one ID, with a dash, begins the other |
| RouteTable.NameRule | cri-multiplex/pkg/engine/route_store.go:97-103 | a deletion takes a parentless container exactly when its ID begins with the sandbox ID and a dash |
| RouteTable.Routes.SetPod | cri-multiplex/pkg/engine/route_store.go:37-47 | memory and store change as the operation says even if the flush fails |
| RouteTable.Routes.SetContainer | cri-multiplex/pkg/engine/route_store.go:50-60 | likewise |
| RouteTable.Routes.Save | cri-multiplex/pkg/engine/route_store.go:196-203 | writes through to the store if there is one |
| RouteTable.Routes.DeleteContainer | cri-multiplex/pkg/engine/route_store.go:125-140 | likewise for one container |
| RouteTable.Routes.DeleteSandbox | cri-multiplex/pkg/engine/route_store.go:85-122 | memory and store change by the exact deletion; an error exactly when the flush of one of its deletions fails |
| RouteTable.Routes.TakeStale | cri-multiplex/pkg/engine/route_store.go:92-108 | the loop over the map in arbitrary order takes out exactly the stale entries and lists each key once |
| RouteTable.Routes.Restore | cri-multiplex/pkg/engine/route_store.go:143-172 | the maps become the last-wins reading of the records |
| Registry.RegistersIffCompatible | cri-multiplex/pkg/engine/registry.go:63-154 | a list of modules registers completely if and only if its modules are well-formed and pairwise apart in type, names and prefixes; the registry then holds exactly them |
| Registry.RejectsExactly | cri-multiplex/pkg/engine/registry.go:63-124 | the reasons for refusing a module: frozen, nil engine or other engine type, empty or known type, empty or taken handler, taken alias, empty or taken prefix |
| Registry.NamesExact | cri-multiplex/pkg/engine/registry.go:84-106 | a name is a module's exactly when it is its normalised handler or a non-empty normalised alias |
| Registry.KeptOnce | cri-multiplex/pkg/engine/registry.go:88-124 | no alias and no prefix is stored twice |
| Registry.HandlerExact | cri-multiplex/pkg/engine/registry.go:200-216 | a handler resolves to a module exactly when it is one of the module's names |
| Registry.FirstMatchIsLongest | cri-multiplex/pkg/engine/registry.go:219-237 | the first match in the sorted routes is a longest matching prefix, and none is found exactly when none matches |
| Registry.ImageExact | cri-multiplex/pkg/engine/registry.go:219-237 | an image resolves to a module exactly when that module owns the longest matching prefix |
| Registry.OrderIndependence | cri-multiplex/pkg/engine/registry.go:63-237 | a permutation of the modules registers if and only if the original does, and both then resolve every handler and every image alike |
| Registry.SortRoutes | cri-multiplex/pkg/engine/registry.go:148-150 | the sort yields a permutation with the longest prefixes first |
| Registry.SortIsStable | cri-multiplex/pkg/engine/registry.go:148-150 | and prefixes of equal length keep their order |
| Registry.BackendRegistry.constructor | cri-multiplex/pkg/engine/registry.go:54-61 | an empty, unfrozen registry |
| Registry.BackendRegistry.Register | cri-multiplex/pkg/engine/registry.go:63-154 | errors exactly for one of those reasons, and then nothing has changed; otherwise the new registry |
| Registry.BackendRegistry.CheckAliases | cri-multiplex/pkg/engine/registry.go:91-106 | errors exactly on a name that is taken; otherwise the normalised aliases without repeats |
| Registry.BackendRegistry.CheckPrefixes | cri-multiplex/pkg/engine/registry.go:108-124 | errors exactly on an empty or taken prefix; otherwise the prefixes without repeats |
| Registry.BackendRegistry.Freeze | cri-multiplex/pkg/engine/registry.go:158-175 | errors exactly when the registry is not yet frozen and its non-empty default type is unregistered; otherwise it ends up frozen, and nothing else changes |
| Registry.BackendRegistry.ResolveImageRoute | cri-multiplex/pkg/engine/registry.go:219-237 | the loop finds the first matching route |
| MuxRouting.StepInv | cri-multiplex/pkg/server/mux.go:114-338 | every call, every other use of the store and every restart keeps the routing invariant |
| MuxRouting.RoutingSafety | cri-multiplex/pkg/server/mux.go:114-199 | in every reachable state every live sandbox and container, created or restored, resolves to the engine that created it, save a restored container without a recorded parent whose ID begins with a removed sandbox and a dash |
| MuxRouting.RemovalReachesIff | cri-multiplex/pkg/server/mux.go:316-338 | after a removal a routed container without a recorded parent resolves to its engine if and only if its ID does not begin with the sandbox and a dash, or the engine is the default one |
| MuxRouting.OtherInv | cri-multiplex/pkg/engine/state_store.go:204-417 | cleanup and backend-state calls on the same store leave every route and the invariant alone |
| MuxRouting.AckedPodStaysLive | cri-multiplex/pkg/server/mux.go:114-246 | an acknowledged sandbox keeps its engine over every run that does not remove it, crashes included |
| MuxRouting.AckedContainerStaysLive | cri-multiplex/pkg/server/mux.go:114-298 | the same for an acknowledged container, restored ones without a recorded parent included, while neither it nor its sandbox, nor for the latter a sandbox its ID begins with, is removed |
| MuxRouting.ActionsFollowDurableLog | cri-multiplex/pkg/server/mux.go:214-338 | each action extends or truncates the store only as the durable log of the group commit allows |
| MuxRouting.RegistrationMatchesTypes | cri-multiplex/pkg/engine/registry.go:79-154 | a registry filled by registration stores each module under the type it reports |
| MuxRouting.HandlerDecidesEngine | cri-multiplex/pkg/server/mux.go:214-228 | a sandbox starts on the engine of the module its handler names under either policy; a handler nobody names is refused or goes to the registered default |
| MuxRouting.RouteDecidesEngine | cri-multiplex/pkg/server/mux.go:155-199 | a call goes to the registered engine its route names, and otherwise to the registered default, if there is one |
| MuxRouting.ActionsAreCalls | cri-multiplex/pkg/server/mux.go:114-338 | each action of a run is possible whenever its call is, acknowledged or not, and changes the table as the call does |
| MuxRouting.MuxServer.ResolveByPod | cri-multiplex/pkg/server/mux.go:180-188 | the routed engine if its type is registered, else the default |
| MuxRouting.MuxServer.ResolveByContainer | cri-multiplex/pkg/server/mux.go:191-199 | likewise for containers |
| MuxRouting.MuxServer.RunPodSandbox | cri-multiplex/pkg/server/mux.go:214-246 | which engine is called, which route is set, the reply, and the cleanup request exactly when the route could not be persisted |
| MuxRouting.MuxServer.CreateContainer | cri-multiplex/pkg/server/mux.go:248-267 | likewise for containers, with the cleanup request on the sandbox |
| MuxRouting.MuxServer.RemoveContainer | cri-multiplex/pkg/server/mux.go:285-298 | the route goes only after the engine succeeded |
| MuxRouting.MuxServer.RemovePodSandbox | cri-multiplex/pkg/server/mux.go:316-338 | success clears the routes; a failed removal changes none, so a retry resolves to the same engine, and requests cleanup; not-found counts as success only for an unrouted sandbox |
| Cleanup.TaskIDReadsBack | cri-multiplex/pkg/engine/cleanup.go:182-184 | a task ID reads back as its backend, resource and sandbox if and only if backend and resource contain no colon |
| Cleanup.TaskIDInjective | cri-multiplex/pkg/engine/cleanup.go:182-184 | colon-free jobs with the same ID are the same job |
| Cleanup.ColonsCollide | cri-multiplex/pkg/engine/cleanup.go:182-184 | every job with a colon in backend or resource shares its ID with a different, colon-free job |
| Cleanup.FindUpsert | cri-multiplex/pkg/engine/state_store.go:524-542 | saving a task sets the record of its ID and no other |
| Cleanup.FindDrop | cri-multiplex/pkg/engine/state_store.go:544-552 | deleting a task removes the record of its ID and no other |
| Cleanup.UpsertUnique | cri-multiplex/pkg/engine/state_store.go:524-542 | saving keeps at most one record per ID |
| Cleanup.FailureExact | cri-multiplex/pkg/engine/cleanup.go:186-216 | a failure adds one attempt, keeps creation time, reason and job, records error and time, sets the retry time by the rule 2^min(n-1,6) seconds below the limit and zero at it, and touches no other record |
| Cleanup.DelayExact | cri-multiplex/pkg/engine/cleanup.go:209-212 | one second, doubling with each attempt, 64 seconds from the seventh on |
| Cleanup.ScheduleExact | cri-multiplex/pkg/engine/cleanup.go:97-152 | when the Cleaner runs, when the call fails, that a dry run and a backend without a Cleaner do nothing, and that a record disappears exactly when the Cleaner of its job ran and did not fail |
| Cleanup.ScheduleSpendsBudget | cri-multiplex/pkg/engine/cleanup.go:97-152 | a Cleaner call on a record with attempts left uses up one of them |
| Cleanup.RetryWithinBudget | cri-multiplex/pkg/engine/cleanup.go:228-247 | one pass calls the Cleaner of a job at most once and within its remaining attempts, and leaves records it has not reached alone |
| Cleanup.DriverTerminates | cri-multiplex/pkg/engine/cleanup.go:228-247 | over any number of passes and any Cleaner answers, successes included, a driver with no other caller calls the Cleaner of a job at most MaxRetries - Attempts times |
| Cleanup.CallsWereDue | cri-multiplex/pkg/engine/cleanup.go:228-247 | the driver never calls a Cleaner before the retry time or at the limit |
| Cleanup.DueIsCalled | cri-multiplex/pkg/engine/cleanup.go:228-247 | one pass does call the Cleaner of every loaded record that is due and whose backend has one |
| Cleanup.CleanupManager.LoadExisting | cri-multiplex/pkg/engine/cleanup.go:194-203 | the search finds the stored record of the ID, or keeps the fresh task |
| Cleanup.CleanupManager.SaveRetryTask | cri-multiplex/pkg/engine/cleanup.go:186-216 | the stored state after one failure, or a panic with nothing stored exactly when the shift count is negative |
| Cleanup.CleanupManager.Schedule | cri-multiplex/pkg/engine/cleanup.go:97-152 | new records, Cleaner calls, error and panic in every branch, flush failures included |
| Cleanup.CleanupManager.RetryPending | cri-multiplex/pkg/engine/cleanup.go:228-247 | one pass of the driver over the records it loaded; an error exactly when the Schedule of one of them fails |
| CleanupInterleaving.StepInv | cri-multiplex/pkg/engine/cleanup.go:186-226 | every step of any number of threads keeps mutual exclusion and one well-keyed record per ID |
| CleanupInterleaving.FailuresAreCounted | cri-multiplex/pkg/engine/cleanup.go:97-216 | under any interleaving, N failures of a job without a success raise its attempts by exactly N and keep its creation time and job |
| CleanupInterleaving.LostRecordWasCleaned | cri-multiplex/pkg/engine/cleanup.go:134-152 | a record missing after a run means the Cleaner of its job succeeded or found nothing before |
| CleanupInterleaving.RecordsAreRetained | cri-multiplex/pkg/engine/cleanup.go:97-226 | from a quiet start, a record disappears only if the Cleaner of its own job succeeded or found nothing during the run |
| CleanupInterleaving.AtOnceDoesNothing | cri-multiplex/pkg/engine/cleanup.go:97-132 | the calls that take no steps are exactly those that change and call nothing |
| CleanupInterleaving.AloneIsSchedule | cri-multiplex/pkg/engine/cleanup.go:97-226 | a thread left alone goes through its steps and leaves the records as the serial call does |
| CleanupInterleaving.DriverCallsAreBounded | cri-multiplex/pkg/engine/cleanup.go:228-247 | under any interleaving with other Schedule calls, and over any number of passes, the one driver calls for a job at most MaxRetries - Attempts times while no success of it is recorded |
| CleanupInterleaving.CalledTooSoonIff | cri-multiplex/pkg/engine/cleanup.go:228-247 | when the driver calls, the stored count is at the limit if and only if the failures recorded since its load make up the difference; the stored record is unchanged if and only if there were none; and with clocks that run forward it is not due if and only if there was one |
| CleanupInterleaving.CalledAtLimit | cri-multiplex/pkg/engine/cleanup.go:228-247 | from every record one attempt below the limit, one other failure after the load leads to a call at the limit |
| StreamParser.HeaderRoundTrip | py-sdk/e2b_connect/client.py:73-83 | a packed header is the flag byte and the length in big-endian order, and decodes to both |
| StreamParser.HeaderLimits | py-sdk/e2b_connect/client.py:77-83 | packing fails exactly on a flag byte or a length that does not fit, parsing exactly on an undefined flag |
| StreamParser.OneEnvelope | py-sdk/e2b_connect/client.py:448-499 | an envelope with the second flag bit ends the stream with its payload and yields nothing; any other is one message |
| StreamParser.UndefinedFlags | py-sdk/e2b_connect/client.py:466-499 | a header with an undefined flag stops the parser, whatever follows |
| StreamParser.ServerStreamParser.ShiftBuffer | py-sdk/e2b_connect/client.py:460-463 | splits the buffer at the size |
| StreamParser.ServerStreamParser.Parse | py-sdk/e2b_connect/client.py:479-499 | the loop yields, ends and leaves the buffer and cached header as the recursive reading of one chunk says |
| StreamParser.DrainFrames | py-sdk/e2b_connect/client.py:479-499 | a drain works off whole frames in order and stays in step with the bytes still to come |
| StreamParser.ParsesExactly | py-sdk/e2b_connect/client.py:448-499 | for all frames and all chunkings of any prefix of their bytes, the messages are those of the frames worked off, a number given by positions and chunk boundaries alone; the end of the stream is seen exactly when its frame is among them; nothing is rejected |
| StreamParser.WithheldIsShort | py-sdk/e2b_connect/client.py:479-499 | after any chunks at most one complete frame is withheld, its payload has one to four bytes, its header is cached and the parser buffers fewer than five bytes |
| StreamParser.DeliversWholeStream | py-sdk/e2b_connect/client.py:479-499 | the whole stream is delivered if and only if the last payload is not one to four bytes long with a chunk boundary between its header and its last byte |
| Sweep.Uncovered | e2b-scripts/e2b_validator/bench/breakdown.py:151-162 | the loops compute the uncovered time, at most the duration, for children in any order |
| Sweep.UncoveredPlain | e2b-scripts/e2b_validator/bench/breakdown.py:151-162 | that value, plainly: the duration less the instants inside some timed child, less the whole duration of every child without a common clock, and never negative |
| Sweep.SweepSorted | e2b-scripts/e2b_validator/bench/breakdown.py:151-162 | the running sums of the sweep count the instants of the union |
| Sweep.SortByStart | e2b-scripts/e2b_validator/bench/breakdown.py:151-162 | the sort yields an ordered permutation |
| Sweep.CoveredOrder | e2b-scripts/e2b_validator/bench/breakdown.py:151-162 | the union does not depend on the order of the children |
| Sweep.TimeAddsUp | e2b-scripts/e2b_validator/bench/breakdown.py:151-162 | on one clock uncovered and covered time add up to the duration |
| PhaseTree.BuildTree | e2b-scripts/e2b_validator/bench/breakdown.py:120-130 | the loop with its dictionary of nodes builds the arena in which each phase hangs under the latest phase with its parent ID |
| PhaseTree.LatestExact | e2b-scripts/e2b_validator/bench/breakdown.py:120-130 | the root stands in exactly when no phase so far has the ID; otherwise the latest such phase does |
| PhaseTree.AcyclicIffNoSelfParent | e2b-scripts/e2b_validator/bench/breakdown.py:120-130 | the result is acyclic if and only if no phase is its own parent |
| PhaseTree.OneNodePerPhase | e2b-scripts/e2b_validator/bench/breakdown.py:120-148 | without a self-parent the walk from the root meets the root and every phase exactly once |
| PhaseTree.CellData | e2b-scripts/e2b_validator/bench/breakdown.py:115-130 | each cell keeps the label, start and duration of its phase, the rest of the request for an unfinished one |
| PhaseTree.CellContents | e2b-scripts/e2b_validator/bench/breakdown.py:115-130 | label, start and duration of every phase and of the root, written out |
| PhaseTree.ChildrenExact | e2b-scripts/e2b_validator/bench/breakdown.py:120-130 | the children of a cell are exactly the phases hung under it, in the order of the record |
| PhaseTree.ChildrenStay | e2b-scripts/e2b_validator/bench/breakdown.py:120-130 | each phase is a child of the parent it was hung under in the finished tree |
| PhaseTree.TreeConservesTime | e2b-scripts/e2b_validator/bench/breakdown.py:120-148 | the tree's total is the request's total plus the duration of every phase, each once |
| BreakdownMerge.GraftConserves | e2b-scripts/e2b_validator/bench/breakdown.py:133-148 | a graft finds a place exactly when the walk meets the name, and adds exactly the sub-tree's time |
| BreakdownMerge.AssembleConserves | e2b-scripts/e2b_validator/bench/breakdown.py:133-142 | joining client, API and orchestrator trees neither loses nor repeats time, whichever are present |
| BreakdownMerge.GraftPlaces | e2b-scripts/e2b_validator/bench/breakdown.py:133-148 | the sub-tree becomes the last child of the first node of the name in walk order, and every other line of the outline stays |
| BreakdownMerge.AssemblePlaces | e2b-scripts/e2b_validator/bench/breakdown.py:133-142 | the outline of the joined tree: the API below the client, the orchestrator below the first gRPC phase or, without one, last below the API |
| BreakdownMerge.Local | e2b-scripts/e2b_validator/bench/breakdown.py:169-182 | one sample, the summed durations; one start, the earliest, if any node has one; one remainder if any node has children |
| BreakdownMerge.SumsAreAdditive | e2b-scripts/e2b_validator/bench/breakdown.py:169-182 | the sums of a bucket are sums of durations and of the uncovered time of the nodes with children |
| BreakdownMerge.Group | e2b-scripts/e2b_validator/bench/breakdown.py:169-182 | children grouped by name, in order, across all nodes |
| BreakdownMerge.Merge | e2b-scripts/e2b_validator/bench/breakdown.py:169-182 | at every path the bucket gains exactly what the nodes at that path contribute, and a path exists exactly when it did or some node is there |
| BreakdownMerge.MergeAll | e2b-scripts/e2b_validator/bench/breakdown.py:169-182 | after merging any trees, at every path the samples add up to the durations of all nodes there and the remainders to their uncovered time |
| CaseSelection.SelectCases | e2b-scripts/e2b_validator/e2e_test_runner.py:1062-1088 | fails exactly when an unknown case or a cycle is reachable from the request; otherwise returns, in catalog order, the least dependency-closed superset, whatever order the request is visited in |
| CaseSelection.Selector.Include | e2b-scripts/e2b_validator/e2e_test_runner.py:1072-1084 | the recursive search terminates, fails only on a broken case, and otherwise adds only what the case reaches |
| CaseSelection.Selector.IncludeAll | e2b-scripts/e2b_validator/e2e_test_runner.py:1079-1082 | likewise for the loop over the dependencies |
| CaseSelection.CompletedIsSound | e2b-scripts/e2b_validator/e2e_test_runner.py:1072-1084 | a case that was completed reaches no unknown case and no cycle |
| CaseSelection.LeastClosedUnique | e2b-scripts/e2b_validator/e2e_test_runner.py:1062-1088 | there is only one least closed superset |
| CaseSelection.Pick | e2b-scripts/e2b_validator/e2e_test_runner.py:1088 | the catalog entries with a selected ID, in order |
| CaseSelection.FilterIsInOrder | e2b-scripts/e2b_validator/e2e_test_runner.py:1088 | the positions of the result in the catalog ascend and are exactly those of the selected cases |
| CaseSelection.ByIdExact | e2b-scripts/e2b_validator/e2e_test_runner.py:1064 | the dictionary holds under each ID the last case with it |
| AdmissionPatch.EscapeRoundTrip | e2b-webhook/main.go:90-95 | unescaping an escaped key gives the key back for every string, and an escaped key holds no slash |
| AdmissionPatch.BuildPatch | e2b-webhook/main.go:57-87 | nothing for no annotations, one whole map if there were none, else exactly one add per missing key in some order |
| AdmissionPatch.KeyByKey | e2b-webhook/main.go:57-87 | adding the keys one by one, in any order, is adding the enlarged annotation map |
| AdmissionPatch.AddExact | e2b-webhook/main.go:57-87 | an add, as section 4.1 of RFC 6902 defines it, succeeds exactly when the parent is an object and then puts the value there |
| AdmissionPatch.AddElsewhere | e2b-webhook/main.go:57-87 | an add changes nothing beside its path |
| AdmissionPatch.AnnotationBytes | e2b-webhook/admission.go:268-274 | the loop over the map in any order sums the lengths of keys and values |
| AdmissionPatch.BytesExact | e2b-webhook/admission.go:268-274 | each key adds its own length and that of its value |
| AdmissionPatch.CollectMissing | e2b-webhook/admission.go:248-256 | the loop in any order collects exactly the offered keys the object does not have, and the union |
| AdmissionPatch.MergedOps | e2b-webhook/admission.go:228-266 | the operations and their order |
| AdmissionPatch.BuildMergedPatch | e2b-webhook/admission.go:228-266 | applied to any object carrying the annotations it was built from, the patch succeeds if and only if everything it writes has a parent object, and then yields the object with the chosen runtime class if none was set and one annotation map |
| AdmissionPatch.PatchMeaning | e2b-webhook/admission.go:228-266 | the same for any operations of that form, so iteration order plays no part |
| AdmissionPatch.ClassAfterPatch | e2b-webhook/admission.go:228-246 | the runtime class after the patch: the one that was set, else the provider's, else the handler |
| AdmissionPatch.AnnotationsAfterPatch | e2b-webhook/admission.go:228-274 | annotations that were read are unchanged, exactly the missing ones appear if the total stays within 200 KiB, and otherwise nothing changes |
| AdmissionPatch.ReadCarries | e2b-webhook/admission.go:276-284 | an object carries what is read from it as its string annotations |
| AdmissionPatch.OwnAnnotationsSurviveIff | e2b-webhook/admission.go:228-284 | the object keeps its own annotations if and only if nothing is injected or all of them are strings; otherwise the offered ones replace them |
| DisplayWrap.DisplayWidth | e2b-scripts/e2b_validator/e2e_diagnostics.py:157-163 | the loop sums the character widths |
| DisplayWrap.WidthCounts | e2b-scripts/e2b_validator/e2e_diagnostics.py:157-163 | one column for every character that does not combine, and one more if it is wide |
| DisplayWrap.DisplayTokens | e2b-scripts/e2b_validator/e2e_diagnostics.py:182-214 | maximal runs of one kind, punctuation one by one, that concatenate to the text |
| DisplayWrap.StaysTogether | e2b-scripts/e2b_validator/e2e_diagnostics.py:195-205 | neighbours share a token exactly if both are white space, both ASCII, or both wide letters or digits beyond ASCII |
| DisplayWrap.TokensUnique | e2b-scripts/e2b_validator/e2e_diagnostics.py:182-214 | a text has only one such list of tokens |
| DisplayWrap.HardWrap | e2b-scripts/e2b_validator/e2e_diagnostics.py:166-179 | consecutive pieces of the text, each within the width or a single character, and without white space each piece ends only where the next character does not fit |
| DisplayWrap.ExtendLines | e2b-scripts/e2b_validator/e2e_diagnostics.py:231-240 | all chunks of an over-wide token but the last become lines |
| DisplayWrap.FillLines | e2b-scripts/e2b_validator/e2e_diagnostics.py:217-245 | filling lines with tokens keeps the layout, the width and the need for every break |
| DisplayWrap.FitsIff | e2b-scripts/e2b_validator/e2e_diagnostics.py:217-245 | every line is within the width if and only if the width is not negative and no character other than white space is wider; so always from width two on |
| DisplayWrap.WrapDisplay | e2b-scripts/e2b_validator/e2e_diagnostics.py:217-245 | at least one line; the lines are consecutive pieces of the text with only white space between them, without white space at their ends; removing white space from lines and text gives the same; every break falls where the next token did not fit, or inside a token wider than a line; and the width condition above |

## Left out

- JSON text, indentation, file modes and the single file-system calls of a snapshot write: a write is an atomic step that fails before the rename, fails after it, or succeeds; raw messages are values, and JSON object keys are matched exactly.
- Routes derived by a backend's own restorer, and sections that engines edit while holding the store: restart reads the recorded routes only.
- Interleavings of route-table memory updates with its store calls, which happen under different locks: table operations are serial.
- Disabled stores and nil receivers, which return at once.
- Module listing order, snapshots for display, list fan-out, version, status and image-file-system calls: aggregation without state.
- The admin registry (`cri-multiplex/pkg/admin/registry.go`): a read-only name index built once from the registered modules.
- Timeouts, logging, tickers, and the text matching that recognises a not-found error: part of the outcome parameters.
- MuxRouting.RoutingSafety: assumes that engines hand out fresh non-empty IDs and that recorded routes of live objects name registered types; a restored container without a recorded parent is covered until a removal reaches its name.
- CleanupInterleaving.DriverCallsAreBounded: speaks of one driver and colon-free names; what colons do is stated above.
- CleanupInterleaving.CalledTooSoonIff: the clause on due times needs the clock that failures read not to be behind the driver's.
- Cleanup.CleanupManager.RetryPending: requires records that this manager wrote, one per ID and with colon-free names.
- StreamParser.ParsesExactly: assumes the end-stream frame, if any, is the last one; payload decoding, decompression and the JSON of the end-stream message are not modelled.
- Sweep.Uncovered: times are whole microseconds, not floating-point milliseconds, so rounding is not modelled.
- Percentiles, export and rendering of the breakdown, reading of logs, and the batch bookkeeping around the merge.
- Decoding of admission reviews, choice of the provider, and the response envelope.
- DisplayWrap.WrapDisplay: which characters are wide, combining or white space is taken from the character, not from a Unicode version.
