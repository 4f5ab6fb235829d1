# Verified model of the build hub, the scheduler, the caches and their codecs

This project models the parts of the build tool where correctness depends on more than
one function, and proves what each part is for.

- **The hub** (`HubDag.dfy`, `HubServer.dfy`, `HubInvariant.dfy`, `HubProtocol.dfy`,
  `HubLimits.dfy`). A class for the task DAG, whose methods change task states and the ready
  queue in place, and a state machine in which any number of spokes subscribe, take items
  and report. For any list with unique ids, every run that gets done ends with the same
  outcome for every task, and which lists can get done is stated exactly.
- **The local scheduler** (`Runner.dfy`, `Waves.dfy`, `ResourceBudget.dfy`, `Gates.dfy`,
  `Scheduler.dfy`, `RunOrder.dfy`).
  Tasks that wait on completion channels, as a state machine with failures, panics and aborts;
  the wave form that it replaced, and why waiting per dependency is never slower; the memory
  budget with its guards; the gates in front of a subprocess; a whole run composed of root
  tasks, waiting and gates, which is never stuck and returns the right verdict; and exactly
  which tasks waiting puts in order.
- **The two-phase cache** (`Fingerprint.dfy`, `TwoPhaseCache.dfy`). The byte framing of both
  fingerprints with decoders that read it back, the stores, and soundness and completeness
  of lookups over any history of records and file changes.
- **The sandbox wire protocol** (`PipeProto.dfy`). The record codec and the incremental reader.
- **The glob matchers** (`Glob.dfy`). Greedy search proved equal to a declarative meaning.
- **Postinstall caching** (`Postinstall.dfy`, `PostinstallReplay.dfy`, `PostinstallExamples.dfy`).
  Capture, diff, store and restore over inodes and a store that is hard-linked into packages, and
  exactly what a replay restores.
- **Scoping** (`Scoping.dfy`). The closure of `--to` and the affected packages.

`Wrappers.dfy`, `Graph.dfy` and `Sorting.dfy` hold options, duplicate-free lists, finite graphs
and sorting. `dafny verify dfyconfig.toml` checks the whole project.

## How it is modelled

Code that updates fields is a class whose methods are proved against a relation or a function
of the old state; loops are methods with invariants. Protocols are state machines whose steps
use those same relations, so a theorem about runs is a theorem about what the methods do. Where
the program iterates over a hash set or hash map, the relation leaves the order open and fixes
the contents.

Assumptions, each also visible as a hypothesis of the theorems that use it:

- Hashing is any function without collisions among the strings a theorem names. Byte strings
  are Dafny strings whose characters stand for bytes; `u8`, `u16`, `u32` and `u64` are bounded.
- Task lists given to the hub have unique ids. A spoke reports what it was sent, once, and no
  report is lost.
- A task is a function of its weak inputs and of the answers to its reads, which it makes one
  at a time; a run leaves the files it read as they were (`TwoPhase.Faithful`).
- A task that waits for memory tries again after each release. In the program a release between
  unlocking the budget and registering for the wake-up
  (`crates/scheduler/src/resource_budget.rs:161-163`) can be missed.
- Root tasks are given the semaphore and the budget but pass neither: they are run before the
  gates (`crates/scheduler/src/runner.rs:1003-1005`).
- Storage operations succeed and are atomic.

Where code and comments differ, the model follows the code:

- `simple_glob_match` is documented to let `*` stand for non-separator characters
  (`crates/scheduler/src/task.rs:86`); the code checks no separators, and `Glob.StarMatch` allows any.
- The strong fingerprint is documented as covering every read path
  (`crates/cache/src/strong_fp.rs:3`); the code leaves out paths in `node_modules` and paths that are
  not regular files. That is why soundness of a hit needs its hypothesis, and `TwoPhase.FalseHit`
  shows what happens without it.
- The length field of a record is the number of UTF-16 units cut to 16 bits, so the reader's
  theorem holds exactly for paths of fewer than 65536 units.

## Model

| member | source | states |
|---|---|---|
| `Hub.HubDag.constructor` | crates/hub/src/dag.rs:55-88 | builds the DAG of a task list; with InitialStatic and RootsExact: reverse index, states and queue are exactly those of the list |
| `Hub.HubDag.DispatchNext` | crates/hub/src/dag.rs:92-99 | takes the head of the ready queue, marks it dispatched to this worker and returns its node; nothing else changes, and an empty queue changes nothing |
| `Hub.HubDag.MarkComplete` | crates/hub/src/dag.rs:102-106 | the task is completed; exactly the pending dependents whose dependencies are now all completed become ready, each once, at the end of the queue |
| `Hub.HubDag.UnblockDependents` | crates/hub/src/dag.rs:150-185 | the readied tasks are decided by the states on entry, whatever order the dependents come in |
| `Hub.HubDag.CascadeTurn` | crates/hub/src/dag.rs:118-140 | one turn of the failure worklist keeps its invariant and shrinks the set of unsettled dependents, or keeps it and shortens the frontier |
| `Hub.HubDag.Cascade` | crates/hub/src/dag.rs:114-140 | the worklist terminates, and every task it fails is blamed on a failed task it depends on |
| `Hub.HubDag.MarkFailed` | crates/hub/src/dag.rs:110-148 | returns, without duplicates, exactly the tasks reachable from the failed one through unsettled dependents; only they and the task itself change state, and only failed tasks leave the queue |
| `Hub.DropFailedExact` | crates/hub/src/dag.rs:142-145 | only failed tasks leave the ready queue, and the others keep their order |
| `Hub.HubDag.IsDoneNow` | crates/hub/src/dag.rs:188-192 | true exactly when every task is completed or failed |
| `Hub.HubDag.FirstFailure` | crates/hub/src/dag.rs:202-209 | finds a failed task with its own error whenever there is one |
| `Hub.HubDag.Stats` | crates/hub/src/dag.rs:217-235 | counts every task once, in the counter of its state |
| `Hub.TallyExact` | crates/hub/src/dag.rs:217-235 | the five counters are the numbers of tasks that are pending, ready, dispatched, completed and failed |
| `Hub.CascadeComplete` | crates/hub/src/dag.rs:118-140 | when the frontier is empty nothing reachable has been missed |
| `HubInvariant.RootsExact` | crates/hub/src/dag.rs:71-87 | the initial queue lists each task without dependencies once and nothing else |
| `HubInvariant.InitialStatic` | crates/hub/src/dag.rs:55-88 | the reverse index built by insertion is the dependency relation turned round, dependencies outside the list included |
| `HubInvariant.InitialInv` | crates/hub/src/dag.rs:55-88 | the invariant holds at the start for every list with unique ids |
| `HubInvariant.DispatchInv` | crates/hub/src/dag.rs:92-99 | dispatching keeps the invariant: the queue has no duplicates and is exactly the ready set, started tasks have all dependencies completed, pending tasks wait for one that is not, failure is closed under dependents; the task handed out is the first of the queue, as listed, and the only one whose state changes |
| `HubInvariant.CompleteInv` | crates/hub/src/dag.rs:102-106 | a report of success keeps the invariant and readies exactly the tasks waiting for this one alone, at the end of the queue; no other state changes |
| `HubInvariant.CascadeReach` | crates/hub/src/dag.rs:110-148 | from an invariant state a failure takes exactly all transitive dependents not failed before; each was pending, and no other state nor any queue position changes |
| `HubInvariant.BlameExact` | crates/hub/src/dag.rs:118-140 | the error of a task failed by a cascade names a task it lists as a dependency, the reported one or one that failed with it |
| `HubInvariant.FailInv` | crates/hub/src/dag.rs:110-148 | a report of failure keeps the invariant |
| `HubServerModel.HubServer.constructor` | crates/hub/src/server.rs:36-46 | the server starts with the DAG of its task list |
| `HubServerModel.HubServer.SubscribeTurn` | crates/hub/src/server.rs:130-141 | a turn of a stream ends it exactly when the hub is done; otherwise it is one dispatch to this worker, and an item is sent exactly when one was ready |
| `HubServerModel.HubServer.Complete` | crates/hub/src/server.rs:159-169 | a report is one completion or one failure with the reported error |
| `HubProtocol.StepInv` | crates/hub/src/server.rs:128-169 | every step of every spoke keeps the invariant, including: a task in flight is held by exactly one spoke, the one the hub dispatched it to; tasks are handed out, picked up and reported at most once, in that order |
| `HubProtocol.RunInv` | crates/hub/src/server.rs:128-169 | so it holds in every state of every run |
| `HubProtocol.ItemAsListed` | crates/hub/src/server.rs:128-154 | in every run, an item handed to a spoke is a task of the list as it was listed, and the hub records that spoke's worker for it |
| `HubProtocol.Confluence` | crates/hub/src/dag.rs:92-192 | for every list with unique ids: when a run is done a task is completed exactly when it and all its transitive dependencies succeed and failed otherwise, whatever the spokes and the order of dispatches and reports |
| `HubProtocol.RunsExactlyOnce` | crates/spoke-client/src/lib.rs:94-135 | in a run that is done, a command was run exactly when all its dependencies succeed, once, and was reported |
| `HubProtocol.NoDeadlock` | crates/hub/src/dag.rs:150-192 | a state that is not done has a ready or a dispatched task, if every task that depends on something missing or circular also depends on one that is run and fails |
| `HubProtocol.ReportEnabled` | crates/hub/src/dag.rs:102-148 | every report has an outcome that meets its specification |
| `HubProtocol.CanMove` | crates/hub/src/server.rs:128-154 | then, with a spoke connected, a hub that is not done can make a dispatch, a pick-up or a report |
| `HubProtocol.MovesBounded` | crates/hub/src/dag.rs:92-106 | a run makes at most one dispatch, one pick-up and one report per task |
| `HubProtocol.CanFinish` | crates/hub/src/server.rs:128-169 | and every run with a spoke connected can be carried on until the hub is done |
| `HubLimits.FinishesExactly` | crates/hub/src/dag.rs:92-192 | for unique ids and any set of succeeding commands: some run gets done if and only if every task that depends on something missing or circular also depends on a task that is run and fails |
| `HubLimits.WellFormedFinishes` | crates/hub/src/dag.rs:92-192 | a list with all dependencies in it and no cycle can get done whichever commands fail; when none fails, only such a list can |
| `Runner.AwaitDeps` | crates/scheduler/src/runner.rs:48-65 | true exactly when, for some dependency, every look shows Pending until the sender is gone, or the first look that is not Pending shows Failed |
| `RunOrder.AwaitDecides` | crates/scheduler/src/runner.rs:278-328 | in every run of a pool, a task that leaves its wait is skipped, and not started, exactly when that holds of the channel of some task in its wait list, as shown so far or up to any later state |
| `Runner.WaitLists` | crates/scheduler/src/runner.rs:257-276 | each task waits for those of its dependencies that are built in this run, in order |
| `Runner.KnownSplit` | crates/scheduler/src/runner.rs:257-276 | filtering a list of dependencies filters each part of it in place, so order and repetitions are kept |
| `Runner.WaitListsSound` | crates/scheduler/src/runner.rs:257-276 | the wait lists stay inside the run and have no cycle if the workspace has none |
| `Runner.PoolStepInv` | crates/scheduler/src/runner.rs:203-328 | every interleaving of waiting, starting, finishing, panicking, aborting and joining keeps the pool's invariant |
| `Runner.PoolProgress` | crates/scheduler/src/runner.rs:203-328 | no reachable pool has all its unresolved tasks waiting on each other: one can step without a panic or an abort |
| `Runner.JoinedVerdict` | crates/scheduler/src/runner.rs:224-247 | a joined pool has seen an error exactly when some task did not succeed, and without panics exactly when some command fails |
| `RunOrder.AbortsExactly` | crates/scheduler/src/runner.rs:224-247 | in every run of a pool, a task that has not ended can be aborted exactly from the first joined error on - or joined panic, in the runner that aborts on panics |
| `Runner.SubprocessSafety` | crates/scheduler/src/runner.rs:203-328 | in every state of every run, a package subprocess that has started has all root tasks succeeded, and each task in its wait list, and everything that leads to, directly or not, has sent Done |
| `RunOrder.OrderedExactly` | crates/scheduler/src/runner.rs:48-65 | when what a task waits for succeeds, it starts after another in every run, whatever the interleaving, if and only if the wait lists lead to that one |
| `RunOrder.CoversExactly` | crates/scheduler/src/task.rs:178-243 | waiting covers all dependencies of the workspace, direct or not, if and only if every package without a task that a task depends on leads only to tasks waited for anyway |
| `Runner.RunVerdict` | crates/scheduler/src/runner.rs:203-328 | a run returns Ok exactly when every task is Done; then the completion order lists each task once, after its dependencies; without panics that is exactly when every command succeeds |
| `Runner.RunProgress` | crates/scheduler/src/runner.rs:203-328 | a run that has not returned can always go on |
| `Runner.RunIsFinite` | crates/scheduler/src/runner.rs:203-328 | and only finitely often: steps made plus steps left never exceed a number fixed by the task list |
| `Waves.ComputeTaskLevels` | crates/scheduler/src/runner.rs:115-173 | root tasks form one first wave if there are any, each as often as given; the other waves hold the package tasks whose longest chain of dependencies - names of package tasks, each listed by the one before in the workspace - has as many names after the first as there are waves before; each wave is in order of names and none is empty |
| `Sorting.SortStable` | crates/scheduler/src/runner.rs:157-169 | the sort behind the waves keeps tied elements in the order given |
| `Waves.LevelFor` | crates/scheduler/src/runner.rs:141-148 | a level is above that of every dependency the package lists and the run builds, and one above some of them unless it is 0 |
| `Waves.LevelIsDepth` | crates/scheduler/src/runner.rs:141-155 | the level of a task is the length of the longest chain of dependencies listed in the workspace, through packages with a task of the run |
| `Waves.RunEdge` | crates/scheduler/src/runner.rs:141-146 | a dependency counts exactly when the package lists it and both have a package task |
| `Waves.TaskMapLast` | crates/scheduler/src/runner.rs:121-124 | every name with a package task has one entry, the last task of that name |
| `Waves.WavesPartition` | crates/scheduler/src/runner.rs:115-173 | with unique names known to the workspace, a task is in the run exactly when it is in some wave, and in one only |
| `Waves.DependenciesEarlier` | crates/scheduler/src/runner.rs:141-155 | whatever a package lists among its dependencies, and the run builds, is in a strictly earlier wave |
| `Waves.WavesMinimal` | crates/scheduler/src/runner.rs:115-173 | no valid assignment of the tasks to waves uses fewer waves |
| `Waves.ContinuousExists` | crates/scheduler/src/runner.rs:174-192 | waiting per dependency gives every task of the run a finish time |
| `Waves.ContinuousNoLater` | crates/scheduler/src/runner.rs:174-192 | with no limit on slots and any durations, that finish time is never later than under the waves |
| `ResourceBudget.MemoryBudget.constructor` | crates/scheduler/src/resource_budget.rs:110-125 | an empty budget is balanced |
| `ResourceBudget.MemoryBudget.TryReserve` | crates/scheduler/src/resource_budget.rs:143-160 | gives a guard exactly when committed bytes plus the estimate are within capacity, the estimate is zero, or no guard is live; it adds just the estimate, without 64-bit overflow, and one to the 32-bit count; the counters stay equal to the sum and the number of live guards if and only if that count does not wrap |
| `ResourceBudget.MemoryBudget.TryReserveCold` | crates/scheduler/src/resource_budget.rs:173-182 | gives a guard exactly when a slot is free; free slots plus cold guards stay constant |
| `ResourceBudget.MemoryGuard.ReleaseInner` | crates/scheduler/src/resource_budget.rs:199-205 | gives back exactly what this guard reserved, the first time only, and keeps the budget balanced |
| `ResourceBudget.MemoryGuard.ReleaseWithActual` | crates/scheduler/src/resource_budget.rs:219-224 | frees the whole reservation whatever was measured; the drop that follows frees nothing more |
| `ResourceBudget.MemoryGuard.Drop` | crates/scheduler/src/resource_budget.rs:227-236 | a dropped guard leaves both lists, and what it held is freed once |
| `ResourceBudget.AdmitKeeps` | crates/scheduler/src/resource_budget.rs:147-151 | an admission cannot overflow the 64-bit sum, and keeps the accounts exactly when the 32-bit count does not wrap |
| `ResourceBudget.ReleaseKeeps` | crates/scheduler/src/resource_budget.rs:199-203 | a release of a live reservation never clips either subtraction and keeps the accounts |
| `ResourceBudget.CommittedBound` | crates/scheduler/src/resource_budget.rs:143-160 | committed bytes are within capacity or equal one live estimate, all others being zero |
| `Gates.StepInv` | crates/scheduler/src/runner.rs:1171-1192 | every step at the gates, aborts included, keeps permits, cold slots and the budget in balance |
| `Gates.RunBounds` | crates/scheduler/src/runner.rs:1171-1192 | in every state of every run both semaphores bound what runs, and committed memory is within capacity or due to one task |
| `Gates.GatesOpen` | crates/scheduler/src/resource_budget.rs:143-182 | at the gates a task can pass exactly when: for memory, its estimate fits beside the live reservations, is zero, or nothing is reserved; for a cold start, fewer cold tasks run than there are slots; for a permit, fewer are held than there are |
| `Gates.AdmissionProgress` | crates/scheduler/src/runner.rs:1171-1192 | with a process slot and a cold slot, whenever a task is blocked some task is past all gates or can pass the one it is at |
| `Gates.GateProgress` | crates/scheduler/src/runner.rs:1189-1192 | a task that holds a permit is held up only by one past both gates, itself with a permit, so taking the permit first cannot deadlock |
| `Gates.EnabledStep` | crates/scheduler/src/resource_budget.rs:143-182 | an enabled step can be made without overflow of either counter |
| `Gates.RunIsFinite` | crates/scheduler/src/runner.rs:1171-1192 | no run makes more than four steps per task |
| `Scheduler.StepInv` | crates/scheduler/src/runner.rs:800-974 | a whole run, root tasks, waiting and gates together, keeps the invariants of both machines; only a task whose turn has come and whose lookup missed holds anything at the gates |
| `Scheduler.SubprocessSafety` | crates/scheduler/src/runner.rs:1003-1192 | in every state of every run a task past the gates has missed the cache, every root task has succeeded and everything its wait list leads to has sent Done, and there are no more of them than process slots |
| `Scheduler.ResultComesFirst` | crates/scheduler/src/runner.rs:1003-1192 | in every run, a package task ends with its own verdict only after its lookup hit or its subprocess was let past the gates |
| `Scheduler.Verdict` | crates/scheduler/src/runner.rs:856-976 | a run that has returned is Ok exactly when every task is Done; without panics, exactly when the command of every root task and of every package task whose lookup missed succeeds |
| `Scheduler.Progress` | crates/scheduler/src/runner.rs:800-974 | with a process slot, a cold slot and no dependency cycle, a run that has not returned can move, whatever waits on dependencies, permits, memory or cold slots |
| `Scheduler.RunIsFinite` | crates/scheduler/src/runner.rs:800-974 | and every run of it is bounded by a number fixed by the task list |
| `StrongFp.ComputeStrongFingerprint` | crates/cache/src/strong_fp.rs:24-58 | the streamed hash is that of the framed weak fingerprint and records |
| `StrongFp.TrackedSorted` | crates/cache/src/strong_fp.rs:30-41 | the paths hashed are exactly the recorded ones outside node_modules, sorted, each once |
| `StrongFp.FrameRoundTrip` | crates/cache/src/strong_fp.rs:25-55 | a decoder recovers the weak fingerprint and the list of paths and hashes if and only if no path holds a colon, the hashes have their length and the fingerprint no newline |
| `StrongFp.FrameAmbiguous` | crates/cache/src/strong_fp.rs:49-54 | with a colon in a path two lists can share one text |
| `StrongFp.PathBytesInjective` | crates/cache/src/strong_fp.rs:50-50 | different normalised paths have different bytes |
| `StrongFp.PathBytesExact` | crates/cache/src/strong_fp.rs:50-50 | the bytes of a path are its components, a slash before each |
| `StrongFp.RecordsFromSeen` | crates/cache/src/strong_fp.rs:30-55 | order and repetition of the paths do not matter, only the tracked regular files and their contents |
| `StrongFp.StrongExact` | crates/cache/src/strong_fp.rs:24-58 | two strong fingerprints are equal if and only if the weak ones are and the tracked regular files have equal contents |
| `Framing.HexInjective` | crates/cache/src/strong_fp.rs:57-57 | the printed digest determines the digest |
| `Framing.HexExact` | crates/cache/src/strong_fp.rs:57-57 | a printed digest has two digits a byte, the high half first |
| `WeakFp.ComputeWeakFingerprint` | crates/cache/src/weak_fp.rs:105-162 | the streamed hash is that of the framed fields with sorted lists |
| `WeakFp.WeakRoundTrip` | crates/cache/src/weak_fp.rs:108-158 | for file digests of their length, a decoder recovers every field if and only if no field holds a newline and no key an equals sign |
| `WeakFp.SortByKeyExact` | crates/cache/src/weak_fp.rs:139-150 | lists with distinct keys sort to the same list in any order |
| `WeakFp.WeakNormal` | crates/cache/src/weak_fp.rs:105-162 | two weak fingerprints are equal if and only if the fields with sorted lists are |
| `WeakFp.WeakExact` | crates/cache/src/weak_fp.rs:105-162 | with distinct keys: if and only if the fields agree but for the order of the lists |
| `WeakFp.WeakAmbiguous` | crates/cache/src/weak_fp.rs:140-146 | with a newline in a value two different sets of fields share one text |
| `TwoPhase.PathsetStore.Append` | crates/cache/src/pathset_store.rs:39-51 | the list ends up holding the pathset, with the old list as a prefix, nothing else added, and no duplicate if it had none; every other list is unchanged |
| `TwoPhase.TwoPhaseCache.Lookup` | crates/cache/src/two_phase.rs:61-73 | the first pathset in stored order whose fingerprint on the present files has an entry, with that entry and the fingerprint; none exactly when no stored pathset has one |
| `TwoPhase.TwoPhaseCache.Record` | crates/cache/src/two_phase.rs:80-94 | stores the pathset, and an entry with the command, exit code, times and ABI fingerprint handed in and its own fingerprint and read paths; every other entry is unchanged |
| `TwoPhase.EntryGenuine` | crates/cache/src/two_phase.rs:80-94 | after any history, an entry has the command, exit code, times, ABI fingerprint and read paths of a recorded run of its fingerprint; right after a record, of that run |
| `TwoPhase.HitGenuine` | crates/cache/src/two_phase.rs:61-94 | so a hit returns what a recorded run of that fingerprint handed in |
| `TwoPhase.StoreOrigin` | crates/cache/src/two_phase.rs:80-94 | after any history, every entry and every listed pathset comes from a recorded run under that fingerprint |
| `TwoPhase.HitOrigin` | crates/cache/src/two_phase.rs:61-73 | a hit is the entry of a recorded run with the same weak inputs, whose tracked regular files then are those of the matched pathset now; the pathset was recorded under the same weak fingerprint |
| `TwoPhase.HitIsFresh` | crates/cache/src/two_phase.rs:61-94 | soundness on every file system: if no recorded pathset misses a read of a recorded run all of whose tracked files it lists, and reads in node_modules are unchanged, a hit stands for the only run the task can make now, reads, answers and outcome alike |
| `TwoPhase.PinnedIsCovered` | crates/cache/src/strong_fp.rs:30-47 | that holds if every read outside node_modules was a regular file when recorded |
| `TwoPhase.UncoveredMisleads` | crates/cache/src/strong_fp.rs:43-48 | and it is needed, for any hash: if a pathset misses such a read, putting new contents there makes a file system on which the lookup hits and no recorded run is the run the task would make now |
| `TwoPhase.HitExact` | crates/cache/src/two_phase.rs:61-94 | a test after the lookup that is exact in any history: the hit's run is the run made now if and only if the entry's own read paths still give its fingerprint |
| `TwoPhase.FalseHit` | crates/cache/src/strong_fp.rs:43-48 | an instance, for any hash: two recorded runs and a file system on which the lookup returns an entry whose outcome is not that of the run made now |
| `TwoPhase.StoreGrows` | crates/cache/src/pathset_store.rs:28-51 | later records never remove or reorder a pathset and never remove an entry |
| `TwoPhase.ListsUnique` | crates/cache/src/pathset_store.rs:39-51 | stored lists have no duplicates after any history |
| `TwoPhase.EntriesKeyed` | crates/cache/src/two_phase.rs:80-94 | every entry carries the fingerprint it is stored under |
| `TwoPhase.RecordThenHit` | crates/cache/src/two_phase.rs:61-94 | completeness: after a record and any further records, a lookup with equal weak inputs on files that agree on the recorded reads hits |
| `PipeProto.Utf16RoundTrip` | crates/sandbox/src/pipe_proto.rs:30-30 | lossy decoding of an encoded path gives the path back (sections 2.1 and 2.2 of RFC 2781) |
| `PipeProto.UnitsExact` | crates/sandbox/src/pipe_proto.rs:30-30 | a character beyond the basic plane is a high and a low surrogate that add up to it, any other is one unit |
| `PipeProto.LossyLength` | crates/sandbox/src/pipe_proto.rs:70-70 | lossy decoding keeps the number of code units |
| `PipeProto.Unpaired` | crates/sandbox/src/pipe_proto.rs:70-70 | a surrogate without its other half becomes U+FFFD, and what follows is kept |
| `PipeProto.EncodeEvent` | crates/sandbox/src/pipe_proto.rs:22-42 | appends one record and leaves what was in the buffer |
| `PipeProto.EncodeBytes` | crates/sandbox/src/pipe_proto.rs:22-42 | a record is 7 bytes and two per unit: 1 for a read and 2 for a write, then process id, length and units as numbers, low byte first |
| `PipeProto.DecodeExact` | crates/sandbox/src/pipe_proto.rs:49-79 | nothing is decoded exactly when fewer than 7 bytes or than the length calls for are there, or the first is neither 1 nor 2; otherwise the event is what the numbers say |
| `PipeProto.DecodeFront` | crates/sandbox/src/pipe_proto.rs:31-79 | any record, however long its path, decodes to its event cut to the length field's units |
| `PipeProto.DecodeEncode` | crates/sandbox/src/pipe_proto.rs:22-79 | a record decodes to its event and its own length, whatever follows, if and only if its path is under 65536 units |
| `PipeProto.DecodeStable` | crates/sandbox/src/pipe_proto.rs:49-79 | appending bytes never changes a decoded record |
| `PipeProto.DecodeResumes` | crates/sandbox/src/windows.rs:186-194 | decoding in two parts, keeping the undecoded rest, is decoding the whole |
| `PipeProto.Drain` | crates/sandbox/src/windows.rs:188-194 | takes every complete record off the front of the buffer, in order, and keeps the rest |
| `PipeProto.RestStuck` | crates/sandbox/src/windows.rs:188-194 | the bytes kept for the next read are the end of the buffer, and no record starts there |
| `PipeProto.ReadEvents` | crates/sandbox/src/windows.rs:154-204 | the events are those of the received bytes, however they were split into reads |
| `PipeProto.ReaderExact` | crates/sandbox/src/windows.rs:154-204 | for any split into reads, and whatever comes after a read of no bytes, the reader returns exactly the sent events in order if and only if every path is under 65536 units |
| `Glob.SplitRebuild` | crates/scheduler/src/runner.rs:1921-1921 | joining the parts of a pattern with stars gives the pattern back |
| `Glob.PartsClean` | crates/scheduler/src/runner.rs:1921-1921 | no part holds a star |
| `Glob.StarAnywhere` | crates/scheduler/src/runner.rs:1913-1941 | text before a star and text after it match separately, with anything between |
| `Glob.FirstPart` | crates/scheduler/src/runner.rs:1927-1931 | a string matches exactly when it starts with the first part and the rest matches the rest |
| `Glob.MiddlePart` | crates/scheduler/src/runner.rs:1934-1938 | taking the first occurrence of a middle part loses no match |
| `Glob.SimpleComponentMatch` | crates/scheduler/src/runner.rs:1913-1941 | accepts a string exactly when some assignment of substrings to the stars rebuilds it |
| `Glob.SimpleGlobMatch` | crates/scheduler/src/task.rs:88-118 | the same for the task-list matcher |
| `Glob.AnyDepthAnywhere` | crates/scheduler/src/runner.rs:1888-1900 | what comes before a `**` and what comes after it match separately, with any number of components between, none included |
| `Glob.Componentwise` | crates/scheduler/src/runner.rs:1902-1908 | a pattern without `**` matches exactly the paths of its own length that match it one by one |
| `Glob.SlashesExact` | crates/scheduler/src/runner.rs:1876-1879 | backslashes become slashes and nothing else changes |
| `Glob.GlobMatchRecursive` | crates/scheduler/src/runner.rs:1883-1911 | terminates and accepts exactly the paths that can be cut into one span per pattern component, any run of components for a double star and one matching component otherwise; AnyDepthAnywhere and Componentwise say what that is |
| `Glob.OutputGlobMatches` | crates/scheduler/src/runner.rs:1876-1881 | the same for output globs split at slashes, with backslashes read as slashes |
| `Postinstall.Machine.PutBytesKeyed` | crates/artifact-store/src/local.rs:103-134 | reading the key gives what it held before, or else the new bytes; reading any other key gives what it gave before, and no existing file changes |
| `Postinstall.Machine.CaptureDir` | crates/scheduler/src/postinstall_cache.rs:39-102 | one entry for every file and link, as it is; every file's contents are stored under their hash; what was in the store is untouched and nothing else is added |
| `PostinstallReplay.CapturedEntry` | crates/scheduler/src/postinstall_cache.rs:39-102 | a file is recorded by the hash of its bytes and its mode, a link by its target with 32 zero bytes and no mode |
| `Postinstall.Machine.StoreManifest` | crates/scheduler/src/postinstall_cache.rs:252-264 | stores a delta, readable under the key unless that held something, but not an empty one |
| `Postinstall.Machine.StoreEmptySentinel` | crates/scheduler/src/postinstall_cache.rs:270-278 | afterwards the key reads as it did, or else as the marker of a script that changed nothing |
| `Postinstall.Machine.RestoreManifest` | crates/scheduler/src/postinstall_cache.rs:288-340 | follows the entries in order to the end or the first failure, linking or copying file by file; absent key, sentinel and bad text are told apart |
| `Postinstall.Machine.RunPostinstall` | crates/scheduler/src/runner.rs:1617-1667 | a script is run only when nothing could be restored; its effect is stored only when it succeeds |
| `PostinstallReplay.FailedScript` | crates/scheduler/src/runner.rs:1617-1667 | with nothing under the key, a script that fails leaves the disk as it made it, on one that had the files captured before and no more: nothing of it is stored |
| `PostinstallReplay.DiffExact` | crates/scheduler/src/postinstall_cache.rs:106-122 | the delta has exactly the entries that are new or changed, one per path |
| `PostinstallReplay.RestoreRebuilds` | crates/scheduler/src/postinstall_cache.rs:304-338 | restoring a stocked delta succeeds, puts every entry in place, touches no other path, and changes nothing on the disk but modes of stored files |
| `PostinstallReplay.RestoreAnswers` | crates/scheduler/src/postinstall_cache.rs:288-340 | Absent exactly when the key is not there; for a manifest, Restored exactly when the store has a file for every regular entry, and then every entry is in place; an error for a bad text changes nothing |
| `PostinstallReplay.RestoreStops` | crates/scheduler/src/postinstall_cache.rs:304-324 | otherwise what comes before the first missing file is in place, the path of that one is gone, and nothing else has changed |
| `PostinstallReplay.LinkedModes` | crates/scheduler/src/postinstall_cache.rs:312-323 | a stored file ends with the mode of the entries linked to it when they agree |
| `PostinstallReplay.ColdRunStores` | crates/scheduler/src/runner.rs:1638-1657 | after a first run, whatever files its script wrote to, the task's key holds exactly the list of changed paths, or the sentinel if there are none, and something is stored under the hash of every file |
| `PostinstallReplay.ReplayContents` | crates/scheduler/src/runner.rs:1617-1667 | on a directory equal to the pre-script one a later restore always succeeds, empty delta included; it brings back exactly the links, the files left alone and the written files whose stored bytes are intact, linked or copied; it is exact if and only if the script deleted no path and all it wrote is intact |
| `PostinstallReplay.WholeReplay` | crates/scheduler/src/postinstall_cache.rs:288-340 | with a store that is and stays whole, and a script that writes to no stored file, the replay is exact if and only if no path was deleted |
| `PostinstallReplay.ScriptNotRun` | crates/scheduler/src/runner.rs:1617-1636 | so a later phase ends in exactly the restored state, whatever its script would do now |
| `PostinstallReplay.ReplayModes` | crates/scheduler/src/postinstall_cache.rs:304-324 | all modes are right if and only if no file that ends up as the same one as a written, hard-linked file has another mode |
| `PostinstallReplay.ModesRestored` | crates/scheduler/src/postinstall_cache.rs:304-324 | so, from an intact store, all modes are right when equal contents carry equal modes, into whatever hard links to the store the directory holds |
| `PostinstallExamples.LinkedLeak` | crates/scheduler/src/postinstall_cache.rs:313-323 | a concrete run and a package whose p is a link to the stored file: restoring q makes the untouched p executable |
| `PostinstallExamples.WrittenThrough` | crates/scheduler/src/postinstall_cache.rs:312-318 | a script that writes through a hard link into the store spoils a stored file: the replay succeeds and gives another file, which kept the old bytes, the new ones |
| `PostinstallExamples.OverwriteFits` | crates/scheduler/src/runner.rs:1638-1645 | rewriting in place a file that is not linked to the store is among the scripts covered, and leaves the store whole |
| `Scoping.TransitiveDepClosure` | crates/cli/src/main.rs:402-421 | terminates with exactly the target and its transitive dependencies: the least set that holds the target and, with a package, all the dependencies it lists |
| `Scoping.AffectedPackages` | crates/scoping/src/affected.rs:18-53 | exactly the packages some directly changed package reaches along reversed edges |
| `Scoping.DirectExact` | crates/scoping/src/affected.rs:24-28 | a package is directly affected exactly when the path of one of that name is a prefix of a changed file's |
| `Scoping.ClosureDuality` | crates/scoping/src/affected.rs:40-52 | p is in the closure of t exactly when t is affected by a change in p alone |
| `Scoping.AffectedExact` | crates/scoping/src/affected.rs:18-53 | a package is affected exactly when its dependency closure holds one whose path is a prefix of a changed file's |

## Left out

- ResourceBudget.MemoryBudget.TryReserve: one attempt of the waiting loop; the loop itself and the wake-up are the assumption above. That the 32-bit count does not wrap follows from `Gates.RunBounds` for fewer than 2^32 process permits.
- HubProtocol.CanFinish: says that a run can always be completed, not that a fair scheduler will; with MovesBounded only idle polls and new connections can go on for ever.
- Hub.HubDag.Cascade: the order in which tasks fail within one cascade, and which failed dependency each is blamed on when it has several, are left open, because the dependents come out of a hash set.
- PostinstallReplay.ReplayContents: the script may write to any file but is taken not to add, remove or move files of the store, and no captured file spells out the inputs of a task key.
- gRPC, WebSocket, HTTP, sockets and named pipes, process injection and tracing hooks: only the byte codec and the reader's loop are modelled.
- `submit_build`, which replaces the DAG while tasks may be in flight, lost or forged reports, and reconnection with back-off.
- The reports' and items' other fields, tokens and time-outs.
- Resolution of input globs, the hash of the tool binary, JSON, sorting, splitting and UTF conversion: library calls given by their meaning.
- Unreadable files, which the program hashes as empty, and paths that are not absolute and normalised.
- Freshness of the ABI strings on a cache hit: they are weak inputs here.
- Directories in packages, a file where a restored file needs a directory, symbolic links on Windows, unreadable entries.
- Caching inside a task (remote backends, output replay, ABI store): a task either succeeds or fails.
- The percentile behind a memory estimate, the counter of active subprocesses and its peak: an estimate is any 64-bit number.
- Building the workspace graph (unknown dependencies and cycles are rejected there) and the topological sort itself: taken by their meaning.
- The daemon, file watching, configuration, lockfiles, DOT output and statistics printing.
