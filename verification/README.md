# Included-build control, watched-directory counting and the configuration cache report, in Dafny

This project models three sequential cores of the Gradle build tool and proves
properties of them.

1. **The included-build task controller** (`DefaultIncludedBuildController`).
   - The controller is a cyclic state machine over `ReadyToRun`, `QueueingTasks`
     and `RunningTasks`.
   - It keeps a per-task status table (QUEUED, EXECUTING, FAILED, SUCCESS) in
     insertion order.
   - It keeps the set of names ever handed to the included build's task graph,
     and an ordered failure list.
   - Every public operation except `populateTaskGraph` is one critical
     section under the controller's lock. Each operation is modelled as a pure
     transition on an immutable record
     (`included_build_controller.dfy`). A usage error is an `Err` result, and
     the caller keeps the record it passed in.
   - Calls of the coordination service's `notifyStateChange` are counted in
     `broadcasts`. Calls of the local condition's `signalAll` are counted in
     `signals`.
   - `controller_lifecycle.dfy` adds the worker thread. `run()` is two atomic
     steps: batch start (`getQueuedTasks`) and batch end (`tasksDone` then
     `setState(ReadyToRun)`). Between them, the included build's executor
     reports task completions in any order.
   - Any interleaving of caller operations and executor callbacks is a sequence
     of events. An invariant is proved over every such sequence.
2. **Reference-counted watched directories** (`NonHierarchicalFileWatcherUpdater`).
   - `increment`/`decrement` fold path events into a delta map
     (`watch_delta.dfy`).
   - `updateWatchedDirectories` applies the delta to a multiset of watched
     directories. It computes the sets handed to the native watcher's
     `stopWatching` and `startWatching`.
   - The subdirectory visitor prunes ignored directories
     (`subdirectory_visitor.dfy`).
   - `virtualFileSystemContentsChanged` records the roots watched per snapshot
     and builds the delta (`file_watcher_updater.dfy`).
3. **The configuration cache report's page model** (`Main.kt`).
   - Trace elements of the JavaScript model become problem nodes. Message
     fragments become pretty text (`report_model.dfy`).
   - Each problem becomes one node path grouped by message and one grouped by
     task.
   - `report_tree.dfy` turns a trie of such paths into the view tree: a stable
     sort by label string, plus the collapsed/expanded rule.

`wrappers.dfy` holds the result types (`Option`, `Result`, `Outcome`, `Wait`).
`seqs.dfy` holds the sequence vocabulary: filter, subsequence, distinctness and
occurrence counts.

### Behaviour of the code worth noting

- `startTaskExecution` accepts only `ReadyToRun`
  (DefaultIncludedBuildController.java:113). A caller therefore queues, calls
  `populateTaskGraph` (which returns to `ReadyToRun`), and only then starts.
- `taskCompleted` records a failed task as FAILED and leaves the failure list
  alone (DefaultIncludedBuildController.java:227-246). The failure list grows
  only from the batch-level exception passed to `tasksDone`.
- `populateTaskGraph` in `QueueingTasks` returns `true` even when it hands no
  new name over.
- `queueForExecution` calls `setState` on every accepted call, so it signals
  even when the task was already queued.

## Model

| member | source | states |
|---|---|---|
| IncludedBuildController.Initial | subprojects/composite-builds/src/main/java/org/gradle/composite/internal/DefaultIncludedBuildController.java:69-75 | a new controller is well formed, in ReadyToRun, with an empty task table and no failures |
| IncludedBuildController.SetState | subprojects/composite-builds/src/main/java/org/gradle/composite/internal/DefaultIncludedBuildController.java:182-190 | the state becomes the one asked for, local waiters are signalled once, and nothing else changes |
| IncludedBuildController.QueueForExecution | subprojects/composite-builds/src/main/java/org/gradle/composite/internal/DefaultIncludedBuildController.java:275-289 | fails iff RunningTasks; otherwise moves to QueueingTasks, inserts the task as QUEUED at the end only if it had no entry, keeps every existing entry's status (even SUCCESS/FAILED), and keeps the table well formed |
| IncludedBuildController.PopulateTaskGraph | subprojects/composite-builds/src/main/java/org/gradle/composite/internal/DefaultIncludedBuildController.java:83-107 | ReadyToRun: returns false and changes nothing; RunningTasks: wrong-state error; QueueingTasks: hands over exactly the QUEUED names never handed over before, in insertion order and without repeats, adds them to the ever-added set, moves to ReadyToRun and returns true |
| IncludedBuildController.StartTaskExecution | subprojects/composite-builds/src/main/java/org/gradle/composite/internal/DefaultIncludedBuildController.java:109-126 | fails with the wrong-state error iff the state is not ReadyToRun; otherwise moves to RunningTasks, signals, and leaves table and failures alone |
| IncludedBuildController.GetQueuedTasks | subprojects/composite-builds/src/main/java/org/gradle/composite/internal/DefaultIncludedBuildController.java:192-206 | the snapshot is exactly the QUEUED names, in insertion order; exactly those entries become EXECUTING and every other field is unchanged |
| IncludedBuildController.TaskCompleted | subprojects/composite-builds/src/main/java/org/gradle/composite/internal/DefaultIncludedBuildController.java:227-246 | the task becomes SUCCESS without a failure and FAILED with one, created at the end if absent; other entries, the failure list and the state are untouched; the coordination service is notified once |
| IncludedBuildController.Unwrap | subprojects/composite-builds/src/main/java/org/gradle/composite/internal/DefaultIncludedBuildController.java:259-265 | no failure adds nothing, an aggregate adds its causes in order, any other failure adds itself |
| IncludedBuildController.TasksDone | subprojects/composite-builds/src/main/java/org/gradle/composite/internal/DefaultIncludedBuildController.java:248-273 | every executed task still EXECUTING becomes FAILED and no executed task stays EXECUTING, other entries are unchanged, the coordination service is notified iff at least one task was forced, and the batch failure is appended unwrapped |
| IncludedBuildController.GetTaskState | subprojects/composite-builds/src/main/java/org/gradle/composite/internal/DefaultIncludedBuildController.java:291-309 | errors iff the task has no entry; WAITING iff QUEUED or EXECUTING, FAILED iff FAILED, SUCCESS iff SUCCESS |
| IncludedBuildController.AwaitTaskCompletion | subprojects/composite-builds/src/main/java/org/gradle/composite/internal/DefaultIncludedBuildController.java:128-145 | waits iff RunningTasks; otherwise yields the failure list in order and leaves it empty |
| IncludedBuildController.Stop | subprojects/composite-builds/src/main/java/org/gradle/composite/internal/DefaultIncludedBuildController.java:161-168 | blocks iff RunningTasks; otherwise leaves the controller exactly as it was except for an emptied failure list, and raises an aggregate of exactly the drained failures iff there were any |
| IncludedBuildController.GraphPopulated | subprojects/composite-builds/src/main/java/org/gradle/composite/internal/DefaultIncludedBuildController.java:347-354 | passes iff every requested task is in the graph; otherwise reports the first missing task in request order |
| ControllerLifecycle.Step | subprojects/composite-builds/src/main/java/org/gradle/composite/internal/DefaultIncludedBuildController.java:170-180 | a batch that finds nothing queued ends at once in ReadyToRun with the worker gone; otherwise the batch is exactly the queued tasks; a batch end always returns to ReadyToRun with the worker gone; a worker is submitted only from ReadyToRun and a batch starts only from a submitted worker |
| ControllerLifecycle.WorkerReturnsToReadyToRun | subprojects/composite-builds/src/main/java/org/gradle/composite/internal/DefaultIncludedBuildController.java:170-180 | from any reachable system, letting the worker start and end its batch leaves no worker, in ReadyToRun if there was one, and changes nothing if there was none |
| ControllerLifecycle.StepKeepsInv | subprojects/composite-builds/src/main/java/org/gradle/composite/internal/DefaultIncludedBuildController.java:170-180 | every caller operation, worker step and executor callback keeps the invariant: table well formed, graph without repeats and equal to the ever-added set, worker idle iff not RunningTasks, EXECUTING entries only inside the running batch, and no task of the running batch QUEUED |
| ControllerLifecycle.RunKeepsInv | subprojects/composite-builds/src/main/java/org/gradle/composite/internal/DefaultIncludedBuildController.java:170-180 | the invariant holds after any sequence of events |
| ControllerLifecycle.ReachableNotRunningHasNoExecuting | subprojects/composite-builds/src/main/java/org/gradle/composite/internal/DefaultIncludedBuildController.java:248-258 | in every reachable system outside RunningTasks no task is EXECUTING |
| ControllerLifecycle.ReachableGraphHasNoDuplicates | subprojects/composite-builds/src/main/java/org/gradle/composite/internal/DefaultIncludedBuildController.java:93-98 | in every reachable system each name was handed to the task graph at most once, and the names handed over are exactly the ever-added set |
| ControllerLifecycle.StepMonotone | subprojects/composite-builds/src/main/java/org/gradle/composite/internal/DefaultIncludedBuildController.java:73-98 | the ever-added set only grows, the graph is only extended at its end, both counters only grow, and every state change signals the local waiters |
| ControllerLifecycle.EndBatchForcesFailure | subprojects/composite-builds/src/main/java/org/gradle/composite/internal/DefaultIncludedBuildController.java:248-273 | a batch task that never reported reads FAILED after batch end, the worker is back to idle in ReadyToRun, and the coordination service was notified once |
| ControllerLifecycle.BatchTasksEndDone | subprojects/composite-builds/src/main/java/org/gradle/composite/internal/DefaultIncludedBuildController.java:227-273 | when a running batch ends, every task of the batch reads SUCCESS or FAILED (and getTaskState reports that): a task that reported keeps its outcome, one still EXECUTING is forced to FAILED; the worker is back to idle in ReadyToRun |
| ControllerLifecycle.ReachableBatchEndsDone | subprojects/composite-builds/src/main/java/org/gradle/composite/internal/DefaultIncludedBuildController.java:170-180 | in every reachable system with a batch running, ending the batch returns to ReadyToRun with each of the batch's tasks SUCCESS or FAILED |
| ControllerLifecycle.TwoTaskScenario | subprojects/composite-builds/src/main/java/org/gradle/composite/internal/DefaultIncludedBuildController.java:170-180 | queue a and b, populate, start, a succeeds, b fails and the batch raises an aggregate of that failure: the graph got a and b once each, the drain yields exactly that one failure, a reads SUCCESS, b FAILED, and an unknown task errors |
| ControllerLifecycle.NothingQueuedScenario | subprojects/composite-builds/src/main/java/org/gradle/composite/internal/DefaultIncludedBuildController.java:83-91 | with nothing queued, populating changes nothing and returns false, and awaiting or stopping returns at once with no failures |
| WatchDelta.Increment | subprojects/file-watching/src/main/java/org/gradle/internal/watch/registry/impl/NonHierarchicalFileWatcherUpdater.java:166-168 | the path's change rises by one, from an implicit zero when absent; no other path changes |
| WatchDelta.Decrement | subprojects/file-watching/src/main/java/org/gradle/internal/watch/registry/impl/NonHierarchicalFileWatcherUpdater.java:162-164 | the path's change drops by one, from an implicit zero when absent; no other path changes |
| WatchDelta.FoldCounts | subprojects/file-watching/src/main/java/org/gradle/internal/watch/registry/impl/NonHierarchicalFileWatcherUpdater.java:162-168 | after folding a batch each path's change is its increments minus its decrements, and every mentioned path has an entry, so events that cancel leave a zero entry |
| WatchDelta.MultisetAdd | subprojects/file-watching/src/main/java/org/gradle/internal/watch/registry/impl/NonHierarchicalFileWatcherUpdater.java:137 | the count rises by k, other counts are unchanged, and the count before the call is returned |
| WatchDelta.MultisetRemove | subprojects/file-watching/src/main/java/org/gradle/internal/watch/registry/impl/NonHierarchicalFileWatcherUpdater.java:132 | the count drops by k but not below zero, other counts are unchanged, and the count before the call is returned |
| WatchDelta.UpdateWatchedDirectories | subprojects/file-watching/src/main/java/org/gradle/internal/watch/registry/impl/NonHierarchicalFileWatcherUpdater.java:122-160 | for delta k>0 the count becomes prev+k and the path starts iff prev=0; for -k<0 the count becomes max(0, prev-k) and the path stops iff prev<=k (also when never watched); delta 0 and absent paths are untouched, so every path obeys the rule for its change, counting an absent one as 0; no path is in both sets; stop is called before start, each only when non-empty; an empty delta makes no call |
| WatchDelta.ApplyEntry | subprojects/file-watching/src/main/java/org/gradle/internal/watch/registry/impl/NonHierarchicalFileWatcherUpdater.java:128-142 | one delta entry: a negative change removes and stops the path iff its count was at most the removal, a positive one adds and starts it iff its count was zero, zero changes nothing; other paths keep their counts |
| SubdirectoryVisitor.SubdirectoriesToWatch | subprojects/file-watching/src/main/java/org/gradle/internal/watch/registry/impl/NonHierarchicalFileWatcherUpdater.java:170-204 | the visitor emits a path iff it is a directory strictly below the root reached without passing an ignored directory: the root is skipped, ignored subtrees are pruned, files and missing entries are never emitted |
| FileWatcherUpdater.RemoveSnapshot | subprojects/file-watching/src/main/java/org/gradle/internal/watch/registry/impl/NonHierarchicalFileWatcherUpdater.java:63-69 | fails iff the snapshot's path has no record; otherwise the record is deleted and each path's change drops by its occurrences in the stored roots plus the emitted subdirectories |
| FileWatcherUpdater.AddSnapshot | subprojects/file-watching/src/main/java/org/gradle/internal/watch/registry/impl/NonHierarchicalFileWatcherUpdater.java:70-78 | the roots are recorded under the snapshot's path and each path's change rises by its occurrences in the roots plus the emitted subdirectories |
| FileWatcherUpdater.AddThenRemove | subprojects/file-watching/src/main/java/org/gradle/internal/watch/registry/impl/NonHierarchicalFileWatcherUpdater.java:63-78 | adding an unrecorded snapshot and then removing it restores the records and every path's change |
| FileWatcherUpdater.RemoveSnapshots | subprojects/file-watching/src/main/java/org/gradle/internal/watch/registry/impl/NonHierarchicalFileWatcherUpdater.java:63-69 | fails iff some watched removed snapshot finds no record when its turn comes, because its path was never recorded or an earlier watched removed snapshot with the same path already deleted it; the failing path is watched and absent from the records at the failure; on success the records of exactly the watched removed snapshots are gone and each path's change drops by its occurrences among the roots recorded for them and the subdirectories emitted for them; nothing watched means nothing changes |
| FileWatcherUpdater.AddSnapshots | subprojects/file-watching/src/main/java/org/gradle/internal/watch/registry/impl/NonHierarchicalFileWatcherUpdater.java:70-78 | records exist for the old paths plus exactly the watched added snapshots; other records are untouched; each path's change rises by its occurrences among the directories to watch and the subdirectories emitted for the watched added snapshots |
| FileWatcherUpdater.AddSnapshotsRecordsFirst | subprojects/file-watching/src/main/java/org/gradle/internal/watch/registry/impl/NonHierarchicalFileWatcherUpdater.java:72-75 | the first added snapshot, when watched and not overridden by a later one, keeps its own directories recorded |
| FileWatcherUpdater.AddSnapshotsRecordsRoots | subprojects/file-watching/src/main/java/org/gradle/internal/watch/registry/impl/NonHierarchicalFileWatcherUpdater.java:72-75 | each watched added snapshot that no later one overrides keeps its own directories recorded |
| FileWatcherUpdater.VirtualFileSystemContentsChanged | subprojects/file-watching/src/main/java/org/gradle/internal/watch/registry/impl/NonHierarchicalFileWatcherUpdater.java:59-80 | aborts, with the multiset untouched, iff some watched removed snapshot finds no record at its turn (never recorded, or a repeated watched path); the unknown path is watched and absent from the records left behind; otherwise the multiset stays proper, each last watched added snapshot's path holds its directories to watch, every other key keeps its old roots, and every path's count moves by its net change (occurrences among the added paths minus those among the removed paths) under the start/stop threshold rule; stop is called before start, each only when non-empty; no watched snapshot means no call and no change |
| FileWatcherUpdater.WatchFirstRoot | subprojects/file-watching/src/main/java/org/gradle/internal/watch/registry/impl/NonHierarchicalFileWatcherUpdater.java:70-79 | on an empty updater, a watched snapshot whose one directory to watch is x makes exactly one call, to start watching x, and leaves x counted once and nothing else counted |
| FileWatcherUpdater.RemovalFindsRecordsCons | subprojects/file-watching/src/main/java/org/gradle/internal/watch/registry/impl/NonHierarchicalFileWatcherUpdater.java:63-69 | removal finds every record iff the first watched snapshot is recorded and the rest finds its records once that one is deleted; an unwatched first snapshot is skipped |
| FileWatcherUpdater.WatchOne | subprojects/file-watching/src/main/java/org/gradle/internal/watch/registry/impl/NonHierarchicalFileWatcherUpdater.java:70-79 | adding one watched snapshot records its directories under its path and raises each path's count by its occurrences among those directories and the emitted subdirectories, under the start threshold |
| FileWatcherUpdater.UnwatchOne | subprojects/file-watching/src/main/java/org/gradle/internal/watch/registry/impl/NonHierarchicalFileWatcherUpdater.java:63-69 | removing one watched recorded snapshot forgets its record and lowers each path's count by its occurrences among the stored roots and the emitted subdirectories, under the stop threshold |
| FileWatcherUpdater.WatchThenUnwatch | subprojects/file-watching/src/main/java/org/gradle/internal/watch/registry/impl/NonHierarchicalFileWatcherUpdater.java:59-80 | adding an unrecorded watched snapshot and then removing it restores the records and every count; the first call stops nothing, the second starts nothing and stops exactly what the first started |
| ReportModel.ToProblemNode | subprojects/configuration-cache-report/src/main/kotlin/Main.kt:174-192 | Task, Bean, Field, InputProperty and OutputProperty map to their nodes with the fields each reads; any other kind is the "Gradle runtime" label |
| ReportModel.ProblemNodeKeepsKind | subprojects/configuration-cache-report/src/main/kotlin/Main.kt:174-192 | a known kind can be read back from its node, and exactly the unknown kinds become the "Gradle runtime" label |
| ReportModel.ToPrettyText | subprojects/configuration-cache-report/src/main/kotlin/Main.kt:164-171 | one fragment per input fragment: Text when text is present, else Reference when a name is present, else an "Unrecognised message fragment" text |
| ReportModel.ReferencesComeFromNames | subprojects/configuration-cache-report/src/main/kotlin/Main.kt:164-171 | a fragment is a reference iff the input had no text but a name |
| ReportModel.ErrorOrWarningNodeFor | subprojects/configuration-cache-report/src/main/kotlin/Main.kt:195-199 | an Error iff the problem carries an error, otherwise a Warning, with the same label and doc link |
| ReportModel.DocLinkFor | subprojects/configuration-cache-report/src/main/kotlin/Main.kt:219-220 | a link node iff the problem has a documentation link, pointing at that link with the caption " ?" |
| ReportModel.ExceptionNodeFor | subprojects/configuration-cache-report/src/main/kotlin/Main.kt:214-215 | an exception node iff the problem carries an error, holding that error |
| ReportModel.MessageNodeFor | subprojects/configuration-cache-report/src/main/kotlin/Main.kt:209-210 | a message node holding the problem's converted message |
| ReportModel.ExceptionOrMessageNodeFor | subprojects/configuration-cache-report/src/main/kotlin/Main.kt:203-205 | the exception node when the problem carries an error, otherwise the message node |
| ReportModel.MessagePath | subprojects/configuration-cache-report/src/main/kotlin/Main.kt:131-149 | the error or warning of the message with its doc link (a " ?" link to the documentation link when there is one, else none), then the trace, then the exception if any; length 1 + trace + (1 if error) |
| ReportModel.TaskPath | subprojects/configuration-cache-report/src/main/kotlin/Main.kt:152-161 | the trace reversed with only its first node wrapped in an error or warning without doc link, then the exception if any, else the message; length trace + 1 |
| ReportModel.GroupingsShareTrace | subprojects/configuration-cache-report/src/main/kotlin/Main.kt:131-161 | both groupings show the same trace: the by-task trace part, unwrapped and reversed, is the by-message trace part |
| ReportModel.Import | subprojects/configuration-cache-report/src/main/kotlin/Main.kt:108-114 | an imported problem keeps the problem, maps each trace element to its node and converts the message |
| ReportModel.PageModelFrom | subprojects/configuration-cache-report/src/main/kotlin/Main.kt:106-128 | the total is the number of problems; each problem contributes one by-message and one by-task path, in order; the cache action and doc link pass through |
| ReportModel.PathsAgreeOnSeverity | subprojects/configuration-cache-report/src/main/kotlin/Main.kt:131-161 | a problem's two paths are headed by an error iff it carries an error; a problem without trace groups by task as just its exception or message |
| ReportTree.StringLeTotal | subprojects/configuration-cache-report/src/main/kotlin/Main.kt:250 | the label-string order compares every two labels |
| ReportTree.StringLeTransitive | subprojects/configuration-cache-report/src/main/kotlin/Main.kt:250 | the label-string order is transitive |
| ReportTree.StringLeAntisymmetric | subprojects/configuration-cache-report/src/main/kotlin/Main.kt:250 | two strings ordered both ways are equal |
| ReportTree.SortByKey | subprojects/configuration-cache-report/src/main/kotlin/Main.kt:250 | the result is a permutation of the input ordered by the key's string |
| ReportTree.SortByKeyStable | subprojects/configuration-cache-report/src/main/kotlin/Main.kt:250 | the sort is stable: elements with equal keys keep their relative order |
| ReportTree.SubTreesFromTrie | subprojects/configuration-cache-report/src/main/kotlin/Main.kt:248-256 | one subtree per entry, labelled by the entries sorted by label string; a subtree is collapsed when its trie is empty and takes the given state otherwise |
| ReportTree.TreeFromTrie | subprojects/configuration-cache-report/src/main/kotlin/Main.kt:236-245 | the node keeps its label and is collapsed iff its trie is empty or the given state is collapsed; it has one child per entry, and a child is expanded iff the trie has size 1 and the child's own trie is not empty |
| ReportTree.TreeFromTrieChildren | subprojects/configuration-cache-report/src/main/kotlin/Main.kt:248-256 | the children's labels are the trie's entry labels, each as often as it occurs there, in label-string order |

## Left out

- Locks, conditions and thread plumbing are not modelled: `ReentrantLock`/`Condition` waits, `projectStateRegistry.blocking`, `ExecutorService.submit` and build-operation propagation in `BuildOpRunnable`. Each public operation is one atomic transition, and so are the worker's batch start and batch end. A wait that would block is the `Blocked` result.
- IncludedBuildController.PopulateTaskGraph: the source releases the lock after choosing the names (DefaultIncludedBuildController.java:86-103) and calls `addTasks` and `setState(ReadyToRun)` outside it (:104-105). The model merges the three into one transition. So it leaves out the interleavings in that gap: for example, a `queueForExecution("b")` that lands there leaves `b` QUEUED but never handed to the graph, the state then becomes ReadyToRun, and a later `graphPopulated` reports `b` missing.
- ControllerLifecycle.ReachableNotRunningHasNoExecuting: the batch failure is modelled as the `RuntimeException` that `doBuild` catches (DefaultIncludedBuildController.java:216-225). An `Error` or other non-runtime throwable from `execute` skips `tasksDone`, yet the `finally` of `run()` still sets ReadyToRun (:170-180). The batch's unreported tasks then stay EXECUTING outside RunningTasks. The model has no such event, and the lemma does not cover that case; `StepKeepsInv` and `RunKeepsInv` likewise hold only for runtime batch failures.
- `includedBuild.addTasks`/`execute`, `getTask` (a task-graph lookup) and logging are foreign collaborators. Names handed to `addTasks` are logged in the system's `graph`. The executor is an arbitrary sequence of completion events plus an optional batch failure.
- The `IllegalStateException` messages are reduced to the error's cause: `WrongState`, `QueuedWhileRunning` or `NeverScheduled`. Only the `graphPopulated` message is spelt out.
- The native `FileWatcher`, the `NativeException` "Already watching path" translation, `SnapshotWatchedDirectoryFinder`, `WatchableHierarchies`, `registerWatchableHierarchy`, `updateVfsOnBuildFinished` and snapshot-hierarchy invalidation are external. Their answers are inputs: `Hierarchies` supplies `shouldWatch`, `ignoredForWatching` and the directories to watch per snapshot. The native calls are returned as a list of `WatcherCall`s.
- Paths are strings; the `File`/`Path` conversions are identities here.
- WatchDelta.UpdateWatchedDirectories: the Java `int` counts and deltas are unbounded integers here; 32-bit overflow of a count is not modelled.
- The order in which `HashMap.forEach` enumerates the delta is left open: the method picks any remaining path. Its contract holds for every order.
- FileWatcherUpdater.VirtualFileSystemContentsChanged: a removed watched snapshot without a record is a `NullPointerException` in the source; this includes a second removed snapshot with the path of an earlier one, whose record the first removal already deleted. Here it is the `Aborted` result. Records already forgotten stay forgotten and nothing is applied.
- `main`, `mountComponentAt`, the JavaScript `external` interfaces and `stringify` are UI and interop. `stringify` is a function parameter.
- `Trie.from` and the elmish `Tree`/`TreeView` are not modelled; a trie is given by its `size` and its entries. PageModelFrom therefore stops at the per-problem paths; the two root labels and the tries built from the paths are not modelled.
- ReportTree.SortByKey: Kotlin compares `toString()` results by UTF-16 code units; here strings are compared by Dafny characters (Unicode scalar values). The two orders differ only for characters outside the Basic Multilingual Plane. The label's `toString` is the function parameter `key`.
