/**
 * The per-build task controller of a composite build. Every public operation of
 * the controller except `populateTaskGraph` runs as one critical section under
 * the controller's lock; each operation, `populateTaskGraph` included, is
 * modelled as one pure transition on an immutable record. Usage errors are
 * `Err` results: the caller keeps the record it passed in, exactly as the source
 * raises before it mutates anything.
 */
module IncludedBuildController {
  import opened Wrappers
  import opened Seqs

  /** The controller's state; it cycles and never terminates. */
  datatype BuildState = QueueingTasks | ReadyToRun | RunningTasks

  /** Internal per-task status. */
  datatype TaskStatus = Queued | Executing | Failed | Succeeded

  /** The state callers observe: QUEUED and EXECUTING are both reported as waiting. */
  datatype ReportedState = Waiting | TaskFailed | TaskSucceeded

  /** A throwable; an aggregate failure carries its causes in order. */
  datatype Failure = BuildFailure(message: string) | MultipleBuildFailures(causes: seq<Failure>)

  /** Programmer errors raised synchronously to the caller (`IllegalStateException`). */
  datatype UsageError =
    | WrongState(expected: BuildState, actual: BuildState)
    | QueuedWhileRunning
    | NeverScheduled(task: string)

  /**
   * The guarded fields of the controller. `order` is the insertion order of the
   * `LinkedHashMap` whose entries are `tasks`; `added` is the set of names ever
   * handed to the build's task graph; `failures` is the pending failure list.
   * `broadcasts` counts calls of the shared coordination service's
   * `notifyStateChange`, `signals` counts `signalAll` on the local condition.
   */
  datatype Controller = Controller(
    state: BuildState,
    order: seq<string>,
    tasks: map<string, TaskStatus>,
    added: set<string>,
    failures: seq<Failure>,
    broadcasts: nat,
    signals: nat)

  /** The task table's insertion order lists exactly its keys, each once. */
  ghost predicate WellFormed(c: Controller)
  {
    && Distinct(c.order)
    && (forall n :: n in c.tasks <==> n in c.order)
  }

  /** A freshly constructed controller. */
  function Initial(): (c: Controller)
    ensures WellFormed(c) && c.state == ReadyToRun && c.tasks == map[] && c.failures == []
  {
    Controller(ReadyToRun, [], map[], {}, [], 0, 0)
  }

  /** `setState`: every state change wakes the local waiters. */
  function SetState(c: Controller, s: BuildState): (r: Controller)
    ensures r.state == s && r.signals == c.signals + 1
    ensures r == c.(state := s, signals := r.signals)
  {
    c.(state := s, signals := c.signals + 1)
  }

  /** `queueForExecution`: records the task as QUEUED unless it already has an entry. */
  function QueueForExecution(c: Controller, task: string): (r: Result<Controller, UsageError>)
    ensures r.Err? <==> c.state == RunningTasks
    ensures r.Err? ==> r.error == QueuedWhileRunning
    ensures r.Ok? ==> var c' := r.value;
      && c'.state == QueueingTasks
      && c'.signals == c.signals + 1
      && task in c'.tasks
      && (task in c.tasks ==> c'.tasks == c.tasks && c'.order == c.order)
      && (task !in c.tasks ==> c'.tasks[task] == Queued && c'.order == c.order + [task])
      && (forall n :: n in c.tasks ==> n in c'.tasks && c'.tasks[n] == c.tasks[n])
      && (forall n :: n in c'.tasks ==> n in c.tasks || n == task)
      && c'.added == c.added && c'.failures == c.failures && c'.broadcasts == c.broadcasts
    ensures r.Ok? && WellFormed(c) ==> WellFormed(r.value)
  {
    if c.state == RunningTasks then Err(QueuedWhileRunning)
    else
      var c1 := if task in c.tasks then c else c.(order := c.order + [task], tasks := c.tasks[task := Queued]);
      Ok(SetState(c1, QueueingTasks))
  }

  /** True when `n` is QUEUED in the table. */
  predicate IsQueued(c: Controller, n: string)
  {
    n in c.tasks && c.tasks[n] == Queued
  }

  /** What `populateTaskGraph` returns, with the names it handed to `addTasks`. */
  datatype Populated = Populated(controller: Controller, changed: bool, submitted: seq<string>)

  /**
   * `populateTaskGraph`: in QueueingTasks hands every QUEUED name that was never
   * handed over before to the build's task graph, in insertion order.
   */
  function PopulateTaskGraph(c: Controller): (r: Result<Populated, UsageError>)
    requires WellFormed(c)
    ensures c.state == ReadyToRun ==> r == Ok(Populated(c, false, []))
    ensures c.state == RunningTasks ==> r == Err(WrongState(QueueingTasks, RunningTasks))
    ensures c.state == QueueingTasks ==> r.Ok? && var p := r.value;
      && p.changed
      && p.controller.state == ReadyToRun
      && p.controller.signals == c.signals + 1
      && (forall n :: n in p.submitted <==> IsQueued(c, n) && n !in c.added)
      && IsSubsequence(p.submitted, c.order)
      && Distinct(p.submitted)
      && (forall n :: n in p.controller.added <==> n in c.added || n in p.submitted)
      && p.controller.tasks == c.tasks && p.controller.order == c.order
      && p.controller.failures == c.failures && p.controller.broadcasts == c.broadcasts
      && WellFormed(p.controller)
  {
    if c.state == ReadyToRun then Ok(Populated(c, false, []))
    else if c.state != QueueingTasks then Err(WrongState(QueueingTasks, c.state))
    else
      var newNames := Filter(c.order, n => IsQueued(c, n) && n !in c.added);
      Ok(Populated(SetState(c.(added := c.added + Elements(newNames)), ReadyToRun), true, newNames))
  }

  /** `startTaskExecution`: accepted only in ReadyToRun; the worker is submitted afterwards. */
  function StartTaskExecution(c: Controller): (r: Result<Controller, UsageError>)
    ensures r.Err? <==> c.state != ReadyToRun
    ensures r.Err? ==> r.error == WrongState(ReadyToRun, c.state)
    ensures r.Ok? ==> r.value.state == RunningTasks && r.value.signals == c.signals + 1
    ensures r.Ok? ==> r.value.tasks == c.tasks && r.value.order == c.order && r.value.added == c.added
    ensures r.Ok? ==> r.value.failures == c.failures && r.value.broadcasts == c.broadcasts
  {
    if c.state != ReadyToRun then Err(WrongState(ReadyToRun, c.state))
    else Ok(SetState(c, RunningTasks))
  }

  /** The batch snapshot taken by `getQueuedTasks`, with the updated controller. */
  datatype Batch = Batch(controller: Controller, snapshot: seq<string>)

  /** `getQueuedTasks`: snapshots the QUEUED names in insertion order and marks them EXECUTING. */
  function GetQueuedTasks(c: Controller): (r: Batch)
    requires WellFormed(c)
    ensures forall n :: n in r.snapshot <==> IsQueued(c, n)
    ensures IsSubsequence(r.snapshot, c.order) && Distinct(r.snapshot)
    ensures r.controller.tasks.Keys == c.tasks.Keys
    ensures forall n :: n in c.tasks ==>
      r.controller.tasks[n] == (if n in r.snapshot then Executing else c.tasks[n])
    ensures r.controller == c.(tasks := r.controller.tasks)
    ensures WellFormed(r.controller)
  {
    var snapshot := Filter(c.order, n => IsQueued(c, n));
    var tasks := map n | n in c.tasks :: if c.tasks[n] == Queued then Executing else c.tasks[n];
    Batch(c.(tasks := tasks), snapshot)
  }

  /**
   * `taskCompleted`: the executor's per-task callback. Creates the entry when
   * absent, records the outcome and always notifies the coordination service.
   */
  function TaskCompleted(c: Controller, task: string, failure: Option<Failure>): (r: Controller)
    ensures task in r.tasks
    ensures r.tasks[task] == (if failure.None? then Succeeded else Failed)
    ensures forall n :: n in c.tasks && n != task ==> n in r.tasks && r.tasks[n] == c.tasks[n]
    ensures forall n :: n in r.tasks ==> n in c.tasks || n == task
    ensures r.order == (if task in c.tasks then c.order else c.order + [task])
    ensures r.broadcasts == c.broadcasts + 1
    ensures r.failures == c.failures && r.state == c.state && r.added == c.added && r.signals == c.signals
    ensures WellFormed(c) ==> WellFormed(r)
  {
    var order := if task in c.tasks then c.order else c.order + [task];
    c.(order := order,
       tasks := c.tasks[task := if failure.None? then Succeeded else Failed],
       broadcasts := c.broadcasts + 1)
  }

  /** The failures a batch-level error contributes: the causes of an aggregate, else itself. */
  function Unwrap(failure: Option<Failure>): (r: seq<Failure>)
    ensures failure.None? ==> r == []
    ensures failure.Some? && failure.value.MultipleBuildFailures? ==> r == failure.value.causes
    ensures failure.Some? && !failure.value.MultipleBuildFailures? ==> r == [failure.value]
  {
    match failure
    case None => []
    case Some(MultipleBuildFailures(causes)) => causes
    case Some(f) => [f]
  }

  /** True when some executed task never reported and is still EXECUTING. */
  predicate SomeNotCompleted(c: Controller, executed: seq<string>)
  {
    exists n :: n in executed && n in c.tasks && c.tasks[n] == Executing
  }

  /**
   * `tasksDone`: forces every executed task still EXECUTING to FAILED and
   * appends the batch-level failure. The executed names all have entries, since
   * they come from the snapshot.
   */
  function TasksDone(c: Controller, executed: seq<string>, failure: Option<Failure>): (r: Controller)
    requires forall n :: n in executed ==> n in c.tasks
    ensures r.tasks.Keys == c.tasks.Keys
    ensures forall n :: n in executed ==> r.tasks[n] != Executing
    ensures forall n :: n in executed && c.tasks[n] == Executing ==> r.tasks[n] == Failed
    ensures forall n :: n in c.tasks && (n !in executed || c.tasks[n] != Executing) ==> r.tasks[n] == c.tasks[n]
    ensures r.broadcasts == c.broadcasts + (if SomeNotCompleted(c, executed) then 1 else 0)
    ensures r.failures == c.failures + Unwrap(failure)
    ensures r.order == c.order && r.state == c.state && r.added == c.added && r.signals == c.signals
  {
    var tasks := map n | n in c.tasks :: if n in executed && c.tasks[n] == Executing then Failed else c.tasks[n];
    c.(tasks := tasks,
       failures := c.failures + Unwrap(failure),
       broadcasts := c.broadcasts + (if SomeNotCompleted(c, executed) then 1 else 0))
  }

  /** `getTaskState`: the externally visible state of a task this controller knows. */
  function GetTaskState(c: Controller, task: string): (r: Result<ReportedState, UsageError>)
    ensures r.Err? <==> task !in c.tasks
    ensures r.Err? ==> r.error == NeverScheduled(task)
    ensures r.Ok? ==> (r.value == Waiting <==> c.tasks[task] in {Queued, Executing})
    ensures r.Ok? ==> (r.value == TaskFailed <==> c.tasks[task] == Failed)
    ensures r.Ok? ==> (r.value == TaskSucceeded <==> c.tasks[task] == Succeeded)
  {
    if task !in c.tasks then Err(NeverScheduled(task))
    else match c.tasks[task]
      case Failed => Ok(TaskFailed)
      case Succeeded => Ok(TaskSucceeded)
      case _ => Ok(Waiting)
  }

  /** The controller after a drain, and the failures handed to the caller's sink. */
  datatype Drained = Drained(controller: Controller, failures: seq<Failure>)

  /** `awaitTaskCompletion`: waits while tasks run, then drains the failure list in order. */
  function AwaitTaskCompletion(c: Controller): (r: Wait<Drained>)
    ensures r.Blocked? <==> c.state == RunningTasks
    ensures r.Resumed? ==> r.value.failures == c.failures
    ensures r.Resumed? ==> r.value.controller == c.(failures := [])
  {
    if c.state == RunningTasks then Blocked
    else Resumed(Drained(c.(failures := []), c.failures))
  }

  /** The controller after `stop`, and the aggregate it raises, if any. */
  datatype Stopped = Stopped(controller: Controller, raised: Option<Failure>)

  /** `stop`: drains like `awaitTaskCompletion`, then raises iff anything was drained. */
  function Stop(c: Controller): (r: Wait<Stopped>)
    ensures r.Blocked? <==> c.state == RunningTasks
    ensures r.Resumed? ==> r.value.controller == c.(failures := [])
    ensures r.Resumed? ==> (r.value.raised.Some? <==> |c.failures| > 0)
    ensures r.Resumed? && r.value.raised.Some? ==> r.value.raised.value == MultipleBuildFailures(c.failures)
  {
    match AwaitTaskCompletion(c)
    case Blocked => Blocked
    case Resumed(Drained(c', drained)) =>
      Resumed(Stopped(c', if |drained| == 0 then None else Some(MultipleBuildFailures(drained))))
  }

  /** The message of the failure `graphPopulated` raises for a task missing from the graph. */
  function NotFoundMessage(task: string, buildName: string): string
  {
    "Task '" + task + "' not found in build '" + buildName + "'."
  }

  /** `requested[i]` is the first requested task absent from the graph. */
  ghost predicate FirstMissing(requested: seq<string>, graph: set<string>, i: int)
  {
    && 0 <= i < |requested|
    && requested[i] !in graph
    && (forall j :: 0 <= j < i ==> requested[j] in graph)
  }

  /**
   * `graphPopulated`: the executor's graph must hold every requested task; the
   * first missing one, in request order, is reported.
   */
  function GraphPopulated(requested: seq<string>, graph: set<string>, buildName: string): (r: Outcome<Failure>)
    ensures r.Pass? <==> forall t :: t in requested ==> t in graph
    ensures r.Fail? ==>
      exists i :: FirstMissing(requested, graph, i) && r.error == BuildFailure(NotFoundMessage(requested[i], buildName))
  {
    if |requested| == 0 then Pass
    else if requested[0] !in graph then Fail(BuildFailure(NotFoundMessage(requested[0], buildName)))
    else
      var rest := GraphPopulated(requested[1..], graph, buildName);
      assert forall t :: t in requested ==> t == requested[0] || t in requested[1..];
      assert forall i :: FirstMissing(requested[1..], graph, i) ==> FirstMissing(requested, graph, i + 1);
      rest
  }
}
