/**
 * The controller together with its worker thread and the included build's task
 * graph. The worker's `run()` is two atomic steps, batch start (`getQueuedTasks`,
 * and straight back to ReadyToRun when nothing was queued) and batch end
 * (`tasksDone` then `setState(ReadyToRun)`); between them the build's executor
 * reports task completions in any order. Any interleaving of caller operations
 * and executor events is a sequence of `Event`s.
 */
module ControllerLifecycle {
  import opened Wrappers
  import opened Seqs
  import opened IncludedBuildController

  /** Where the worker submitted by `startTaskExecution` is. */
  datatype Worker = Idle | Submitted | Running(batch: seq<string>)

  /**
   * The controller, its worker, and `graph`: every name handed to the build's
   * `addTasks`, in the order handed over.
   */
  datatype System = System(controller: Controller, worker: Worker, graph: seq<string>)

  datatype Event =
    | Queue(task: string)
    | Populate
    | Start
    | BeginBatch
    | Complete(task: string, failure: Option<Failure>)
    | EndBatch(failure: Option<Failure>)
    | Await

  function Init(): System
  {
    System(Initial(), Idle, [])
  }

  /** No entry is EXECUTING. */
  ghost predicate NoneExecuting(c: Controller)
  {
    forall n :: n in c.tasks ==> c.tasks[n] != Executing
  }

  /** The invariant every reachable system keeps. */
  ghost predicate Inv(s: System)
  {
    && WellFormed(s.controller)
    && Distinct(s.graph)
    && (forall n :: n in s.graph <==> n in s.controller.added)
    && (s.worker.Idle? <==> s.controller.state != RunningTasks)
    && (!s.worker.Running? ==> NoneExecuting(s.controller))
    && (s.worker.Running? ==>
          && (forall n :: n in s.worker.batch ==> n in s.controller.tasks)
          && (forall n :: n in s.worker.batch ==> s.controller.tasks[n] != Queued)
          && (forall n :: n in s.controller.tasks && s.controller.tasks[n] == Executing ==> n in s.worker.batch))
  }

  /**
   * One event, with the rules callers rely on: how a batch begins and ends, and
   * from where a worker is submitted or running.
   */
  function Step(s: System, e: Event): (r: System)
    requires WellFormed(s.controller)
    // a batch with nothing queued ends at once, in ReadyToRun
    ensures e.BeginBatch? && s.worker.Submitted? && (forall n :: !IsQueued(s.controller, n)) ==>
      r.worker.Idle? && r.controller.state == ReadyToRun
    // otherwise the batch is exactly the queued tasks
    ensures e.BeginBatch? && s.worker.Submitted? && (exists n :: IsQueued(s.controller, n)) ==>
      r.worker.Running? && forall n :: n in r.worker.batch <==> IsQueued(s.controller, n)
    // the end of a batch always returns to ReadyToRun, whatever the batch reported
    ensures e.EndBatch? && s.worker.Running? && (forall n :: n in s.worker.batch ==> n in s.controller.tasks) ==>
      r.worker.Idle? && r.controller.state == ReadyToRun
    // a worker is only submitted from ReadyToRun, and a batch only starts from a submitted worker
    ensures r.worker.Submitted? ==> s.worker.Submitted? || (e.Start? && s.controller.state == ReadyToRun)
    ensures r.worker.Running? ==> s.worker.Running? || (e.BeginBatch? && s.worker.Submitted?)
  {
    var b := GetQueuedTasks(s.controller);
    assert e.BeginBatch? && s.worker.Submitted? && |b.snapshot| > 0 ==> IsQueued(s.controller, b.snapshot[0]);
    Transition(s, e)
  }

  /**
   * The effect of one event. A call the controller rejects raises to its caller
   * and leaves the system as it was; so does an event that cannot occur in the
   * current phase (a worker step with no worker, an `awaitTaskCompletion` that
   * would still be waiting, an executor callback outside a batch).
   */
  function Transition(s: System, e: Event): System
    requires WellFormed(s.controller)
  {
    var c := s.controller;
    match e
    case Queue(task) =>
      (match QueueForExecution(c, task)
       case Ok(c') => s.(controller := c')
       case Err(_) => s)
    case Populate =>
      (match PopulateTaskGraph(c)
       case Ok(p) => s.(controller := p.controller, graph := s.graph + p.submitted)
       case Err(_) => s)
    case Start =>
      (match StartTaskExecution(c)
       case Ok(c') => s.(controller := c', worker := Submitted)
       case Err(_) => s)
    case BeginBatch =>
      if !s.worker.Submitted? then s
      else
        var b := GetQueuedTasks(c);
        if |b.snapshot| == 0 then s.(controller := SetState(b.controller, ReadyToRun), worker := Idle)
        else s.(controller := b.controller, worker := Running(b.snapshot))
    case Complete(task, failure) =>
      if !s.worker.Running? then s
      else s.(controller := TaskCompleted(c, task, failure))
    case EndBatch(failure) =>
      if !s.worker.Running? || exists n :: n in s.worker.batch && n !in c.tasks then s
      else s.(controller := SetState(TasksDone(c, s.worker.batch, failure), ReadyToRun), worker := Idle)
    case Await =>
      (match AwaitTaskCompletion(c)
       case Resumed(d) => s.(controller := d.controller)
       case Blocked => s)
  }

  /** Every event keeps the invariant. */
  lemma {:induction false} StepKeepsInv(s: System, e: Event)
    requires Inv(s)
    ensures Inv(Step(s, e))
  {
    var c := s.controller;
    match e
    case Queue(task) =>
    case Populate =>
      var r := PopulateTaskGraph(c);
      if r.Ok? && c.state == QueueingTasks {
        var p := r.value;
        forall i, j | 0 <= i < j < |s.graph + p.submitted|
          ensures (s.graph + p.submitted)[i] != (s.graph + p.submitted)[j]
        {
          if j >= |s.graph| && i < |s.graph| {
            assert (s.graph + p.submitted)[j] in p.submitted;
          }
        }
      }
    case Start =>
    case BeginBatch =>
    case Complete(task, failure) =>
    case EndBatch(failure) =>
    case Await =>
  }

  /** The system after a sequence of events. */
  function Run(s: System, events: seq<Event>): System
    requires Inv(s)
    decreases |events|
  {
    if |events| == 0 then s
    else
      StepKeepsInv(s, events[0]);
      Run(Step(s, events[0]), events[1..])
  }

  /** Every reachable system keeps the invariant. */
  lemma {:induction false} RunKeepsInv(s: System, events: seq<Event>)
    requires Inv(s)
    ensures Inv(Run(s, events))
    decreases |events|
  {
    if |events| > 0 {
      StepKeepsInv(s, events[0]);
      RunKeepsInv(Step(s, events[0]), events[1..]);
    }
  }

  /** The initial system satisfies the invariant. */
  lemma InitInv()
    ensures Inv(Init())
  {
  }

  /**
   * Outside RunningTasks no task is EXECUTING, whatever interleaving of calls
   * and executor events led there: every batch ends in ReadyToRun with its
   * unreported tasks forced to FAILED.
   */
  lemma ReachableNotRunningHasNoExecuting(events: seq<Event>)
    ensures var s := Run(Init(), events);
      s.controller.state != RunningTasks ==> forall n :: n in s.controller.tasks ==> s.controller.tasks[n] != Executing
  {
    InitInv();
    RunKeepsInv(Init(), events);
  }

  /** A name is handed to the build's task graph at most once over the controller's lifetime. */
  lemma ReachableGraphHasNoDuplicates(events: seq<Event>)
    ensures var s := Run(Init(), events);
      && Distinct(s.graph)
      && (forall n :: n in s.graph <==> n in s.controller.added)
  {
    InitInv();
    RunKeepsInv(Init(), events);
  }

  /**
   * The ever-submitted set only grows and the graph is only ever extended at its
   * end; a step that changes the controller's state wakes the local waiters.
   */
  lemma StepMonotone(s: System, e: Event)
    requires Inv(s)
    ensures s.controller.added <= Step(s, e).controller.added
    ensures s.graph <= Step(s, e).graph
    ensures Step(s, e).controller.signals >= s.controller.signals
    ensures Step(s, e).controller.broadcasts >= s.controller.broadcasts
    ensures Step(s, e).controller.state != s.controller.state ==> Step(s, e).controller.signals > s.controller.signals
  {
  }

  /**
   * Whatever phase the worker is in, letting it start and end its batch brings
   * the controller back to ReadyToRun with no worker; with no worker the two
   * events change nothing.
   */
  lemma {:induction false} WorkerReturnsToReadyToRun(s: System, f: Option<Failure>)
    requires Inv(s)
    ensures var t := Run(s, [BeginBatch, EndBatch(f)]);
      && t.worker.Idle?
      && (s.worker.Idle? ==> t == s)
      && (!s.worker.Idle? ==> t.controller.state == ReadyToRun)
  {
    StepKeepsInv(s, BeginBatch);
    var s1 := Step(s, BeginBatch);
    StepKeepsInv(s1, EndBatch(f));
    assert [BeginBatch, EndBatch(f)][1..] == [EndBatch(f)];
    assert [EndBatch(f)][1..] == [];
    assert Run(s, [BeginBatch, EndBatch(f)]) == Run(s1, [EndBatch(f)]);
    assert Run(s1, [EndBatch(f)]) == Run(Step(s1, EndBatch(f)), []);
  }

  /** Once the worker has returned, the last batch's unreported tasks show as failed. */
  lemma EndBatchForcesFailure(s: System, f: Option<Failure>, n: string)
    requires Inv(s) && s.worker.Running? && n in s.worker.batch
    requires s.controller.tasks[n] == Executing
    ensures var s' := Step(s, EndBatch(f));
      && s'.worker.Idle? && s'.controller.state == ReadyToRun
      && s'.controller.tasks[n] == Failed
      && GetTaskState(s'.controller, n) == Ok(TaskFailed)
      && s'.controller.broadcasts == s.controller.broadcasts + 1
  {
    assert SomeNotCompleted(s.controller, s.worker.batch);
  }

  /**
   * When the worker returns, every task of its batch reads SUCCESS or FAILED:
   * one that reported keeps its outcome, one that did not is forced to FAILED.
   */
  lemma BatchTasksEndDone(s: System, f: Option<Failure>, n: string)
    requires Inv(s) && s.worker.Running? && n in s.worker.batch
    ensures var s' := Step(s, EndBatch(f));
      && s'.worker.Idle? && s'.controller.state == ReadyToRun
      && (s'.controller.tasks[n] == Succeeded || s'.controller.tasks[n] == Failed)
      && (s.controller.tasks[n] != Executing ==> s'.controller.tasks[n] == s.controller.tasks[n])
      && (GetTaskState(s'.controller, n) == Ok(TaskSucceeded) || GetTaskState(s'.controller, n) == Ok(TaskFailed))
  {
  }

  /** Running one more event is one more step. */
  lemma {:induction false} RunSnoc(s: System, events: seq<Event>, e: Event)
    requires Inv(s)
    ensures Inv(Run(s, events)) && Run(s, events + [e]) == Step(Run(s, events), e)
    decreases |events|
  {
    RunKeepsInv(s, events);
    if |events| > 0 {
      StepKeepsInv(s, events[0]);
      assert (events + [e])[1..] == events[1..] + [e];
      RunSnoc(Step(s, events[0]), events[1..], e);
    } else {
      assert [e][1..] == [];
    }
  }

  /**
   * In every reachable system with a batch running, ending the batch leaves each
   * of its tasks SUCCESS or FAILED.
   */
  lemma ReachableBatchEndsDone(events: seq<Event>, f: Option<Failure>)
    ensures var s := Run(Init(), events);
      var t := Run(Init(), events + [EndBatch(f)]);
      s.worker.Running? ==>
        && t.controller.state == ReadyToRun
        && forall n :: n in s.worker.batch ==>
             n in t.controller.tasks && (t.controller.tasks[n] == Succeeded || t.controller.tasks[n] == Failed)
  {
    InitInv();
    RunSnoc(Init(), events, EndBatch(f));
    var s := Run(Init(), events);
    if s.worker.Running? {
      forall n | n in s.worker.batch
        ensures n in Step(s, EndBatch(f)).controller.tasks
        ensures Step(s, EndBatch(f)).controller.tasks[n] == Succeeded || Step(s, EndBatch(f)).controller.tasks[n] == Failed
      {
        BatchTasksEndDone(s, f, n);
      }
    }
  }

  /** The events of a build where `a` succeeds and `b` fails with `failure`. */
  function ScenarioEvents(failure: Failure): seq<Event>
  {
    [Queue("a"), Queue("b"), Populate, Start, BeginBatch,
     Complete("a", None), Complete("b", Some(failure)),
     EndBatch(Some(MultipleBuildFailures([failure])))]
  }

  /** The system after the first `k` events of the scenario, written out; it stays put after the eighth. */
  function ScenarioState(k: nat, failure: Failure): System
  {
    var q := map["a" := Queued, "b" := Queued];
    var x := map["a" := Executing, "b" := Executing];
    var done := map["a" := Succeeded, "b" := Failed];
    if k == 0 then Init()
    else if k == 1 then System(Controller(QueueingTasks, ["a"], map["a" := Queued], {}, [], 0, 1), Idle, [])
    else if k == 2 then System(Controller(QueueingTasks, ["a", "b"], q, {}, [], 0, 2), Idle, [])
    else if k == 3 then System(Controller(ReadyToRun, ["a", "b"], q, {"a", "b"}, [], 0, 3), Idle, ["a", "b"])
    else if k == 4 then System(Controller(RunningTasks, ["a", "b"], q, {"a", "b"}, [], 0, 4), Submitted, ["a", "b"])
    else if k == 5 then System(Controller(RunningTasks, ["a", "b"], x, {"a", "b"}, [], 0, 4), Running(["a", "b"]), ["a", "b"])
    else if k == 6 then System(Controller(RunningTasks, ["a", "b"], x["a" := Succeeded], {"a", "b"}, [], 1, 4), Running(["a", "b"]), ["a", "b"])
    else if k == 7 then System(Controller(RunningTasks, ["a", "b"], done, {"a", "b"}, [], 2, 4), Running(["a", "b"]), ["a", "b"])
    else System(Controller(ReadyToRun, ["a", "b"], done, {"a", "b"}, [failure], 2, 5), Idle, ["a", "b"])
  }

  lemma ScenarioFilter(p: string -> bool)
    requires p("a") && p("b")
    ensures Filter(["a", "b"], p) == ["a", "b"]
  {
    assert ["a", "b"][1..] == ["b"];
    assert ["b"][1..] == [];
  }

  lemma ScenarioQueue(k: nat, failure: Failure)
    requires k < 2
    ensures WellFormed(ScenarioState(k, failure).controller)
    ensures Transition(ScenarioState(k, failure), ScenarioEvents(failure)[k]) == ScenarioState(k + 1, failure)
  {
  }

  lemma ScenarioPopulate(failure: Failure)
    ensures WellFormed(ScenarioState(2, failure).controller)
    ensures Transition(ScenarioState(2, failure), Populate) == ScenarioState(3, failure)
  {
    ScenarioPopulateGraph(failure);
  }

  /** The populate call of the scenario hands both queued tasks to the graph, in order. */
  lemma ScenarioPopulateGraph(failure: Failure)
    ensures WellFormed(ScenarioState(2, failure).controller)
    ensures PopulateTaskGraph(ScenarioState(2, failure).controller)
      == Ok(Populated(ScenarioState(3, failure).controller, true, ["a", "b"]))
  {
    var c := ScenarioState(2, failure).controller;
    ScenarioFilter(n => IsQueued(c, n) && n !in c.added);
    assert Elements(["a", "b"]) == {"a", "b"};
    var r := PopulateTaskGraph(c);
    assert r.value.submitted == ["a", "b"];
    assert r.value.controller.added == {"a", "b"};
    assert r.value.controller == ScenarioState(3, failure).controller;
  }

  lemma ScenarioStart(failure: Failure)
    ensures WellFormed(ScenarioState(3, failure).controller)
    ensures Transition(ScenarioState(3, failure), Start) == ScenarioState(4, failure)
  {
  }

  lemma ScenarioBeginBatch(failure: Failure)
    ensures WellFormed(ScenarioState(4, failure).controller)
    ensures Transition(ScenarioState(4, failure), BeginBatch) == ScenarioState(5, failure)
  {
    ScenarioBatch(failure);
  }

  /** The batch the worker of the scenario takes: both tasks, now executing. */
  lemma ScenarioBatch(failure: Failure)
    ensures WellFormed(ScenarioState(4, failure).controller)
    ensures GetQueuedTasks(ScenarioState(4, failure).controller) == Batch(ScenarioState(5, failure).controller, ["a", "b"])
  {
    var c := ScenarioState(4, failure).controller;
    ScenarioFilter(n => IsQueued(c, n));
    assert GetQueuedTasks(c).controller.tasks == map["a" := Executing, "b" := Executing];
  }

  lemma ScenarioCompleteA(failure: Failure)
    ensures WellFormed(ScenarioState(5, failure).controller)
    ensures Transition(ScenarioState(5, failure), Complete("a", None)) == ScenarioState(6, failure)
  {
  }

  lemma ScenarioCompleteB(failure: Failure)
    ensures WellFormed(ScenarioState(6, failure).controller)
    ensures Transition(ScenarioState(6, failure), Complete("b", Some(failure))) == ScenarioState(7, failure)
  {
    var c := ScenarioState(6, failure).controller;
    assert c.tasks["b" := Failed] == map["a" := Succeeded, "b" := Failed];
  }

  lemma ScenarioEndBatch(failure: Failure)
    ensures WellFormed(ScenarioState(7, failure).controller)
    ensures Transition(ScenarioState(7, failure), ScenarioEvents(failure)[7]) == ScenarioState(8, failure)
  {
    var c := ScenarioState(7, failure).controller;
    assert !SomeNotCompleted(c, ["a", "b"]);
    assert TasksDone(c, ["a", "b"], Some(MultipleBuildFailures([failure]))).tasks == c.tasks;
  }

  lemma ScenarioStep(k: nat, failure: Failure)
    requires k < 8
    ensures WellFormed(ScenarioState(k, failure).controller)
    ensures Transition(ScenarioState(k, failure), ScenarioEvents(failure)[k]) == ScenarioState(k + 1, failure)
  {
    if k < 4 { ScenarioStepSetUp(k, failure); } else { ScenarioStepBatch(k, failure); }
  }

  lemma ScenarioStepSetUp(k: nat, failure: Failure)
    requires k < 4
    ensures WellFormed(ScenarioState(k, failure).controller)
    ensures Transition(ScenarioState(k, failure), ScenarioEvents(failure)[k]) == ScenarioState(k + 1, failure)
  {
    if k < 2 { ScenarioQueue(k, failure); } else { ScenarioStepGraph(k, failure); }
  }

  /** Steps 2 and 3: the graph is populated, then the worker is started. */
  lemma ScenarioStepGraph(k: nat, failure: Failure)
    requires 2 <= k < 4
    ensures WellFormed(ScenarioState(k, failure).controller)
    ensures Transition(ScenarioState(k, failure), ScenarioEvents(failure)[k]) == ScenarioState(k + 1, failure)
  {
    if k == 2 { ScenarioPopulate(failure); } else { ScenarioStart(failure); }
  }

  lemma ScenarioStepBatch(k: nat, failure: Failure)
    requires 4 <= k < 8
    ensures WellFormed(ScenarioState(k, failure).controller)
    ensures Transition(ScenarioState(k, failure), ScenarioEvents(failure)[k]) == ScenarioState(k + 1, failure)
  {
    if k < 6 { ScenarioStepOpen(k, failure); } else { ScenarioStepClose(k, failure); }
  }

  /** Steps 4 and 5: the batch begins and task "a" completes. */
  lemma ScenarioStepOpen(k: nat, failure: Failure)
    requires 4 <= k < 6
    ensures WellFormed(ScenarioState(k, failure).controller)
    ensures Transition(ScenarioState(k, failure), ScenarioEvents(failure)[k]) == ScenarioState(k + 1, failure)
  {
    if k == 4 { ScenarioBeginBatch(failure); } else { ScenarioCompleteA(failure); }
  }

  /** Steps 6 and 7: task "b" completes and the batch ends. */
  lemma ScenarioStepClose(k: nat, failure: Failure)
    requires 6 <= k < 8
    ensures WellFormed(ScenarioState(k, failure).controller)
    ensures Transition(ScenarioState(k, failure), ScenarioEvents(failure)[k]) == ScenarioState(k + 1, failure)
  {
    if k == 6 { ScenarioCompleteB(failure); } else { ScenarioEndBatch(failure); }
  }

  lemma {:induction false} ScenarioInv(k: nat, failure: Failure)
    requires k <= 8
    ensures Inv(ScenarioState(k, failure))
  {
    if k == 0 {
      InitInv();
    } else {
      ScenarioInv(k - 1, failure);
      ScenarioStep(k - 1, failure);
      StepKeepsInv(ScenarioState(k - 1, failure), ScenarioEvents(failure)[k - 1]);
    }
  }

  lemma {:induction false} ScenarioRun(k: nat, failure: Failure)
    requires k <= 8
    ensures Inv(ScenarioState(k, failure))
    ensures Run(ScenarioState(k, failure), ScenarioEvents(failure)[k..]) == ScenarioState(8, failure)
    decreases 8 - k
  {
    ScenarioInv(k, failure);
    if k < 8 {
      ScenarioStep(k, failure);
      ScenarioRun(k + 1, failure);
      assert ScenarioEvents(failure)[k..][1..] == ScenarioEvents(failure)[k + 1..];
    }
  }

  /**
   * Queue `a` and `b`, populate, start; `a` succeeds and `b` fails with E while
   * the executor reports the batch as an aggregate of E: the graph received each
   * name once, the drain yields exactly [E], and the states read SUCCESS and FAILED.
   */
  lemma TwoTaskScenario(failure: Failure)
    ensures var s := Run(Init(), ScenarioEvents(failure));
      && s.graph == ["a", "b"]
      && s.controller.state == ReadyToRun
      && AwaitTaskCompletion(s.controller) == Resumed(Drained(s.controller.(failures := []), [failure]))
      && GetTaskState(s.controller, "a") == Ok(TaskSucceeded)
      && GetTaskState(s.controller, "b") == Ok(TaskFailed)
      && GetTaskState(s.controller, "c") == Err(NeverScheduled("c"))
  {
    InitInv();
    ScenarioRun(0, failure);
    assert ScenarioEvents(failure)[0..] == ScenarioEvents(failure);
  }

  /** With nothing ever queued, populating does nothing and the drain is immediate and empty. */
  lemma NothingQueuedScenario()
    ensures PopulateTaskGraph(Init().controller) == Ok(Populated(Init().controller, false, []))
    ensures AwaitTaskCompletion(Init().controller) == Resumed(Drained(Init().controller, []))
    ensures Stop(Init().controller) == Resumed(Stopped(Init().controller, None))
  {
  }
}
