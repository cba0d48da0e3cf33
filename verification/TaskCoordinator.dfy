/** The coordinator of services/runtime/src/runtime-task-coordinator.ts: every change of a task is made in memory
    and then appended to the checkpoint store. */
module TaskCoordinators {
  import opened Wrappers
  import opened Orchestration
  import opened TaskModel
  import opened TaskManagers
  import opened TaskCheckpoints
  import opened TaskPipelines

  datatype CoordinatorError =
    | NotConfirmed | NotPaused | NotWaiting | NeedsClarification
    | InMemory(error: TaskError) | InStore(cause: StoreError)

  type Outcome = Result<TaskRecord, CoordinatorError>

  /** The world of one call: how the tool of each step behaves, and for each checkpoint of the call whether it
      can be stored and when it is made. */
  datatype Env = Env(behaviours: nat -> Behaviour, storageOk: nat -> bool, clock: nat -> int)

  ghost predicate StorageIsUp(env: Env) {
    forall k: nat :: env.storageOk(k)
  }

  /** Task map and log of appends together. */
  datatype World = World(tasks: Tasks, log: seq<Append>)

  /** A task of the map is filed under its own identifier, and nothing is ever appended as superseded. */
  ghost predicate Sound(w: World) {
    && (forall t :: t in w.tasks ==> w.tasks[t].taskId == t)
    && (forall k :: 0 <= k < |w.log| ==> w.log[k].status != Superseded)
  }

  /** One operation and its checkpoint. A rejected operation changes nothing; a failing checkpoint leaves the
      memory ahead of the store. */
  ghost predicate Committed(before: World, after: World, maxRetries: int, op: TaskModel.Op, status: CheckpointStatus,
                            storageOk: bool, now: int, r: Outcome) {
    var answer := TaskModel.Answer(before.tasks, maxRetries, op, now);
    && after.tasks == Apply(before.tasks, maxRetries, op, now)
    && after.log == (if answer.Ok? && storageOk then before.log + [Append(answer.value, status)] else before.log)
    && r == match answer
            case Err(e) => Err(InMemory(e))
            case Ok(record) => if storageOk then Ok(record) else Err(InStore(StorageFailed))
  }

  /** Only the task itself has changed, and all that was appended are checkpoints of it. */
  ghost predicate Confined(before: World, after: World, id: string) {
    && id in before.tasks && id in after.tasks
    && after.tasks == before.tasks[id := after.tasks[id]]
    && before.log <= after.log
    && (forall k :: |before.log| <= k < |after.log| ==>
         after.log[k].status == ValidCheckpoint && after.log[k].record.taskId == id)
    && after.tasks[id].taskId == before.tasks[id].taskId && after.tasks[id].goal == before.tasks[id].goal
    && after.tasks[id].correlationId == before.tasks[id].correlationId
         && after.tasks[id].owner == before.tasks[id].owner
    && after.tasks[id].retryCount == before.tasks[id].retryCount
  }

  /** The task has come to a state and its history has grown by some entries, all of it stored. */
  ghost predicate Reached(before: World, after: World, id: string, state: TaskState, entries: seq<HistoryEntry>) {
    && Confined(before, after, id)
    && after.tasks[id].state == state
    && after.tasks[id].history == before.tasks[id].history + entries
    && |before.log| < |after.log| && after.log[|after.log| - 1].record == after.tasks[id]
  }

  /** A run of a task that may enter Planning. Its transitions are never rejected: it ends as RunOf says unless
      the storage fails. */
  ghost predicate Ran(before: World, after: World, id: string, ending: Ending, env: Env, r: Outcome) {
    && Confined(before, after, id)
    && (StorageIsUp(env) ==> r.Ok?)
    && (r.Err? ==> r == Err(InStore(StorageFailed)))
    && (r.Ok? ==> Reached(before, after, id, ending.state, ending.entries) && r == Ok(after.tasks[id]))
  }

  /** All the ways an execute can go. */
  ghost predicate Executed(before: World, after: World, planner: Planner, tools: map<string, Tool>,
                           permissions: Permissions,
                           id: string, env: Env, r: Outcome) {
    if id !in before.tasks then
      after == before && r == Err(InMemory(TaskMissing))
    else if Planning !in Targets(before.tasks[id].state) then
      after == before && r == Err(InMemory(IllegalTransition(before.tasks[id].state, Planning)))
    else
      Ran(before, after, id, RunOf(tools, permissions, planner.Plan(id, before.tasks[id].goal), env.behaviours), env, r)
  }

  /** Without approvals the tools do nothing but read, with evidence, on behalf of the task. */
  ghost predicate OnlyReads(before: seq<Invocation>, after: seq<Invocation>, id: string) {
    && before <= after
    && forall k :: |before| <= k < |after| ==>
         after[k].taskId == id && after[k].action.riskTier == ReadOnly && after[k].action.signal != NoSignal
  }

  /** An answer to a permission question; a clarification needs new input instead. */
  ghost predicate Resolved(before: World, after: World, id: string, confirmed: bool, target: TaskState,
                           reason: Option<Option<Reason>>,
                           storageOk: bool, r: Outcome) {
    if !confirmed then
      after == before && r == Err(NotConfirmed)
    else if id !in before.tasks then
      after == before && r == Err(InMemory(TaskMissing))
    else if before.tasks[id].state != WaitingUser then
      after == before && r == Err(NotWaiting)
    else if before.tasks[id].waitingReason != Some(PermissionConfirmation) then
      after == before && r == Err(NeedsClarification)
    else
      && id in after.tasks && after.tasks == before.tasks[id := after.tasks[id]]
      && after.tasks[id] ==
           before.tasks[id].(state := target, waitingReason := None, reason := reason, updatedAt :=
             after.tasks[id].updatedAt)
      && after.log == (if storageOk then before.log + [Append(after.tasks[id], ValidCheckpoint)] else before.log)
      && r == if storageOk then Ok(after.tasks[id]) else Err(InStore(StorageFailed))
  }

  lemma SoundKept(before: World, after: World, maxRetries: int, op: TaskModel.Op, status: CheckpointStatus,
                  storageOk: bool, now: int, r: Outcome)
    requires Sound(before) && Committed(before, after, maxRetries, op, status, storageOk, now, r)
               && status != Superseded
    ensures Sound(after)
  {
  }

  lemma PlanningIsReached(before: World, after: World, maxRetries: int, id: string, storageOk: bool, now: int,
                          r: Outcome)
    requires Sound(before) && id in before.tasks
    requires Committed(before, after, maxRetries, Move(id, Planning, None), ValidCheckpoint, storageOk, now, r)
    ensures if Planning !in Targets(before.tasks[id].state) then
              after == before && r == Err(InMemory(IllegalTransition(before.tasks[id].state, Planning)))
            else
              Confined(before, after, id)
              && if storageOk then Reached(before, after, id, Planning, []) && r == Ok(after.tasks[id])
                   else r == Err(InStore(StorageFailed))
  {
  }

  lemma MoveIsReached(before: World, middle: World, after: World, maxRetries: int, id: string, source: TaskState,
                      entries: seq<HistoryEntry>, target: TaskState, storageOk: bool, now: int, r: Outcome)
    requires Sound(before) && Reached(before, middle, id, source, entries)
    requires target in Targets(source) && target != WaitingUser && target != Retrying
    requires Committed(middle, after, maxRetries, Move(id, target, None), ValidCheckpoint, storageOk, now, r)
    ensures Confined(before, after, id)
    ensures if storageOk then Reached(before, after, id, target, entries) && r == Ok(after.tasks[id])
              else r == Err(InStore(StorageFailed))
  {
  }

  lemma EntryIsReached(before: World, middle: World, after: World, maxRetries: int, id: string, state: TaskState,
                       entries: seq<HistoryEntry>, entry: HistoryEntry, storageOk: bool, now: int, r: Outcome)
    requires Sound(before) && Reached(before, middle, id, state, entries)
    requires Committed(middle, after, maxRetries, AppendHistory(id, entry), ValidCheckpoint, storageOk, now, r)
    ensures Confined(before, after, id)
    ensures if storageOk then Reached(before, after, id, state, entries + [entry]) && r == Ok(after.tasks[id])
              else r == Err(InStore(StorageFailed))
  {
    assert before.tasks[id].history + entries + [entry] == before.tasks[id].history + (entries + [entry]);
  }

  lemma FirstErrorIs(replies: seq<Reply>, k: nat)
    requires k <= |replies| && forall i :: 0 <= i < k ==> replies[i].Ok?
    requires k < |replies| ==> replies[k].Err?
    ensures FirstError(replies) == k
  {
  }

  class RuntimeTaskCoordinator {
    const tasks: TaskManager
    const planner: Planner
    const executor: Executor
    const store: TaskCheckpointStore

    ghost function View(): World
      reads tasks, store.client
    {
      World(tasks.tasks, store.Log())
    }

    ghost predicate Valid()
      reads tasks, store.client, executor, executor.resources
    {
      executor.Valid() && store.Valid() && Sound(View())
    }

    constructor (tasks: TaskManager, planner: Planner, executor: Executor, store: TaskCheckpointStore)
      requires executor.Valid() && store.Valid() && Sound(World(tasks.tasks, store.Log()))
      ensures Valid() && this.tasks == tasks && this.planner == planner && this.executor == executor
                && this.store == store
    {
      this.tasks, this.planner, this.executor, this.store := tasks, planner, executor, store;
    }

    method Persist(record: TaskRecord, status: CheckpointStatus, storageOk: bool) returns (r: Outcome)
      requires store.Valid()
      modifies store.client
      ensures store.Valid()
      ensures store.Log() == if storageOk then old(store.Log()) + [Append(record, status)] else old(store.Log())
      ensures r == if storageOk then Ok(record) else Err(InStore(StorageFailed))
    {
      var appended := store.AppendCheckpoint(record, status, storageOk);
      r := match appended
        case Ok(_) => Ok(record)
        case Err(e) => Err(InStore(e));
    }

    method Transition(id: string, target: TaskState, reason: Option<Reason>, storageOk: bool, now: int)
      returns (r: Outcome)
      requires Valid()
      modifies tasks, store.client
      ensures Valid()
      ensures Committed(old(View()), View(), tasks.maxRetries, Move(id, target, reason), ValidCheckpoint, storageOk,
                now, r)
    {
      hide Apply, TaskModel.Answer, TableOf, Sound;
      var transitioned := tasks.Transition(id, target, reason, now);
      if transitioned.Err? {
        r := Err(InMemory(transitioned.error));
      } else {
        r := Persist(transitioned.value, ValidCheckpoint, storageOk);
      }
      SoundKept(old(View()), View(), tasks.maxRetries, Move(id, target, reason), ValidCheckpoint, storageOk, now, r);
    }

    method AppendStepHistory(id: string, entry: HistoryEntry, storageOk: bool, now: int) returns (r: Outcome)
      requires Valid()
      modifies tasks, store.client
      ensures Valid()
      ensures Committed(old(View()), View(), tasks.maxRetries, AppendHistory(id, entry), ValidCheckpoint, storageOk,
                now, r)
    {
      hide Apply, TaskModel.Answer, TableOf, Sound;
      var appended := tasks.AppendStepHistory(id, entry, now);
      if appended.Err? {
        r := Err(InMemory(appended.error));
      } else {
        r := Persist(appended.value, ValidCheckpoint, storageOk);
      }
      SoundKept(old(View()), View(), tasks.maxRetries, AppendHistory(id, entry), ValidCheckpoint, storageOk, now, r);
    }

    /** A created task that was answered with Ok is in the store. */
    method SubmitDurable(id: string, goal: string, correlationId: string, storageOk: bool, now: int)
      returns (r: Outcome)
      requires Valid()
      modifies tasks, store.client
      ensures Valid()
      ensures Committed(old(View()), View(), tasks.maxRetries, Create(id, goal, correlationId, None), CreatedCheckpoint,
                storageOk, now, r)
    {
      hide Apply, TaskModel.Answer, TableOf, Sound;
      var created := tasks.CreateTask(id, goal, correlationId, None, now);
      if created.Err? {
        r := Err(InMemory(created.error));
      } else {
        r := Persist(created.value, CreatedCheckpoint, storageOk);
      }
      SoundKept(old(View()), View(), tasks.maxRetries, Create(id, goal, correlationId, None), CreatedCheckpoint,
        storageOk, now, r);
    }

    /** Notes an error in the history and fails the task. */
    method Fail(id: string, entry: HistoryEntry, env: Env, k: nat, ghost before: World, ghost source: TaskState)
      returns (r: Outcome)
      requires Valid() && Sound(before) && Reached(before, View(), id, source, []) && FailedTask in Targets(source)
      modifies tasks, store.client
      ensures Valid()
      ensures Ran(before, View(), id, Ending(FailedTask, [entry]), env, r)
    {
      hide *;
      ghost var w0 := View();
      var appended := AppendStepHistory(id, entry, env.storageOk(k), env.clock(k));
      ghost var w1 := View();
      EntryIsReached(before, w0, w1, tasks.maxRetries, id, source, [], entry, env.storageOk(k), env.clock(k), appended);
      if appended.Err? {
        r := appended;
        NotStored(before, View(), id, Ending(FailedTask, [entry]), env, k, r);
        return;
      }
      assert [] + [entry] == [entry];
      r := Transition(id, FailedTask, None, env.storageOk(k + 1), env.clock(k + 1));
      MoveIsReached(before, w1, View(), tasks.maxRetries, id, source, [entry], FailedTask, env.storageOk(k + 1),
        env.clock(k + 1), r);
      EndOfRun(before, View(), id, Ending(FailedTask, [entry]), env, k + 1, r);
    }

    /** Executes the steps in order and stops at the first that is rejected. */
    method ExecuteSteps(id: string, steps: seq<ExecutionStep>, behaviours: nat -> Behaviour, now: int)
      returns (results: seq<ExecutionResult>, failure: Option<OrchestrationError>)
      requires executor.Valid() && Unapproved(steps, id)
      modifies executor, executor.resources
      ensures executor.Valid() && executor.resources.View() == old(executor.resources.View())
      ensures OnlyReads(old(executor.invocations), executor.invocations, id)
      ensures Ended(Replies(executor.tools, executor.permissions, steps, behaviours), results, failure)
    {
      hide Replies, Replied, Ended, ReplyTo, OnlyReads;
      results := [];
      NothingReplied(executor.tools, executor.permissions, steps, behaviours, executor.invocations, id);
      for i := 0 to |steps|
        invariant executor.Valid() && executor.resources.View() == old(executor.resources.View())
        invariant OnlyReads(old(executor.invocations), executor.invocations, id)
        invariant |results| == i && Replied(Replies(executor.tools, executor.permissions, steps, behaviours), results)
      {
        var reply := ExecuteStep(id, steps[i], behaviours(i), now, old(executor.invocations));
        ReplyIsNext(executor.tools, executor.permissions, steps, behaviours, results, reply);
        if reply.Err? {
          return results, Some(reply.error);
        }
        results := results + [reply.value];
      }
      AllReplied(Replies(executor.tools, executor.permissions, steps, behaviours), results);
      failure := None;
    }

    method ExecuteStep(id: string, step: ExecutionStep, behaviour: Behaviour, now: int, ghost earlier: seq<Invocation>)
      returns (reply: Reply)
      requires executor.Valid() && step.confirmation != Approved && step.taskId == id
      requires OnlyReads(earlier, executor.invocations, id)
      modifies executor, executor.resources
      ensures executor.Valid() && executor.resources.View() == old(executor.resources.View())
      ensures OnlyReads(earlier, executor.invocations, id)
      ensures reply == ReplyTo(executor.tools, executor.permissions, step, behaviour)
    {
      hide Admitted, OnlyReads, Orchestration.Answer;
      UnapprovedIsReadOnly(executor.tools, executor.permissions, step);
      ghost var middle := executor.invocations;
      reply := executor.Execute(step, behaviour, now);
      if Admitted(executor.tools, executor.permissions, step).Ok? {
        OnlyReadsSoFar(earlier, middle, executor.invocations, id,
          Admitted(executor.tools, executor.permissions, step).value);
      }
    }

    method VerifySteps(steps: seq<ExecutionStep>, results: seq<ExecutionResult>, ghost replies: seq<Reply>)
      returns (r: Result<seq<HistoryEntry>, OrchestrationError>)
      requires |steps| == |results| == |replies| && Replied(replies, results) && AllOk(replies)
      ensures match r
              case Ok(entries) => EntriesSoFar(steps, replies, entries) && |entries| == |steps|
              case Err(e) => e == StepMismatch && Mismatched(Verdicts(steps, replies))
    {
      hide Verify, Mismatched, Verdicts;
      var entries: seq<HistoryEntry> := [];
      for i := 0 to |steps|
        invariant |entries| == i && EntriesSoFar(steps, replies, entries)
      {
        NextEntry(steps, replies, entries);
        assert replies[i] == Ok(results[i]);
        var verdict := Verify(steps[i], results[i]);
        if verdict.Err? {
          return Err(verdict.error);
        }
        entries := entries + [StepDone(steps[i], results[i], verdict.value)];
      }
      r := Ok(entries);
    }

    /** Appends the entries one by one, each with its own checkpoint. */
    method RecordSteps(id: string, entries: seq<HistoryEntry>, env: Env, ghost before: World)
      returns (r: Result<(), CoordinatorError>)
      requires Valid() && Sound(before) && Reached(before, View(), id, Verifying, [])
      modifies tasks, store.client
      ensures Valid()
      ensures r.Ok? ==> Reached(before, View(), id, Verifying, entries)
      ensures r.Err? ==>
                && r == Err(InStore(StorageFailed)) && Confined(before, View(), id)
                && exists k: nat :: !env.storageOk(k)
    {
      hide *;
      for i := 0 to |entries|
        invariant Valid() && Reached(before, View(), id, Verifying, entries[..i])
      {
        ghost var middle := View();
        var appended := AppendStepHistory(id, entries[i], env.storageOk(3 + i), env.clock(3 + i));
        EntryIsReached(before, middle, View(), tasks.maxRetries, id, Verifying, entries[..i], entries[i],
          env.storageOk(3 + i), env.clock(3 + i), appended);
        if appended.Err? {
          return Err(appended.error);
        }
        assert entries[..i + 1] == entries[..i] + [entries[i]];
      }
      assert entries[..|entries|] == entries;
      r := Ok(());
    }

    /** Plans, executes and verifies a task. */
    method Execute(id: string, env: Env) returns (r: Outcome)
      requires Valid()
      modifies tasks, store.client, executor, executor.resources
      ensures Valid()
      ensures Executed(old(View()), View(), planner, executor.tools, executor.permissions, id, env, r)
      ensures executor.resources.View() == old(executor.resources.View())
      ensures OnlyReads(old(executor.invocations), executor.invocations, id)
    {
      NothingRead(executor.invocations, id);
      StagesAreOpen();
      ghost var before := View();
      hide *;
      if id !in tasks.tasks {
        r := Err(InMemory(TaskMissing));
        NotEntered(before, planner, executor.tools, executor.permissions, id, env, r);
        return;
      }
      r := Transition(id, Planning, None, env.storageOk(0), env.clock(0));
      PlanningIsReached(before, View(), tasks.maxRetries, id, env.storageOk(0), env.clock(0), r);
      if r.Err? {
        NotPlanned(before, View(), planner, executor.tools, executor.permissions, id, env, r);
        return;
      }
      var record := r.value;
      PlansForGoal(before, View(), id, Planning);
      var plan := planner.Plan(record.taskId, record.goal);
      PlanIsUnapproved(planner, id, record.goal);
      EndsUnplanned(executor.tools, executor.permissions, plan, env.behaviours);
      if plan.Err? {
        r := Fail(id, PlanningFailed(plan.error), env, 1, before, Planning);
      } else if plan.value == [] {
        r := Fail(id, PlanningFailed(EmptyPlan), env, 1, before, Planning);
      } else {
        r := ExecutePlan(id, plan.value, env, before);
      }
      RanAsPlanned(before, View(), planner, executor.tools, executor.permissions, id, env, r);
    }

    /** The part of an execute after a plan was found. */
    method ExecutePlan(id: string, steps: seq<ExecutionStep>, env: Env, ghost before: World) returns (r: Outcome)
      requires Valid() && Sound(before) && Reached(before, View(), id, Planning, []) && Unapproved(steps, id)
                 && steps != []
      modifies tasks, store.client, executor, executor.resources
      ensures Valid()
      ensures Ran(before, View(), id, RunOf(executor.tools, executor.permissions, Ok(steps), env.behaviours), env, r)
      ensures executor.resources.View() == old(executor.resources.View())
      ensures OnlyReads(old(executor.invocations), executor.invocations, id)
    {
      NothingRead(executor.invocations, id);
      StagesAreOpen();
      hide *;
      ghost var ending := RunOf(executor.tools, executor.permissions, Ok(steps), env.behaviours);
      ghost var w0 := View();
      r := Transition(id, Executing, None, env.storageOk(1), env.clock(1));
      MoveIsReached(before, w0, View(), tasks.maxRetries, id, Planning, [], Executing, env.storageOk(1), env.clock(1),
        r);
      if r.Err? {
        NotStored(before, View(), id, ending, env, 1, r);
        return;
      }
      var results, failure := ExecuteSteps(id, steps, env.behaviours, env.clock(1));
      if failure.Some? {
        EndsRejected(executor.tools, executor.permissions, steps, env.behaviours, results, failure.value);
        r := Fail(id, ExecutionFailed(steps[|results|], failure.value), env, 2, before, Executing);
        return;
      }
      EndsJudged(executor.tools, executor.permissions, steps, env.behaviours);
      ghost var w1 := View();
      r := Transition(id, Verifying, None, env.storageOk(2), env.clock(2));
      MoveIsReached(before, w1, View(), tasks.maxRetries, id, Executing, [], Verifying, env.storageOk(2), env.clock(2),
        r);
      if r.Err? {
        NotStored(before, View(), id, ending, env, 2, r);
        return;
      }
      r := Judge(id, steps, results, env, before, Replies(executor.tools, executor.permissions, steps, env.behaviours),
        ending);
    }

    /** The verification of an execute. */
    method Judge(id: string, steps: seq<ExecutionStep>, results: seq<ExecutionResult>, env: Env, ghost before: World,
                 ghost replies: seq<Reply>,
                 ghost ending: Ending) returns (r: Outcome)
      requires Valid() && Sound(before) && Reached(before, View(), id, Verifying, [])
      requires |steps| == |results| == |replies| && Replied(replies, results) && AllOk(replies)
      requires ending == if Mismatched(Verdicts(steps, replies))
                 then Ending(FailedTask, [VerificationFailed(StepMismatch)])
                         else Ending(OutcomeOf(Verdicts(steps, replies)), Entries(steps, replies))
      modifies tasks, store.client
      ensures Valid()
      ensures Ran(before, View(), id, ending, env, r)
    {
      StagesAreOpen();
      hide *;
      var verified := VerifySteps(steps, results, replies);
      if verified.Err? {
        r := Fail(id, VerificationFailed(verified.error), env, 3, before, Verifying);
        return;
      }
      var entries := verified.value;
      AllEntries(steps, replies, entries);
      var recorded := RecordSteps(id, entries, env, before);
      if recorded.Err? {
        r := Err(recorded.error);
        var k: nat :| !env.storageOk(k);
        NotStored(before, View(), id, ending, env, k, r);
        return;
      }
      var outcome := if HasOutcome(entries, Failed) then FailedTask
                     else if HasOutcome(entries, Unverified) then UnverifiedTask
                     else Completed;
      OutcomeIsHeard(steps, replies, entries);
      ghost var middle := View();
      var k := 3 + |entries|;
      r := Transition(id, outcome, None, env.storageOk(k), env.clock(k));
      MoveIsReached(before, middle, View(), tasks.maxRetries, id, Verifying, entries, outcome, env.storageOk(k),
        env.clock(k), r);
      EndOfRun(before, View(), id, ending, env, k, r);
    }

    /** A retry takes one unit of the budget and then executes. */
    method Retry(id: string, confirmed: bool, storageOk: bool, now: int, env: Env) returns (r: Outcome)
      requires Valid()
      modifies tasks, store.client, executor, executor.resources
      ensures Valid()
      ensures !confirmed ==> r == Err(NotConfirmed) && View() == old(View())
      ensures confirmed ==>
                exists middle, retrying ::
                  && Committed(old(View()), middle, tasks.maxRetries, Move(id, Retrying, None), ValidCheckpoint,
                       storageOk, now, retrying)
                  && if retrying.Err? then View() == middle && r == retrying
                     else Executed(middle, View(), planner, executor.tools, executor.permissions, id, env, r)
      ensures executor.resources.View() == old(executor.resources.View())
      ensures OnlyReads(old(executor.invocations), executor.invocations, id)
    {
      NothingRead(executor.invocations, id);
      hide *;
      if !confirmed {
        return Err(NotConfirmed);
      }
      r := Transition(id, Retrying, None, storageOk, now);
      ghost var middle, retrying := View(), r;
      if r.Err? {
        return;
      }
      r := Execute(id, env);
    }

    method ResumePaused(id: string, confirmed: bool, env: Env) returns (r: Outcome)
      requires Valid()
      modifies tasks, store.client, executor, executor.resources
      ensures Valid()
      ensures !(confirmed && id in old(tasks.tasks) && old(tasks.tasks)[id].state == Paused) ==>
                View() == old(View())
                  && r == Err(if !confirmed then NotConfirmed else if id !in tasks.tasks then InMemory(TaskMissing)
                  else NotPaused)
      ensures confirmed && id in old(tasks.tasks) && old(tasks.tasks)[id].state == Paused ==>
                Ran(old(View()), View(), id,
                  RunOf(executor.tools, executor.permissions, planner.Plan(id, old(tasks.tasks)[id].goal),
                  env.behaviours), env, r)
      ensures executor.resources.View() == old(executor.resources.View())
      ensures OnlyReads(old(executor.invocations), executor.invocations, id)
    {
      NothingRead(executor.invocations, id);
      hide Ran, Sound, OnlyReads, RunOf, TableOf;
      if !confirmed {
        return Err(NotConfirmed);
      }
      if id !in tasks.tasks {
        return Err(InMemory(TaskMissing));
      }
      if tasks.tasks[id].state != Paused {
        return Err(NotPaused);
      }
      r := Execute(id, env);
    }

    /** Lets a task that waits for a permission go on; it does not execute it. */
    method ConfirmWaitingUser(id: string, confirmed: bool, storageOk: bool, now: int) returns (r: Outcome)
      requires Valid()
      modifies tasks, store.client
      ensures Valid()
      ensures Resolved(old(View()), View(), id, confirmed, Executing, None, storageOk, r)
    {
      r := Resolve(id, confirmed, Executing, Resumed, storageOk, now);
    }

    method DenyWaitingUser(id: string, confirmed: bool, storageOk: bool, now: int) returns (r: Outcome)
      requires Valid()
      modifies tasks, store.client
      ensures Valid()
      ensures Resolved(old(View()), View(), id, confirmed, Cancelled, Some(Some(DeniedByUser)), storageOk, r)
    {
      r := Resolve(id, confirmed, Cancelled, DeniedByUser, storageOk, now);
    }

    method Resolve(id: string, confirmed: bool, target: TaskState, reason: Reason, storageOk: bool, now: int)
      returns (r: Outcome)
      requires Valid()
      requires target == Executing || target == Cancelled
      modifies tasks, store.client
      ensures Valid()
      ensures Resolved(old(View()), View(), id, confirmed, target, if target == Cancelled then Some(Some(reason))
                else None, storageOk, r)
    {
      hide Sound, TableOf;
      if !confirmed {
        return Err(NotConfirmed);
      }
      if id !in tasks.tasks {
        return Err(InMemory(TaskMissing));
      }
      var current := tasks.tasks[id];
      if current.state != WaitingUser {
        return Err(NotWaiting);
      }
      if current.waitingReason != Some(PermissionConfirmation) {
        return Err(NeedsClarification);
      }
      r := Transition(id, target, Some(reason), storageOk, now);
    }
  }

  /** The steps of a plan carry no approval and belong to the task. */
  ghost predicate Unapproved(steps: seq<ExecutionStep>, id: string) {
    forall i :: 0 <= i < |steps| ==> steps[i].confirmation != Approved && steps[i].taskId == id
  }

  lemma PlanIsUnapproved(planner: Planner, id: string, goal: string)
    ensures planner.Plan(id, goal).Ok? ==> Unapproved(planner.Plan(id, goal).value, id)
  {
    PlansAreNeverApproved(planner, id, goal);
  }

  /** The replies to the first steps of a plan were these results. */
  ghost predicate Replied(replies: seq<Reply>, results: seq<ExecutionResult>) {
    |results| <= |replies| && forall i :: 0 <= i < |results| ==> replies[i] == Ok(results[i])
  }

  ghost predicate Ended(replies: seq<Reply>, results: seq<ExecutionResult>, failure: Option<OrchestrationError>) {
    && Replied(replies, results) && FirstError(replies) == |results|
    && match failure
       case None => |results| == |replies|
       case Some(e) => |results| < |replies| && replies[|results|] == Err(e)
  }

  lemma ReplyIsNext(tools: map<string, Tool>, permissions: Permissions, steps: seq<ExecutionStep>,
                    behaviours: nat -> Behaviour,
                    results: seq<ExecutionResult>, reply: Reply)
    requires |results| < |steps| && Replied(Replies(tools, permissions, steps, behaviours), results)
    requires reply == ReplyTo(tools, permissions, steps[|results|], behaviours(|results|))
    ensures var replies := Replies(tools, permissions, steps, behaviours);
            if reply.Ok? then Replied(replies, results + [reply.value]) else Ended(replies, results, Some(reply.error))
  {
    hide ReplyTo;
    if reply.Err? {
      FirstErrorIs(Replies(tools, permissions, steps, behaviours), |results|);
    }
  }

  lemma AllReplied(replies: seq<Reply>, results: seq<ExecutionResult>)
    requires Replied(replies, results) && |results| == |replies|
    ensures Ended(replies, results, None) && AllOk(replies)
  {
    FirstErrorIs(replies, |replies|);
  }

  lemma OnlyReadsSoFar(before: seq<Invocation>, middle: seq<Invocation>, after: seq<Invocation>, id: string,
                       action: ToolAction)
    requires OnlyReads(before, middle, id) && action.riskTier == ReadOnly && action.signal != NoSignal
    requires after == middle || after == middle + [Invocation(id, action)]
    ensures OnlyReads(before, after, id)
  {
  }

  lemma NothingReplied(tools: map<string, Tool>, permissions: Permissions, steps: seq<ExecutionStep>,
                       behaviours: nat -> Behaviour,
                       invocations: seq<Invocation>, id: string)
    ensures Replied(Replies(tools, permissions, steps, behaviours), [])
    ensures OnlyReads(invocations, invocations, id)
  {
  }

  /** The entries of the first n steps. */
  ghost predicate EntriesSoFar(steps: seq<ExecutionStep>, replies: seq<Reply>, entries: seq<HistoryEntry>) {
    && |entries| <= |steps| == |replies| && AllOk(replies)
    && forall i :: 0 <= i < |entries| ==>
         Verify(steps[i], replies[i].value).Ok?
         && entries[i] == StepDone(steps[i], replies[i].value, Verify(steps[i], replies[i].value).value)
  }

  lemma NextEntry(steps: seq<ExecutionStep>, replies: seq<Reply>, entries: seq<HistoryEntry>)
    requires EntriesSoFar(steps, replies, entries) && |entries| < |steps|
    ensures var i := |entries|;
            match Verify(steps[i], replies[i].value)
            case Ok(verdict) => EntriesSoFar(steps, replies, entries + [StepDone(steps[i], replies[i].value, verdict)])
            case Err(e) => e == StepMismatch && Mismatched(Verdicts(steps, replies))
  {
    var i := |entries|;
    assert Verdicts(steps, replies)[i] == Verify(steps[i], replies[i].value);
  }

  lemma AllEntries(steps: seq<ExecutionStep>, replies: seq<Reply>, entries: seq<HistoryEntry>)
    requires EntriesSoFar(steps, replies, entries) && |entries| == |steps|
    ensures !Mismatched(Verdicts(steps, replies)) && entries == Entries(steps, replies)
    ensures forall outcome :: Judged(Verdicts(steps, replies), outcome) <==> HasOutcome(entries, outcome)
  {
    hide Verify;
    var verdicts := Verdicts(steps, replies);
    forall i | 0 <= i < |steps|
      ensures verdicts[i].Ok? && entries[i].StepDone? && entries[i].verdict == verdicts[i].value {
    }
    assert !Mismatched(verdicts);
    forall outcome ensures Judged(verdicts, outcome) <==> HasOutcome(entries, outcome) {
      if i :| 0 <= i < |verdicts| && verdicts[i].Ok? && verdicts[i].value.outcome == outcome {
        assert entries[i].verdict.outcome == outcome;
      }
    }
  }

  predicate HasOutcome(entries: seq<HistoryEntry>, outcome: Orchestration.Outcome) {
    exists i :: 0 <= i < |entries| && entries[i].StepDone? && entries[i].verdict.outcome == outcome
  }

  lemma OutcomeIsHeard(steps: seq<ExecutionStep>, replies: seq<Reply>, entries: seq<HistoryEntry>)
    requires |steps| == |replies| && AllOk(replies)
    requires forall outcome :: Judged(Verdicts(steps, replies), outcome) <==> HasOutcome(entries, outcome)
    ensures OutcomeOf(Verdicts(steps, replies)) ==
              if HasOutcome(entries, Failed) then FailedTask else if HasOutcome(entries, Unverified) then UnverifiedTask
                else Completed
    ensures OutcomeOf(Verdicts(steps, replies)) in Targets(Verifying)
              && OutcomeOf(Verdicts(steps, replies)) !in {WaitingUser, Retrying}
  {
    hide Verdicts, Judged, HasOutcome;
    assert Judged(Verdicts(steps, replies), Failed) <==> HasOutcome(entries, Failed);
    assert Judged(Verdicts(steps, replies), Unverified) <==> HasOutcome(entries, Unverified);
  }

  lemma NothingRead(invocations: seq<Invocation>, id: string)
    ensures OnlyReads(invocations, invocations, id)
  {
  }

  lemma StagesAreOpen()
    ensures FailedTask in Targets(Planning) && FailedTask in Targets(Executing) && FailedTask in Targets(Verifying)
    ensures Executing in Targets(Planning) && Verifying in Targets(Executing)
  {
  }

  lemma NotEntered(before: World, planner: Planner, tools: map<string, Tool>, permissions: Permissions, id: string,
                   env: Env, r: Outcome)
    requires id !in before.tasks && r == Err(InMemory(TaskMissing))
    ensures Executed(before, before, planner, tools, permissions, id, env, r)
  {
  }

  lemma NotPlanned(before: World, after: World, planner: Planner, tools: map<string, Tool>, permissions: Permissions,
                   id: string, env: Env, r: Outcome)
    requires id in before.tasks
    requires if Planning !in Targets(before.tasks[id].state) then
               after == before && r == Err(InMemory(IllegalTransition(before.tasks[id].state, Planning)))
             else Confined(before, after, id) && !env.storageOk(0) && r == Err(InStore(StorageFailed))
    ensures Executed(before, after, planner, tools, permissions, id, env, r)
  {
    hide Confined, RunOf;
  }

  lemma RanAsPlanned(before: World, after: World, planner: Planner, tools: map<string, Tool>,
                     permissions: Permissions, id: string, env: Env, r: Outcome)
    requires id in before.tasks && Planning in Targets(before.tasks[id].state)
    requires Ran(before, after, id, RunOf(tools, permissions, planner.Plan(id, before.tasks[id].goal), env.behaviours),
               env, r)
    ensures Executed(before, after, planner, tools, permissions, id, env, r)
  {
    hide Ran, RunOf;
  }

  /** The record a plan is made for still names the task and its goal. */
  lemma PlansForGoal(before: World, after: World, id: string, state: TaskState)
    requires Sound(before) && Reached(before, after, id, state, [])
    ensures id in before.tasks && id in after.tasks && after.tasks[id].taskId == id
              && after.tasks[id].goal == before.tasks[id].goal
  {
  }

  // How a run on a plan ends, case by case.

  lemma EndsUnplanned(tools: map<string, Tool>, permissions: Permissions, plan: Plan, behaviours: nat -> Behaviour)
    ensures plan.Err? ==>
              RunOf(tools, permissions, plan, behaviours) == Ending(FailedTask, [PlanningFailed(plan.error)])
    ensures plan.Ok? && plan.value == [] ==>
              RunOf(tools, permissions, plan, behaviours) == Ending(FailedTask, [PlanningFailed(EmptyPlan)])
  {
  }

  lemma EndsRejected(tools: map<string, Tool>, permissions: Permissions, steps: seq<ExecutionStep>,
                     behaviours: nat -> Behaviour,
                     results: seq<ExecutionResult>, e: OrchestrationError)
    requires Ended(Replies(tools, permissions, steps, behaviours), results, Some(e))
    ensures RunOf(tools, permissions, Ok(steps), behaviours) ==
              Ending(FailedTask, [ExecutionFailed(steps[|results|], e)])
  {
    hide ReplyTo, Verdicts, Mismatched, OutcomeOf;
  }

  lemma EndsJudged(tools: map<string, Tool>, permissions: Permissions, steps: seq<ExecutionStep>,
                   behaviours: nat -> Behaviour)
    requires var replies := Replies(tools, permissions, steps, behaviours);
             steps != [] && FirstError(replies) == |replies|
    ensures var replies := Replies(tools, permissions, steps, behaviours);
            AllOk(replies) && RunOf(tools, permissions, Ok(steps), behaviours) ==
              if Mismatched(Verdicts(steps, replies)) then Ending(FailedTask, [VerificationFailed(StepMismatch)])
              else Ending(OutcomeOf(Verdicts(steps, replies)), Entries(steps, replies))
  {
    hide ReplyTo, Verdicts, Mismatched, OutcomeOf;
  }

  lemma NotStored(before: World, after: World, id: string, ending: Ending, env: Env, k: nat, r: Outcome)
    requires Confined(before, after, id) && !env.storageOk(k) && r == Err(InStore(StorageFailed))
    ensures Ran(before, after, id, ending, env, r)
  {
  }

  lemma EndOfRun(before: World, after: World, id: string, ending: Ending, env: Env, k: nat, r: Outcome)
    requires Confined(before, after, id)
    requires if env.storageOk(k) then Reached(before, after, id, ending.state, ending.entries)
               && r == Ok(after.tasks[id])
             else r == Err(InStore(StorageFailed))
    ensures Ran(before, after, id, ending, env, r)
  {
  }

  // ----- What a caller gets

  /** Main result: with storage up, an execute that may enter Planning is never rejected. It completes exactly
      when its plan has steps and all of them succeeded with evidence, and what the store has for the task is
      what the memory has. */
  lemma UninterruptedRun(before: World, after: World, planner: Planner, tools: map<string, Tool>,
                         permissions: Permissions,
                         id: string, env: Env, r: Outcome)
    requires Executed(before, after, planner, tools, permissions, id, env, r) && StorageIsUp(env)
    requires id in before.tasks && Planning in Targets(before.tasks[id].state)
    ensures r.Ok? && id in after.tasks && r.value == after.tasks[id]
    ensures r.value.state in {Completed, UnverifiedTask, FailedTask}
    ensures var plan := planner.Plan(id, before.tasks[id].goal);
            && (r.value.state == Completed <==>
                 && plan.Ok? && plan.value != []
                 && forall i :: 0 <= i < |plan.value| ==>
                      var returned := Returned(tools, permissions, plan.value[i], env.behaviours(i));
                      returned.Some? && returned.value.status == Success && returned.value.evidence != NoSignal)
            && (r.value.state == FailedTask <==>
                 || plan.Err? || plan.value == []
                 || exists i :: 0 <= i < |plan.value| &&
                      var returned := Returned(tools, permissions, plan.value[i], env.behaviours(i));
                      returned == None || returned.value.status != Success)
            && r.value.history == before.tasks[id].history + RunOf(tools, permissions, plan, env.behaviours).entries
    ensures id in LastAppended(after.log) && LastAppended(after.log)[id] == Persisted(after.tasks[id])
  {
    var plan := planner.Plan(id, before.tasks[id].goal);
    PlansAreNeverApproved(planner, id, before.tasks[id].goal);
    assert plan.Ok? ==> NotApproved(plan.value);
    EndingIsEarned(tools, permissions, plan, env.behaviours);
    hide RunOf, Returned;
    assert after.log == after.log[..|after.log| - 1] + [after.log[|after.log| - 1]];
    LastAppendedStep(after.log[..|after.log| - 1], after.log[|after.log| - 1]);
  }

  /** A task in Executing, such as a confirmed one, is not carried on by the coordinator: an execute and a retry
      are rejected and change nothing. After a restart it counts as unverified and can be retried. */
  lemma ConfirmedTaskWaits(before: World, after: World, maxRetries: int, planner: Planner, tools: map<string, Tool>,
                           permissions: Permissions, id: string, env: Env, storageOk: bool, now: int, r: Outcome)
    requires id in before.tasks && before.tasks[id].state == Executing
    ensures Executed(before, after, planner, tools, permissions, id, env, r) ==>
              after == before && r == Err(InMemory(IllegalTransition(Executing, Planning)))
    ensures Committed(before, after, maxRetries, Move(id, Retrying, None), ValidCheckpoint, storageOk, now, r) ==>
              after == before && r == Err(InMemory(IllegalTransition(Executing, Retrying)))
    ensures Retrying in Targets(Interrupted(before.tasks[id]).state)
  {
    hide Ran, RunOf;
  }

  /** A retry that goes through has taken one unit of the budget, from a task that had failed or stayed
      unverified. */
  lemma RetrySpendsOne(before: World, middle: World, after: World, maxRetries: int, id: string, storageOk: bool,
                       now: int, retrying: Outcome,
                       planner: Planner, tools: map<string, Tool>, permissions: Permissions, env: Env, r: Outcome)
    requires Committed(before, middle, maxRetries, Move(id, Retrying, None), ValidCheckpoint, storageOk, now, retrying)
               && retrying.Ok?
    requires Executed(middle, after, planner, tools, permissions, id, env, r)
    ensures id in before.tasks && id in after.tasks && before.tasks[id].state in {UnverifiedTask, FailedTask}
    ensures after.tasks[id].retryCount == before.tasks[id].retryCount + 1 <= maxRetries
    ensures r.Ok? ==> after.tasks[id].state in {Completed, UnverifiedTask, FailedTask}
  {
    RetryingIsCounted(before, middle, maxRetries, id, storageOk, now, retrying);
    var plan := planner.Plan(id, middle.tasks[id].goal);
    CompletionIsEarned(tools, permissions, plan, env.behaviours);
    hide RunOf, ReplyTo, Proved, Committed;
  }

  lemma RetryingIsCounted(before: World, middle: World, maxRetries: int, id: string, storageOk: bool, now: int,
                          retrying: Outcome)
    requires Committed(before, middle, maxRetries, Move(id, Retrying, None), ValidCheckpoint, storageOk, now, retrying)
               && retrying.Ok?
    ensures id in before.tasks && id in middle.tasks && before.tasks[id].state in {UnverifiedTask, FailedTask}
    ensures middle.tasks[id].state == Retrying
              && middle.tasks[id].retryCount == before.tasks[id].retryCount + 1 <= maxRetries
  {
  }

  /** Main result: a task whose submission was answered with Ok is recovered after a crash at any later point,
      as the last record appended for it. */
  lemma SubmittedSurvives(before: World, created: World, after: World, maxRetries: int, id: string, goal: string,
                          correlationId: string,
                          storageOk: bool, now: int, r: Outcome, n: nat, later: int)
    requires Committed(before, created, maxRetries, Create(id, goal, correlationId, None), CreatedCheckpoint, storageOk,
               now, r) && r.Ok?
    requires created.log <= after.log && Sound(after) && |created.log| <= n <= |after.log|
    ensures var recovered := Recovered(LastAppended(after.log[..n]), later);
            && id in recovered && !InFlight(recovered[id])
            && exists k :: |before.log| <= k < n && after.log[k].record.taskId == id
                && (forall m :: k < m < n ==> after.log[m].record.taskId != id)
                && recovered[id] == Normalized(Persisted(after.log[k].record), later)
                && IsStopped(after.log[k].record.(owner := None), recovered[id], later)
  {
    hide IsStopped;
    var i := |before.log|;
    assert created.log[i].record.taskId == id;
    assert after.log[i] == created.log[i];
    SubmittedIsRecovered(after.log, i, n, later);
  }
}
