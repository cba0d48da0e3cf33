/** Task records of services/runtime/src/task-manager.ts as values: the transition table, the operations on
    the task map, and what runs of them keep. */
module TaskModel {
  import opened Wrappers
  import opened Orchestration

  datatype TaskState =
    | Created | Planning | WaitingResources | Executing | Verifying | Completed | UnverifiedTask | FailedTask
    | Retrying | Paused | WaitingUser | Cancelled

  datatype Reason = PermissionConfirmation | ClarificationRequested | Resumed | DeniedByUser

  /** What the coordinator writes into a task's step history. */
  datatype HistoryEntry =
    | PlanningFailed(error: OrchestrationError)
    | ExecutionFailed(step: ExecutionStep, error: OrchestrationError)
    | VerificationFailed(error: OrchestrationError)
    | StepDone(step: ExecutionStep, result: ExecutionResult, verdict: Verdict)

  /** A record's `reason` is set, possibly to the empty reason, when a task is cancelled or fails. */
  datatype TaskRecord = TaskRecord(
    taskId: string, goal: string, correlationId: string, owner: Option<string>, state: TaskState, retryCount: nat,
    history: seq<HistoryEntry>, waitingReason: Option<Reason>, reason: Option<Option<Reason>>, updatedAt: int)

  /** Work that a crash interrupts. */
  predicate InFlight(record: TaskRecord) {
    record.state == Executing || record.state == Verifying
  }

  type Tasks = map<string, TaskRecord>

  datatype TaskError = TaskExists | TaskMissing | IllegalTransition(source: TaskState, target: TaskState)
    | ReasonRequired | RetriesExhausted | OwnerRequired | OwnerLocked

  function Targets(s: TaskState): set<TaskState> {
    match s
    case Created => {Planning, Paused, Cancelled}
    case Planning => {WaitingResources, Executing, Paused, WaitingUser, FailedTask, Cancelled}
    case WaitingResources => {Executing, Paused, Cancelled}
    case Executing => {Verifying, FailedTask, Paused, Cancelled}
    case Verifying => {Completed, UnverifiedTask, FailedTask}
    case Completed => {}
    case UnverifiedTask => {Retrying}
    case FailedTask => {Retrying}
    case Retrying => {Planning}
    case Paused => {WaitingUser, Planning, Executing}
    case WaitingUser => {Planning, Executing, Cancelled}
    case Cancelled => {}
  }

  /** The table read backwards: the states each state can be entered from. */
  ghost function Sources(target: TaskState): set<TaskState> {
    match target
    case Created => {}
    case Planning => {Created, Retrying, Paused, WaitingUser}
    case WaitingResources => {Planning}
    case Executing => {Planning, WaitingResources, Paused, WaitingUser}
    case Verifying => {Executing}
    case Completed => {Verifying}
    case UnverifiedTask => {Verifying}
    case FailedTask => {Planning, Executing, Verifying}
    case Retrying => {UnverifiedTask, FailedTask}
    case Paused => {Created, Planning, WaitingResources, Executing}
    case WaitingUser => {Planning, Paused}
    case Cancelled => {Created, Planning, WaitingResources, Executing, WaitingUser}
  }

  lemma TargetsAreSources(source: TaskState, target: TaskState)
    ensures target in Targets(source) <==> source in Sources(target)
  {
  }

  /** The answer of a transition. */
  function Transitioned(tasks: Tasks, maxRetries: int, id: string, target: TaskState, reason: Option<Reason>,
                        now: int): Result<TaskRecord, TaskError> {
    if id !in tasks then Err(TaskMissing)
    else
      var current := tasks[id];
      if target !in Targets(current.state) then Err(IllegalTransition(current.state, target))
      else if target == WaitingUser
        && reason !in {Some(PermissionConfirmation), Some(ClarificationRequested)} then Err(ReasonRequired)
      else if target == Retrying && current.retryCount >= maxRetries then Err(RetriesExhausted)
      else Ok(TaskRecord(
        current.taskId, current.goal, current.correlationId, current.owner, target,
        if target == Retrying then current.retryCount + 1 else current.retryCount, current.history,
        if target == WaitingUser then reason else None,
        if target == Cancelled || target == FailedTask then Some(reason) else None, now))
  }

  datatype Op =
    | Create(id: string, goal: string, correlationId: string, owner: Option<string>)
    | Move(id: string, target: TaskState, reason: Option<Reason>)
    | AssignOwner(id: string, device: string)
    | AppendHistory(id: string, entry: HistoryEntry)

  function Answer(tasks: Tasks, maxRetries: int, op: Op, now: int): Result<TaskRecord, TaskError> {
    match op
    case Create(id, goal, correlationId, owner) =>
      if id in tasks then Err(TaskExists)
      else Ok(TaskRecord(id, goal, correlationId, owner, Created, 0, [], None, None, now))
    case Move(id, target, reason) => Transitioned(tasks, maxRetries, id, target, reason, now)
    case AssignOwner(id, device) =>
      if id !in tasks then Err(TaskMissing)
      else if device == "" then Err(OwnerRequired)
      else if tasks[id].state == WaitingUser && tasks[id].owner.Some?
        && tasks[id].owner.value != device then Err(OwnerLocked)
      else Ok(tasks[id].(owner := Some(device), updatedAt := now))
    case AppendHistory(id, entry) =>
      if id !in tasks then Err(TaskMissing)
      else Ok(tasks[id].(history := tasks[id].history + [entry], updatedAt := now))
  }

  /** A rejected operation changes nothing; an accepted one replaces the record of its task. */
  function Apply(tasks: Tasks, maxRetries: int, op: Op, now: int): Tasks {
    match Answer(tasks, maxRetries, op, now)
    case Ok(record) => tasks[op.id := record]
    case Err(_) => tasks
  }

  /** The tasks after a run of operations, op i at times[i]. */
  function ApplyAll(tasks: Tasks, maxRetries: int, ops: seq<Op>, times: seq<int>): Tasks
    requires |ops| == |times|
  {
    if ops == [] then tasks
    else Apply(ApplyAll(tasks, maxRetries, ops[..|ops| - 1], times[..|ops| - 1]), maxRetries, ops[|ops| - 1],
      times[|ops| - 1])
  }

  /** How often a run moved a task into Retrying. */
  ghost function RetryEntries(tasks: Tasks, maxRetries: int, ops: seq<Op>, times: seq<int>, id: string): nat
    requires |ops| == |times|
  {
    if ops == [] then 0
    else
      var n := |ops| - 1;
      var before := ApplyAll(tasks, maxRetries, ops[..n], times[..n]);
      RetryEntries(tasks, maxRetries, ops[..n], times[..n], id) +
      if ops[n].Move? && ops[n].id == id && ops[n].target == Retrying
        && Answer(before, maxRetries, ops[n], times[n]).Ok? then 1 else 0
  }

  /** Completed and Cancelled are absorbing: no interleaving of operations leaves them. */
  lemma {:induction false} FinalStatesAbsorb(tasks: Tasks, maxRetries: int, ops: seq<Op>, times: seq<int>, id: string)
    requires |ops| == |times| && id in tasks && tasks[id].state in {Completed, Cancelled}
    ensures var after := ApplyAll(tasks, maxRetries, ops, times);
            id in after && after[id].state == tasks[id].state && after[id].retryCount == tasks[id].retryCount
  {
    if ops != [] {
      FinalStatesAbsorb(tasks, maxRetries, ops[..|ops| - 1], times[..|ops| - 1], id);
    }
  }

  function RetriesAt(tasks: Tasks, id: string): nat {
    if id in tasks then tasks[id].retryCount else 0
  }

  /** From any manager, empty or just restored: a run adds to a task's retry count exactly its entries into
      Retrying, and never beyond the budget. */
  lemma {:induction false} RetriesAreCounted(tasks: Tasks, maxRetries: int, ops: seq<Op>, times: seq<int>, id: string)
    requires |ops| == |times|
    ensures var after := ApplyAll(tasks, maxRetries, ops, times);
            && (id in tasks ==> id in after)
            && RetriesAt(after, id) == RetriesAt(tasks, id) + RetryEntries(tasks, maxRetries, ops, times, id)
            && (RetriesAt(after, id) == RetriesAt(tasks, id) || RetriesAt(after, id) <= maxRetries)
  {
    if ops != [] {
      RetriesAreCounted(tasks, maxRetries, ops[..|ops| - 1], times[..|ops| - 1], id);
    }
  }

  /** In particular, starting from nothing the count is the number of entries and within the budget. */
  lemma RetriesFromNothing(maxRetries: int, ops: seq<Op>, times: seq<int>, id: string)
    requires |ops| == |times| && id in ApplyAll(map[], maxRetries, ops, times)
    ensures var count := ApplyAll(map[], maxRetries, ops, times)[id].retryCount;
            count == RetryEntries(map[], maxRetries, ops, times, id) && (count == 0 || count <= maxRetries)
  {
    RetriesAreCounted(map[], maxRetries, ops, times, id);
  }

  /** Every state change of a run is one the table allows. */
  lemma StateChangesAreAllowed(tasks: Tasks, maxRetries: int, op: Op, now: int, id: string)
    requires id in tasks
    ensures var after := Apply(tasks, maxRetries, op, now);
            id in after && (after[id].state == tasks[id].state || after[id].state in Targets(tasks[id].state))
  {
  }
}
