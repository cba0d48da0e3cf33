/** Planning, permission, execution and verification of services/runtime/src/orchestration.ts. */
module Orchestration {
  import opened Wrappers
  import opened ResourceModel
  import opened ResourceManagers

  datatype RiskTier = ReadOnly | ReversibleWrite | DestructiveIrreversible

  datatype Signal = ExitCode | ApiResponse | FileHash | AccessibilityState | NoSignal

  datatype Confirmation = NotRequired | Pending | Approved | Denied

  datatype ExecutionStatus = Success | Failure | Partial

  datatype ExecutionStep = ExecutionStep(
    stepId: string, taskId: string, capabilityId: string, toolId: string, actionId: string,
    riskTier: RiskTier, requiredLocks: set<string>, timeoutMs: int, correlationIsUuid: bool, confirmation: Confirmation)

  datatype ExecutionResult = ExecutionResult(stepId: string, status: ExecutionStatus, evidence: Signal)

  datatype Outcome = Verified | Unverified | Failed

  datatype Verdict = Verdict(stepId: string, outcome: Outcome)

  datatype OrchestrationError =
    | InvalidPlan | NoPlanner | EmptyPlan
    | ToolUnavailable | OutsideAllowlist | ActionUnavailable | ConfirmationRequired
    | LocksQueued | InvocationFailed(retryable: bool) | StepMismatch

  /** The contract every planned step has to meet. */
  predicate SchemaOk(s: ExecutionStep) {
    s.stepId != "" && s.taskId != "" && s.capabilityId != "" && s.toolId != "" && s.actionId != ""
    && s.timeoutMs > 0 && s.correlationIsUuid
  }

  function Normalize(candidate: ExecutionStep, taskId: string): ExecutionStep {
    candidate.(taskId := taskId, confirmation := if candidate.confirmation == Approved then Pending
      else candidate.confirmation)
  }

  function NormalizeAll(candidates: seq<ExecutionStep>, taskId: string): seq<ExecutionStep> {
    seq(|candidates|, i requires 0 <= i < |candidates| => Normalize(candidates[i], taskId))
  }

  /** Known goals resolve to one fixed step; others go to a model planner, if there is one. */
  datatype Planner = Planner(deterministic: map<string, ExecutionStep>, model: Option<string -> seq<ExecutionStep>>) {

    function Plan(taskId: string, goal: string): Result<seq<ExecutionStep>, OrchestrationError> {
      if goal in deterministic then
        var step := deterministic[goal].(taskId := taskId, confirmation := NotRequired);
        if SchemaOk(step) then Ok([step]) else Err(InvalidPlan)
      else if model == None then Err(NoPlanner)
      else
        var steps := NormalizeAll(model.value(goal), taskId);
        if forall i :: 0 <= i < |steps| ==> SchemaOk(steps[i]) then Ok(steps) else Err(InvalidPlan)
    }
  }

  /** No planned step is approved, whatever the model answers, and each belongs to the task. */
  lemma PlansAreNeverApproved(planner: Planner, taskId: string, goal: string)
    ensures var plan := planner.Plan(taskId, goal);
            plan.Ok? ==> forall s :: s in plan.value ==> s.confirmation != Approved && s.taskId == taskId && SchemaOk(s)
  {
  }

  /** Something a step must not be: nameless somewhere, without a time limit, or without a proper correlation. */
  ghost predicate Defective(s: ExecutionStep) {
    "" in {s.stepId, s.capabilityId, s.toolId, s.actionId} || s.timeoutMs <= 0 || !s.correlationIsUuid
  }

  ghost predicate AnyDefective(taskId: string, given: seq<ExecutionStep>) {
    exists i :: 0 <= i < |given| && (taskId == "" || Defective(given[i]))
  }

  /** A known goal yields its one step; otherwise every step the model gave is in the plan, in order, and only its
      task and an approval have been replaced. A plan is refused exactly when a step is defective. */
  lemma PlansKeepTheSteps(planner: Planner, taskId: string, goal: string)
    ensures var plan := planner.Plan(taskId, goal);
            if goal in planner.deterministic then
              var known := planner.deterministic[goal];
              if taskId == "" || Defective(known) then plan == Err(InvalidPlan)
              else plan == Ok([known.(taskId := taskId, confirmation := NotRequired)])
            else if planner.model == None then plan == Err(NoPlanner)
            else
              var given := planner.model.value(goal);
              if AnyDefective(taskId, given) then plan == Err(InvalidPlan)
              else
                && plan.Ok? && |plan.value| == |given|
                && forall i :: 0 <= i < |given| ==>
                     plan.value[i] == given[i].(taskId := taskId, confirmation :=
                       if given[i].confirmation == Approved then Pending else given[i].confirmation)
  {
    hide SchemaOk, Defective;
    if goal in planner.deterministic {
      SchemaIsDefective(planner.deterministic[goal].(taskId := taskId, confirmation := NotRequired));
      DefectsAreKept(planner.deterministic[goal], taskId, NotRequired);
    } else if planner.model.Some? {
      var given := planner.model.value(goal);
      var steps := NormalizeAll(given, taskId);
      forall i | 0 <= i < |given| ensures SchemaOk(steps[i]) <==> taskId != "" && !Defective(given[i]) {
        SchemaIsDefective(steps[i]);
        DefectsAreKept(given[i], taskId, steps[i].confirmation);
      }
      if AnyDefective(taskId, given) {
        var i :| 0 <= i < |given| && (taskId == "" || Defective(given[i]));
        assert !SchemaOk(steps[i]);
      }
    }
  }

  lemma SchemaIsDefective(s: ExecutionStep)
    ensures SchemaOk(s) <==> s.taskId != "" && !Defective(s)
  {
  }

  lemma DefectsAreKept(s: ExecutionStep, taskId: string, confirmation: Confirmation)
    ensures Defective(s.(taskId := taskId, confirmation := confirmation)) <==> Defective(s)
  {
  }

  datatype ToolAction = ToolAction(riskTier: RiskTier, signal: Signal, idempotent: bool)

  datatype Tool = Tool(toolId: string, actions: map<string, ToolAction>)

  datatype Permissions = Permissions(allowedToolIds: set<string>, confirmationTimeoutMs: int) {

    function Authorize(step: ExecutionStep, tool: Tool): Result<(), OrchestrationError> {
      if tool.toolId !in allowedToolIds then Err(OutsideAllowlist)
      else if step.actionId !in tool.actions then Err(ActionUnavailable)
      else
        var action := tool.actions[step.actionId];
        if action.riskTier == ReadOnly && action.signal != NoSignal then Ok(())
        else if step.confirmation != Approved || confirmationTimeoutMs <= 0 then Err(ConfirmationRequired)
        else Ok(())
    }
  }

  /** What a tool does when invoked: it throws, or it returns a status with evidence. */
  datatype Behaviour = Throws | Returns(status: ExecutionStatus, evidence: Signal)

  datatype Invocation = Invocation(taskId: string, action: ToolAction)

  /** Whether a step gets as far as asking for locks, and with which action. */
  function Admitted(tools: map<string, Tool>, permissions: Permissions,
                    step: ExecutionStep): Result<ToolAction, OrchestrationError> {
    if step.toolId !in tools then Err(ToolUnavailable)
    else match permissions.Authorize(step, tools[step.toolId])
         case Err(e) => Err(e)
         case Ok(_) => Ok(tools[step.toolId].actions[step.actionId])
  }

  /** The answer of an invocation, always under the identifier of the step. */
  function Answer(step: ExecutionStep, action: ToolAction,
                  behaviour: Behaviour): Result<ExecutionResult, OrchestrationError> {
    match behaviour
    case Throws => Err(InvocationFailed(action.idempotent))
    case Returns(status, evidence) => Ok(ExecutionResult(step.stepId, status, evidence))
  }

  class Executor {
    const tools: map<string, Tool>
    const permissions: Permissions
    const resources: ResourceManager
    var invocations: seq<Invocation>  // the tool actions invoked so far

    ghost predicate Valid()
      reads this, resources
    {
      resources.Valid()
    }

    constructor (tools: map<string, Tool>, permissions: Permissions, resources: ResourceManager)
      requires resources.Valid()
      ensures Valid() && this.tools == tools && this.permissions == permissions && this.resources == resources
                && invocations == []
    {
      this.tools, this.permissions, this.resources := tools, permissions, resources;
      invocations := [];
    }

    /** A write takes its locks for the duration of the invocation; a step whose locks are taken is
        rejected, with its request left in the queue. */
    method Execute(step: ExecutionStep, behaviour: Behaviour, now: int)
      returns (r: Result<ExecutionResult, OrchestrationError>)
      requires Valid()
      modifies this, resources
      ensures Valid()
      ensures var admitted := Admitted(tools, permissions, step);
              var before := old(resources.View());
              if admitted.Err? then
                r == Err(admitted.error) && resources.View() == before && invocations == old(invocations)
              else if admitted.value.riskTier == ReadOnly then
                r == Answer(step, admitted.value, behaviour) && resources.View() == before
                && invocations == old(invocations) + [Invocation(step.taskId, admitted.value)]
              else if HeldByOther(before.held, step.taskId, step.requiredLocks) then
                r == Err(LocksQueued) && resources.View() == Step(before, Acquire(step.taskId, step.requiredLocks), now)
                && invocations == old(invocations)
              else
                r == Answer(step, admitted.value, behaviour)
                && resources.View() == Step(Step(before, Acquire(step.taskId, step.requiredLocks), now),
                     Release(step.taskId), now)
                && invocations == old(invocations) + [Invocation(step.taskId, admitted.value)]
    {
      if step.toolId !in tools {
        return Err(ToolUnavailable);
      }
      var tool := tools[step.toolId];
      var permission := permissions.Authorize(step, tool);
      if permission.Err? {
        return Err(permission.error);
      }
      var action := tool.actions[step.actionId];
      hide Scan, Taken, Freed;
      var lockGranted := false;
      if action.riskTier != ReadOnly {
        var grant := resources.Acquire(step.taskId, step.requiredLocks, now);
        if grant.Queued? {
          return Err(LocksQueued);
        }
        lockGranted := true;
      }
      invocations := invocations + [Invocation(step.taskId, action)];
      r := Answer(step, action, behaviour);
      if lockGranted {
        var granted := resources.Release(step.taskId, now);
      }
    }
  }

  /** The action of a step if its tool is known, allowed and has it. */
  ghost function Available(tools: map<string, Tool>, permissions: Permissions,
                           step: ExecutionStep): Option<ToolAction> {
    if step.toolId in tools && tools[step.toolId].toolId in permissions.allowedToolIds
      && step.actionId in tools[step.toolId].actions then Some(tools[step.toolId].actions[step.actionId]) else None
  }

  /** An available action that only reads and leaves a trace is admitted, and so is any other that was approved
      while approvals are possible; each refusal has its own condition. */
  lemma AdmittedIff(tools: map<string, Tool>, permissions: Permissions, step: ExecutionStep)
    ensures var r, action := Admitted(tools, permissions, step), Available(tools, permissions, step);
            && (r.Ok? <==>
                 && action.Some?
                 && ((action.value.riskTier == ReadOnly && action.value.signal != NoSignal)
                     || (step.confirmation == Approved && permissions.confirmationTimeoutMs > 0)))
            && (r.Ok? ==> r.value == action.value)
            && (r == Err(ToolUnavailable) <==> step.toolId !in tools)
            && (r == Err(OutsideAllowlist) <==>
                 step.toolId in tools && tools[step.toolId].toolId !in permissions.allowedToolIds)
            && (r == Err(ActionUnavailable) <==>
                 && step.toolId in tools && tools[step.toolId].toolId in permissions.allowedToolIds
                 && step.actionId !in tools[step.toolId].actions)
            && (r == Err(ConfirmationRequired) <==> r.Err? && action.Some?)
  {
  }

  /** Without an approval only read-only actions with a verification signal are admitted. */
  lemma UnapprovedIsReadOnly(tools: map<string, Tool>, permissions: Permissions, step: ExecutionStep)
    requires step.confirmation != Approved
    ensures var admitted := Admitted(tools, permissions, step);
            admitted.Ok? ==> admitted.value.riskTier == ReadOnly && admitted.value.signal != NoSignal
  {
  }

  function Verify(step: ExecutionStep, result: ExecutionResult): Result<Verdict, OrchestrationError> {
    if step.stepId != result.stepId then Err(StepMismatch)
    else if result.status != Success then Ok(Verdict(step.stepId, Failed))
    else if result.evidence == NoSignal then Ok(Verdict(step.stepId, Unverified))
    else Ok(Verdict(step.stepId, Verified))
  }

  /** What the executor answers always fits the step it was given, so verification never rejects it. */
  lemma AnswersAreVerifiable(step: ExecutionStep, action: ToolAction, behaviour: Behaviour)
    ensures var answer := Answer(step, action, behaviour);
            answer.Ok? ==>
              && Verify(step, answer.value).Ok?
              && (Verify(step, answer.value).value.outcome == Verified <==>
                    behaviour.status == Success && behaviour.evidence != NoSignal)
    ensures behaviour.Throws? ==> Answer(step, action, behaviour) == Err(InvocationFailed(action.idempotent))
    ensures behaviour.Returns? ==>
              Answer(step, action, behaviour) ==
                Ok(ExecutionResult(step.stepId, behaviour.status, behaviour.evidence))
  {
  }

  /** A verdict is about its step: failed without success, unverified without evidence. */
  lemma VerdictIff(step: ExecutionStep, result: ExecutionResult)
    ensures var r := Verify(step, result);
            && (r == Err(StepMismatch) <==> step.stepId != result.stepId)
            && (r == Ok(Verdict(step.stepId, Failed)) <==> step.stepId == result.stepId && result.status != Success)
            && (r == Ok(Verdict(step.stepId, Unverified)) <==>
                 step.stepId == result.stepId && result.status == Success && result.evidence == NoSignal)
            && (r == Ok(Verdict(step.stepId, Verified)) <==>
                 step.stepId == result.stepId && result.status == Success && result.evidence != NoSignal)
  {
  }

  /** A step rejected because its locks are taken leaves a request of its task in the queue, new or from
      before. Releases of other tasks grant it, to a task that has stopped asking, exactly when the task holds
      none of the resources of that request. */
  lemma AbandonedRequestIsGrantableIff(before: Table, task: string, locks: set<string>, q: Request, now: int)
    requires Sound(before) && HeldByOther(before.held, task, locks)
    requires q in Step(before, Acquire(task, locks), now).queued && q.task == task
    ensures (exists tasks :: task !in tasks
              && Obtained(AfterReleases(Step(before, Acquire(task, locks), now), tasks, now), q))
            <==> !OwnOverlap(before.held, q)
  {
    StepKeepsSound(before, Acquire(task, locks), now);
    GrantableIff(Step(before, Acquire(task, locks), now), q, now);
  }

  /** There is exactly one such request: the one just made, unless the task was waiting already. */
  lemma RejectionLeavesRequest(before: Table, task: string, locks: set<string>, now: int) returns (q: Request)
    requires Sound(before) && HeldByOther(before.held, task, locks)
    ensures q in Step(before, Acquire(task, locks), now).queued && q.task == task
    ensures !IsQueued(before.queued, task) ==> q == Request(task, locks)
    ensures forall p :: p in Step(before, Acquire(task, locks), now).queued && p.task == task ==> p == q
  {
    var after := Step(before, Acquire(task, locks), now);
    StepKeepsSound(before, Acquire(task, locks), now);
    var i :| 0 <= i < |after.queued| && after.queued[i].task == task
      && (!IsQueued(before.queued, task) ==> i == |before.queued|);
    q := after.queued[i];
    forall p | p in after.queued && p.task == task ensures p == q {
      var j :| 0 <= j < |after.queued| && after.queued[j] == p;
      assert TasksOf(after.queued)[j] == TasksOf(after.queued)[i];
    }
  }

  /** Nothing but the locks of others stands in the way in the simplest case: one holder, an empty queue. */
  lemma AbandonedRequestIsGranted(before: Table, task: string, holder: string, locks: set<string>, now: int)
    requires before.queued == [] && task != holder && locks != {}
    requires forall r :: r in locks ==> r in before.held && before.held[r].task == holder
    ensures HeldByOther(before.held, task, locks)
    ensures Obtained(Step(Step(before, Acquire(task, locks), now), Release(holder), now), Request(task, locks))
  {
    var r :| r in locks;
    var queued := Step(before, Acquire(task, locks), now);
    assert queued.queued == [Request(task, locks)];
    var freed := Freed(queued.held, holder);
    assert locks !! freed.Keys;
    assert queued.queued[1..] == [];
    var rest := Scan(Taken(freed, Request(task, locks), now), [], now);
    assert Scan(freed, queued.queued, now).0.held == rest.0.held == Taken(freed, Request(task, locks), now);
  }
}
