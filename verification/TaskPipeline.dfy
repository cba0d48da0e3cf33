/** What one run of services/runtime/src/runtime-task-coordinator.ts:execute comes to: how a task ends, and what
    that says about its plan and the answers of its tools. */
module TaskPipelines {
  import opened Wrappers
  import opened Orchestration
  import opened TaskModel

  type Reply = Result<ExecutionResult, OrchestrationError>

  type Plan = Result<seq<ExecutionStep>, OrchestrationError>

  /** What the executor replies to a step that carries no approval; locks play no part in it. */
  function ReplyTo(tools: map<string, Tool>, permissions: Permissions, step: ExecutionStep,
                   behaviour: Behaviour): Reply {
    match Admitted(tools, permissions, step)
    case Err(e) => Err(e)
    case Ok(action) => Orchestration.Answer(step, action, behaviour)
  }

  function Replies(tools: map<string, Tool>, permissions: Permissions, steps: seq<ExecutionStep>,
                   behaviours: nat -> Behaviour): (replies: seq<Reply>)
    ensures |replies| == |steps|
  {
    seq(|steps|, i requires 0 <= i < |steps| => ReplyTo(tools, permissions, steps[i], behaviours(i)))
  }

  /** The index of the first rejected step, or the number of steps. */
  function FirstError(replies: seq<Reply>): (k: nat)
    ensures k <= |replies|
    ensures forall i :: 0 <= i < k ==> replies[i].Ok?
    ensures k < |replies| ==> replies[k].Err?
  {
    if replies == [] || replies[0].Err? then 0 else 1 + FirstError(replies[1..])
  }

  predicate AllOk(replies: seq<Reply>) {
    forall i :: 0 <= i < |replies| ==> replies[i].Ok?
  }

  function Verdicts(steps: seq<ExecutionStep>,
                    replies: seq<Reply>): (verdicts: seq<Result<Verdict, OrchestrationError>>)
    requires |steps| == |replies| && AllOk(replies)
    ensures |verdicts| == |steps|
  {
    seq(|steps|, i requires 0 <= i < |steps| => Verify(steps[i], replies[i].value))
  }

  predicate Mismatched(verdicts: seq<Result<Verdict, OrchestrationError>>) {
    exists i :: 0 <= i < |verdicts| && verdicts[i].Err?
  }

  predicate Judged(verdicts: seq<Result<Verdict, OrchestrationError>>, outcome: Outcome) {
    exists i :: 0 <= i < |verdicts| && verdicts[i].Ok? && verdicts[i].value.outcome == outcome
  }

  function Entries(steps: seq<ExecutionStep>, replies: seq<Reply>): (entries: seq<HistoryEntry>)
    requires |steps| == |replies| && AllOk(replies) && !Mismatched(Verdicts(steps, replies))
    ensures |entries| == |steps|
  {
    seq(|steps|, i requires 0 <= i < |steps| => EntryAt(steps, replies, i))
  }

  function EntryAt(steps: seq<ExecutionStep>, replies: seq<Reply>, i: nat): HistoryEntry
    requires i < |steps| == |replies| && AllOk(replies) && !Mismatched(Verdicts(steps, replies))
  {
    assert Verdicts(steps, replies)[i].Ok?;
    StepDone(steps[i], replies[i].value, Verify(steps[i], replies[i].value).value)
  }

  /** The state a run ends in and what it adds to the step history. */
  datatype Ending = Ending(state: TaskState, entries: seq<HistoryEntry>)

  function EndingOf(plan: Plan, replies: seq<Reply>): Ending
    requires plan.Ok? ==> |replies| == |plan.value|
  {
    if plan.Err? then Ending(FailedTask, [PlanningFailed(plan.error)])
    else if plan.value == [] then Ending(FailedTask, [PlanningFailed(EmptyPlan)])
    else if FirstError(replies) < |replies| then
      Ending(FailedTask, [ExecutionFailed(plan.value[FirstError(replies)], replies[FirstError(replies)].error)])
    else
      var verdicts := Verdicts(plan.value, replies);
      if Mismatched(verdicts) then Ending(FailedTask, [VerificationFailed(StepMismatch)])
      else Ending(OutcomeOf(verdicts), Entries(plan.value, replies))
  }

  function OutcomeOf(verdicts: seq<Result<Verdict, OrchestrationError>>): TaskState {
    if Judged(verdicts, Failed) then FailedTask
    else if Judged(verdicts, Unverified) then UnverifiedTask
    else Completed
  }

  /** How a run on a plan ends with these tools. */
  function RunOf(tools: map<string, Tool>, permissions: Permissions, plan: Plan, behaviours: nat -> Behaviour): Ending {
    EndingOf(plan, if plan.Ok? then Replies(tools, permissions, plan.value, behaviours) else [])
  }

  predicate Succeeded(reply: Reply) {
    reply.Ok? && reply.value.status == Success
  }

  predicate Proved(reply: Reply) {
    reply.Ok? && reply.value.status == Success && reply.value.evidence != NoSignal
  }

  /** The executor answers under the identifier of the step it was given. */
  lemma RepliesFit(tools: map<string, Tool>, permissions: Permissions, step: ExecutionStep, behaviour: Behaviour)
    ensures var reply := ReplyTo(tools, permissions, step, behaviour);
            reply.Ok? ==>
              && Verify(step, reply.value).Ok?
              && (Verify(step, reply.value).value == Verdict(step.stepId, Verified) <==> Proved(reply))
              && (Verify(step, reply.value).value.outcome == Verified <==> Proved(reply))
              && (Verify(step, reply.value).value.outcome == Failed <==> reply.value.status != Success)
  {
    hide Admitted;
    if Admitted(tools, permissions, step).Ok? {
      AnswersAreVerifiable(step, Admitted(tools, permissions, step).value, behaviour);
    }
  }

  lemma VerdictsFit(tools: map<string, Tool>, permissions: Permissions, steps: seq<ExecutionStep>,
                    behaviours: nat -> Behaviour)
    requires AllOk(Replies(tools, permissions, steps, behaviours))
    ensures var replies := Replies(tools, permissions, steps, behaviours);
            var verdicts := Verdicts(steps, replies);
            && !Mismatched(verdicts)
            && forall i :: 0 <= i < |steps| ==>
                 verdicts[i].Ok? && (verdicts[i].value.outcome == Verified <==> Proved(replies[i]))
                 && (Proved(replies[i]) ==> verdicts[i].value == Verdict(steps[i].stepId, Verified))
                 && (verdicts[i].value.outcome == Failed <==> replies[i].value.status != Success)
  {
    hide Proved, Verify, ReplyTo;
    forall i | 0 <= i < |steps|
      ensures var replies := Replies(tools, permissions, steps, behaviours);
              var verdicts := Verdicts(steps, replies);
              verdicts[i].Ok? && (verdicts[i].value.outcome == Verified <==> Proved(replies[i]))
              && (Proved(replies[i]) ==> verdicts[i].value == Verdict(steps[i].stepId, Verified))
              && (verdicts[i].value.outcome == Failed <==> replies[i].value.status != Success)
    {
      RepliesFit(tools, permissions, steps[i], behaviours(i));
    }
  }

  /** Verification never finds a mismatch. */
  lemma MismatchIsUnreachable(tools: map<string, Tool>, permissions: Permissions, plan: Plan,
                              behaviours: nat -> Behaviour, e: OrchestrationError)
    ensures VerificationFailed(e) !in RunOf(tools, permissions, plan, behaviours).entries
  {
    hide Verdicts, Mismatched, OutcomeOf, Replies;
    if plan.Ok? {
      var replies := Replies(tools, permissions, plan.value, behaviours);
      if FirstError(replies) == |replies| {
        VerdictsFit(tools, permissions, plan.value, behaviours);
      }
    }
  }

  lemma OutcomeIsStrict(verdicts: seq<Result<Verdict, OrchestrationError>>)
    requires !Mismatched(verdicts)
    ensures OutcomeOf(verdicts) == Completed <==> forall i :: 0 <= i < |verdicts| ==>
              verdicts[i].Ok? && verdicts[i].value.outcome == Verified
    ensures OutcomeOf(verdicts) == FailedTask <==>
              exists i :: 0 <= i < |verdicts| && verdicts[i].Ok? && verdicts[i].value.outcome == Failed
    ensures OutcomeOf(verdicts) in {Completed, UnverifiedTask, FailedTask}
  {
    if i :| 0 <= i < |verdicts| && verdicts[i].Ok? && verdicts[i].value.outcome != Verified {
      assert Judged(verdicts, verdicts[i].value.outcome);
    }
  }

  /** Main result: a run completes exactly when its plan has steps and every one of them succeeded with
      evidence. */
  lemma CompletionIsEarned(tools: map<string, Tool>, permissions: Permissions, plan: Plan, behaviours: nat -> Behaviour)
    ensures RunOf(tools, permissions, plan, behaviours).state == Completed <==>
              plan.Ok? && plan.value != []
              && forall i :: 0 <= i < |plan.value| ==> Proved(ReplyTo(tools, permissions, plan.value[i], behaviours(i)))
    ensures RunOf(tools, permissions, plan, behaviours).state in {Completed, UnverifiedTask, FailedTask}
  {
    hide Verdicts, Mismatched, OutcomeOf, ReplyTo;
    if plan.Ok? {
      var replies := Replies(tools, permissions, plan.value, behaviours);
      if FirstError(replies) == |replies| {
        VerdictsFit(tools, permissions, plan.value, behaviours);
        OutcomeIsStrict(Verdicts(plan.value, replies));
      } else {
        var k := FirstError(replies);
        assert replies[k] == ReplyTo(tools, permissions, plan.value[k], behaviours(k));
      }
    }
  }

  /** A run fails exactly when it has no steps, or one of them was rejected or did not succeed; what is left,
      success without evidence somewhere, stays unverified. */
  lemma FailureIsReported(tools: map<string, Tool>, permissions: Permissions, plan: Plan, behaviours: nat -> Behaviour)
    ensures RunOf(tools, permissions, plan, behaviours).state == FailedTask <==>
              plan.Err? || plan.value == []
              || exists i :: 0 <= i < |plan.value|
                   && !Succeeded(ReplyTo(tools, permissions, plan.value[i], behaviours(i)))
  {
    hide Verdicts, Mismatched, OutcomeOf, ReplyTo;
    if plan.Ok? && plan.value != [] {
      var steps, replies := plan.value, Replies(tools, permissions, plan.value, behaviours);
      var k := FirstError(replies);
      if k == |replies| {
        VerdictsFit(tools, permissions, steps, behaviours);
        OutcomeIsStrict(Verdicts(steps, replies));
        forall i | 0 <= i < |steps|
          ensures Verdicts(steps, replies)[i].value.outcome == Failed <==>
                    !Succeeded(ReplyTo(tools, permissions, steps[i], behaviours(i)))
        {
          assert replies[i] == ReplyTo(tools, permissions, steps[i], behaviours(i));
        }
      } else {
        assert !Succeeded(ReplyTo(tools, permissions, steps[k], behaviours(k)));
      }
    }
  }

  /** A completed run leaves one verified entry for each step, in the order of the plan. */
  lemma CompletionIsRecorded(tools: map<string, Tool>, permissions: Permissions, plan: Plan,
                             behaviours: nat -> Behaviour, i: nat)
    requires RunOf(tools, permissions, plan, behaviours).state == Completed
    ensures plan.Ok? && |RunOf(tools, permissions, plan, behaviours).entries| == |plan.value|
    ensures i < |plan.value| ==>
              RunOf(tools, permissions, plan, behaviours).entries[i] ==
                StepDone(plan.value[i], ReplyTo(tools, permissions, plan.value[i], behaviours(i)).value,
                         Verdict(plan.value[i].stepId, Verified))
  {
    CompletionIsEarned(tools, permissions, plan, behaviours);
    hide ReplyTo, Verify, OutcomeOf;
    if i < |plan.value| {
      VerdictsFit(tools, permissions, plan.value, behaviours);
      var replies := Replies(tools, permissions, plan.value, behaviours);
      assert Verdicts(plan.value, replies)[i].value == Verdict(plan.value[i].stepId, Verified);
    }
  }

  // ----- In terms of the tools

  /** What the tool of a step returned, if it was invoked and did not throw: the step's tool is known and
      allowed, and its action only reads and leaves a trace. */
  ghost function Returned(tools: map<string, Tool>, permissions: Permissions, step: ExecutionStep,
                          behaviour: Behaviour): Option<ExecutionResult> {
    var action := Available(tools, permissions, step);
    if action.Some? && action.value.riskTier == ReadOnly && action.value.signal != NoSignal && behaviour.Returns?
      then Some(ExecutionResult(step.stepId, behaviour.status, behaviour.evidence)) else None
  }

  ghost predicate NotApproved(steps: seq<ExecutionStep>) {
    forall i :: 0 <= i < |steps| ==> steps[i].confirmation != Approved
  }

  ghost function OutcomeIn(result: ExecutionResult): Outcome {
    if result.status != Success then Failed else if result.evidence == NoSignal then Unverified else Verified
  }

  ghost function ResultsOf(tools: map<string, Tool>, permissions: Permissions, steps: seq<ExecutionStep>,
                           behaviours: nat -> Behaviour): (results: seq<ExecutionResult>)
    requires forall i :: 0 <= i < |steps| ==> Returned(tools, permissions, steps[i], behaviours(i)).Some?
    ensures |results| == |steps|
  {
    seq(|steps|, i requires 0 <= i < |steps| => Returned(tools, permissions, steps[i], behaviours(i)).value)
  }

  ghost predicate Contains(results: seq<ExecutionResult>, outcome: Outcome) {
    exists i :: 0 <= i < |results| && OutcomeIn(results[i]) == outcome
  }

  lemma ReplyIsReturned(tools: map<string, Tool>, permissions: Permissions, step: ExecutionStep, behaviour: Behaviour)
    requires step.confirmation != Approved
    ensures var reply := ReplyTo(tools, permissions, step, behaviour);
            var returned := Returned(tools, permissions, step, behaviour);
            && (reply.Ok? <==> returned.Some?)
            && (reply.Ok? ==>
                  && reply.value == returned.value
                  && Verify(step, reply.value) == Ok(Verdict(step.stepId, OutcomeIn(reply.value))))
  {
    var admitted := Admitted(tools, permissions, step);
    AdmittedIff(tools, permissions, step);
    if admitted.Ok? {
      AnswersAreVerifiable(step, admitted.value, behaviour);
    }
    hide Admitted, Available;
  }

  /** A run ends at the first step whose tool returned nothing, and records the step with its error. */
  lemma RunIsRejected(tools: map<string, Tool>, permissions: Permissions, plan: Plan, behaviours: nat -> Behaviour,
                      k: nat)
    requires plan.Ok? && NotApproved(plan.value) && k < |plan.value|
    requires Returned(tools, permissions, plan.value[k], behaviours(k)) == None
    requires forall i :: 0 <= i < k ==> Returned(tools, permissions, plan.value[i], behaviours(i)).Some?
    ensures var reply := ReplyTo(tools, permissions, plan.value[k], behaviours(k));
            && reply.Err?
            && RunOf(tools, permissions, plan, behaviours) ==
                 Ending(FailedTask, [ExecutionFailed(plan.value[k], reply.error)])
  {
    hide Returned, ReplyTo, Verdicts, Mismatched, OutcomeOf;
    var replies := Replies(tools, permissions, plan.value, behaviours);
    forall i | 0 <= i <= k ensures replies[i].Ok? <==> i < k {
      ReplyIsReturned(tools, permissions, plan.value[i], behaviours(i));
    }
    assert replies[k].Err? && forall i :: 0 <= i < k ==> replies[i].Ok?;
  }

  /** If all tools returned, each step is recorded with its result and its verdict, and the worst one decides. */
  lemma RunIsJudged(tools: map<string, Tool>, permissions: Permissions, plan: Plan, behaviours: nat -> Behaviour)
    requires plan.Ok? && plan.value != [] && NotApproved(plan.value)
    requires forall i :: 0 <= i < |plan.value| ==> Returned(tools, permissions, plan.value[i], behaviours(i)).Some?
    ensures var run, steps := RunOf(tools, permissions, plan, behaviours), plan.value;
            var results := ResultsOf(tools, permissions, steps, behaviours);
            && run.state == (if Contains(results, Failed) then FailedTask
                             else if Contains(results, Unverified) then UnverifiedTask
                             else Completed)
            && |run.entries| == |steps|
            && forall i :: 0 <= i < |steps| ==>
                 run.entries[i] == StepDone(steps[i], results[i], Verdict(steps[i].stepId, OutcomeIn(results[i])))
  {
    hide Returned, ReplyTo, Verify, OutcomeIn, Contains, Judged;
    var steps, replies := plan.value, Replies(tools, permissions, plan.value, behaviours);
    var results := ResultsOf(tools, permissions, steps, behaviours);
    forall i | 0 <= i < |steps|
      ensures replies[i].Ok? && replies[i].value == results[i]
      ensures Verify(steps[i], replies[i].value) == Ok(Verdict(steps[i].stepId, OutcomeIn(results[i])))
    {
      ReplyIsReturned(tools, permissions, steps[i], behaviours(i));
    }
    assert FirstError(replies) == |replies|;
    JudgedByResults(steps, Verdicts(steps, replies), results, Failed);
    JudgedByResults(steps, Verdicts(steps, replies), results, Unverified);
  }

  lemma JudgedByResults(steps: seq<ExecutionStep>, verdicts: seq<Result<Verdict, OrchestrationError>>,
                        results: seq<ExecutionResult>, outcome: Outcome)
    requires |steps| == |verdicts| == |results|
    requires forall i :: 0 <= i < |steps| ==> verdicts[i] == Ok(Verdict(steps[i].stepId, OutcomeIn(results[i])))
    ensures Judged(verdicts, outcome) <==> Contains(results, outcome)
  {
    hide OutcomeIn;
    if i :| 0 <= i < |results| && OutcomeIn(results[i]) == outcome {
      assert verdicts[i].value.outcome == outcome;
    }
  }

  /** Completion and failure by what the tools returned. */
  lemma EndingIsEarned(tools: map<string, Tool>, permissions: Permissions, plan: Plan, behaviours: nat -> Behaviour)
    requires plan.Ok? ==> NotApproved(plan.value)
    ensures var state := RunOf(tools, permissions, plan, behaviours).state;
            && (state == Completed <==>
                 && plan.Ok? && plan.value != []
                 && forall i :: 0 <= i < |plan.value| ==>
                      var returned := Returned(tools, permissions, plan.value[i], behaviours(i));
                      returned.Some? && returned.value.status == Success && returned.value.evidence != NoSignal)
            && (state == FailedTask <==>
                 || plan.Err? || plan.value == []
                 || exists i :: 0 <= i < |plan.value| &&
                      var returned := Returned(tools, permissions, plan.value[i], behaviours(i));
                      returned == None || returned.value.status != Success)
            && state in {Completed, UnverifiedTask, FailedTask}
  {
    CompletionIsEarned(tools, permissions, plan, behaviours);
    FailureIsReported(tools, permissions, plan, behaviours);
    hide RunOf, ReplyTo, Returned, Verify;
    if plan.Ok? {
      forall i | 0 <= i < |plan.value|
        ensures var reply := ReplyTo(tools, permissions, plan.value[i], behaviours(i));
                var returned := Returned(tools, permissions, plan.value[i], behaviours(i));
                (reply.Ok? <==> returned.Some?) && (reply.Ok? ==> reply.value == returned.value)
      {
        ReplyIsReturned(tools, permissions, plan.value[i], behaviours(i));
      }
    }
  }
}
