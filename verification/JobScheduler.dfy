/** The scheduler of services/runtime/src/job-scheduler.ts: one pass runs the due jobs in order, each after
    its due dependencies, by a recursion that detects cycles on the way. */
module JobSchedulers {
  import opened Wrappers
  import opened Graphs
  import opened Sorting
  import opened CronSchedules
  import opened JobModel
  import opened JobPasses

  datatype SchedulerError = DuplicateJob | SelfDependency | InvalidDefinition | NoOccurrence

  /** Normal priority before low, then the earlier occurrence. */
  predicate RunsBefore(left: JobState, right: JobState) {
    if left.definition.priority != right.definition.priority then left.definition.priority == Normal
    else left.nextRunAt <= right.nextRunAt
  }

  /** The jobs found due: the job at position i is looked at when the clock reads readings[i]. */
  function DueList(order: seq<string>, jobs: Jobs, readings: seq<int>): seq<JobState>
    requires |readings| == |order|
  {
    if order == [] then []
    else
      var i := |order| - 1;
      DueList(order[..i], jobs, readings[..i]) + if DueAt(jobs, readings[i], order[i]) then [jobs[order[i]]] else []
  }

  /** Whether a job was found due. */
  ghost predicate Picked(order: seq<string>, jobs: Jobs, readings: seq<int>, id: string)
    requires |readings| == |order|
  {
    exists i :: 0 <= i < |order| && order[i] == id && DueAt(jobs, readings[i], id)
  }

  function Ids(states: seq<JobState>): seq<string> {
    if states == [] then [] else [states[0].definition.jobId] + Ids(states[1..])
  }

  /** The due jobs in the order in which a pass takes them. */
  function DueOrder(order: seq<string>, jobs: Jobs, readings: seq<int>): seq<string>
    requires |readings| == |order|
  {
    Ids(StableSort(RunsBefore, DueList(order, jobs, readings)))
  }

  /** The listed jobs that completed, in order. */
  function Ran(ids: seq<string>, completed: set<string>): seq<string> {
    if ids == [] then [] else Ran(ids[..|ids| - 1], completed) + if ids[|ids| - 1] in completed then [ids[|ids| - 1]]
      else []
  }

  ghost predicate RegisteredBefore(order: seq<string>, a: string, b: string) {
    exists i, j :: 0 <= i < j < |order| && order[i] == a && order[j] == b
  }

  /** Normal priority before low, then the earlier occurrence, then the earlier registration. */
  ghost predicate TakenBefore(order: seq<string>, jobs: Jobs, a: string, b: string) {
    && a in jobs && b in jobs
    && !(jobs[a].definition.priority == Low && jobs[b].definition.priority == Normal)
    && (jobs[a].definition.priority == jobs[b].definition.priority ==>
          && jobs[a].nextRunAt <= jobs[b].nextRunAt
          && (jobs[a].nextRunAt == jobs[b].nextRunAt ==> RegisteredBefore(order, a, b)))
  }

  ghost predicate TakenInOrder(order: seq<string>, jobs: Jobs, ids: seq<string>) {
    forall k, l :: 0 <= k < l < |ids| ==> TakenBefore(order, jobs, ids[k], ids[l])
  }

  /** A job that ran was due, and its dependencies are registered, have not failed and, if they were due, ran. */
  ghost predicate RanWithDependencies(before: Jobs, due: int, clock: int, executed: seq<string>, id: string) {
    && id in before && before[id].status == Scheduled && before[id].nextRunAt <= clock
    && forall d :: d in before[id].definition.dependencies ==>
         && d in before && before[d].status !in {Failed, Cancelled}
         && (before[d].status == Scheduled && before[d].nextRunAt <= due ==> d in executed)
  }

  /** A job that did not run has failed: its runner was called and failed, or a dependency is not registered, has
      failed or was cancelled. */
  ghost predicate FailedForAReason(before: Jobs, after: Jobs, called: seq<string>, id: string) {
    && id in before && id in after
    && after[id] == before[id].(status := Failed, lastError := after[id].lastError)
    && var dependencies := before[id].definition.dependencies;
       match after[id].lastError
       case Some(RunnerFailed) => id in called
       case Some(DependencyMissing) => exists d :: d in dependencies && d !in after
       case Some(DependencyIncomplete) =>
         exists d :: d in dependencies && d in after && after[d].status in {Failed, Cancelled}
       case _ => false
  }

  /** What one pass does to the jobs: those that ran are listed in the order they were taken and carry the next
      occurrence of their schedule; every other job that was due has failed for a reason; a job that was not due
      is as it was. */
  ghost predicate Delivers(calendar: Calendar, order: seq<string>, before: Jobs, after: Jobs, due: int, clock: int,
                           called: seq<string>, executed: seq<string>) {
    && TakenInOrder(order, before, executed) && after.Keys == before.Keys
    && (forall id :: id in executed ==>
          && RanWithDependencies(before, due, clock, executed, id) && id in after
          && Renewed(calendar, before[id], after[id], clock))
    && (forall id ::
          id in before && before[id].status == Scheduled && before[id].nextRunAt <= due && id !in executed ==>
            FailedForAReason(before, after, called, id))
    && (forall id :: id in before && (before[id].status != Scheduled || before[id].nextRunAt > clock) ==>
          after[id] == before[id] && id !in called)
  }

  class JobScheduler {
    var order: seq<string>  // identifiers in registration order
    var jobs: Jobs
    var running: set<string>
    var groups: set<string>
    var clock: int  // the latest instant read
    const calendar: Calendar
    ghost var progress: Progress  // of the pass under way

    ghost predicate Valid()
      reads this
    {
      && Elements(order) == jobs.Keys && Distinct(order)
      && (forall id :: id in jobs ==> jobs[id].definition.jobId == id)
    }

    ghost predicate Idle()
      reads this
    {
      running == {} && groups == {}
    }

    constructor (calendar: Calendar, now: int)
      ensures Valid() && Idle() && jobs == map[] && clock == now && this.calendar == calendar
    {
      this.calendar := calendar;
      order, jobs, running, groups, clock := [], map[], {}, {}, now;
      progress := Progress(calendar, map[], [], {}, {}, {});
    }

    /** The definition is validated first, a cron schedule against the clock of the machine; then come known
        identifiers and self-dependencies. A cron schedule that has an occurrence by that clock but none by the
        scheduler's own makes the registration throw, with nothing registered. */
    method Register(definition: JobDefinition, machineNow: int) returns (r: Result<JobState, SchedulerError>)
      requires Valid()
      modifies this
      ensures Valid() && running == old(running) && groups == old(groups) && clock >= old(clock)
      ensures r.Ok? ==> jobs == old(jobs)[definition.jobId := r.value] && order == old(order) + [definition.jobId]
                        && r.value == JobState(definition, None, r.value.nextRunAt, Scheduled, None)
                        && match definition.schedule
                           case Recurring(_) => r.value.nextRunAt == clock
                           case Delayed(instant) => r.value.nextRunAt == instant
                           case Cron(fields) => IsNext(calendar, fields, clock, r.value.nextRunAt)
      ensures r.Err? ==> jobs == old(jobs) && order == old(order)
      ensures r == Err(InvalidDefinition) <==> Rejected(calendar, definition, machineNow)
      ensures r == Err(InvalidDefinition) <==>
                || Trimmed(definition.jobId) == "" || Trimmed(definition.group) == ""
                || (exists d :: d in definition.dependencies && Trimmed(d) == "")
                || (definition.schedule.Recurring? && definition.schedule.interval <= 0)
                || (definition.schedule.Cron? && !HasOccurrence(calendar, definition.schedule.fields, machineNow))
      ensures r == Err(DuplicateJob) <==> !Rejected(calendar, definition, machineNow) && definition.jobId in old(jobs)
      ensures r == Err(SelfDependency) <==>
                !Rejected(calendar, definition, machineNow) && definition.jobId !in old(jobs)
                  && definition.jobId in definition.dependencies
      ensures r == Err(NoOccurrence) <==>
                && !Rejected(calendar, definition, machineNow) && definition.jobId !in old(jobs)
                && definition.jobId !in definition.dependencies
                && definition.schedule.Cron? && !HasOccurrence(calendar, definition.schedule.fields, clock)
    {
      RejectedIff(calendar, definition, machineNow);
      hide Rejected, Trimmed, FirstOccurrence, HasOccurrence, IsNext;
      if Rejected(calendar, definition, machineNow) {
        return Err(InvalidDefinition);
      }
      if definition.jobId in jobs {
        return Err(DuplicateJob);
      }
      if definition.jobId in definition.dependencies {
        return Err(SelfDependency);
      }
      var now := Now();
      var first := FirstOccurrence(calendar, definition, now);
      FirstOccurrenceIs(calendar, definition, now);
      NoOccurrenceOrNext(calendar, definition, now);
      if first == None {
        return Err(NoOccurrence);
      }
      var state := JobState(definition, None, first.value, Scheduled, None);
      ElementsAppend(order, definition.jobId);
      DistinctAppend(order, definition.jobId);
      order := order + [definition.jobId];
      jobs := jobs[definition.jobId := state];
      r := Ok(state);
    }

    /** A reading of the environment's clock. */
    method Now() returns (now: int)
      modifies `clock
      ensures now == clock >= old(clock)
    {
      var later :| later >= clock;
      clock := later;
      now := clock;
    }

    /** What every part of a pass keeps. */
    ghost predicate InPass(completed: set<string>)
      reads this
    {
      && Valid() && Idle() && PassOk(progress, jobs, clock)
      && completed == progress.completed && progress.calendar == calendar
    }

    /** Runs a due job after its due dependencies; false means that it has failed. */
    method RunJob(jobId: string, visiting: set<string>, completed: set<string>, ghost stack: seq<string>)
      returns (ran: bool, visiting': set<string>, completed': set<string>)
      requires InPass(completed) && OnStack(progress, clock, visiting, stack, jobId) && Open(progress, jobs, visiting)
      modifies this
      ensures InPass(completed') && order == old(order) && Open(progress, jobs, visiting)
      ensures Advanced(visiting, old(clock), old(clock), old(progress), old(jobs), clock, progress, jobs)
      ensures visiting' == visiting && visiting !! Elements(JobsOf(progress.calls))
      ensures ran <==> jobId in completed'
      ensures jobId in jobs && (!ran ==> jobs[jobId].status == Failed)
      ensures ran ==> Untouched(visiting, old(jobs), jobs)
      decreases progress.start.Keys - visiting, 1
    {
      hide PassOk, Distinct, Doomed, Followed, Advanced, Open, Elements, OnStack, MayFail;
      AdvancedIdle(visiting, clock, clock, progress, jobs, clock);
      StackFacts(progress, clock, visiting, stack, jobId);
      visiting', completed' := visiting, completed;
      if jobId in completed {
        KnownJob(progress, jobs, clock, jobId);
        return true, visiting', completed';
      }
      KnownJob(progress, jobs, clock, jobId);
      JobFacts(progress, jobs, clock, jobId);
      if jobId !in jobs || jobs[jobId].status != Scheduled {
        return false, visiting', completed';
      }
      if jobId in visiting {
        StackDooms(progress, clock, visiting, stack, jobId);
        GroundsToFail(progress, jobs, visiting, jobId, jobId);
        FailJob(jobId, DependencyCycle, visiting);
        return false, visiting', completed';
      }
      visiting' := visiting' + {jobId};
      ghost var since, first, start := clock, progress, jobs;
      assert visiting' - {jobId} == visiting;
      ran, visiting', completed' := RunDependencies(jobId, visiting', completed', stack);
      visiting' := visiting' - {jobId};
      JobFacts(progress, jobs, clock, jobId);
      if ran {
        AdvancedFacts(visiting, since, since, first, start, clock, progress, jobs);
        ghost var t, p, before := clock, progress, jobs;
        ran, completed' := Execute(jobId, completed', since, visiting);
        AdvancedTwice(visiting, since, since, first, start, visiting, since, t, p, before, clock, progress, jobs);
      }
    }

    /** Looks at the dependencies in order, and stops at the first that stands in the way. */
    method RunDependencies(jobId: string, visiting: set<string>, completed: set<string>, ghost stack: seq<string>)
      returns (ready: bool, visiting': set<string>, completed': set<string>)
      requires InPass(completed) && jobId in visiting && Open(progress, jobs, visiting - {jobId})
      requires OnStack(progress, clock, visiting - {jobId}, stack, jobId)
      requires jobId in jobs && jobs[jobId].status == Scheduled && jobId !in JobsOf(progress.calls)
      modifies this
      ensures InPass(completed') && order == old(order) && Open(progress, jobs, visiting - {jobId})
      ensures Advanced(visiting - {jobId}, old(clock), old(clock), old(progress), old(jobs), clock, progress, jobs)
      ensures visiting' == visiting && visiting !! Elements(JobsOf(progress.calls)) && jobId !in JobsOf(progress.calls)
      ensures jobId in jobs && jobId in progress.start
      ensures ready ==> Checked(progress, old(clock), jobId, progress.start[jobId].definition.dependencies)
      ensures if ready then Untouched(visiting, old(jobs), jobs) else jobs[jobId].status == Failed
      decreases progress.start.Keys - (visiting - {jobId}), 0
    {
      hide PassOk, Distinct, Elements, Doomed, Followed, Advanced, Open, OnStack, OnTop, DueAt;
      hide Served, LookedAt, Checked, Untouched;
      visiting', completed' := visiting, completed;
      ghost var others := visiting - {jobId};
      ghost var since, first, start := clock, progress, jobs;
      AdvancedIdle(others, since, since, progress, jobs, since);
      StackFacts(progress, clock, others, stack, jobId);
      assert others + {jobId} == visiting;
      JobFacts(progress, jobs, clock, jobId);
      var dependencies := jobs[jobId].definition.dependencies;
      NothingChecked(progress, since, jobId, dependencies);
      UntouchedFacts(visiting, jobs, jobs, jobs);
      for i := 0 to |dependencies|
        invariant InPass(completed') && order == old(order) && Open(progress, jobs, others)
        invariant Advanced(others, since, since, first, start, clock, progress, jobs)
        invariant visiting' == visiting && visiting !! Elements(JobsOf(progress.calls))
        invariant jobId !in JobsOf(progress.calls)
        invariant Checked(progress, since, jobId, dependencies[..i])
        invariant jobId in jobs && Untouched(visiting, start, jobs)
      {
        var d := dependencies[i];
        ghost var p, t, before := progress, clock, jobs;
        AdvancedFacts(others, since, since, first, start, clock, progress, jobs);
        PushOnStack(first, progress, since, clock, others, stack, jobId);
        UntouchedAt(visiting, start, jobs, jobId);
        ready, visiting', completed' := RunDependency(jobId, d, visiting', completed', stack + [jobId], since);
        AdvancedTwice(others, since, since, first, start, others, t, t, p, before, clock, progress, jobs);
        AdvancedFacts(others, t, t, p, before, clock, progress, jobs);
        if !ready {
          return;
        }
        CheckedMore(p, progress, since, jobId, dependencies, i);
        UntouchedFacts(visiting, start, before, jobs);
      }
      assert dependencies[..|dependencies|] == dependencies;
      AdvancedFacts(others, since, since, first, start, clock, progress, jobs);
      ready := true;
    }

    /** One dependency of a visited job: it stands in the way when it is missing, has failed, was cancelled,
        or is due and cannot be completed now. */
    method RunDependency(jobId: string, d: string, visiting: set<string>, completed: set<string>,
                         ghost stack: seq<string>, ghost since: int)
      returns (ready: bool, visiting': set<string>, completed': set<string>)
      requires InPass(completed) && since <= clock && OnTop(progress, clock, visiting, stack, jobId)
      requires Open(progress, jobs, visiting - {jobId})
      requires jobId in progress.start && d in progress.start[jobId].definition.dependencies
      requires jobId in jobs && jobs[jobId].status == Scheduled
      modifies this
      ensures InPass(completed') && order == old(order) && Open(progress, jobs, visiting - {jobId})
      ensures Advanced(visiting - {jobId}, old(clock), old(clock), old(progress), old(jobs), clock, progress, jobs)
      ensures visiting' == visiting && visiting !! Elements(JobsOf(progress.calls)) && jobId !in JobsOf(progress.calls)
      ensures jobId in jobs
      ensures ready ==> Served(progress, progress.calls, since, d) && LookedAt(progress, jobId, d, since)
      ensures if ready then Untouched(visiting, old(jobs), jobs) else jobs[jobId].status == Failed
      decreases progress.start.Keys - visiting, 2
    {
      hide PassOk, Distinct, Doomed, Followed, Advanced, Open, OnStack, OnTop, Served, LookedAt, Elements, AfterLook;
      hide Untouched, MayFail;
      visiting', completed' := visiting, completed;
      ghost var others := visiting - {jobId};
      ghost var t0, p0, jobs0 := clock, progress, jobs;
      StackFacts(progress, clock, visiting, stack, jobId);
      assert others + {jobId} == visiting;
      KnownJob(progress, jobs, clock, jobId);
      UntouchedFacts(visiting, jobs, jobs, jobs);
      if d !in jobs {
        DependencyDooms(progress, jobs, clock, jobId, d);
        GroundsToFail(progress, jobs, others, jobId, d);
        FailJob(jobId, DependencyMissing, others);
        return false, visiting', completed';
      }
      if jobs[d].status == Scheduled {
        var now := Now();
        PassOkLater(progress, jobs, t0, clock);
      }
      ghost var t := clock;
      NoteLook(jobId, d, visiting, since);
      ghost var p1 := progress;
      if jobs[d].status == Failed || jobs[d].status == Cancelled {
        DependencyDooms(progress, jobs, clock, jobId, d);
        GroundsToFail(progress, jobs, visiting, jobId, d);
        FailJob(jobId, DependencyIncomplete, visiting);
        AdvancedTwice(others, t0, t0, p0, jobs0, others, t, t, p1, jobs0, clock, progress, jobs);
        return false, visiting', completed';
      }
      if jobs[d].status == Scheduled && jobs[d].nextRunAt <= clock {
        DependencyFacts(progress, jobs, clock, since, d);
        StackDependency(p0, progress, t0, clock, visiting, stack, jobId, d);
        ready, visiting', completed' := RunJob(d, visiting', completed', stack);
        ghost var t2, p2, jobs2 := clock, progress, jobs;
        AdvancedTwice(others, t0, t0, p0, jobs0, visiting, t, t, p1, jobs0, clock, progress, jobs);
        AdvancedFacts(visiting, t, t, p1, jobs0, clock, progress, jobs);
        StillUncalled(progress, visiting, jobId);
        KnownJob(progress, jobs, clock, jobId);
        if !ready {
          DependencyDooms(progress, jobs, clock, jobId, d);
          GroundsToFail(progress, jobs, visiting, jobId, d);
          FailJob(jobId, DependencyIncomplete, visiting);
          AdvancedTwice(others, t0, t0, p0, jobs0, others, t2, t2, p2, jobs2, clock, progress, jobs);
          return;
        }
        UntouchedAt(visiting, jobs0, jobs, jobId);
        OpenAfterWait(p0, jobs0, visiting, jobId, d, t, t, clock, progress, jobs);
        DependencyFacts(progress, jobs, clock, since, d);
        LookStays(p1, progress, jobId, d, since);
      } else {
        DependencyFacts(progress, jobs, clock, since, d);
        OpenAfterLook(p0, jobs, others, jobId, d, clock);
        ready := true;
      }
    }

    /** The look at a dependency, at the latest reading of the clock. */
    ghost method NoteLook(jobId: string, d: string, visiting: set<string>, since: int)
      requires InPass(progress.completed) && since <= clock
      requires jobId in visiting && Open(progress, jobs, visiting - {jobId})
      requires DueAt(progress.start, clock, jobId) && jobId !in JobsOf(progress.calls)
      requires d in progress.start[jobId].definition.dependencies
      modifies `progress
      ensures progress == AfterLook(old(progress), jobId, d, clock)
      ensures InPass(progress.completed) && progress.completed == old(progress.completed)
      ensures progress.calls == old(progress.calls) && progress.start == old(progress.start)
      ensures Open(progress, jobs, visiting) && LookedAt(progress, jobId, d, since)
      ensures DueAt(progress.start, clock, d) ==> (jobId, d) in Followed(progress)
      ensures forall t :: t <= clock ==> Advanced(visiting - {jobId}, t, t, old(progress), jobs, clock, progress, jobs)
    {
      hide PassOk, Distinct, Followed, Elements, Open;
      PassOkLook(progress, jobs, clock, jobId, d);
      OpenAfterLook(progress, jobs, visiting - {jobId}, jobId, d, clock);
      assert visiting - {jobId} + {jobId} == visiting;
      progress := AfterLook(progress, jobId, d, clock);
      assert Look(jobId, d, clock) in progress.looks;
    }

    /** The call of the runner, unless the job has failed or its group is taken. */
    method Execute(jobId: string, completed: set<string>, ghost since: int, ghost visiting: set<string>)
      returns (ran: bool, completed': set<string>)
      requires InPass(completed) && since <= clock && DueAt(progress.start, since, jobId)
      requires jobId in jobs && jobId !in JobsOf(progress.calls) && jobId !in visiting && Open(progress, jobs, visiting)
      requires Checked(progress, since, jobId, progress.start[jobId].definition.dependencies)
      requires visiting !! Elements(JobsOf(progress.calls))
      modifies this
      ensures InPass(completed') && order == old(order) && Open(progress, jobs, visiting)
      ensures visiting !! Elements(JobsOf(progress.calls))
      ensures progress.calls == old(progress.calls) || progress.calls == old(progress.calls) + [Call(jobId, since)]
      ensures Advanced(visiting, since, old(clock), old(progress), old(jobs), clock, progress, jobs)
      ensures jobId in jobs && (ran <==> jobId in completed') && (!ran ==> jobs[jobId].status == Failed)
      ensures jobs == old(jobs)[jobId := jobs[jobId]]
    {
      hide PassOk, Distinct, Doomed, Checked, Elements, NextStateAfterSuccess, MayCall, Advanced, AfterCall, Open;
      ReadyToCall(progress, jobs, clock, visiting, jobId, since);
      JobFacts(progress, jobs, clock, jobId);
      AdvancedIdle(visiting, since, clock, progress, jobs, clock);
      if jobs[jobId].status != Scheduled || jobs[jobId].definition.group in groups {
        return false, completed;
      }
      ran, completed' := CallRunner(jobId, completed, since, visiting);
    }

    /** The job's runner is called while the job is marked as running and its group is taken. */
    method CallRunner(jobId: string, completed: set<string>, ghost since: int, ghost visiting: set<string>)
      returns (ran: bool, completed': set<string>)
      requires InPass(completed) && MayCall(progress, jobs, clock, jobId, since) && jobId in jobs
      requires jobId !in visiting && Open(progress, jobs, visiting) && visiting !! Elements(JobsOf(progress.calls))
      modifies this
      ensures InPass(completed') && order == old(order) && Open(progress, jobs, visiting)
      ensures visiting !! Elements(JobsOf(progress.calls))
      ensures progress.calls == old(progress.calls) + [Call(jobId, since)]
      ensures Advanced(visiting, since, old(clock), old(progress), old(jobs), clock, progress, jobs)
      ensures jobId in jobs && (ran <==> jobId in completed') && (!ran ==> jobs[jobId].status == Failed)
      ensures jobs == old(jobs)[jobId := jobs[jobId]]
    {
      hide PassOk, Distinct, Elements, JobsOf, NextStateAfterSuccess, MayCall, Advanced, Open, AfterCall, Renewed;
      hide FailedWith, DueAt, Doomed, Followed;
      ghost var before, t := jobs, clock;
      JobFacts(progress, jobs, clock, jobId);
      assert jobId !in completed by {
        NotYetCalled(progress, jobs, clock, jobId, since);
      }
      var current := jobs[jobId];
      var group := current.definition.group;
      running, groups, jobs := running + {jobId}, groups + {group}, jobs[jobId := current.(status := Running)];
      var succeeded := RunnerOf(jobId);
      var now := Now();
      NextStateRenews(calendar, current, now);
      var next := if succeeded then NextStateAfterSuccess(calendar, current.(status := Running), now) else None;
      ran := next.Some?;
      completed' := if ran then completed + {jobId} else completed;
      var result := if ran then next.value else FailedWith(current, RunnerFailed);
      CallKeeps(progress, before, t, now, visiting, jobId, since, ran, result);
      assert jobs[jobId := result] == before[jobId := result];
      progress := AfterCall(progress, jobId, since, ran);
      jobs, running, groups := jobs[jobId := result], running - {jobId}, groups - {group};
      assert running == {} && groups == {} && jobs.Keys == before.Keys;
    }

    /** The job's own runner. It is called only while the job is marked as running and holds its group; whether it
        succeeds is up to the environment. */
    method RunnerOf(jobId: string) returns (succeeded: bool)
      requires jobId in jobs && jobs[jobId].status == Running && jobId in running
      requires jobs[jobId].definition.group in groups
    {
      succeeded := *;
    }

    method FailJob(jobId: string, failure: JobFailure, ghost visiting: set<string>)
      requires InPass(progress.completed) && jobId in jobs && jobId !in JobsOf(progress.calls)
      requires DueAt(progress.start, clock, jobId) && Doomed(Followed(progress), progress.start, progress.broken, jobId)
      requires failure != RunnerFailed && Open(progress, jobs, visiting)
      requires MayFail(progress, jobs, visiting, jobId, failure)
      modifies `jobs
      ensures InPass(progress.completed) && Open(progress, jobs, visiting)
      ensures failure != DependencyCycle ==> Open(progress, jobs, visiting - {jobId})
      ensures jobs == old(jobs)[jobId := FailedWith(old(jobs)[jobId], failure)]
      ensures forall more :: Advanced(more, clock, clock, progress, old(jobs), clock, progress, jobs)
    {
      hide PassOk, Distinct, Doomed, Followed, MayFail, Open;
      PassOkFail(progress, jobs, clock, jobId, failure);
      OpenAfterFail(progress, jobs, visiting, jobId, failure);
      jobs := jobs[jobId := FailedWith(jobs[jobId], failure)];
    }

    /** The jobs due now. Only a scheduled job makes the clock be read. */
    method SelectDue() returns (list: seq<JobState>, ghost readings: seq<int>)
      requires Valid()
      modifies `clock
      ensures old(clock) <= clock && |readings| == |order|
      ensures forall i :: 0 <= i < |order| ==> old(clock) <= readings[i] <= clock
      ensures list == DueList(order, jobs, readings)
    {
      list, readings := [], [];
      for i := 0 to |order|
        invariant old(clock) <= clock && |readings| == i
        invariant forall j :: 0 <= j < i ==> old(clock) <= readings[j] <= clock
        invariant list == DueList(order[..i], jobs, readings)
      {
        assert order[..i + 1][..i] == order[..i];
        assert order[i] in Elements(order);
        var state := jobs[order[i]];
        if state.status == Scheduled {
          var now := Now();
          if state.nextRunAt <= now {
            list := list + [state];
          }
        }
        readings := readings + [clock];
        assert readings[..i] + [clock] == readings;
      }
      assert order[..|order|] == order;
    }

    /** One pass over the due jobs.  Whatever the dependencies and the outcomes of the runners: each runner
        is called at most once, with the dependencies first; jobs on a cycle are not run; the result lists
        exactly the initially due jobs that completed. */
    method RunDue() returns (executed: seq<string>, ghost readings: seq<int>, ghost started: int)
      requires Valid() && Idle()
      modifies this
      ensures Valid() && Idle() && order == old(order)
      ensures |readings| == |order| && forall i :: 0 <= i < |order| ==> old(clock) <= readings[i] <= started
      ensures old(clock) <= started <= clock
      ensures progress.start == old(jobs) && PassOk(progress, jobs, clock)
      ensures forall i :: 0 <= i < |progress.calls| ==> started <= progress.calls[i].since
      ensures executed == Ran(DueOrder(old(order), old(jobs), readings), progress.completed)
      ensures forall id :: id in executed <==> Picked(old(order), old(jobs), readings, id) && id in progress.completed
      ensures forall id :: Picked(old(order), old(jobs), readings, id) && id !in progress.completed ==>
                             jobs[id].status == Failed && Doomed(Followed(progress), old(jobs), progress.broken, id)
      ensures forall id :: Picked(old(order), old(jobs), readings, id) ==>
                             (id in executed <==> !Doomed(Followed(progress), old(jobs), progress.broken, id))
      ensures Delivers(calendar, old(order), old(jobs), jobs, old(clock), clock, JobsOf(progress.calls), executed)
    {
      hide PassOk, Distinct, OnStack, Followed, Doomed, Elements, JobsOf, Ran, Advanced, DueList, Picked, Open;
      hide Delivers, Grounded, StableSort, Ids;
      ghost var first := jobs;
      var list;
      list, readings := SelectDue();
      started := clock;
      var due := Ids(StableSort(RunsBefore, list));
      DueOrderIsExact(order, jobs, readings);
      PickedIsDue(order, jobs, readings, clock);
      hide DueOrder;
      PassOkStart(calendar, jobs, clock);
      progress := Progress(calendar, jobs, [], {}, {}, {});
      executed := [];
      NothingRan(due);
      var completed: set<string> := {};
      for i := 0 to |due|
        invariant InPass(completed) && order == old(order) && started <= clock && progress.start == first
        invariant Open(progress, jobs, {})
        invariant forall j :: 0 <= j < |progress.calls| ==> started <= progress.calls[j].since
        invariant executed == Ran(due[..i], completed)
        invariant forall j :: 0 <= j < i ==> due[j] in jobs && (due[j] in completed || jobs[due[j]].status == Failed)
      {
        assert due[i] in due && DueAt(first, started, due[i]);
        EmptyStack(progress, clock, due[i]);
        ghost var earlier := completed;
        ghost var p, t, before := progress, clock, jobs;
        var ran, visiting;
        ran, visiting, completed := RunJob(due[i], {}, completed, []);
        StillLate(started, t, p, before, clock, progress, jobs);
        FailuresAreFinal(progress, jobs, clock, due[..i], earlier);
        RanExtends(due, i, earlier, completed);
        if ran {
          executed := executed + [due[i]];
        }
      }
      assert due[..|due|] == due;
      RanMembers(due, completed);
      OpenIsGrounded(progress, jobs);
      assert forall id :: id in due ==> id in jobs && (id in completed || jobs[id].status == Failed);
      PassDelivers(order, progress, jobs, clock, readings, old(clock), started, due, executed);
    }
  }

  lemma RunsBeforeIsPreorder()
    ensures TotalPreorder(RunsBefore)
  {
  }

  lemma {:induction false} DueListIsExact(order: seq<string>, jobs: Jobs, readings: seq<int>)
    requires |readings| == |order|
    ensures forall s :: s in DueList(order, jobs, readings) <==>
                          exists i :: 0 <= i < |order| && DueAt(jobs, readings[i], order[i]) && s == jobs[order[i]]
  {
    if order != [] {
      var n := |order| - 1;
      DueListIsExact(order[..n], jobs, readings[..n]);
      assert order == order[..n] + [order[n]] && readings == readings[..n] + [readings[n]];
      hide DueAt;
      forall s ensures s in DueList(order, jobs, readings) <==>
                         exists i :: 0 <= i < |order| && DueAt(jobs, readings[i], order[i]) && s == jobs[order[i]]
      {
        if s in DueList(order[..n], jobs, readings[..n]) {
          var i :| 0 <= i < n && DueAt(jobs, readings[..n][i], order[..n][i]) && s == jobs[order[..n][i]];
          assert DueAt(jobs, readings[i], order[i]);
        }
        if i :| 0 <= i < |order| && DueAt(jobs, readings[i], order[i]) && s == jobs[order[i]] {
          if i < n {
            assert DueAt(jobs, readings[..n][i], order[..n][i]);
          }
        }
      }
    }
  }

  lemma PickedIsDue(order: seq<string>, jobs: Jobs, readings: seq<int>, clock: int)
    requires |readings| == |order| && forall i :: 0 <= i < |order| ==> readings[i] <= clock
    ensures forall id :: Picked(order, jobs, readings, id) ==> DueAt(jobs, clock, id)
  {
  }

  lemma {:induction false} IdsMembers(states: seq<JobState>)
    ensures forall id :: id in Ids(states) <==> exists s :: s in states && s.definition.jobId == id
  {
    if states != [] {
      IdsMembers(states[1..]);
      assert states == [states[0]] + states[1..];
    }
  }

  /** The pass takes exactly the jobs found due. */
  lemma DueOrderIsExact(order: seq<string>, jobs: Jobs, readings: seq<int>)
    requires Elements(order) == jobs.Keys && forall id :: id in jobs ==> jobs[id].definition.jobId == id
    requires |readings| == |order|
    ensures forall id :: id in DueOrder(order, jobs, readings) <==> Picked(order, jobs, readings, id)
  {
    var list := DueList(order, jobs, readings);
    var sorted := StableSort(RunsBefore, list);
    RunsBeforeIsPreorder();
    StableSortSorts(RunsBefore, list);
    DueListIsExact(order, jobs, readings);
    IdsMembers(sorted);
    hide StableSort, DueList, DueAt, Ids, RunsBefore;
    forall s ensures s in sorted <==> s in list {
      assert s in multiset(sorted) <==> s in multiset(list);
    }
    forall id ensures id in Ids(sorted) <==> Picked(order, jobs, readings, id) {
      if i :| 0 <= i < |order| && order[i] == id && DueAt(jobs, readings[i], id) {
        assert order[i] in Elements(order) && jobs[id] in list;
      }
      if id in Ids(sorted) {
        var s :| s in sorted && s.definition.jobId == id;
        var i :| 0 <= i < |order| && DueAt(jobs, readings[i], order[i]) && s == jobs[order[i]];
        assert order[i] in Elements(order);
      }
    }
  }

  lemma KnownJob(p: Progress, jobs: Jobs, clock: int, id: string)
    requires PassOk(p, jobs, clock)
    ensures jobs.Keys == p.start.Keys && (id in p.completed ==> id in jobs)
  {
  }

  lemma NotYetCalled(p: Progress, jobs: Jobs, clock: int, id: string, since: int)
    requires PassOk(p, jobs, clock) && MayCall(p, jobs, clock, id, since)
    ensures id !in p.completed && jobs[id].status == Scheduled
  {
    JobFacts(p, jobs, clock, id);
  }

  lemma StillUncalled(p: Progress, visiting: set<string>, id: string)
    requires id in visiting && visiting !! Elements(JobsOf(p.calls))
    ensures id !in JobsOf(p.calls)
  {
    assert id !in Elements(JobsOf(p.calls));
  }

  lemma NothingChecked(p: Progress, since: int, job: string, ids: seq<string>)
    ensures Checked(p, since, job, ids[..0])
  {
  }

  lemma LookStays(p: Progress, p': Progress, job: string, d: string, since: int)
    requires LookedAt(p, job, d, since) && p.looks <= p'.looks
    ensures LookedAt(p', job, d, since)
  {
    var k :| k in p.looks && k.job == job && k.dependency == d && since <= k.at;
    assert k in p'.looks;
  }

  lemma EmptyStack(p: Progress, clock: int, id: string)
    requires DueAt(p.start, clock, id)
    ensures OnStack(p, clock, {}, [], id)
  {
    assert [] + [id] == [id];
  }

  lemma FailuresAreFinal(p: Progress, jobs: Jobs, clock: int, ids: seq<string>, earlier: set<string>)
    requires PassOk(p, jobs, clock) && earlier <= p.completed
    requires forall j :: 0 <= j < |ids| ==> ids[j] in jobs && (ids[j] in earlier || jobs[ids[j]].status == Failed)
    ensures forall j :: 0 <= j < |ids| ==> (ids[j] in earlier <==> ids[j] in p.completed)
  {
    forall j | 0 <= j < |ids| ensures ids[j] in earlier <==> ids[j] in p.completed {
      JobFacts(p, jobs, clock, ids[j]);
    }
  }

  lemma {:induction false} RanDepends(ids: seq<string>, c: set<string>, c': set<string>)
    requires forall j :: 0 <= j < |ids| ==> (ids[j] in c <==> ids[j] in c')
    ensures Ran(ids, c) == Ran(ids, c')
  {
    if ids != [] {
      RanDepends(ids[..|ids| - 1], c, c');
    }
  }

  lemma NothingRan(ids: seq<string>)
    ensures Ran(ids[..0], {}) == []
  {
  }

  lemma StillLate(started: int, t: int, p: Progress, jobs: Jobs, t': int, p': Progress, jobs': Jobs)
    requires Advanced({}, t, t, p, jobs, t', p', jobs') && started <= t
    requires forall j :: 0 <= j < |p.calls| ==> started <= p.calls[j].since
    ensures forall j :: 0 <= j < |p'.calls| ==> started <= p'.calls[j].since
    ensures t <= t' && p'.start == p.start && p.completed <= p'.completed
    ensures forall id :: id in jobs && jobs[id].status == Failed ==> id in jobs' && jobs'[id].status == Failed
  {
    forall j | 0 <= j < |p'.calls| ensures started <= p'.calls[j].since {
      if j < |p.calls| {
        assert p'.calls[j] == p.calls[j];
      }
    }
  }

  lemma RanExtends(ids: seq<string>, i: nat, c: set<string>, c': set<string>)
    requires i < |ids| && forall j :: 0 <= j < i ==> (ids[..i][j] in c <==> ids[..i][j] in c')
    ensures Ran(ids[..i + 1], c') == Ran(ids[..i], c) + if ids[i] in c' then [ids[i]] else []
  {
    RanDepends(ids[..i], c, c');
    assert ids[..i + 1][..i] == ids[..i];
  }

  lemma {:induction false} RanMembers(ids: seq<string>, c: set<string>)
    ensures forall id :: id in Ran(ids, c) <==> id in ids && id in c
  {
    if ids != [] {
      RanMembers(ids[..|ids| - 1], c);
      assert ids == ids[..|ids| - 1] + [ids[|ids| - 1]];
    }
  }

  // ----- The order of a pass

  /** Job k of the list is the one registered at position at[k]. */
  ghost predicate Registered(order: seq<string>, jobs: Jobs, list: seq<JobState>, at: seq<nat>) {
    && |at| == |list|
    && (forall k :: 0 <= k < |at| ==> at[k] < |order| && order[at[k]] in jobs && list[k] == jobs[order[at[k]]])
    && (forall k, l :: 0 <= k < l < |at| ==> at[k] < at[l])
  }

  lemma {:induction false} DueListAt(order: seq<string>, jobs: Jobs, readings: seq<int>) returns (at: seq<nat>)
    requires |readings| == |order|
    ensures Registered(order, jobs, DueList(order, jobs, readings), at)
  {
    if order == [] {
      at := [];
    } else {
      var n := |order| - 1;
      at := DueListAt(order[..n], jobs, readings[..n]);
      RegisteredMore(order, jobs, DueList(order[..n], jobs, readings[..n]), at);
      hide Registered;
      if DueAt(jobs, readings[n], order[n]) {
        at := at + [n];
      }
    }
  }

  lemma RegisteredMore(order: seq<string>, jobs: Jobs, list: seq<JobState>, at: seq<nat>)
    requires order != [] && Registered(order[..|order| - 1], jobs, list, at)
    ensures Registered(order, jobs, list, at) && list + [] == list
    ensures order[|order| - 1] in jobs ==>
              Registered(order, jobs, list + [jobs[order[|order| - 1]]], at + [|order| - 1])
  {
  }

  lemma {:induction false} IdsAt(states: seq<JobState>)
    ensures |Ids(states)| == |states|
    ensures forall k :: 0 <= k < |states| ==> Ids(states)[k] == states[k].definition.jobId
  {
    if states != [] {
      IdsAt(states[1..]);
    }
  }

  /** The jobs found due are taken by priority, occurrence and registration. */
  lemma DueOrderIsSorted(order: seq<string>, jobs: Jobs, readings: seq<int>)
    requires |readings| == |order| && forall id :: id in jobs ==> jobs[id].definition.jobId == id
    ensures TakenInOrder(order, jobs, DueOrder(order, jobs, readings))
  {
    var list := DueList(order, jobs, readings);
    var at := DueListAt(order, jobs, readings);
    RunsBeforeIsPreorder();
    var p := StableSortArranges(RunsBefore, list);
    var sorted := StableSort(RunsBefore, list);
    IdsAt(sorted);
    hide StableSort, DueList, Ids, TakenBefore, RunsBefore;
    forall k, l | 0 <= k < l < |sorted|
      ensures TakenBefore(order, jobs, sorted[k].definition.jobId, sorted[l].definition.jobId)
    {
      SortedIsTaken(order, jobs, list, at, sorted, p, k, l);
    }
  }

  lemma SortedIsTaken(order: seq<string>, jobs: Jobs, list: seq<JobState>, at: seq<nat>, sorted: seq<JobState>,
                      p: seq<nat>, k: nat, l: nat)
    requires Registered(order, jobs, list, at) && Arranges(RunsBefore, list, sorted, p) && k < l < |sorted|
    requires forall id :: id in jobs ==> jobs[id].definition.jobId == id
    ensures TakenBefore(order, jobs, sorted[k].definition.jobId, sorted[l].definition.jobId)
  {
    assert RunsBefore(sorted[k], sorted[l]);
    assert RunsBefore(sorted[l], sorted[k]) ==> p[k] < p[l];
    var i, j := at[p[k]], at[p[l]];
    assert sorted[k] == jobs[order[i]] && sorted[l] == jobs[order[j]];
    hide Arranges;
    if p[k] < p[l] {
      assert i < j;
      assert RegisteredBefore(order, order[i], order[j]);
    }
  }

  /** Leaving jobs out keeps the order. */
  lemma {:induction false} RanKeepsOrder(order: seq<string>, jobs: Jobs, ids: seq<string>, completed: set<string>)
    requires TakenInOrder(order, jobs, ids)
    ensures TakenInOrder(order, jobs, Ran(ids, completed))
  {
    hide TakenBefore;
    if ids != [] {
      var n := |ids| - 1;
      RanKeepsOrder(order, jobs, ids[..n], completed);
      RanMembers(ids[..n], completed);
      var ran := Ran(ids[..n], completed);
      hide Ran;
      forall k | 0 <= k < |ran| ensures TakenBefore(order, jobs, ran[k], ids[n]) {
        assert ran[k] in ran;
        var i :| 0 <= i < n && ids[..n][i] == ran[k];
      }
    }
  }

  // ----- What a pass promises about one job

  lemma RanIsPromised(order: seq<string>, p: Progress, jobs: Jobs, clock: int, readings: seq<int>, due: int,
                      started: int, executed: seq<string>, id: string)
    requires PassOk(p, jobs, clock) && due <= started <= clock && Elements(order) == p.start.Keys
    requires |readings| == |order| && forall i :: 0 <= i < |order| ==> due <= readings[i] <= started
    requires forall i :: 0 <= i < |p.calls| ==> started <= p.calls[i].since
    requires forall x :: x in executed <==> Picked(order, p.start, readings, x) && x in p.completed
    requires id in executed
    ensures RanWithDependencies(p.start, due, clock, executed, id)
    ensures id in jobs && Renewed(p.calendar, p.start[id], jobs[id], clock)
  {
    PickedIsDue(order, p.start, readings, started);
    JobRenewed(p, jobs, clock, id);
    forall d | d in p.start[id].definition.dependencies
      ensures d in p.start && p.start[d].status !in {Failed, Cancelled}
      ensures p.start[d].status == Scheduled && p.start[d].nextRunAt <= due ==> d in executed
    {
      CompletedIsServed(p, jobs, clock, started, id, d);
      if p.start[d].status == Scheduled && p.start[d].nextRunAt <= due {
        EarlyIsPicked(order, p.start, readings, due, d);
      }
    }
  }

  lemma JobRenewed(p: Progress, jobs: Jobs, clock: int, id: string)
    requires PassOk(p, jobs, clock) && id in p.completed
    ensures id in jobs && id in p.start && Renewed(p.calendar, p.start[id], jobs[id], clock)
  {
    assert Settled(p, jobs, clock, id);
  }

  /** A job due before the pass begins is found due. */
  lemma EarlyIsPicked(order: seq<string>, jobs: Jobs, readings: seq<int>, due: int, id: string)
    requires |readings| == |order| && forall i :: 0 <= i < |order| ==> due <= readings[i]
    requires Elements(order) == jobs.Keys && DueAt(jobs, due, id)
    ensures Picked(order, jobs, readings, id)
  {
    assert id in Elements(order);
    var i :| 0 <= i < |order| && order[i] == id;
    assert DueAt(jobs, readings[i], id);
  }

  lemma FailedIsPromised(p: Progress, jobs: Jobs, clock: int, id: string)
    requires PassOk(p, jobs, clock) && Grounded(p, jobs, {})
    requires id in jobs && id in p.start && p.start[id].status == Scheduled && jobs[id].status == Failed
    ensures FailedForAReason(p.start, jobs, JobsOf(p.calls), id)
  {
    assert HasGrounds(p, jobs, {}, id);
    assert Settled(p, jobs, clock, id);
  }

  /** Nothing happens to a job that is not scheduled or not due by the end of the pass. */
  lemma LaterIsUntouched(p: Progress, jobs: Jobs, clock: int, id: string)
    requires PassOk(p, jobs, clock) && id in p.start && !DueAt(p.start, clock, id)
    ensures id in jobs && jobs[id] == p.start[id] && id !in JobsOf(p.calls)
  {
    assert Settled(p, jobs, clock, id);
  }

  lemma OpenIsGrounded(p: Progress, jobs: Jobs)
    requires Open(p, jobs, {})
    ensures Grounded(p, jobs, {})
  {
  }

  /** The end of a pass: the jobs taken have completed or failed, and the result lists those that completed. */
  lemma PassDelivers(order: seq<string>, p: Progress, jobs: Jobs, clock: int, readings: seq<int>, due: int,
                     started: int, ids: seq<string>, executed: seq<string>)
    requires PassOk(p, jobs, clock) && Grounded(p, jobs, {}) && due <= started <= clock
    requires Elements(order) == p.start.Keys && forall id :: id in p.start ==> p.start[id].definition.jobId == id
    requires |readings| == |order| && forall i :: 0 <= i < |order| ==> due <= readings[i] <= started
    requires forall i :: 0 <= i < |p.calls| ==> started <= p.calls[i].since
    requires ids == DueOrder(order, p.start, readings) && executed == Ran(ids, p.completed)
    requires forall id :: id in ids ==> id in jobs && (id in p.completed || jobs[id].status == Failed)
    ensures Delivers(p.calendar, order, p.start, jobs, due, clock, JobsOf(p.calls), executed)
    ensures forall id :: id in executed <==> Picked(order, p.start, readings, id) && id in p.completed
    ensures forall id :: Picked(order, p.start, readings, id) ==>
                           && id in jobs && (id !in p.completed ==> jobs[id].status == Failed)
                           && (id in p.completed <==> !Doomed(Followed(p), p.start, p.broken, id))
  {
    hide PassOk, Grounded, Ran, DueOrder, Picked, Doomed, Followed, TakenInOrder, FailedForAReason, RanWithDependencies,
      Renewed, JobsOf, Elements;
    DueOrderIsExact(order, p.start, readings);
    RanMembers(ids, p.completed);
    DueOrderIsSorted(order, p.start, readings);
    RanKeepsOrder(order, p.start, ids, p.completed);
    PickedIsDue(order, p.start, readings, started);
    SameJobs(p, jobs, clock);
    forall id | Picked(order, p.start, readings, id)
      ensures id in p.completed <==> !Doomed(Followed(p), p.start, p.broken, id)
    {
      CompletionIsExact(p, jobs, clock, id);
    }
    forall id | id in executed
      ensures RanWithDependencies(p.start, due, clock, executed, id)
      ensures id in jobs && id in p.start && Renewed(p.calendar, p.start[id], jobs[id], clock)
    {
      RanIsPromised(order, p, jobs, clock, readings, due, started, executed, id);
    }
    forall id | id in p.start && !DueAt(p.start, clock, id) ensures jobs[id] == p.start[id] && id !in JobsOf(p.calls) {
      LaterIsUntouched(p, jobs, clock, id);
    }
    forall id | DueAt(p.start, due, id) && id !in executed
      ensures FailedForAReason(p.start, jobs, JobsOf(p.calls), id)
    {
      EarlyIsPicked(order, p.start, readings, due, id);
      FailedIsPromised(p, jobs, clock, id);
    }
  }

  lemma SameJobs(p: Progress, jobs: Jobs, clock: int)
    requires PassOk(p, jobs, clock)
    ensures jobs.Keys == p.start.Keys
  {
  }
}
