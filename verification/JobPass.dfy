/** One pass of services/runtime/src/job-scheduler.ts over the due jobs: what it may do to them, and which of
    them complete. The runner and the clock are the environment: any outcome, any non-decreasing instants. */
module JobPasses {
  import opened Wrappers
  import opened Graphs
  import opened CronSchedules
  import opened JobModel

  /** A call of a job's runner; `since` is the instant at which the job's dependencies began to be looked at. */
  datatype Call = Call(job: string, since: int)

  /** A dependency of a job was looked at, at this reading of the clock. */
  datatype Look = Look(job: string, dependency: string, at: int)

  /** What a pass has done so far: the calendar and the jobs at its start, the runner calls, the jobs completed and
      broken, and the looks at dependencies. */
  datatype Progress = Progress(calendar: Calendar, start: Jobs, calls: seq<Call>, completed: set<string>,
                               broken: set<string>, looks: set<Look>)

  ghost function JobsOf(calls: seq<Call>): seq<string> {
    seq(|calls|, i requires 0 <= i < |calls| => calls[i].job)
  }

  /** From each due job to its due dependencies. */
  ghost function DueLinks(jobs: Jobs, t: int): set<(string, string)> {
    set j, d | j in jobs && d in jobs[j].definition.dependencies && DueAt(jobs, t, j) && DueAt(jobs, t, d) :: (j, d)
  }

  /** From each job to the dependencies that were due when it looked at them. */
  ghost function Followed(p: Progress): set<(string, string)> {
    set k | k in p.looks && DueAt(p.start, k.at, k.dependency) :: (k.job, k.dependency)
  }

  /** A job that cannot complete by itself: a dependency is missing or had failed or was cancelled before
      the pass, or its own run broke. */
  ghost predicate Blocked(jobs: Jobs, broken: set<string>, j: string) {
    && j in jobs
    && (|| j in broken
        || exists d :: d in jobs[j].definition.dependencies && (d !in jobs || jobs[d].status in {Failed, Cancelled}))
  }

  /** A job whose links lead to a blocked job or around a cycle. */
  ghost predicate Doomed(links: set<(string, string)>, jobs: Jobs, broken: set<string>, j: string) {
    exists x :: Reaches(links, j, x) && (Blocked(jobs, broken, x) || ReachesPlus(links, x, x))
  }

  function FailedWith(state: JobState, failure: JobFailure): JobState {
    state.(status := Failed, lastError := Some(failure))
  }

  /** Failed without a run, because of its dependencies. */
  ghost predicate GivenUp(before: JobState, after: JobState) {
    exists failure :: failure != RunnerFailed && after == FailedWith(before, failure)
  }

  /** What a success leaves: the instant of the run, at most `clock`, and the occurrence that follows it. */
  ghost predicate Renewed(calendar: Calendar, before: JobState, after: JobState, clock: int) {
    && after.definition == before.definition && after.lastRunAt.Some? && after.lastRunAt.value <= clock
    && var t := after.lastRunAt.value;
       match before.definition.schedule
       case Delayed(_) => after == before.(status := Completed, lastRunAt := Some(t), nextRunAt := t)
       case Recurring(interval) => after == JobState(before.definition, Some(t), t + interval, Scheduled, None)
       case Cron(fields) =>
         && after == JobState(before.definition, Some(t), after.nextRunAt, Scheduled, None)
         && IsNext(calendar, fields, t, after.nextRunAt)
  }

  ghost predicate Settled(p: Progress, jobs: Jobs, clock: int, id: string)
    requires id in jobs && id in p.start
  {
    && jobs[id].definition == p.start[id].definition
    && if id in p.completed then
         && id in JobsOf(p.calls) && DueAt(p.start, clock, id) && id !in p.broken
         && Renewed(p.calendar, p.start[id], jobs[id], clock)
       else if id in JobsOf(p.calls) then
         DueAt(p.start, clock, id) && id in p.broken && jobs[id] == FailedWith(p.start[id], RunnerFailed)
       else
         && id !in p.broken
         && (jobs[id] == p.start[id] || (DueAt(p.start, clock, id) && GivenUp(p.start[id], jobs[id])))
  }

  /** A dependency does not stand in the way of a call: it completed earlier in the pass, or it needs no
      run because it is running, has completed for good, or was not due when the check began. */
  ghost predicate Served(p: Progress, earlier: seq<Call>, since: int, d: string) {
    d in p.start &&
    (|| (d in p.completed && d in JobsOf(earlier))
     || p.start[d].status in {Running, Completed}
     || (p.start[d].status == Scheduled && p.start[d].nextRunAt > since))
  }

  ghost predicate LookedAt(p: Progress, job: string, d: string, since: int) {
    exists k :: k in p.looks && k.job == job && k.dependency == d && since <= k.at
  }

  /** The dependencies a job found due have completed, before any later call. */
  ghost predicate Cleared(p: Progress, earlier: seq<Call>, job: string) {
    forall k :: k in p.looks && k.job == job && DueAt(p.start, k.at, k.dependency) ==>
                  k.dependency in p.completed && k.dependency in JobsOf(earlier)
  }

  /** A call comes after a look at every dependency. */
  ghost predicate CallOk(p: Progress, earlier: seq<Call>, call: Call, clock: int) {
    && call.job in p.start && call.since <= clock && DueAt(p.start, call.since, call.job)
    && (forall d :: d in p.start[call.job].definition.dependencies ==>
          Served(p, earlier, call.since, d) && LookedAt(p, call.job, d, call.since))
    && Cleared(p, earlier, call.job)
  }

  ghost predicate CallsOk(p: Progress, clock: int) {
    && Distinct(JobsOf(p.calls))
    && forall i :: 0 <= i < |p.calls| ==> CallOk(p, p.calls[..i], p.calls[i], clock)
  }

  ghost predicate LookOk(p: Progress, k: Look, clock: int) {
    && k.job in p.start && k.dependency in p.start[k.job].definition.dependencies
    && k.at <= clock && DueAt(p.start, k.at, k.job)
  }

  ghost predicate LooksOk(p: Progress, clock: int) {
    forall k :: k in p.looks ==> LookOk(p, k, clock)
  }

  ghost predicate FailuresOk(p: Progress, jobs: Jobs) {
    forall id :: id in jobs && id in p.start && jobs[id].status == Failed && p.start[id].status == Scheduled ==>
                   Doomed(Followed(p), p.start, p.broken, id)
  }

  ghost predicate AllSettled(p: Progress, jobs: Jobs, clock: int) {
    && jobs.Keys == p.start.Keys && Elements(JobsOf(p.calls)) <= jobs.Keys
    && p.completed <= jobs.Keys && p.broken <= jobs.Keys
    && forall id :: id in jobs ==> Settled(p, jobs, clock, id)
  }

  /** The invariant of a pass. */
  ghost predicate PassOk(p: Progress, jobs: Jobs, clock: int) {
    AllSettled(p, jobs, clock) && LooksOk(p, clock) && CallsOk(p, clock) && FailuresOk(p, jobs)
  }

  /** What the invariant says about one job. */
  lemma JobFacts(p: Progress, jobs: Jobs, clock: int, id: string)
    requires PassOk(p, jobs, clock) && id in jobs
    ensures jobs.Keys == p.start.Keys && p.completed <= jobs.Keys
    ensures jobs[id].definition == p.start[id].definition
    ensures id in p.completed ==> id in JobsOf(p.calls) && jobs[id].status != Failed
    ensures id in JobsOf(p.calls) ==> id in p.completed || jobs[id].status == Failed
    ensures DueAt(p.start, clock, id) && id !in p.completed ==> jobs[id].status in {Scheduled, Failed}
    ensures jobs[id].status == Failed && p.start[id].status != Failed ==>
              DueAt(p.start, clock, id) && Doomed(Followed(p), p.start, p.broken, id)
  {
    assert Settled(p, jobs, clock, id);
  }

  // ----- Consequences of the invariant

  /** Runner calls come with the dependencies that were due at the start of the pass first. */
  lemma CallsAreOrdered(p: Progress, jobs: Jobs, clock: int, t: int)
    requires PassOk(p, jobs, clock)
    requires forall i :: 0 <= i < |p.calls| ==> t <= p.calls[i].since
    ensures DependenciesFirst(DueLinks(p.start, t), JobsOf(p.calls))
  {
    var ids := JobsOf(p.calls);
    forall i, d | 0 <= i < |ids| && (ids[i], d) in DueLinks(p.start, t) ensures d in ids[..i] {
      assert CallOk(p, p.calls[..i], p.calls[i], clock);
      assert Served(p, p.calls[..i], p.calls[i].since, d);
      assert JobsOf(p.calls[..i]) == ids[..i];
    }
  }

  /** They also come with the dependencies first that were found due. */
  lemma CallsFollow(p: Progress, jobs: Jobs, clock: int)
    requires PassOk(p, jobs, clock)
    ensures DependenciesFirst(Followed(p), JobsOf(p.calls))
  {
    var ids := JobsOf(p.calls);
    forall i, d | 0 <= i < |ids| && (ids[i], d) in Followed(p) ensures d in ids[..i] {
      assert CallOk(p, p.calls[..i], p.calls[i], clock);
      assert JobsOf(p.calls[..i]) == ids[..i];
    }
  }

  lemma OrderedHasNoCycle(links: set<(string, string)>, ids: seq<string>, a: string)
    requires DependenciesFirst(links, ids) && Distinct(ids) && ReachesPlus(links, a, a)
    ensures a !in ids
  {
    var path :| Walk(links, a, a, path) && |path| >= 2;
    if i :| 0 <= i < |ids| && ids[i] == a {
      var j := OrderBoundsPath(links, ids, path, i);
    }
  }

  /** No job on a cycle of due jobs is run. */
  lemma CyclesDoNotRun(p: Progress, jobs: Jobs, clock: int, t: int, a: string)
    requires PassOk(p, jobs, clock)
    requires forall i :: 0 <= i < |p.calls| ==> t <= p.calls[i].since
    requires ReachesPlus(DueLinks(p.start, t), a, a)
    ensures a !in JobsOf(p.calls)
  {
    CallsAreOrdered(p, jobs, clock, t);
    OrderedHasNoCycle(DueLinks(p.start, t), JobsOf(p.calls), a);
  }

  /** A job that completed carries the instant of its run and is not due again at that instant. */
  lemma CompletedIsRenewed(p: Progress, jobs: Jobs, clock: int, id: string)
    requires PassOk(p, jobs, clock) && id in p.completed
    requires id in jobs && jobs[id].definition.schedule.Recurring? ==> jobs[id].definition.schedule.interval > 0
    ensures id in jobs && id in p.start && Renewed(p.calendar, p.start[id], jobs[id], clock)
    ensures !DueAt(jobs, jobs[id].lastRunAt.value, id)
  {
    assert Settled(p, jobs, clock, id);
  }

  /** Links from a completed job lead to completed jobs, called before it. */
  ghost predicate LeadBack(p: Progress, links: set<(string, string)>) {
    && DependenciesFirst(links, JobsOf(p.calls))
    && forall e :: e in links && e.0 in p.completed ==> e.1 in p.completed
  }

  lemma DueLinksLeadBack(p: Progress, jobs: Jobs, clock: int, t: int)
    requires PassOk(p, jobs, clock)
    requires forall i :: 0 <= i < |p.calls| ==> t <= p.calls[i].since
    ensures LeadBack(p, DueLinks(p.start, t))
  {
    CallsAreOrdered(p, jobs, clock, t);
    forall e | e in DueLinks(p.start, t) && e.0 in p.completed ensures e.1 in p.completed {
      JobFacts(p, jobs, clock, e.0);
      var i :| 0 <= i < |p.calls| && JobsOf(p.calls)[i] == e.0;
      assert CallOk(p, p.calls[..i], p.calls[i], clock);
      assert Served(p, p.calls[..i], p.calls[i].since, e.1);
    }
  }

  lemma FollowedLeadsBack(p: Progress, jobs: Jobs, clock: int)
    requires PassOk(p, jobs, clock)
    ensures LeadBack(p, Followed(p))
  {
    CallsFollow(p, jobs, clock);
    forall e | e in Followed(p) && e.0 in p.completed ensures e.1 in p.completed {
      JobFacts(p, jobs, clock, e.0);
      var i :| 0 <= i < |p.calls| && JobsOf(p.calls)[i] == e.0;
      assert CallOk(p, p.calls[..i], p.calls[i], clock);
    }
  }

  lemma CompletedNotBlocked(p: Progress, jobs: Jobs, clock: int, x: string)
    requires PassOk(p, jobs, clock) && x in p.completed
    ensures !Blocked(p.start, p.broken, x)
  {
    assert Settled(p, jobs, clock, x);
    var i :| 0 <= i < |p.calls| && JobsOf(p.calls)[i] == x;
    assert CallOk(p, p.calls[..i], p.calls[i], clock);
    forall d | d in p.start[x].definition.dependencies
      ensures d in p.start && p.start[d].status !in {Failed, Cancelled}
    {
      assert Served(p, p.calls[..i], p.calls[i].since, d);
      if d in p.completed {
        assert Settled(p, jobs, clock, d);
      }
    }
  }

  /** Along links that lead back, nothing a completed job depends on was blocked or on a cycle. */
  lemma CompletedIsNotDoomed(p: Progress, jobs: Jobs, clock: int, links: set<(string, string)>, j: string)
    requires PassOk(p, jobs, clock) && LeadBack(p, links) && j in p.completed
    ensures !Doomed(links, p.start, p.broken, j)
  {
    forall x | Reaches(links, j, x) ensures !Blocked(p.start, p.broken, x) && !ReachesPlus(links, x, x) {
      var path :| Walk(links, j, x, path);
      CompletedPath(p, links, path);
      CompletedNotBlocked(p, jobs, clock, x);
      JobFacts(p, jobs, clock, x);
      if ReachesPlus(links, x, x) {
        OrderedHasNoCycle(links, JobsOf(p.calls), x);
      }
    }
  }

  lemma {:induction false} CompletedPath(p: Progress, links: set<(string, string)>, path: seq<string>)
    requires LeadBack(p, links) && IsPath(links, path) && path[0] in p.completed
    ensures path[|path| - 1] in p.completed
    decreases |path|
  {
    if |path| > 1 {
      assert (path[0], path[0 + 1]) in links;
      SubPath(links, path, 1, |path| - 1);
      assert path[1..|path|] == path[1..];
      CompletedPath(p, links, path[1..]);
    }
  }

  /** The dependencies of a completed job are registered, have not failed, and have completed if they were due. */
  lemma CompletedIsServed(p: Progress, jobs: Jobs, clock: int, t: int, x: string, d: string)
    requires PassOk(p, jobs, clock) && x in p.completed && DueAt(p.start, t, x)
    requires forall i :: 0 <= i < |p.calls| ==> t <= p.calls[i].since
    requires x in p.start && d in p.start[x].definition.dependencies
    ensures d in p.start && p.start[d].status !in {Failed, Cancelled}
    ensures p.start[d].status == Scheduled && p.start[d].nextRunAt <= t ==> d in p.completed
  {
    CompletedNotBlocked(p, jobs, clock, x);
    assert d in p.start && p.start[d].status !in {Failed, Cancelled};
    DueLinksLeadBack(p, jobs, clock, t);
    hide PassOk, Blocked;
    if DueAt(p.start, t, d) {
      assert (x, d) in DueLinks(p.start, t);
      assert (x, d).1 in p.completed;
    }
  }

  /** Main result, for every pass: a job that was due completes exactly when the dependencies found due, each at
      the reading at which it was looked at, lead to no blocked job and around no cycle. */
  lemma CompletionIsExact(p: Progress, jobs: Jobs, clock: int, id: string)
    requires PassOk(p, jobs, clock) && id in p.start && p.start[id].status == Scheduled
    requires id in p.completed || (id in jobs && jobs[id].status == Failed)
    ensures id in p.completed <==> !Doomed(Followed(p), p.start, p.broken, id)
  {
    if id in p.completed {
      FollowedLeadsBack(p, jobs, clock);
      CompletedIsNotDoomed(p, jobs, clock, Followed(p), id);
    }
  }

  /** What was found due is due by the end of the pass. */
  lemma FollowedIsDue(p: Progress, jobs: Jobs, clock: int)
    requires PassOk(p, jobs, clock)
    ensures Followed(p) <= DueLinks(p.start, clock)
  {
    forall e | e in Followed(p) ensures e in DueLinks(p.start, clock) {
      var k :| k in p.looks && DueAt(p.start, k.at, k.dependency) && e == (k.job, k.dependency);
      assert LookOk(p, k, clock);
    }
  }

  /** In particular, when no occurrence falls due during the pass, the due jobs at its start decide. */
  lemma CompletionAtRest(p: Progress, jobs: Jobs, started: int, clock: int, id: string)
    requires PassOk(p, jobs, clock) && DueAt(p.start, started, id) && started <= clock
    requires forall i :: 0 <= i < |p.calls| ==> started <= p.calls[i].since
    requires id in p.completed || (id in jobs && jobs[id].status == Failed)
    requires forall j :: j in p.start && p.start[j].status == Scheduled ==> !(started < p.start[j].nextRunAt <= clock)
    ensures id in p.completed <==> !Doomed(DueLinks(p.start, started), p.start, p.broken, id)
  {
    if id in p.completed {
      DueLinksLeadBack(p, jobs, clock, started);
      CompletedIsNotDoomed(p, jobs, clock, DueLinks(p.start, started), id);
    } else {
      FollowedIsDue(p, jobs, clock);
      assert DueLinks(p.start, started) == DueLinks(p.start, clock);
      StillDoomed(Followed(p), DueLinks(p.start, started), p.start, p.broken, p.broken, id);
    }
  }

  // ----- Steps of a pass

  lemma StillDoomed(links: set<(string, string)>, links': set<(string, string)>, jobs: Jobs, broken: set<string>,
                    broken': set<string>, j: string)
    requires Doomed(links, jobs, broken, j) && links <= links' && broken <= broken'
    ensures Doomed(links', jobs, broken', j)
  {
    var x :| Reaches(links, j, x) && (Blocked(jobs, broken, x) || ReachesPlus(links, x, x));
    MonotoneReaches(links, links', j, x);
    MonotoneReaches(links, links', x, x);
  }

  lemma DoomedByDependency(links: set<(string, string)>, jobs: Jobs, broken: set<string>, j: string, d: string)
    requires (j, d) in links && Doomed(links, jobs, broken, d)
    ensures Doomed(links, jobs, broken, j)
  {
    var x :| Reaches(links, d, x) && (Blocked(jobs, broken, x) || ReachesPlus(links, x, x));
    EdgeReaches(links, j, d);
    ReachesTrans(links, j, d, x);
  }

  lemma DoomedByItself(links: set<(string, string)>, jobs: Jobs, broken: set<string>, j: string)
    requires Blocked(jobs, broken, j) || ReachesPlus(links, j, j)
    ensures Doomed(links, jobs, broken, j)
  {
    ReachesRefl(links, j);
  }

  /** Time passing keeps the invariant. */
  lemma PassOkLater(p: Progress, jobs: Jobs, clock: int, clock': int)
    requires PassOk(p, jobs, clock) && clock <= clock'
    ensures PassOk(p, jobs, clock')
  {
    hide Served, Cleared, LookedAt, Doomed, Followed;
    forall id | id in jobs ensures Settled(p, jobs, clock', id) {
      assert Settled(p, jobs, clock, id);
    }
    forall i | 0 <= i < |p.calls| ensures CallOk(p, p.calls[..i], p.calls[i], clock') {
      assert CallOk(p, p.calls[..i], p.calls[i], clock);
    }
  }

  /** Failing a job that is doomed and was not run keeps the invariant. */
  lemma PassOkFail(p: Progress, jobs: Jobs, clock: int, id: string, failure: JobFailure)
    requires PassOk(p, jobs, clock) && id in jobs && id !in JobsOf(p.calls)
    requires DueAt(p.start, clock, id) && Doomed(Followed(p), p.start, p.broken, id) && failure != RunnerFailed
    ensures PassOk(p, jobs[id := FailedWith(jobs[id], failure)], clock)
  {
    var after := jobs[id := FailedWith(jobs[id], failure)];
    assert Settled(p, jobs, clock, id);
    StillGivenUp(p.start[id], jobs[id], failure);
    hide GivenUp, Renewed, Doomed, DueAt, CallsOk, LooksOk, Followed;
    forall x | x in after ensures Settled(p, after, clock, x) {
      assert Settled(p, jobs, clock, x);
    }
  }

  lemma StillGivenUp(before: JobState, state: JobState, failure: JobFailure)
    requires failure != RunnerFailed
    ensures state == before || GivenUp(before, state) ==> GivenUp(before, FailedWith(state, failure))
  {
    if state == before || GivenUp(before, state) {
      assert FailedWith(state, failure) == FailedWith(before, failure);
    }
  }

  ghost function AfterLook(p: Progress, job: string, d: string, at: int): Progress {
    p.(looks := p.looks + {Look(job, d, at)})
  }

  /** A look at a dependency of a due job that was not run keeps the invariant. */
  lemma PassOkLook(p: Progress, jobs: Jobs, clock: int, job: string, d: string)
    requires PassOk(p, jobs, clock) && DueAt(p.start, clock, job) && job !in JobsOf(p.calls)
    requires d in p.start[job].definition.dependencies
    ensures var p' := AfterLook(p, job, d, clock);
            && PassOk(p', jobs, clock) && Followed(p) <= Followed(p')
            && (DueAt(p.start, clock, d) ==> (job, d) in Followed(p'))
  {
    var p' := AfterLook(p, job, d, clock);
    assert Look(job, d, clock) in p'.looks;
    forall id | id in jobs ensures Settled(p', jobs, clock, id) {
      assert Settled(p, jobs, clock, id);
    }
    hide Settled;
    LookKeepsCalls(p, clock, job, d);
    assert Followed(p) <= Followed(p');
    hide Followed, CallsOk;
    forall id | id in jobs && id in p.start && jobs[id].status == Failed && p.start[id].status == Scheduled
      ensures Doomed(Followed(p'), p.start, p.broken, id)
    {
      StillDoomed(Followed(p), Followed(p'), p.start, p.broken, p.broken, id);
    }
  }

  lemma LookKeepsCalls(p: Progress, clock: int, job: string, d: string)
    requires CallsOk(p, clock) && job !in JobsOf(p.calls)
    ensures CallsOk(AfterLook(p, job, d, clock), clock)
  {
    var p' := AfterLook(p, job, d, clock);
    forall i | 0 <= i < |p.calls| ensures CallOk(p', p.calls[..i], p.calls[i], clock) {
      assert CallOk(p, p.calls[..i], p.calls[i], clock);
      assert JobsOf(p.calls)[i] != job;
      LookKeepsCall(p, p.calls[..i], p.calls[i], clock, job, d);
    }
  }

  lemma LookKeepsCall(p: Progress, earlier: seq<Call>, call: Call, clock: int, job: string, d: string)
    requires CallOk(p, earlier, call, clock) && call.job != job
    ensures CallOk(AfterLook(p, job, d, clock), earlier, call, clock)
  {
    var p' := AfterLook(p, job, d, clock);
    forall x | x in p.start[call.job].definition.dependencies
      ensures Served(p', earlier, call.since, x) && LookedAt(p', call.job, x, call.since)
    {
      assert Served(p, earlier, call.since, x) && LookedAt(p, call.job, x, call.since);
      var k :| k in p.looks && k.job == call.job && k.dependency == x && call.since <= k.at;
      assert k in p'.looks;
    }
  }

  /** A runner call: the job has not been run, was due, and its dependencies are served. */
  ghost predicate MayCall(p: Progress, jobs: Jobs, clock: int, id: string, since: int) {
    && id in jobs && id !in JobsOf(p.calls) && jobs[id].status == Scheduled
    && CallOk(p, p.calls, Call(id, since), clock)
  }

  ghost function AfterCall(p: Progress, id: string, since: int, ok: bool): Progress {
    p.(calls := p.calls + [Call(id, since)],
       completed := if ok then p.completed + {id} else p.completed,
       broken := if ok then p.broken else p.broken + {id})
  }

  lemma PassOkCall(p: Progress, jobs: Jobs, clock: int, id: string, since: int, ok: bool, state: JobState)
    requires PassOk(p, jobs, clock) && MayCall(p, jobs, clock, id, since)
    requires if ok then Renewed(p.calendar, jobs[id], state, clock) else state == FailedWith(jobs[id], RunnerFailed)
    ensures PassOk(AfterCall(p, id, since, ok), jobs[id := state], clock)
  {
    CallSettles(p, jobs, clock, id, since, ok, state);
    CallsGrow(p, jobs, clock, id, since, ok);
    CallDooms(p, jobs, clock, id, since, ok, state);
    hide AllSettled, CallsOk, FailuresOk, MayCall;
  }

  lemma CallSettles(p: Progress, jobs: Jobs, clock: int, id: string, since: int, ok: bool, state: JobState)
    requires PassOk(p, jobs, clock) && MayCall(p, jobs, clock, id, since)
    requires if ok then Renewed(p.calendar, jobs[id], state, clock) else state == FailedWith(jobs[id], RunnerFailed)
    ensures AllSettled(AfterCall(p, id, since, ok), jobs[id := state], clock)
  {
    hide LooksOk, CallsOk, FailuresOk, Distinct;
    assert state.definition == jobs[id].definition;
    hide Renewed;
    var p' := AfterCall(p, id, since, ok);
    assert JobsOf(p'.calls) == JobsOf(p.calls) + [id];
    ElementsAppend(JobsOf(p.calls), id);
    hide JobsOf, Elements;
    forall x | x in jobs ensures Settled(p', jobs[id := state], clock, x) {
      assert Settled(p, jobs, clock, x);
    }
  }

  lemma CallDooms(p: Progress, jobs: Jobs, clock: int, id: string, since: int, ok: bool, state: JobState)
    requires PassOk(p, jobs, clock) && MayCall(p, jobs, clock, id, since)
    requires if ok then Renewed(p.calendar, jobs[id], state, clock) else state == FailedWith(jobs[id], RunnerFailed)
    ensures FailuresOk(AfterCall(p, id, since, ok), jobs[id := state])
  {
    hide LooksOk, CallsOk, Settled, Served, Cleared, LookedAt, Doomed, Followed;
    var p', after := AfterCall(p, id, since, ok), jobs[id := state];
    assert Followed(p') == Followed(p) by { SameLooks(p, p'); }
    forall x | x in after && x in p.start && after[x].status == Failed && p.start[x].status == Scheduled
      ensures Doomed(Followed(p'), p.start, p'.broken, x)
    {
      if x == id {
        BrokenIsDoomed(Followed(p), p.start, p'.broken, id);
      } else {
        StillDoomed(Followed(p), Followed(p), p.start, p.broken, p'.broken, x);
      }
    }
  }

  lemma SameLooks(p: Progress, p': Progress)
    requires p.start == p'.start && p.looks == p'.looks
    ensures Followed(p) == Followed(p')
  {
  }

  lemma CallsGrow(p: Progress, jobs: Jobs, clock: int, id: string, since: int, ok: bool)
    requires PassOk(p, jobs, clock) && MayCall(p, jobs, clock, id, since)
    ensures CallsOk(AfterCall(p, id, since, ok), clock)
  {
    var p' := AfterCall(p, id, since, ok);
    assert JobsOf(p'.calls) == JobsOf(p.calls) + [id];
    DistinctAppend(JobsOf(p.calls), id);
    hide AllSettled, LooksOk, FailuresOk, Distinct;
    forall i | 0 <= i < |p'.calls| ensures CallOk(p', p'.calls[..i], p'.calls[i], clock) {
      assert p'.calls[..i] == p.calls[..i];
      var call := if i < |p.calls| then p.calls[i] else Call(id, since);
      assert p.calls[..|p.calls|] == p.calls;
      assert CallOk(p, p.calls[..i], call, clock);
      CallStays(p, p', p.calls[..i], call, clock);
    }
  }

  lemma CallStays(p: Progress, p': Progress, earlier: seq<Call>, call: Call, clock: int)
    requires CallOk(p, earlier, call, clock)
    requires p'.start == p.start && p'.looks == p.looks && p.completed <= p'.completed
    ensures CallOk(p', earlier, call, clock)
  {
    forall d | d in p.start[call.job].definition.dependencies
      ensures Served(p', earlier, call.since, d) && LookedAt(p', call.job, d, call.since)
    {
      assert Served(p, earlier, call.since, d) && LookedAt(p, call.job, d, call.since);
    }
  }

  /** A dependency found due has completed, unless the job that looked at it is being visited or has failed. */
  ghost predicate LooksOpen(p: Progress, jobs: Jobs, visiting: set<string>) {
    forall k :: k in p.looks && DueAt(p.start, k.at, k.dependency) ==>
                  k.dependency in p.completed || k.job in visiting || (k.job in jobs && jobs[k.job].status == Failed)
  }

  /** A job that failed in the pass says why: its runner was called, a dependency is not registered, or one has
      failed or was cancelled. A cycle is named only while the job is being visited. */
  ghost predicate HasGrounds(p: Progress, jobs: Jobs, visiting: set<string>, id: string)
    requires id in jobs && id in p.start
  {
    var dependencies := p.start[id].definition.dependencies;
    match jobs[id].lastError
    case None => false
    case Some(RunnerFailed) => id in p.broken
    case Some(DependencyMissing) => exists d :: d in dependencies && d !in jobs
    case Some(DependencyIncomplete) =>
      exists d :: d in dependencies && d in jobs && jobs[d].status in {Failed, Cancelled}
    case Some(DependencyCycle) => id in visiting
  }

  ghost predicate Grounded(p: Progress, jobs: Jobs, visiting: set<string>) {
    forall id :: id in jobs && id in p.start && jobs[id].status == Failed && p.start[id].status == Scheduled ==>
                   HasGrounds(p, jobs, visiting, id)
  }

  /** What holds while some jobs are being visited. */
  ghost predicate Open(p: Progress, jobs: Jobs, visiting: set<string>) {
    LooksOpen(p, jobs, visiting) && Grounded(p, jobs, visiting)
  }

  /** The jobs being visited are as they were. */
  ghost predicate Untouched(visiting: set<string>, before: Jobs, after: Jobs) {
    forall v :: v in visiting ==> v in before && v in after && after[v] == before[v]
  }

  lemma BrokenIsDoomed(links: set<(string, string)>, jobs: Jobs, broken: set<string>, j: string)
    requires j in jobs && j in broken
    ensures Doomed(links, jobs, broken, j)
  {
    DoomedByItself(links, jobs, broken, j);
  }

  /** Nothing has happened at the start of a pass. */
  lemma PassOkStart(calendar: Calendar, jobs: Jobs, clock: int)
    ensures PassOk(Progress(calendar, jobs, [], {}, {}, {}), jobs, clock)
    ensures Open(Progress(calendar, jobs, [], {}, {}, {}), jobs, {})
  {
    var p := Progress(calendar, jobs, [], {}, {}, {});
    assert JobsOf([]) == [];
    forall id | id in jobs ensures Settled(p, jobs, clock, id) {
    }
  }

  /** The chain of jobs being visited: a path of due jobs, none of them run yet. */
  ghost predicate OnStack(p: Progress, clock: int, visiting: set<string>, stack: seq<string>, id: string) {
    && visiting == Elements(stack) && visiting <= p.start.Keys
    && IsPath(Followed(p), stack + [id])
    && DueAt(p.start, clock, id)
    && visiting !! Elements(JobsOf(p.calls))
  }

  /** The chain ends in the job whose dependencies are being looked at. */
  ghost predicate OnTop(p: Progress, clock: int, visiting: set<string>, stack: seq<string>, id: string) {
    && visiting == Elements(stack) && visiting <= p.start.Keys
    && IsPath(Followed(p), stack) && stack[|stack| - 1] == id
    && DueAt(p.start, clock, id)
    && visiting !! Elements(JobsOf(p.calls))
  }

  lemma StackFacts(p: Progress, clock: int, visiting: set<string>, stack: seq<string>, id: string)
    requires OnStack(p, clock, visiting, stack, id) || OnTop(p, clock, visiting, stack, id)
    ensures DueAt(p.start, clock, id) && visiting <= p.start.Keys && visiting !! Elements(JobsOf(p.calls))
    ensures id in visiting || OnTop(p, clock, visiting, stack, id) ==> id in visiting && id !in JobsOf(p.calls)
    ensures id !in JobsOf(p.calls) ==> visiting + {id} !! Elements(JobsOf(p.calls))
  {
    if id in visiting || OnTop(p, clock, visiting, stack, id) {
      assert id in Elements(stack);
      assert id !in Elements(JobsOf(p.calls));
    }
  }

  /** The chain stays one while looks and readings are added. */
  lemma PushOnStack(p: Progress, p': Progress, clock: int, clock': int, visiting: set<string>, stack: seq<string>,
                    id: string)
    requires OnStack(p, clock, visiting, stack, id) && clock <= clock' && p'.start == p.start && p.looks <= p'.looks
    requires visiting + {id} !! Elements(JobsOf(p'.calls))
    ensures OnTop(p', clock', visiting + {id}, stack + [id], id)
  {
    ElementsAppend(stack, id);
    assert Followed(p) <= Followed(p');
  }

  lemma StackDependency(p: Progress, p': Progress, t: int, clock: int, visiting: set<string>, stack: seq<string>,
                        id: string, d: string)
    requires OnTop(p, t, visiting, stack, id) && t <= clock
    requires p' == AfterLook(p, id, d, clock) && DueAt(p.start, clock, d)
    ensures OnStack(p', clock, visiting, stack, d)
  {
    assert Look(id, d, clock) in p'.looks;
    assert Followed(p) <= Followed(p');
    assert (id, d) in Followed(p');
    ExtendPath(Followed(p'), stack, d);
  }

  /** Meeting a visited job again dooms it. */
  lemma StackDooms(p: Progress, clock: int, visiting: set<string>, stack: seq<string>, id: string)
    requires OnStack(p, clock, visiting, stack, id) && id in visiting
    ensures Doomed(Followed(p), p.start, p.broken, id)
  {
    StackCycle(Followed(p), stack, id);
    DoomedByItself(Followed(p), p.start, p.broken, id);
  }

  /** A dependency that is missing, has failed or was cancelled dooms the job that looks at it. */
  lemma DependencyDooms(p: Progress, jobs: Jobs, clock: int, job: string, d: string)
    requires PassOk(p, jobs, clock) && job in p.start && d in p.start[job].definition.dependencies
    requires d in jobs ==> jobs[d].status in {Failed, Cancelled}
    requires d in jobs && p.start[d].status != Failed && DueAt(p.start, clock, d) ==> (job, d) in Followed(p)
    ensures Doomed(Followed(p), p.start, p.broken, job)
  {
    if d !in jobs || p.start[d].status in {Failed, Cancelled} {
      DoomedByItself(Followed(p), p.start, p.broken, job);
    } else {
      assert Settled(p, jobs, clock, d);
      JobFacts(p, jobs, clock, d);
      DoomedByDependency(Followed(p), p.start, p.broken, job, d);
    }
  }

  /** A scheduled dependency found due was due at the start, at the present instant. A dependency that is not in
      the way is served, and if it was due it has completed. */
  lemma DependencyFacts(p: Progress, jobs: Jobs, clock: int, since: int, d: string)
    requires PassOk(p, jobs, clock) && since <= clock && d in jobs
    ensures DueAt(jobs, clock, d) ==> DueAt(p.start, clock, d)
    ensures d in p.completed ==> Served(p, p.calls, since, d)
    ensures jobs[d].status !in {Failed, Cancelled} && !DueAt(jobs, clock, d) ==>
              Served(p, p.calls, since, d) && (DueAt(p.start, clock, d) ==> d in p.completed)
  {
    assert Settled(p, jobs, clock, d);
  }

  lemma UntouchedFacts(visiting: set<string>, jobs: Jobs, jobs': Jobs, jobs'': Jobs)
    ensures visiting <= jobs.Keys ==> Untouched(visiting, jobs, jobs)
    ensures Untouched(visiting, jobs, jobs') && Untouched(visiting, jobs', jobs'') ==> Untouched(visiting, jobs, jobs'')
  {
  }

  lemma UntouchedAt(visiting: set<string>, before: Jobs, after: Jobs, v: string)
    requires Untouched(visiting, before, after) && v in visiting
    ensures v in before && v in after && after[v] == before[v]
  {
  }

  // ----- Stretches of a pass

  /** Time goes on, calls are appended with instants not before `bound`, completed jobs stay completed and failed
      ones failed, and the jobs being visited look at nothing more. */
  ghost predicate Advanced(visiting: set<string>, bound: int, t: int, p: Progress, jobs: Jobs,
                           t': int, p': Progress, jobs': Jobs) {
    && t <= t' && p'.start == p.start && p.calls <= p'.calls && p.completed <= p'.completed && p.looks <= p'.looks
    && (forall k :: k in p'.looks && k.job in visiting ==> k in p.looks)
    && (forall i :: |p.calls| <= i < |p'.calls| ==> bound <= p'.calls[i].since)
    && (forall id :: id in jobs && jobs[id].status == Failed ==> id in jobs' && jobs'[id].status == Failed)
  }

  lemma AdvancedIdle(visiting: set<string>, bound: int, t: int, p: Progress, jobs: Jobs, t': int)
    requires t <= t'
    ensures Advanced(visiting, bound, t, p, jobs, t', p, jobs)
  {
  }

  lemma AdvancedFacts(visiting: set<string>, bound: int, t: int, p: Progress, jobs: Jobs,
                      t': int, p': Progress, jobs': Jobs)
    requires Advanced(visiting, bound, t, p, jobs, t', p', jobs')
    ensures t <= t' && p'.start == p.start && p.calls <= p'.calls && p.completed <= p'.completed && p.looks <= p'.looks
    ensures Followed(p) <= Followed(p')
    ensures forall id :: id in jobs && jobs[id].status == Failed ==> id in jobs' && jobs'[id].status == Failed
  {
  }

  lemma AdvancedTwice(visiting: set<string>, bound: int, t: int, p: Progress, jobs: Jobs,
                      more: set<string>, bound': int, t': int, p': Progress, jobs': Jobs,
                      t'': int, p'': Progress, jobs'': Jobs)
    requires Advanced(visiting, bound, t, p, jobs, t', p', jobs') && visiting <= more && bound <= bound'
    requires Advanced(more, bound', t', p', jobs', t'', p'', jobs'')
    ensures Advanced(visiting, bound, t, p, jobs, t'', p'', jobs'')
  {
    forall i | |p.calls| <= i < |p''.calls| ensures bound <= p''.calls[i].since {
      if i < |p'.calls| {
        assert p''.calls[i] == p'.calls[i];
      }
    }
  }

  lemma ServedLater(p: Progress, p': Progress, since: int, job: string, d: string)
    requires Served(p, p.calls, since, d) && LookedAt(p, job, d, since)
    requires p.start == p'.start && p.calls <= p'.calls && p.completed <= p'.completed && p.looks <= p'.looks
    ensures Served(p', p'.calls, since, d) && LookedAt(p', job, d, since)
  {
    if d in p.completed && d in JobsOf(p.calls) {
      var i :| 0 <= i < |p.calls| && JobsOf(p.calls)[i] == d;
      assert JobsOf(p'.calls)[i] == d;
    }
    var k :| k in p.looks && k.job == job && k.dependency == d && since <= k.at;
    assert k in p'.looks;
  }

  /** The first dependencies of a job have been looked at and do not stand in the way. */
  ghost predicate Checked(p: Progress, since: int, job: string, ids: seq<string>) {
    forall j :: 0 <= j < |ids| ==> Served(p, p.calls, since, ids[j]) && LookedAt(p, job, ids[j], since)
  }

  lemma CheckedMore(p: Progress, p': Progress, since: int, job: string, ids: seq<string>, i: nat)
    requires i < |ids| && Checked(p, since, job, ids[..i])
    requires p.start == p'.start && p.calls <= p'.calls && p.completed <= p'.completed && p.looks <= p'.looks
    requires Served(p', p'.calls, since, ids[i]) && LookedAt(p', job, ids[i], since)
    ensures Checked(p', since, job, ids[..i + 1])
  {
    forall j | 0 <= j < i + 1 ensures Served(p', p'.calls, since, ids[j]) && LookedAt(p', job, ids[j], since) {
      if j < i {
        assert ids[..i][j] == ids[j];
        ServedLater(p, p', since, job, ids[j]);
      }
    }
  }

  // ----- Open looks

  /** What a failure has to show, apart from the runner's. */
  ghost predicate MayFail(p: Progress, jobs: Jobs, visiting: set<string>, id: string, failure: JobFailure) {
    && id in jobs && id in p.start
    && HasGrounds(p, jobs[id := FailedWith(jobs[id], failure)], visiting, id)
  }

  lemma GroundsToFail(p: Progress, jobs: Jobs, visiting: set<string>, id: string, d: string)
    requires id in jobs && id in p.start
    ensures id in visiting ==> MayFail(p, jobs, visiting, id, DependencyCycle)
    ensures d in p.start[id].definition.dependencies && d !in jobs ==>
              MayFail(p, jobs, visiting, id, DependencyMissing)
    ensures d in p.start[id].definition.dependencies && d in jobs && jobs[d].status in {Failed, Cancelled} ==>
              MayFail(p, jobs, visiting, id, DependencyIncomplete)
  {
  }

  /** A failure closes the looks of its job, and with a reason other than a cycle it need not be visited. */
  lemma OpenAfterFail(p: Progress, jobs: Jobs, visiting: set<string>, id: string, failure: JobFailure)
    requires Open(p, jobs, visiting) && MayFail(p, jobs, visiting, id, failure)
    ensures Open(p, jobs[id := FailedWith(jobs[id], failure)], visiting)
    ensures failure != DependencyCycle ==> Open(p, jobs[id := FailedWith(jobs[id], failure)], visiting - {id})
  {
    var jobs' := jobs[id := FailedWith(jobs[id], failure)];
    assert LooksOpen(p, jobs', visiting - {id});
    assert LooksOpen(p, jobs', visiting);
    hide LooksOpen;
    forall x | x in jobs' && x in p.start && jobs'[x].status == Failed && p.start[x].status == Scheduled
      ensures HasGrounds(p, jobs', visiting, x)
      ensures failure != DependencyCycle ==> HasGrounds(p, jobs', visiting - {id}, x)
    {
      if x != id {
        GroundsStay(p, jobs, jobs', visiting, x);
      }
    }
  }

  /** Failing another job takes no reason away. */
  lemma GroundsStay(p: Progress, jobs: Jobs, jobs': Jobs, visiting: set<string>, x: string)
    requires x in jobs && x in p.start && HasGrounds(p, jobs, visiting, x)
    requires jobs'.Keys == jobs.Keys && jobs'[x] == jobs[x]
    requires forall d :: d in jobs && jobs[d].status in {Failed, Cancelled} ==> jobs'[d].status in {Failed, Cancelled}
    ensures HasGrounds(p, jobs', visiting, x)
  {
  }

  lemma GroundedMore(p: Progress, p': Progress, jobs: Jobs, visiting: set<string>, more: set<string>)
    requires Grounded(p, jobs, visiting) && visiting <= more && p'.start == p.start && p.broken <= p'.broken
    ensures Grounded(p', jobs, more)
  {
    forall id | id in jobs && id in p.start && jobs[id].status == Failed && p.start[id].status == Scheduled
      ensures HasGrounds(p', jobs, more, id)
    {
      assert HasGrounds(p, jobs, visiting, id);
    }
  }

  /** A new look is open as long as its job is visited; it is closed at once if the dependency was not due. */
  lemma OpenAfterLook(p: Progress, jobs: Jobs, visiting: set<string>, job: string, d: string, at: int)
    requires Open(p, jobs, visiting)
    ensures Open(AfterLook(p, job, d, at), jobs, visiting + {job})
    ensures (DueAt(p.start, at, d) ==> d in p.completed) ==> Open(AfterLook(p, job, d, at), jobs, visiting)
  {
    GroundedMore(p, AfterLook(p, job, d, at), jobs, visiting, visiting + {job});
    GroundedMore(p, AfterLook(p, job, d, at), jobs, visiting, visiting);
    hide Grounded;
  }

  /** The looks of a job are closed again when the dependency it waited for has completed. */
  lemma OpenAfterWait(p: Progress, jobs: Jobs, visiting: set<string>, job: string, d: string, at: int,
                      t: int, t': int, p': Progress, jobs': Jobs)
    requires Open(p, jobs, visiting - {job}) && job in visiting
    requires Advanced(visiting, t, t, AfterLook(p, job, d, at), jobs, t', p', jobs')
    requires Open(p', jobs', visiting) && d in p'.completed && job in jobs' && jobs'[job].status != Failed
    ensures Open(p', jobs', visiting - {job})
  {
    LooksClosed(p, jobs, visiting, job, d, at, t, t', p', jobs');
    assert Grounded(p', jobs', visiting);
    hide LooksOpen;
    forall id | id in jobs' && id in p'.start && jobs'[id].status == Failed && p'.start[id].status == Scheduled
      ensures HasGrounds(p', jobs', visiting - {job}, id)
    {
      assert HasGrounds(p', jobs', visiting, id);
    }
  }

  lemma LooksClosed(p: Progress, jobs: Jobs, visiting: set<string>, job: string, d: string, at: int,
                    t: int, t': int, p': Progress, jobs': Jobs)
    requires LooksOpen(p, jobs, visiting - {job}) && job in visiting
    requires Advanced(visiting, t, t, AfterLook(p, job, d, at), jobs, t', p', jobs')
    requires LooksOpen(p', jobs', visiting) && d in p'.completed
    ensures LooksOpen(p', jobs', visiting - {job})
  {
    forall k | k in p'.looks && DueAt(p'.start, k.at, k.dependency)
      ensures || k.dependency in p'.completed || k.job in visiting - {job}
              || (k.job in jobs' && jobs'[k.job].status == Failed)
    {
      if k.job == job {
        assert k in AfterLook(p, job, d, at).looks;
      }
    }
  }

  lemma OpenAfterCall(p: Progress, jobs: Jobs, clock: int, visiting: set<string>, id: string, since: int, ok: bool,
                      state: JobState)
    requires PassOk(p, jobs, clock) && Open(p, jobs, visiting) && MayCall(p, jobs, clock, id, since)
    requires ok ==> state.status != Failed
    requires !ok ==> state == FailedWith(jobs[id], RunnerFailed)
    ensures Open(AfterCall(p, id, since, ok), jobs[id := state], visiting)
  {
    var p', jobs' := AfterCall(p, id, since, ok), jobs[id := state];
    assert LooksOpen(p', jobs', visiting) by {
      hide PassOk, Grounded;
      forall k | k in p.looks && DueAt(p.start, k.at, k.dependency) && k.job == id ensures k.dependency in p.completed {
      }
    }
    hide LooksOpen, PassOk, CallOk;
    GroundedMore(p, p', jobs, visiting, visiting);
    forall x | x in jobs' && x in p.start && jobs'[x].status == Failed && p.start[x].status == Scheduled
      ensures HasGrounds(p', jobs', visiting, x)
    {
      if x != id {
        GroundsStay(p', jobs, jobs', visiting, x);
      }
    }
  }

  /** A job whose looks are all closed may be called. */
  lemma ReadyToCall(p: Progress, jobs: Jobs, clock: int, visiting: set<string>, id: string, since: int)
    requires PassOk(p, jobs, clock) && since <= clock && DueAt(p.start, since, id)
    requires id in jobs && id !in JobsOf(p.calls) && id !in visiting && Open(p, jobs, visiting)
    requires Checked(p, since, id, p.start[id].definition.dependencies)
    ensures jobs[id].status == Scheduled ==> MayCall(p, jobs, clock, id, since)
  {
    var ids := p.start[id].definition.dependencies;
    if jobs[id].status == Scheduled {
      forall k | k in p.looks && k.job == id && DueAt(p.start, k.at, k.dependency)
        ensures k.dependency in p.completed && k.dependency in JobsOf(p.calls)
      {
        JobFacts(p, jobs, clock, k.dependency);
      }
      forall d | d in ids ensures Served(p, p.calls, since, d) && LookedAt(p, id, d, since) {
        var j :| 0 <= j < |ids| && ids[j] == d;
      }
    }
  }

  lemma NextStateRenews(calendar: Calendar, state: JobState, now: int)
    ensures var next := NextStateAfterSuccess(calendar, state.(status := Running), now);
            next.Some? ==> Renewed(calendar, state, next.value, now)
  {
    if state.definition.schedule.Cron? {
      NextCronIsLeast(calendar, state.definition.schedule.fields, now);
    }
  }

  /** A runner call, from the instant t of the decision to the instant t' of its end. */
  lemma CallKeeps(p: Progress, jobs: Jobs, t: int, t': int, visiting: set<string>, id: string, since: int, ok: bool,
                  state: JobState)
    requires PassOk(p, jobs, t) && MayCall(p, jobs, t, id, since) && t <= t' && Open(p, jobs, visiting)
    requires if ok then Renewed(p.calendar, jobs[id], state, t') else state == FailedWith(jobs[id], RunnerFailed)
    ensures var p' := AfterCall(p, id, since, ok);
            && PassOk(p', jobs[id := state], t') && Open(p', jobs[id := state], visiting)
            && Advanced(visiting, since, t, p, jobs, t', p', jobs[id := state])
            && Elements(JobsOf(p'.calls)) == Elements(JobsOf(p.calls)) + {id}
            && p'.calls == p.calls + [Call(id, since)]
            && p'.completed == (if ok then p.completed + {id} else p.completed) && p'.calendar == p.calendar
    ensures state.definition == jobs[id].definition && (!ok ==> state.status == Failed)
  {
    OpenAfterCall(p, jobs, t, visiting, id, since, ok, state);
    CallPasses(p, jobs, t, t', id, since, ok, state);
    CallAdvances(p, jobs, t, t', visiting, id, since, ok, state);
    assert JobsOf(p.calls + [Call(id, since)]) == JobsOf(p.calls) + [id];
    ElementsAppend(JobsOf(p.calls), id);
    hide MayCall, Open, PassOk, Advanced, JobsOf, Elements;
  }

  lemma CallPasses(p: Progress, jobs: Jobs, t: int, t': int, id: string, since: int, ok: bool, state: JobState)
    requires PassOk(p, jobs, t) && MayCall(p, jobs, t, id, since) && t <= t'
    requires if ok then Renewed(p.calendar, jobs[id], state, t') else state == FailedWith(jobs[id], RunnerFailed)
    ensures PassOk(AfterCall(p, id, since, ok), jobs[id := state], t')
  {
    PassOkLater(p, jobs, t, t');
    assert CallOk(p, p.calls, Call(id, since), t');
    hide CallOk, PassOk, Renewed;
    PassOkCall(p, jobs, t', id, since, ok, state);
  }

  lemma CallAdvances(p: Progress, jobs: Jobs, t: int, t': int, visiting: set<string>, id: string, since: int, ok: bool,
                     state: JobState)
    requires t <= t' && id in jobs && jobs[id].status == Scheduled
    ensures Advanced(visiting, since, t, p, jobs, t', AfterCall(p, id, since, ok), jobs[id := state])
  {
  }
}
