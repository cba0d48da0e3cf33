/** The lock table of services/runtime/src/resource-manager.ts as values: what acquire and release do, and
    which queued requests can still be granted. */
module ResourceModel {
  import opened Graphs

  datatype Lock = Lock(task: string, acquiredAt: int)

  type Held = map<string, Lock>

  datatype Request = Request(task: string, resources: set<string>)

  function Taken(held: Held, q: Request, now: int): Held {
    held + (map r | r in q.resources :: Lock(q.task, now))
  }

  function Freed(held: Held, task: string): Held {
    map r | r in held && held[r].task != task :: held[r]
  }

  predicate HeldByOther(held: Held, task: string, resources: set<string>) {
    exists r :: r in resources && r in held && held[r].task != task
  }

  predicate IsQueued(queued: seq<Request>, task: string) {
    exists i :: 0 <= i < |queued| && queued[i].task == task
  }

  datatype Table = Table(held: Held, queued: seq<Request>)

  function Acquired(t: Table, task: string, resources: set<string>, now: int): Table {
    if HeldByOther(t.held, task, resources) then
      if IsQueued(t.queued, task) then t else t.(queued := t.queued + [Request(task, resources)])
    else t.(held := Taken(t.held, Request(task, resources), now))
  }

  /** One pass over the queue: a request is granted when all its resources are free at its turn. */
  function Scan(held: Held, queued: seq<Request>, now: int): (Table, seq<Request>)
    decreases |queued|
  {
    if queued == [] then (Table(held, []), [])
    else if queued[0].resources !! held.Keys then
      var (t, granted) := Scan(Taken(held, queued[0], now), queued[1..], now);
      (t, [queued[0]] + granted)
    else
      var (t, granted) := Scan(held, queued[1..], now);
      (t.(queued := [queued[0]] + t.queued), granted)
  }

  function Released(t: Table, task: string, now: int): Table {
    Scan(Freed(t.held, task), t.queued, now).0
  }

  // ----- Invariants over runs

  datatype Op = Acquire(task: string, resources: set<string>) | Release(task: string)

  function Step(t: Table, op: Op, now: int): Table {
    match op
    case Acquire(task, resources) => Acquired(t, task, resources, now)
    case Release(task) => Released(t, task, now)
  }

  /** Every queued request waits for something that is held. */
  ghost predicate NoLostWakeup(t: Table) {
    forall q :: q in t.queued ==> exists r :: r in q.resources && r in t.held
  }

  ghost function TasksOf(queued: seq<Request>): seq<string> {
    seq(|queued|, i requires 0 <= i < |queued| => queued[i].task)
  }

  ghost predicate Sound(t: Table) {
    NoLostWakeup(t) && Distinct(TasksOf(t.queued))
  }

  ghost function RunOps(ops: seq<Op>, times: seq<int>): Table
    requires |ops| == |times|
  {
    if ops == [] then Table(map[], [])
    else Step(RunOps(ops[..|ops| - 1], times[..|ops| - 1]), ops[|ops| - 1], times[|ops| - 1])
  }

  /** Main result: over every run of acquire and release, each queued request contains a held resource
      and each task is queued at most once. */
  lemma {:induction false} RunsAreSound(ops: seq<Op>, times: seq<int>)
    requires |ops| == |times|
    ensures Sound(RunOps(ops, times))
  {
    if ops != [] {
      RunsAreSound(ops[..|ops| - 1], times[..|ops| - 1]);
      StepKeepsSound(RunOps(ops[..|ops| - 1], times[..|ops| - 1]), ops[|ops| - 1], times[|ops| - 1]);
    }
  }

  lemma StepKeepsSound(t: Table, op: Op, now: int)
    requires Sound(t)
    ensures Sound(Step(t, op, now))
  {
    match op
    case Acquire(task, resources) => AcquireKeepsSound(t, task, resources, now);
    case Release(task) =>
      ScanSettles(Freed(t.held, task), t.queued, now);
      ScanKeepsDistinct(Freed(t.held, task), t.queued, now);
  }

  lemma AcquireKeepsSound(t: Table, task: string, resources: set<string>, now: int)
    requires Sound(t)
    ensures Sound(Acquired(t, task, resources, now))
  {
    var t' := Acquired(t, task, resources, now);
    if HeldByOther(t.held, task, resources) && !IsQueued(t.queued, task) {
      assert TasksOf(t'.queued) == TasksOf(t.queued) + [task];
      forall q | q in t'.queued ensures exists r :: r in q.resources && r in t'.held {
        if q !in t.queued {
          assert q == Request(task, resources);
        }
      }
    } else {
      forall q | q in t'.queued ensures exists r :: r in q.resources && r in t'.held {
        var r :| r in q.resources && r in t.held;
        assert r in t'.held;
      }
    }
  }

  /** After a scan, what stays queued is blocked, and what was held is still held by the same task. */
  lemma {:induction false} ScanSettles(held: Held, queued: seq<Request>, now: int)
    ensures NoLostWakeup(Scan(held, queued, now).0)
    ensures forall r :: r in held ==>
              r in Scan(held, queued, now).0.held && Scan(held, queued, now).0.held[r] == held[r]
    ensures forall q :: q in Scan(held, queued, now).0.queued ==> q in queued
    decreases |queued|
  {
    if queued != [] {
      var q := queued[0];
      assert queued == [q] + queued[1..];
      if q.resources !! held.Keys {
        ScanSettles(Taken(held, q, now), queued[1..], now);
      } else {
        ScanSettles(held, queued[1..], now);
        var r :| r in q.resources && r in held;
      }
    }
  }

  lemma {:induction false} ScanKeepsDistinct(held: Held, queued: seq<Request>, now: int)
    requires Distinct(TasksOf(queued))
    ensures Distinct(TasksOf(Scan(held, queued, now).0.queued))
    ensures forall x :: x in TasksOf(Scan(held, queued, now).0.queued) ==> x in TasksOf(queued)
    decreases |queued|
  {
    if queued != [] {
      var rest := TasksOf(queued[1..]);
      assert TasksOf(queued) == [queued[0].task] + rest;
      forall i, j | 0 <= i < j < |rest| ensures rest[i] != rest[j] {
        assert TasksOf(queued)[i + 1] != TasksOf(queued)[j + 1];
      }
      forall x | x in rest ensures x != queued[0].task {
        var i :| 0 <= i < |rest| && rest[i] == x;
        assert TasksOf(queued)[0] != TasksOf(queued)[i + 1];
      }
      if queued[0].resources !! held.Keys {
        ScanKeepsDistinct(Taken(held, queued[0], now), queued[1..], now);
      } else {
        ScanKeepsDistinct(held, queued[1..], now);
        var t := Scan(held, queued[1..], now).0;
        assert TasksOf([queued[0]] + t.queued) == [queued[0].task] + TasksOf(t.queued);
        assert queued[0].task !in Elements(TasksOf(t.queued));
        DistinctPrepend(queued[0].task, TasksOf(t.queued));
      }
    }
  }

  // ----- The operations in terms of locks and requests

  /** An acquire is granted unless another task holds one of the resources, and then takes them all; otherwise it
      waits, unless the task is waiting already. */
  lemma AcquiredIs(t: Table, task: string, resources: set<string>, now: int)
    ensures var after := Acquired(t, task, resources, now);
            if exists r :: r in resources && r in t.held && t.held[r].task != task then
              && after.held == t.held
              && after.queued == if exists i :: 0 <= i < |t.queued| && t.queued[i].task == task then t.queued
                                 else t.queued + [Request(task, resources)]
            else
              && after.queued == t.queued && after.held.Keys == t.held.Keys + resources
              && forall r :: r in after.held ==>
                   after.held[r] == if r in resources then Lock(task, now) else t.held[r]
  {
  }

  /** What a release with these grants does to the queue: each request of the queue is granted or stays, and
      whatever stays is blocked. */
  ghost predicate QueueServed(before: Table, after: Table, granted: seq<Request>) {
    && (forall q :: q in granted ==> q in before.queued)
    && (forall q :: q in before.queued ==> q in granted || q in after.queued)
    && (forall q :: q in after.queued ==> q in before.queued && exists r :: r in q.resources && r in after.held)
  }

  /** What it does to the locks: those of the task are gone, those of other tasks stay, and each grant takes all its
      resources, which were free. */
  ghost predicate LocksMoved(before: Held, after: Held, task: string, granted: seq<Request>, now: int) {
    && (forall r :: r in before && before[r].task != task ==> r in after && after[r] == before[r])
    && (forall q, r :: q in granted && r in q.resources ==>
          (r in before ==> before[r].task == task) && r in after && after[r] == Lock(q.task, now))
    && (forall r :: r in after ==>
          (r in before && before[r].task != task) || exists q :: q in granted && r in q.resources)
  }

  lemma ReleasedIs(t: Table, task: string, now: int)
    ensures var granted, after := Scan(Freed(t.held, task), t.queued, now).1, Released(t, task, now);
            QueueServed(t, after, granted) && LocksMoved(t.held, after.held, task, granted, now)
  {
    ReleasedLocks(t.held, t.queued, task, now);
    var freed := Freed(t.held, task);
    var granted, after := Scan(freed, t.queued, now).1, Released(t, task, now);
    ScanSettles(freed, t.queued, now);
    hide LocksMoved, Freed;
    forall q | q in granted ensures q in t.queued {
      GrantIsQueued(freed, t.queued, q, now);
    }
    forall q | q in t.queued ensures q in granted || q in after.queued {
      ScanCovers(freed, t.queued, q, now);
    }
    hide Scan;
  }

  lemma ReleasedLocks(held: Held, queued: seq<Request>, task: string, now: int)
    ensures var (after, granted) := Scan(Freed(held, task), queued, now);
            LocksMoved(held, after.held, task, granted, now)
  {
    var freed := Freed(held, task);
    ScanSettles(freed, queued, now);
    GrantsTakeAll(freed, queued, now);
    FreedMoves(held, Scan(freed, queued, now).0.held, task, Scan(freed, queued, now).1, now);
    hide *;
  }

  lemma FreedMoves(held: Held, after: Held, task: string, granted: seq<Request>, now: int)
    requires forall r :: r in Freed(held, task) ==> r in after && after[r] == Freed(held, task)[r]
    requires forall q, r :: q in granted && r in q.resources ==>
               r !in Freed(held, task) && r in after && after[r] == Lock(q.task, now)
    requires forall r :: r in after && r !in Freed(held, task) ==> exists q :: q in granted && r in q.resources
    ensures LocksMoved(held, after, task, granted, now)
  {
  }

  lemma {:induction false} GrantIsQueued(held: Held, queued: seq<Request>, q: Request, now: int)
    requires q in Scan(held, queued, now).1
    ensures q in queued
    decreases |queued|
  {
    if queued != [] {
      assert queued == [queued[0]] + queued[1..];
      if queued[0].resources !! held.Keys {
        if q != queued[0] {
          GrantIsQueued(Taken(held, queued[0], now), queued[1..], q, now);
        }
      } else {
        GrantIsQueued(held, queued[1..], q, now);
      }
    }
  }

  // ----- The greedy selection

  ghost function PickedResources(queued: seq<Request>, picks: seq<bool>): set<string>
    requires |picks| == |queued|
  {
    if queued == [] then {}
    else PickedResources(queued[..|queued| - 1], picks[..|queued| - 1]) +
         if picks[|queued| - 1] then queued[|queued| - 1].resources else {}
  }

  /** First come, first served: a request is picked exactly when it overlaps neither what is held nor what
      earlier picks take. */
  ghost predicate Greedy(busy: set<string>, queued: seq<Request>, picks: seq<bool>) {
    && |picks| == |queued|
    && forall i :: 0 <= i < |queued| ==>
         (picks[i] <==> queued[i].resources !! busy + PickedResources(queued[..i], picks[..i]))
  }

  ghost function Select(queued: seq<Request>, picks: seq<bool>, picked: bool): seq<Request>
    requires |picks| == |queued|
  {
    if queued == [] then []
    else (if picks[0] == picked then [queued[0]] else []) + Select(queued[1..], picks[1..], picked)
  }

  lemma {:induction false} PickedResourcesCons(queued: seq<Request>, picks: seq<bool>)
    requires |picks| == |queued| && queued != []
    ensures PickedResources(queued, picks) ==
            (if picks[0] then queued[0].resources else {}) + PickedResources(queued[1..], picks[1..])
  {
    if |queued| > 1 {
      PickedResourcesCons(queued[..|queued| - 1], picks[..|queued| - 1]);
      assert queued[..|queued| - 1][1..] == queued[1..][..|queued| - 2];
      assert picks[..|queued| - 1][1..] == picks[1..][..|queued| - 2];
    }
  }

  /** A scan grants exactly the greedy selection, and keeps the others in order. */
  lemma {:induction false} ScanIsGreedy(held: Held, queued: seq<Request>, now: int) returns (picks: seq<bool>)
    ensures Greedy(held.Keys, queued, picks)
    ensures Scan(held, queued, now).1 == Select(queued, picks, true)
    ensures Scan(held, queued, now).0.queued == Select(queued, picks, false)
    ensures Scan(held, queued, now).0.held.Keys == held.Keys + PickedResources(queued, picks)
    decreases |queued|
  {
    if queued == [] {
      picks := [];
    } else {
      var q := queued[0];
      var pick := q.resources !! held.Keys;
      var held' := if pick then Taken(held, q, now) else held;
      var rest := ScanIsGreedy(held', queued[1..], now);
      picks := [pick] + rest;
      assert picks[1..] == rest;
      PickedResourcesCons(queued, picks);
      hide Greedy, PickedResources;
      assert held'.Keys == held.Keys + if pick then q.resources else {};
      GreedyCons(held.Keys, queued, pick, rest);
    }
  }

  lemma GreedyCons(busy: set<string>, queued: seq<Request>, pick: bool, rest: seq<bool>)
    requires queued != [] && (pick <==> queued[0].resources !! busy)
    requires Greedy(busy + if pick then queued[0].resources else {}, queued[1..], rest)
    ensures Greedy(busy, queued, [pick] + rest)
  {
    var picks := [pick] + rest;
    var busy' := busy + if pick then queued[0].resources else {};
    forall i | 0 < i < |queued|
      ensures picks[i] <==> queued[i].resources !! busy + PickedResources(queued[..i], picks[..i])
    {
      PickedResourcesCons(queued[..i], picks[..i]);
      hide PickedResources;
      assert queued[..i][1..] == queued[1..][..i - 1] && picks[..i][1..] == rest[..i - 1];
      var taken := busy' + PickedResources(queued[1..][..i - 1], rest[..i - 1]);
      assert rest[i - 1] <==> queued[1..][i - 1].resources !! taken;
    }
  }

  lemma GreedyIsUnique(busy: set<string>, queued: seq<Request>, picks: seq<bool>, picks': seq<bool>)
    requires Greedy(busy, queued, picks) && Greedy(busy, queued, picks')
    ensures picks == picks'
  {
    GreedyAgree(busy, queued, picks, picks', |queued|);
    assert picks[..|queued|] == picks && picks'[..|queued|] == picks';
  }

  lemma {:induction false} GreedyAgree(busy: set<string>, queued: seq<Request>, picks: seq<bool>, picks': seq<bool>,
                                       n: nat)
    requires Greedy(busy, queued, picks) && Greedy(busy, queued, picks') && n <= |queued|
    ensures picks[..n] == picks'[..n]
  {
    hide PickedResources, Greedy;
    if n > 0 {
      GreedyPick(busy, queued, picks, n - 1);
      GreedyPick(busy, queued, picks', n - 1);
      GreedyAgree(busy, queued, picks, picks', n - 1);
      OneMore(picks, picks', n - 1);
    }
  }

  lemma OneMore(s: seq<bool>, s': seq<bool>, n: nat)
    requires n < |s| && n < |s'| && s[..n] == s'[..n] && s[n] == s'[n]
    ensures s[..n + 1] == s'[..n + 1]
  {
    assert s[..n + 1] == s[..n] + [s[n]] && s'[..n + 1] == s'[..n] + [s'[n]];
  }

  lemma GreedyPick(busy: set<string>, queued: seq<Request>, picks: seq<bool>, i: nat)
    requires Greedy(busy, queued, picks) && i < |queued|
    ensures |picks| == |queued|
    ensures picks[i] <==> queued[i].resources !! busy + PickedResources(queued[..i], picks[..i])
  {
    hide PickedResources;
  }

  /** Each granted request holds all its resources after the scan, and every new lock belongs to one. */
  lemma {:induction false} GrantsTakeAll(held: Held, queued: seq<Request>, now: int)
    ensures forall q, r :: q in Scan(held, queued, now).1 && r in q.resources ==>
              r !in held && r in Scan(held, queued, now).0.held
                && Scan(held, queued, now).0.held[r] == Lock(q.task, now)
    ensures forall r :: r in Scan(held, queued, now).0.held && r !in held ==>
              exists q :: q in Scan(held, queued, now).1 && r in q.resources
    decreases |queued|
  {
    if queued != [] {
      var q := queued[0];
      if q.resources !! held.Keys {
        var held' := Taken(held, q, now);
        GrantsTakeAll(held', queued[1..], now);
        ScanSettles(held', queued[1..], now);
        var (t, granted) := Scan(held', queued[1..], now);
        assert Scan(held, queued, now) == (t, [q] + granted);
        forall r | r in t.held && r !in held ensures exists g :: g in [q] + granted && r in g.resources {
          if r in q.resources {
            assert q in [q] + granted;
          } else {
            var g :| g in granted && r in g.resources;
            assert g in [q] + granted;
          }
        }
      } else {
        GrantsTakeAll(held, queued[1..], now);
      }
    }
  }

  // ----- Requests that block themselves

  /** The queue after some other tasks released, one after the other. */
  ghost function AfterReleases(t: Table, tasks: seq<string>, now: int): Table
    decreases |tasks|
  {
    if tasks == [] then t else AfterReleases(Released(t, tasks[0], now), tasks[1..], now)
  }

  predicate OwnOverlap(held: Held, q: Request) {
    exists r :: r in q.resources && r in held && held[r].task == q.task
  }

  /** The request has left the queue and its task holds all it asked for. */
  ghost predicate Obtained(t: Table, q: Request) {
    q !in t.queued && forall r :: r in q.resources ==> r in t.held && t.held[r].task == q.task
  }

  /** A queued request can be granted by releases of other tasks exactly when its own task holds none of
      the resources it waits for: acquire tolerates a task's own locks, but the scan in release does not. */
  lemma GrantableIff(t: Table, q: Request, now: int)
    requires Sound(t) && q in t.queued
    ensures (exists tasks :: q.task !in tasks && Obtained(AfterReleases(t, tasks, now), q)) <==> !OwnOverlap(t.held, q)
  {
    if OwnOverlap(t.held, q) {
      forall tasks | q.task !in tasks ensures q in AfterReleases(t, tasks, now).queued {
        StaysBlocked(t, q, tasks, now);
      }
    } else {
      var tasks := ReleaseOthers(t, q, now);
    }
  }

  /** Releases can always serve a request once its own task takes part in them, first of all. */
  lemma ReleasesServe(t: Table, q: Request, now: int) returns (tasks: seq<string>)
    requires Sound(t) && q in t.queued
    ensures Obtained(AfterReleases(t, tasks, now), q)
  {
    hide *;
    if !OwnOverlap(t.held, q) {
      tasks := ReleaseOthers(t, q, now);
    } else {
      var t' := Released(t, q.task, now);
      AfterOwnRelease(t, q, now);
      if q in t'.queued {
        NoOverlapAfterOwn(t, q, now);
        var rest := ReleaseOthers(t', q, now);
        tasks := [q.task] + rest;
        ReleasesCons(t, q.task, rest, now);
      } else {
        tasks := [q.task];
        ObtainedAtOnce(t, q, q.task, now);
        ReleasesCons(t, q.task, [], now);
        assert [q.task] + [] == [q.task];
      }
    }
  }

  lemma AfterOwnRelease(t: Table, q: Request, now: int)
    requires Sound(t)
    ensures Sound(Released(t, q.task, now))
  {
    StepKeepsSound(t, Release(q.task), now);
  }

  lemma ReleasesCons(t: Table, task: string, rest: seq<string>, now: int)
    ensures AfterReleases(t, [task] + rest, now) == AfterReleases(Released(t, task, now), rest, now)
    ensures AfterReleases(t, [], now) == t && AfterReleases(Released(t, task, now), [], now) == Released(t, task, now)
  {
    hide Released;
    assert ([task] + rest)[1..] == rest;
  }

  /** A request that leaves the queue has obtained all it asked for. */
  lemma ObtainedAtOnce(t: Table, q: Request, holder: string, now: int)
    requires q in t.queued && q !in Released(t, holder, now).queued
    ensures Obtained(Released(t, holder, now), q)
  {
    ScanCovers(Freed(t.held, holder), t.queued, q, now);
    GrantsTakeAll(Freed(t.held, holder), t.queued, now);
    hide Scan, Freed;
  }

  /** After its own release a task that is still queued holds nothing its request needs. */
  lemma NoOverlapAfterOwn(t: Table, q: Request, now: int)
    requires Sound(t) && q in t.queued && q in Released(t, q.task, now).queued
    ensures !OwnOverlap(Released(t, q.task, now).held, q)
  {
    var freed := Freed(t.held, q.task);
    var scan := Scan(freed, t.queued, now);
    GrantsTakeAll(freed, t.queued, now);
    ScanSettles(freed, t.queued, now);
    if r :| r in q.resources && r in scan.0.held && scan.0.held[r].task == q.task {
      if r !in freed {
        var g :| g in scan.1 && r in g.resources;
        ScanSplits(freed, t.queued, now, q, g);
      }
    }
  }

  lemma {:induction false} StaysBlocked(t: Table, q: Request, tasks: seq<string>, now: int)
    requires q in t.queued && OwnOverlap(t.held, q) && q.task !in tasks
    ensures q in AfterReleases(t, tasks, now).queued
    decreases |tasks|
  {
    if tasks != [] {
      var r :| r in q.resources && r in t.held && t.held[r].task == q.task;
      var freed := Freed(t.held, tasks[0]);
      assert r in freed;
      BlockedStaysQueued(freed, t.queued, q, r, now);
      ScanSettles(freed, t.queued, now);
      StaysBlocked(Released(t, tasks[0], now), q, tasks[1..], now);
    }
  }

  lemma {:induction false} BlockedStaysQueued(held: Held, queued: seq<Request>, q: Request, r: string, now: int)
    requires q in queued && r in q.resources && r in held
    ensures q in Scan(held, queued, now).0.queued
    decreases |queued|
  {
    if q == queued[0] {
    } else {
      assert queued == [queued[0]] + queued[1..];
      if queued[0].resources !! held.Keys {
        BlockedStaysQueued(Taken(held, queued[0], now), queued[1..], q, r, now);
      } else {
        BlockedStaysQueued(held, queued[1..], q, r, now);
      }
    }
  }

  lemma {:induction false} ReleaseOthers(t: Table, q: Request, now: int) returns (tasks: seq<string>)
    requires Sound(t) && q in t.queued && !OwnOverlap(t.held, q)
    ensures q.task !in tasks && Obtained(AfterReleases(t, tasks, now), q)
    decreases |t.queued|, |t.held|
  {
    var r :| r in q.resources && r in t.held;
    var holder := t.held[r].task;
    var t' := Released(t, holder, now);
    StepKeepsSound(t, Release(holder), now);
    hide Scan, Released, Sound, Obtained, OwnOverlap;
    if q !in t'.queued {
      tasks := [holder];
      ObtainedAtOnce(t, q, holder, now);
      ReleasesCons(t, holder, [], now);
      assert [holder] + [] == [holder];
    } else {
      ReleaseShrinks(t, holder, r, now);
      OverlapOnlyByGrant(t, q, holder, now);
      var rest := ReleaseOthers(t', q, now);
      tasks := [holder] + rest;
      ReleasesCons(t, holder, rest, now);
    }
  }

  /** A scan grants a request or leaves it queued. */
  lemma {:induction false} ScanCovers(held: Held, queued: seq<Request>, q: Request, now: int)
    requires q in queued
    ensures q in Scan(held, queued, now).0.queued || q in Scan(held, queued, now).1
    decreases |queued|
  {
    if q != queued[0] {
      assert queued == [queued[0]] + queued[1..];
      if queued[0].resources !! held.Keys {
        ScanCovers(Taken(held, queued[0], now), queued[1..], q, now);
      } else {
        ScanCovers(held, queued[1..], q, now);
      }
    }
  }

  lemma ReleaseShrinks(t: Table, holder: string, r: string, now: int)
    requires r in t.held && t.held[r].task == holder
    ensures var t' := Released(t, holder, now);
            |t'.queued| < |t.queued| || (|t'.queued| == |t.queued| && |t'.held| < |t.held|)
  {
    var freed := Freed(t.held, holder);
    ScanCounts(freed, t.queued, now);
    assert freed.Keys <= t.held.Keys - {r};
    SmallerMap(freed.Keys, t.held.Keys - {r});
  }

  lemma SmallerMap(a: set<string>, b: set<string>)
    requires a <= b
    ensures |a| <= |b|
  {
    assert b == a + (b - a);
  }

  lemma {:induction false} ScanCounts(held: Held, queued: seq<Request>, now: int)
    ensures |Scan(held, queued, now).0.queued| <= |queued|
    ensures |Scan(held, queued, now).0.queued| == |queued| ==> Scan(held, queued, now).0.held == held
    decreases |queued|
  {
    if queued != [] {
      if queued[0].resources !! held.Keys {
        ScanCounts(Taken(held, queued[0], now), queued[1..], now);
      } else {
        ScanCounts(held, queued[1..], now);
      }
    }
  }

  /** A task gets new locks from a scan only through its own queued request. */
  lemma OverlapOnlyByGrant(t: Table, q: Request, holder: string, now: int)
    requires Sound(t) && q in t.queued && !OwnOverlap(t.held, q) && q in Released(t, holder, now).queued
    ensures !OwnOverlap(Released(t, holder, now).held, q)
  {
    var freed := Freed(t.held, holder);
    var scan := Scan(freed, t.queued, now);
    GrantsTakeAll(freed, t.queued, now);
    ScanSettles(freed, t.queued, now);
    if r :| r in q.resources && r in scan.0.held && scan.0.held[r].task == q.task {
      if r !in freed {
        var g :| g in scan.1 && r in g.resources;
        ScanSplits(freed, t.queued, now, q, g);
      }
    }
  }

  /** Granted and remaining requests are different tasks' requests. */
  lemma {:induction false} ScanSplits(held: Held, queued: seq<Request>, now: int, rest: Request, granted: Request)
    requires Distinct(TasksOf(queued))
    requires rest in Scan(held, queued, now).0.queued && granted in Scan(held, queued, now).1
    ensures rest.task != granted.task
  {
    var picks := ScanIsGreedy(held, queued, now);
    SelectSplits(queued, picks, rest, granted);
  }

  lemma {:induction false} SelectSplits(queued: seq<Request>, picks: seq<bool>, rest: Request, granted: Request)
    requires |picks| == |queued| && Distinct(TasksOf(queued))
    requires rest in Select(queued, picks, false) && granted in Select(queued, picks, true)
    ensures rest.task != granted.task
  {
    SelectWhere(queued, picks, false, rest);
    SelectWhere(queued, picks, true, granted);
    var i :| 0 <= i < |queued| && queued[i] == rest && !picks[i];
    var j :| 0 <= j < |queued| && queued[j] == granted && picks[j];
    assert TasksOf(queued)[i] == rest.task && TasksOf(queued)[j] == granted.task;
  }

  lemma {:induction false} SelectWhere(queued: seq<Request>, picks: seq<bool>, picked: bool, q: Request)
    requires |picks| == |queued| && q in Select(queued, picks, picked)
    ensures exists i :: 0 <= i < |queued| && queued[i] == q && picks[i] == picked
  {
    if picks[0] == picked && queued[0] == q {
    } else {
      SelectWhere(queued[1..], picks[1..], picked, q);
      var i :| 0 <= i < |queued| - 1 && queued[1..][i] == q && picks[1..][i] == picked;
      assert queued[i + 1] == q && picks[i + 1] == picked;
    }
  }

  /** A task that asks for more while it holds one of the resources waits for itself: after these four steps
      nobody else holds anything, and its request is still queued. */
  lemma SelfBlockedRun(task: string, other: string, mine: string, theirs: string)
    requires task != other && mine != theirs
    ensures RunOps(SelfBlocking(task, other, mine, theirs) + [Release(other)], [0, 1, 2] + [3]) ==
              Table(map[mine := Lock(task, 0)], [Request(task, {theirs, mine})])
  {
    var t3 := Table(map[mine := Lock(task, 0)][theirs := Lock(other, 1)], [Request(task, {theirs, mine})]);
    Blocked(task, other, mine, theirs);
    RunStep(SelfBlocking(task, other, mine, theirs), [0, 1, 2], Release(other), 3);
    hide RunOps, Scan, Freed, Released, SelfBlocking;
    OneLeft(task, other, mine, theirs);
    ReleasedTo(t3, other, 3, mine);
  }

  lemma OneLeft(task: string, other: string, mine: string, theirs: string)
    requires task != other && mine != theirs
    ensures Freed(map[mine := Lock(task, 0)][theirs := Lock(other, 1)], other) == map[mine := Lock(task, 0)]
  {
  }

  function SelfBlocking(task: string, other: string, mine: string, theirs: string): seq<Op> {
    [Acquire(task, {mine})] + [Acquire(other, {theirs})] + [Acquire(task, {theirs, mine})]
  }

  lemma Blocked(task: string, other: string, mine: string, theirs: string)
    requires task != other && mine != theirs
    ensures RunOps(SelfBlocking(task, other, mine, theirs), [0, 1, 2]) ==
              Table(map[mine := Lock(task, 0)][theirs := Lock(other, 1)], [Request(task, {theirs, mine})])
  {
    var first, second, third := Acquire(task, {mine}), Acquire(other, {theirs}), Acquire(task, {theirs, mine});
    assert RunOps([], []) == Table(map[], []);
    RunStep([], [], first, 0);
    RunStep([first], [0], second, 1);
    RunStep([first] + [second], [0, 1], third, 2);
    hide RunOps, Acquired;
    assert [] + [first] == [first] && [] + [0] == [0] && [0] + [1] == [0, 1] && [0, 1] + [2] == [0, 1, 2];
    GrantedOne(Table(map[], []), task, mine, 0);
    var t1 := Table(map[mine := Lock(task, 0)], []);
    GrantedOne(t1, other, theirs, 1);
    var t2 := Table(t1.held[theirs := Lock(other, 1)], []);
    QueuedOne(t2, task, {theirs, mine}, theirs, 2);
    assert [] + [Request(task, {theirs, mine})] == [Request(task, {theirs, mine})];
  }

  lemma GrantedOne(t: Table, task: string, resource: string, now: int)
    requires resource !in t.held
    ensures Acquired(t, task, {resource}, now) == t.(held := t.held[resource := Lock(task, now)])
  {
    assert Taken(t.held, Request(task, {resource}), now) == t.held[resource := Lock(task, now)];
  }

  lemma QueuedOne(t: Table, task: string, resources: set<string>, busy: string, now: int)
    requires busy in resources && busy in t.held && t.held[busy].task != task && t.queued == []
    ensures Acquired(t, task, resources, now) == t.(queued := t.queued + [Request(task, resources)])
  {
  }

  /** A release that leaves the only queued request waiting. */
  lemma ReleasedTo(t: Table, task: string, now: int, busy: string)
    requires |t.queued| == 1 && busy in t.queued[0].resources && busy in Freed(t.held, task)
    ensures Released(t, task, now) == Table(Freed(t.held, task), t.queued)
  {
    hide Freed;
    var held := Freed(t.held, task);
    assert busy in held.Keys;
    assert t.queued[1..] == [] && [t.queued[0]] + [] == t.queued;
    assert Scan(held, [], now) == (Table(held, []), []);
  }

  lemma RunStep(ops: seq<Op>, times: seq<int>, op: Op, now: int)
    requires |ops| == |times|
    ensures RunOps(ops + [op], times + [now]) == Step(RunOps(ops, times), op, now)
  {
    assert (ops + [op])[..|ops|] == ops && (times + [now])[..|times|] == times;
  }
}
