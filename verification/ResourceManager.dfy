/** The resource manager of services/runtime/src/resource-manager.ts: a lock table and a queue changed in
    place, proved against the table operations. */
module ResourceManagers {
  import opened ResourceModel

  datatype LockGrant = Granted(task: string, resources: set<string>) | Queued(task: string, resources: set<string>)

  class ResourceManager {
    var held: Held
    var queued: seq<Request>

    ghost predicate Valid()
      reads this
    {
      Sound(View())
    }

    ghost function View(): Table
      reads this
    {
      Table(held, queued)
    }

    constructor ()
      ensures Valid() && View() == Table(map[], [])
    {
      held, queued := map[], [];
    }

    method Acquire(task: string, resources: set<string>, now: int) returns (grant: LockGrant)
      requires Valid()
      modifies this
      ensures Valid() && View() == Step(old(View()), Op.Acquire(task, resources), now)
      ensures grant == if HeldByOther(old(held), task, resources) then Queued(task, resources)
                else Granted(task, resources)
      ensures if exists r :: r in resources && r in old(held) && old(held)[r].task != task then
                && grant == Queued(task, resources) && held == old(held)
                && queued == if exists i :: 0 <= i < |old(queued)| && old(queued)[i].task == task then old(queued)
                             else old(queued) + [Request(task, resources)]
              else
                && grant == Granted(task, resources) && queued == old(queued)
                && held.Keys == old(held).Keys + resources
                && forall r :: r in held ==> held[r] == if r in resources then Lock(task, now) else old(held)[r]
    {
      AcquiredIs(View(), task, resources, now);
      StepKeepsSound(View(), Op.Acquire(task, resources), now);
      hide Sound;
      if resources == {} {
        assert Taken(held, Request(task, resources), now) == held;
        return Granted(task, {});
      }
      if HeldByOther(held, task, resources) {
        if !IsQueued(queued, task) {
          queued := queued + [Request(task, resources)];
        }
        return Queued(task, resources);
      }
      TakeAll(Request(task, resources), now);
      grant := Granted(task, resources);
    }

    /** The loop that puts every resource of a request into the table. */
    method TakeAll(q: Request, now: int)
      modifies `held
      ensures held == Taken(old(held), q, now)
    {
      var before := held;
      var remaining := q.resources;
      ghost var done: set<string> := {};
      while remaining != {}
        invariant done + remaining == q.resources
        invariant held == Taken(before, Request(q.task, done), now)
        decreases remaining
      {
        var r :| r in remaining;
        held := held[r := Lock(q.task, now)];
        remaining := remaining - {r};
        done := done + {r};
      }
      assert done == q.resources;
    }

    /** Drops the task's locks and scans the queue in order, taking out what can be granted. */
    method Release(task: string, now: int) returns (granted: seq<string>)
      requires Valid()
      modifies this
      ensures Valid() && View() == Step(old(View()), Op.Release(task), now)
      ensures granted == TasksOf(Scan(Freed(old(held), task), old(queued), now).1)
      ensures exists grants ::
                && granted == TasksOf(grants) && QueueServed(old(View()), View(), grants)
                && LocksMoved(old(held), held, task, grants, now)
    {
      ReleasedIs(View(), task, now);
      hide QueueServed, LocksMoved;
      StepKeepsSound(View(), Op.Release(task), now);
      hide Sound, Scan, Resume, TasksOf, Taken;
      Drop(task);
      ghost var freed, all := held, queued;
      ResumeStart(held, queued, now);
      NoGrants();
      granted := [];
      ghost var grants: seq<Request> := [];
      var index := 0;
      while index < |queued|
        invariant 0 <= index <= |queued|
        invariant granted == TasksOf(grants)
        invariant Scan(freed, all, now) == Resume(held, queued, index, grants, now)
        decreases |queued| - index
      {
        var request := queued[index];
        ResumeStep(held, queued, index, grants, now);
        if forall r :: r in request.resources ==> r !in held {
          TakeAll(request, now);
          OneMoreGrant(grants, request);
          granted := granted + [request.task];
          grants := grants + [request];
          queued := queued[..index] + queued[index + 1..];
        } else {
          index := index + 1;
        }
      }
      ResumeDone(held, queued, grants, now);
    }

    method Drop(task: string)
      modifies `held
      ensures held == Freed(old(held), task)
    {
      var before := held;
      var remaining := before.Keys;
      while remaining != {}
        invariant remaining <= before.Keys
        invariant held == map r | r in before && (r in remaining || before[r].task != task) :: before[r]
        decreases remaining
      {
        var r :| r in remaining;
        if before[r].task == task {
          held := held - {r};
        }
        remaining := remaining - {r};
      }
    }
  }

  /** A scan that has settled the requests before `index` and granted some already. */
  ghost function Resume(held: Held, queued: seq<Request>, index: nat, grants: seq<Request>, now: int): (Table,
                        seq<Request>)
    requires index <= |queued|
  {
    var (t, g) := Scan(held, queued[index..], now);
    (Table(t.held, queued[..index] + t.queued), grants + g)
  }

  lemma ResumeStep(held: Held, queued: seq<Request>, index: nat, grants: seq<Request>, now: int)
    requires index < |queued|
    ensures var q := queued[index];
            Resume(held, queued, index, grants, now) ==
            if q.resources !! held.Keys
            then Resume(Taken(held, q, now), queued[..index] + queued[index + 1..], index, grants + [q], now)
            else Resume(held, queued, index + 1, grants, now)
  {
    var q := queued[index];
    assert queued[index..][0] == q && queued[index..][1..] == queued[index + 1..];
    if q.resources !! held.Keys {
      var rest := queued[..index] + queued[index + 1..];
      assert rest[..index] == queued[..index] && rest[index..] == queued[index + 1..];
      var (t, g) := Scan(Taken(held, q, now), queued[index + 1..], now);
      assert grants + ([q] + g) == grants + [q] + g;
    } else {
      var (t, g) := Scan(held, queued[index + 1..], now);
      assert queued[..index] + ([q] + t.queued) == queued[..index + 1] + t.queued;
    }
  }

  lemma ResumeDone(held: Held, queued: seq<Request>, grants: seq<Request>, now: int)
    ensures Resume(held, queued, |queued|, grants, now) == (Table(held, queued), grants)
  {
    assert queued[..|queued|] == queued && queued[|queued|..] == [];
    assert queued + [] == queued && grants + [] == grants;
  }

  lemma ResumeStart(held: Held, queued: seq<Request>, now: int)
    ensures Resume(held, queued, 0, [], now) == Scan(held, queued, now)
  {
    assert queued[0..] == queued && queued[..0] == [];
    var (t, g) := Scan(held, queued, now);
    assert [] + t.queued == t.queued && [] + g == g;
  }

  lemma NoGrants()
    ensures TasksOf([]) == []
  {
  }

  lemma OneMoreGrant(grants: seq<Request>, q: Request)
    ensures TasksOf(grants + [q]) == TasksOf(grants) + [q.task]
  {
  }
}
