/** The task manager of services/runtime/src/task-manager.ts: a map of records replaced entry by entry. */
module TaskManagers {
  import opened Wrappers
  import opened TaskModel

  /** Interrupted work counts as unverified after a restart. */
  function Interrupted(record: TaskRecord): TaskRecord {
    if InFlight(record) then record.(state := UnverifiedTask) else record
  }

  function Restored(records: seq<TaskRecord>): Tasks {
    if records == [] then map[]
    else
      var last := records[|records| - 1];
      Restored(records[..|records| - 1])[last.taskId := Interrupted(last)]
  }

  /** In terms of the records restored: the last one of a task counts, and work in flight has become
      unverified. */
  ghost predicate IsRestored(tasks: Tasks, records: seq<TaskRecord>) {
    && (forall t :: t in tasks ==> exists i :: 0 <= i < |records| && records[i].taskId == t)
    && (forall i :: 0 <= i < |records| ==> records[i].taskId in tasks)
    && (forall i ::
          0 <= i < |records| && (forall j :: i < j < |records| ==> records[j].taskId != records[i].taskId) ==>
            tasks[records[i].taskId] == records[i].(state :=
              if records[i].state in {Executing, Verifying} then UnverifiedTask else records[i].state))
  }

  lemma RestoreOne(tasks: Tasks, records: seq<TaskRecord>, record: TaskRecord)
    requires IsRestored(tasks, records)
    ensures IsRestored(tasks[record.taskId := Interrupted(record)], records + [record])
  {
    var next := Interrupted(record);
    assert next == record.(state := if record.state in {Executing, Verifying} then UnverifiedTask else record.state);
    hide Interrupted;
    var tasks', records' := tasks[record.taskId := next], records + [record];
    assert records'[|records|] == record;
    assert forall i :: 0 <= i < |records| ==> records'[i] == records[i];
    forall t | t in tasks' ensures exists i :: 0 <= i < |records'| && records'[i].taskId == t {
      if t != record.taskId {
        var i :| 0 <= i < |records| && records[i].taskId == t;
        assert records'[i].taskId == t;
      }
    }
  }

  lemma NothingRestored()
    ensures IsRestored(map[], [])
  {
  }

  class TaskManager {
    var tasks: Tasks
    const maxRetries: int

    constructor (maxRetries: int)
      ensures tasks == map[] && this.maxRetries == maxRetries
    {
      this.maxRetries := maxRetries;
      tasks := map[];
    }

    method CreateTask(id: string, goal: string, correlationId: string, owner: Option<string>, now: int)
      returns (r: Result<TaskRecord, TaskError>)
      modifies this
      ensures r == TaskModel.Answer(old(tasks), maxRetries, Create(id, goal, correlationId, owner), now)
      ensures tasks == Apply(old(tasks), maxRetries, Create(id, goal, correlationId, owner), now)
      ensures r == if id in old(tasks) then Err(TaskExists)
                   else Ok(TaskRecord(id, goal, correlationId, owner, Created, 0, [], None, None, now))
      ensures tasks == if r.Ok? then old(tasks)[id := r.value] else old(tasks)
    {
      if id in tasks {
        return Err(TaskExists);
      }
      var record := TaskRecord(id, goal, correlationId, owner, Created, 0, [], None, None, now);
      tasks := tasks[id := record];
      r := Ok(record);
    }

    method Transition(id: string, target: TaskState, reason: Option<Reason>, now: int)
      returns (r: Result<TaskRecord, TaskError>)
      modifies this
      ensures r == TaskModel.Answer(old(tasks), maxRetries, Move(id, target, reason), now)
      ensures tasks == Apply(old(tasks), maxRetries, Move(id, target, reason), now)
      ensures tasks == if r.Ok? then old(tasks)[id := r.value] else old(tasks)
      ensures r == Err(TaskMissing) <==> id !in old(tasks)
      ensures id in old(tasks) ==>
                var current := old(tasks)[id];
                var unexplained := target == WaitingUser && reason != Some(PermissionConfirmation)
                                   && reason != Some(ClarificationRequested);
                var exhausted := target == Retrying && current.retryCount >= maxRetries;
                && (r == Err(IllegalTransition(current.state, target)) <==> current.state !in Sources(target))
                && (r == Err(ReasonRequired) <==> current.state in Sources(target) && unexplained)
                && (r == Err(RetriesExhausted) <==> current.state in Sources(target) && exhausted)
                && (r.Ok? <==> current.state in Sources(target) && !unexplained && !exhausted)
      ensures r.Ok? ==>
                var current, next := old(tasks)[id], r.value;
                && next.state == target && next.updatedAt == now
                && next.retryCount == current.retryCount + (if target == Retrying then 1 else 0)
                && next.waitingReason == (if target == WaitingUser then reason else None)
                && next.reason == (if target in {Cancelled, FailedTask} then Some(reason) else None)
                && next.taskId == current.taskId && next.goal == current.goal && next.owner == current.owner
                && next.correlationId == current.correlationId && next.history == current.history
    {
      hide Targets, Sources;
      if id !in tasks {
        return Err(TaskMissing);
      }
      var current := tasks[id];
      TargetsAreSources(current.state, target);
      if target !in Targets(current.state) {
        return Err(IllegalTransition(current.state, target));
      }
      if target == WaitingUser && reason != Some(PermissionConfirmation) && reason != Some(ClarificationRequested) {
        return Err(ReasonRequired);
      }
      if target == Retrying && current.retryCount >= maxRetries {
        return Err(RetriesExhausted);
      }
      var next := TaskRecord(
        current.taskId, current.goal, current.correlationId, current.owner, target,
        if target == Retrying then current.retryCount + 1 else current.retryCount, current.history,
        if target == WaitingUser then reason else None,
        if target == Cancelled || target == FailedTask then Some(reason) else None, now);
      tasks := tasks[id := next];
      r := Ok(next);
    }

    method Assign(id: string, device: string, now: int) returns (r: Result<TaskRecord, TaskError>)
      modifies this
      ensures r == TaskModel.Answer(old(tasks), maxRetries, AssignOwner(id, device), now)
      ensures tasks == Apply(old(tasks), maxRetries, AssignOwner(id, device), now)
      ensures tasks == if r.Ok? then old(tasks)[id := r.value] else old(tasks)
      ensures r == Err(TaskMissing) <==> id !in old(tasks)
      ensures id in old(tasks) ==>
                var current := old(tasks)[id];
                var locked := current.state == WaitingUser && current.owner !in {None, Some(device)};
                && (r == Err(OwnerRequired) <==> device == "") && (r == Err(OwnerLocked) <==> device != "" && locked)
                && (r.Ok? <==> device != "" && !locked)
                && (r.Ok? ==> r.value == current.(owner := Some(device), updatedAt := now))
    {
      if id !in tasks {
        return Err(TaskMissing);
      }
      if device == "" {
        return Err(OwnerRequired);
      }
      var current := tasks[id];
      if current.state == WaitingUser && current.owner.Some? && current.owner.value != device {
        return Err(OwnerLocked);
      }
      var next := current.(owner := Some(device), updatedAt := now);
      tasks := tasks[id := next];
      r := Ok(next);
    }

    method AppendStepHistory(id: string, entry: HistoryEntry, now: int) returns (r: Result<TaskRecord, TaskError>)
      modifies this
      ensures r == TaskModel.Answer(old(tasks), maxRetries, AppendHistory(id, entry), now)
      ensures tasks == Apply(old(tasks), maxRetries, AppendHistory(id, entry), now)
      ensures r == if id !in old(tasks) then Err(TaskMissing)
                   else Ok(old(tasks)[id].(history := old(tasks)[id].history + [entry], updatedAt := now))
      ensures tasks == if r.Ok? then old(tasks)[id := r.value] else old(tasks)
    {
      if id !in tasks {
        return Err(TaskMissing);
      }
      var next := tasks[id].(history := tasks[id].history + [entry], updatedAt := now);
      tasks := tasks[id := next];
      r := Ok(next);
    }

    method Restore(records: seq<TaskRecord>)
      modifies this
      ensures tasks == Restored(records)
      ensures IsRestored(tasks, records)
    {
      hide IsRestored, Interrupted;
      tasks := map[];
      assert IsRestored(map[], []) by { NothingRestored(); }
      for i := 0 to |records|
        invariant tasks == Restored(records[..i]) && IsRestored(tasks, records[..i])
      {
        assert records[..i + 1][..i] == records[..i];
        assert records[..i + 1] == records[..i] + [records[i]];
        RestoreOne(tasks, records[..i], records[i]);
        tasks := tasks[records[i].taskId := Interrupted(records[i])];
      }
      assert records[..|records|] == records;
    }
  }
}
