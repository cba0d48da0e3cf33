/** The checkpoint table of services/memory/src/task-checkpoint-store.ts: appending supersedes, and after a
    crash the last appended record of every task comes back. */
module TaskCheckpoints {
  import opened Wrappers
  import opened TaskModel
  import opened TaskManagers

  datatype CheckpointStatus = CreatedCheckpoint | ValidCheckpoint | Superseded

  /** A row; `stored` is None when the step history of the row cannot be parsed. */
  datatype Row = Row(workspace: string, taskId: string, status: CheckpointStatus, stored: Option<TaskRecord>)

  datatype StoreError = StorageFailed | CorruptCheckpoint

  datatype Append = Append(record: TaskRecord, status: CheckpointStatus)

  /** The owner of a task is not persisted. */
  function Persisted(record: TaskRecord): TaskRecord {
    record.(owner := None)
  }

  predicate Live(row: Row, workspace: string) {
    row.workspace == workspace && row.status != Superseded
  }

  function Supersede(rows: seq<Row>, workspace: string, taskId: string): seq<Row> {
    seq(|rows|, i requires 0 <= i < |rows| =>
      if Live(rows[i], workspace) && rows[i].taskId == taskId then rows[i].(status := Superseded) else rows[i])
  }

  /** One transaction: the task's live rows are superseded and a new row is created. */
  function Appended(rows: seq<Row>, workspace: string, a: Append): seq<Row> {
    Supersede(rows, workspace, a.record.taskId) +
    [Row(workspace, a.record.taskId, a.status, Some(Persisted(a.record)))]
  }

  /** An append by the store of some workspace; all workspaces share one table. */
  datatype Written = Written(workspace: string, append: Append)

  function TableOf(writes: seq<Written>): seq<Row> {
    if writes == [] then []
    else Appended(TableOf(writes[..|writes| - 1]), writes[|writes| - 1].workspace, writes[|writes| - 1].append)
  }

  /** The appends of one workspace, in order. */
  ghost function LogOf(writes: seq<Written>, workspace: string): seq<Append> {
    if writes == [] then []
    else
      var last := writes[|writes| - 1];
      LogOf(writes[..|writes| - 1], workspace) + if last.workspace == workspace then [last.append] else []
  }

  /** The simple map the table stands for: the last appended record of each task. */
  function LastAppended(log: seq<Append>): map<string, TaskRecord> {
    if log == [] then map[] else AppendedMap(LastAppended(log[..|log| - 1]), log[|log| - 1])
  }

  function AppendedMap(latest: map<string, TaskRecord>, a: Append): map<string, TaskRecord> {
    if a.status == Superseded then latest - {a.record.taskId} else latest[a.record.taskId := Persisted(a.record)]
  }

  /** Append k is the last one for task t. */
  ghost predicate IsLast(log: seq<Append>, t: string, k: int) {
    0 <= k < |log| && log[k].record.taskId == t && forall m :: k < m < |log| ==> log[m].record.taskId != t
  }

  /** In terms of the appends: a task has an entry exactly when its last append was not one of a superseded
      record, and the entry is that record without its owner. */
  lemma {:induction false} LastAppendedIs(log: seq<Append>, t: string)
    ensures t in LastAppended(log) <==> exists k :: IsLast(log, t, k) && log[k].status != Superseded
    ensures forall k :: IsLast(log, t, k) && log[k].status != Superseded ==>
              LastAppended(log)[t] == log[k].record.(owner := None)
  {
    if log != [] {
      var before, a := log[..|log| - 1], log[|log| - 1];
      LastAppendedIs(before, t);
      if a.record.taskId == t {
        assert IsLast(log, t, |log| - 1);
        assert forall k :: IsLast(log, t, k) ==> k == |log| - 1;
      } else {
        assert forall m :: 0 <= m < |before| ==> before[m] == log[m];
        assert forall k :: IsLast(log, t, k) <==> IsLast(before, t, k);
      }
    }
  }

  lemma LastAppendedStep(log: seq<Append>, a: Append)
    ensures LastAppended(log + [a]) == AppendedMap(LastAppended(log), a)
  {
    assert (log + [a])[..|log|] == log;
  }

  ghost predicate LiveRowsMatch(rows: seq<Row>, workspace: string, latest: map<string, TaskRecord>) {
    && (forall i, j :: 0 <= i < j < |rows| && Live(rows[i], workspace) && Live(rows[j], workspace) ==>
         rows[i].taskId != rows[j].taskId)
    && (forall i :: 0 <= i < |rows| && Live(rows[i], workspace) ==>
          rows[i].taskId in latest && rows[i].stored == Some(latest[rows[i].taskId]))
  }

  /** Each task has at most one live row, and it holds exactly the task's entry in the map. */
  ghost predicate Refines(rows: seq<Row>, workspace: string, latest: map<string, TaskRecord>) {
    && LiveRowsMatch(rows, workspace, latest)
    && (forall t :: t in latest ==> exists i :: 0 <= i < |rows| && Live(rows[i], workspace) && rows[i].taskId == t)
    && (forall t :: t in latest ==> latest[t].taskId == t && latest[t].owner == None)
  }

  /** Main result: for every interleaving of appends by any number of workspaces, the shared table refines the
      map of each workspace. */
  lemma {:induction false} TableRefinesMap(writes: seq<Written>, workspace: string)
    ensures Refines(TableOf(writes), workspace, LastAppended(LogOf(writes, workspace)))
  {
    if writes != [] {
      var before, last := writes[..|writes| - 1], writes[|writes| - 1];
      TableRefinesMap(before, workspace);
      hide Refines, Appended, AppendedMap, LastAppended;
      var log := LogOf(before, workspace);
      if last.workspace == workspace {
        AppendRefines(TableOf(before), workspace, LastAppended(log), last.append);
        LastAppendedStep(log, last.append);
      } else {
        OtherAppendRefines(TableOf(before), workspace, LastAppended(log), last);
        assert log + [] == log;
      }
    }
  }

  /** An append by another workspace leaves the map of this one alone. */
  lemma OtherAppendRefines(rows: seq<Row>, workspace: string, latest: map<string, TaskRecord>, w: Written)
    requires Refines(rows, workspace, latest) && w.workspace != workspace
    ensures Refines(Appended(rows, w.workspace, w.append), workspace, latest)
  {
    var rows' := Appended(rows, w.workspace, w.append);
    forall t | t in latest ensures exists i :: 0 <= i < |rows'| && Live(rows'[i], workspace) && rows'[i].taskId == t {
      var i :| 0 <= i < |rows| && Live(rows[i], workspace) && rows[i].taskId == t;
      assert rows'[i] == rows[i];
    }
    OtherRows(rows, workspace, w);
    hide Appended, Live;
  }

  lemma OtherRows(rows: seq<Row>, workspace: string, w: Written)
    requires w.workspace != workspace
    ensures var rows' := Appended(rows, w.workspace, w.append);
            |rows'| == |rows| + 1 && !Live(rows'[|rows|], workspace)
            && forall i :: 0 <= i < |rows| && Live(rows'[i], workspace) ==> rows'[i] == rows[i]
  {
  }

  lemma LogOfStep(writes: seq<Written>, w: Written, workspace: string)
    ensures LogOf(writes + [w], workspace) == if w.workspace == workspace then LogOf(writes, workspace) + [w.append]
              else LogOf(writes, workspace)
    ensures TableOf(writes + [w]) == Appended(TableOf(writes), w.workspace, w.append)
  {
    hide Appended;
    assert (writes + [w])[..|writes|] == writes;
  }

  lemma AppendRefines(rows: seq<Row>, workspace: string, latest: map<string, TaskRecord>, a: Append)
    requires Refines(rows, workspace, latest)
    ensures Refines(Appended(rows, workspace, a), workspace, AppendedMap(latest, a))
  {
    var rows', latest' := Appended(rows, workspace, a), AppendedMap(latest, a);
    forall t | t in latest' ensures exists i :: 0 <= i < |rows'| && Live(rows'[i], workspace) && rows'[i].taskId == t {
      var i := LiveRowOf(rows, workspace, latest, a, t);
    }
    AppendMatches(rows, workspace, latest, a);
    hide Appended, Live, LiveRowsMatch;
  }

  lemma AppendMatches(rows: seq<Row>, workspace: string, latest: map<string, TaskRecord>, a: Append)
    requires LiveRowsMatch(rows, workspace, latest)
    ensures LiveRowsMatch(Appended(rows, workspace, a), workspace, AppendedMap(latest, a))
  {
    LiveRowsAre(rows, workspace, a);
    hide Appended, Live, Persisted;
  }

  lemma LiveRowOf(rows: seq<Row>, workspace: string, latest: map<string, TaskRecord>, a: Append, t: string)
    returns (i: nat)
    requires Refines(rows, workspace, latest) && t in AppendedMap(latest, a)
    ensures i < |Appended(rows, workspace, a)| && Live(Appended(rows, workspace, a)[i], workspace)
    ensures Appended(rows, workspace, a)[i].taskId == t
  {
    if t == a.record.taskId {
      i := |rows|;
    } else {
      i :| 0 <= i < |rows| && Live(rows[i], workspace) && rows[i].taskId == t;
    }
  }

  /** The live rows after an append are those of other tasks, unchanged, and the new one. */
  lemma LiveRowsAre(rows: seq<Row>, workspace: string, a: Append)
    ensures var rows' := Appended(rows, workspace, a);
            && |rows'| == |rows| + 1
            && rows'[|rows|] == Row(workspace, a.record.taskId, a.status, Some(Persisted(a.record)))
            && (Live(rows'[|rows|], workspace) <==> a.status != Superseded)
            && forall i :: 0 <= i < |rows| && Live(rows'[i], workspace) ==>
                 Live(rows[i], workspace) && rows'[i] == rows[i] && rows[i].taskId != a.record.taskId
  {
  }

  /** Rows of other workspaces are left alone. */
  lemma OtherWorkspacesKept(rows: seq<Row>, workspace: string, a: Append, i: nat)
    requires i < |rows| && rows[i].workspace != workspace
    ensures Appended(rows, workspace, a)[i] == rows[i]
  {
  }

  // ----- Reading the table back

  /** The task identifier of a record is the row's. */
  function Parsed(row: Row): Option<TaskRecord> {
    match row.stored
    case None => None
    case Some(record) => Some(record.(taskId := row.taskId))
  }

  predicate Has(records: seq<TaskRecord>, taskId: string) {
    exists i :: 0 <= i < |records| && records[i].taskId == taskId
  }

  /** Row k is the first live row of its task. */
  ghost predicate IsFirst(listing: seq<Row>, workspace: string, k: int) {
    && 0 <= k < |listing| && Live(listing[k], workspace)
    && forall j :: 0 <= j < k && Live(listing[j], workspace) ==> listing[j].taskId != listing[k].taskId
  }

  /** The record is what the first live row of its task holds, under the identifier of the row. */
  ghost predicate FromRow(record: TaskRecord, listing: seq<Row>, workspace: string) {
    exists k :: IsFirst(listing, workspace, k) && listing[k].stored.Some?
                && record == listing[k].stored.value.(taskId := listing[k].taskId)
  }

  ghost predicate DistinctTasks(records: seq<TaskRecord>) {
    forall i, j :: 0 <= i < j < |records| ==> records[i].taskId != records[j].taskId
  }

  /** One record for each task with a live row, each read from the first such row. */
  ghost predicate FromListing(records: seq<TaskRecord>, listing: seq<Row>, workspace: string) {
    && DistinctTasks(records)
    && (forall i :: 0 <= i < |records| ==> FromRow(records[i], listing, workspace))
    && (forall k :: 0 <= k < |listing| && Live(listing[k], workspace) ==> Has(records, listing[k].taskId))
  }

  lemma FromRowKept(record: TaskRecord, listing: seq<Row>, row: Row, workspace: string)
    requires FromRow(record, listing, workspace)
    ensures FromRow(record, listing + [row], workspace)
  {
    var k :| IsFirst(listing, workspace, k) && Parsed(listing[k]) == Some(record);
    assert forall j :: 0 <= j < |listing| ==> (listing + [row])[j] == listing[j];
    assert IsFirst(listing + [row], workspace, k);
  }

  lemma SkipRow(records: seq<TaskRecord>, listing: seq<Row>, row: Row, workspace: string)
    requires FromListing(records, listing, workspace)
    requires !Live(row, workspace) || Has(records, row.taskId)
    ensures FromListing(records, listing + [row], workspace)
  {
    hide Has, FromRow, Live;
    forall i | 0 <= i < |records| ensures FromRow(records[i], listing + [row], workspace) {
      FromRowKept(records[i], listing, row, workspace);
    }
  }

  lemma HasKept(records: seq<TaskRecord>, record: TaskRecord, taskId: string)
    requires Has(records, taskId) || record.taskId == taskId
    ensures Has(records + [record], taskId)
  {
    if Has(records, taskId) {
      var i :| 0 <= i < |records| && records[i].taskId == taskId;
      assert (records + [record])[i].taskId == taskId;
    } else {
      assert (records + [record])[|records|].taskId == taskId;
    }
  }

  lemma AddRow(records: seq<TaskRecord>, listing: seq<Row>, row: Row, workspace: string)
    requires FromListing(records, listing, workspace)
    requires Live(row, workspace) && !Has(records, row.taskId) && Parsed(row).Some?
    ensures FromListing(records + [Parsed(row).value], listing + [row], workspace)
  {
    hide FromRow, Live;
    var record := Parsed(row).value;
    var records', listing' := records + [record], listing + [row];
    forall i | 0 <= i < |records'| ensures FromRow(records'[i], listing', workspace) {
      if i < |records| {
        FromRowKept(records[i], listing, row, workspace);
      } else {
        LastRow(records, listing, row, workspace);
      }
    }
    forall k | 0 <= k < |listing'| && Live(listing'[k], workspace) ensures Has(records', listing'[k].taskId) {
      HasKept(records, record, listing'[k].taskId);
    }
  }

  lemma LastRow(records: seq<TaskRecord>, listing: seq<Row>, row: Row, workspace: string)
    requires FromListing(records, listing, workspace)
    requires Live(row, workspace) && !Has(records, row.taskId) && Parsed(row).Some?
    ensures FromRow(Parsed(row).value, listing + [row], workspace)
  {
    hide Has;
    assert forall j :: 0 <= j < |listing| ==> (listing + [row])[j] == listing[j];
    assert (listing + [row])[|listing|] == row;
    assert IsFirst(listing + [row], workspace, |listing|);
  }

  /** A listing of a map: each entry once. */
  ghost predicate ListsMap(records: seq<TaskRecord>, latest: map<string, TaskRecord>) {
    && DistinctTasks(records)
    && (forall i :: 0 <= i < |records| ==> records[i].taskId in latest && latest[records[i].taskId] == records[i])
    && (forall t :: t in latest ==> Has(records, t))
  }

  lemma RowIsListed(listing: seq<Row>, rows: seq<Row>, i: nat) returns (j: nat)
    requires multiset(listing) == multiset(rows) && i < |listing|
    ensures j < |rows| && rows[j] == listing[i]
  {
    assert listing[i] in multiset(rows);
    j :| 0 <= j < |rows| && rows[j] == listing[i];
  }

  /** Reading a table that refines a map, in any order, lists the map. */
  lemma ListingIsComplete(records: seq<TaskRecord>, listing: seq<Row>, rows: seq<Row>, workspace: string,
                          latest: map<string, TaskRecord>)
    requires FromListing(records, listing, workspace) && multiset(listing) == multiset(rows)
    requires Refines(rows, workspace, latest)
    ensures ListsMap(records, latest)
  {
    hide Has, Live;
    forall i | 0 <= i < |records| ensures records[i].taskId in latest && latest[records[i].taskId] == records[i] {
      assert FromRow(records[i], listing, workspace);
      var k :| IsFirst(listing, workspace, k) && listing[k].stored.Some?
        && records[i] == listing[k].stored.value.(taskId := listing[k].taskId);
      var j := RowIsListed(listing, rows, k);
      var t := rows[j].taskId;
      assert t in latest && rows[j].stored == Some(latest[t]) && latest[t].taskId == t;
    }
    forall t | t in latest ensures Has(records, t) {
      var j :| 0 <= j < |rows| && Live(rows[j], workspace) && rows[j].taskId == t;
      var k := RowIsListed(rows, listing, j);
    }
  }

  /** In such a table no live row is malformed. */
  lemma LiveRowsParse(listing: seq<Row>, rows: seq<Row>, workspace: string, latest: map<string, TaskRecord>, k: nat)
    requires Refines(rows, workspace, latest) && multiset(listing) == multiset(rows)
    requires k < |listing| && Live(listing[k], workspace)
    ensures listing[k].stored.Some?
  {
    var j := RowIsListed(listing, rows, k);
  }

  // ----- Crash and recovery

  /** What recovery makes of a record. */
  function Normalized(record: TaskRecord, now: int): TaskRecord {
    if InFlight(record) then record.(state := UnverifiedTask, updatedAt := now) else record
  }

  /** In terms of the records: work in flight has become unverified at `now`, and nothing else has changed. */
  ghost predicate IsStopped(before: TaskRecord, after: TaskRecord, now: int) {
    var stopped := before.state in {Executing, Verifying};
    && after.state == (if stopped then UnverifiedTask else before.state)
    && after.updatedAt == (if stopped then now else before.updatedAt)
    && after.taskId == before.taskId && after.goal == before.goal && after.correlationId == before.correlationId
    && after.owner == before.owner && after.retryCount == before.retryCount && after.history == before.history
    && after.waitingReason == before.waitingReason && after.reason == before.reason
  }

  ghost predicate AllStopped(before: map<string, TaskRecord>, after: map<string, TaskRecord>, now: int) {
    after.Keys == before.Keys && forall t :: t in before ==> IsStopped(before[t], after[t], now)
  }

  /** Some tasks are stopped, the others are as they were. */
  ghost predicate SomeStopped(before: map<string, TaskRecord>, after: map<string, TaskRecord>, now: int) {
    && after.Keys == before.Keys
    && forall t :: t in before ==> after[t] == before[t] || IsStopped(before[t], after[t], now)
  }

  lemma NormalizedIsStopped(record: TaskRecord, now: int)
    ensures IsStopped(record, Normalized(record, now), now)
    ensures forall after :: IsStopped(record, after, now) ==> after == Normalized(record, now)
  {
  }

  ghost function Recovered(latest: map<string, TaskRecord>, now: int): map<string, TaskRecord> {
    map t | t in latest :: Normalized(latest[t], now)
  }

  /** The appends of a recovery over a listing of records. */
  ghost function RecoveryLog(records: seq<TaskRecord>, now: int): seq<Append> {
    if records == [] then []
    else
      var last := records[|records| - 1];
      RecoveryLog(records[..|records| - 1], now) +
      if InFlight(last) then [Append(Normalized(last, now), ValidCheckpoint)] else []
  }

  lemma RecoveryLogStep(records: seq<TaskRecord>, now: int, n: nat)
    requires n < |records|
    ensures RecoveryLog(records[..n + 1], now) == RecoveryLog(records[..n], now) +
              if InFlight(records[n]) then [Append(Normalized(records[n], now), ValidCheckpoint)] else []
  {
    assert records[..n + 1][..n] == records[..n];
  }

  /** The first n records are normalized, the others are as they were. */
  ghost predicate PartlyRecovered(before: map<string, TaskRecord>, after: map<string, TaskRecord>,
                                  records: seq<TaskRecord>, now: int, n: nat) {
    && after.Keys == before.Keys
    && (forall i :: 0 <= i < n && i < |records| ==>
          records[i].taskId in after && after[records[i].taskId] == Normalized(records[i], now))
    && (forall i :: n <= i < |records| ==> records[i].taskId in after && after[records[i].taskId] == records[i])
  }

  lemma PartlyRecoveredStep(before: map<string, TaskRecord>, after: map<string, TaskRecord>, records: seq<TaskRecord>,
                            now: int, n: nat)
    requires n < |records| && ListsMap(records, before) && records[n].owner == None
    requires PartlyRecovered(before, after, records, now, n)
    ensures PartlyRecovered(before,
                            if InFlight(records[n])
                              then AppendedMap(after, Append(Normalized(records[n], now), ValidCheckpoint)) else after,
                            records, now, n + 1)
  {
    hide Has;
  }

  /** Cut short after n records, a recovery has normalized these and left every other record as it was. */
  lemma {:induction false} RecoveryIsSafe(log: seq<Append>, records: seq<TaskRecord>, now: int, n: nat)
    requires ListsMap(records, LastAppended(log)) && n <= |records|
    ensures PartlyRecovered(LastAppended(log), LastAppended(log + RecoveryLog(records[..n], now)), records, now, n)
  {
    hide *;
    if n == 0 {
      StartOfRecovery(records, now);
      assert log + [] == log;
      NothingDone(LastAppended(log), records, now);
    } else {
      RecoveryIsSafe(log, records, now, n - 1);
      RecoveryLogStep(records, now, n - 1);
      var before := log + RecoveryLog(records[..n - 1], now);
      var last := records[n - 1];
      OwnerIsNotListed(log, records, n - 1);
      PartlyRecoveredStep(LastAppended(log), LastAppended(before), records, now, n - 1);
      if InFlight(last) {
        var a := Append(Normalized(last, now), ValidCheckpoint);
        LastAppendedStep(before, a);
        assert log + RecoveryLog(records[..n], now) == before + [a];
      } else {
        assert log + RecoveryLog(records[..n], now) == before;
      }
    }
  }

  lemma NothingDone(latest: map<string, TaskRecord>, records: seq<TaskRecord>, now: int)
    requires ListsMap(records, latest)
    ensures PartlyRecovered(latest, latest, records, now, 0)
  {
  }

  lemma OwnerIsNotListed(log: seq<Append>, records: seq<TaskRecord>, i: nat)
    requires ListsMap(records, LastAppended(log)) && i < |records|
    ensures records[i].owner == None
  {
    hide LastAppended;
    NothingPersistsOwners(log, records[i].taskId);
  }

  lemma StartOfRecovery(records: seq<TaskRecord>, now: int)
    ensures RecoveryLog(records[..0], now) == []
  {
  }

  lemma {:induction false} NothingPersistsOwners(log: seq<Append>, t: string)
    requires t in LastAppended(log)
    ensures LastAppended(log)[t].owner == None && LastAppended(log)[t].taskId == t
  {
    if t in LastAppended(log[..|log| - 1]) {
      NothingPersistsOwners(log[..|log| - 1], t);
    }
  }

  lemma FullyRecovered(before: map<string, TaskRecord>, after: map<string, TaskRecord>, records: seq<TaskRecord>,
                       now: int)
    requires ListsMap(records, before) && PartlyRecovered(before, after, records, now, |records|)
    ensures after == Recovered(before, now)
  {
    hide Normalized;
    forall t | t in before ensures after[t] == Normalized(before[t], now) {
      assert Has(records, t);
      var i :| 0 <= i < |records| && records[i].taskId == t;
    }
  }

  lemma RecoveredIsStopped(latest: map<string, TaskRecord>, now: int)
    ensures AllStopped(latest, Recovered(latest, now), now)
  {
    hide Normalized, IsStopped;
    forall t | t in latest ensures IsStopped(latest[t], Recovered(latest, now)[t], now) {
      NormalizedIsStopped(latest[t], now);
    }
  }

  /** Whatever part of its work a recovery has done, it has stopped some tasks and left the others alone. */
  lemma PartOfRecoveryStopsSome(before: seq<Append>, after: seq<Append>, now: int)
    requires PartOfRecovery(before, after, now)
    ensures SomeStopped(LastAppended(before), LastAppended(after), now)
  {
    hide Normalized, IsStopped, LastAppended, RecoveryLog;
    if after != before {
      var records, n: nat :| ListsMap(records, LastAppended(before)) && n <= |records|
        && after == LogAfter(before, records, now, n);
      RecoveryIsSafe(before, records, now, n);
      var latest, latest' := LastAppended(before), LastAppended(after);
      hide LogAfter;
      forall t | t in latest ensures latest'[t] == latest[t] || IsStopped(latest[t], latest'[t], now) {
        var i := HasIsIndexed(records, t);
        NormalizedIsStopped(records[i], now);
      }
    }
  }

  /** A recovery only adds, and only valid checkpoints of tasks whose work was in flight. */
  ghost predicate AddsStopped(before: seq<Append>, after: seq<Append>) {
    && before <= after
    && forall k :: |before| <= k < |after| ==>
         var t := after[k].record.taskId;
         && after[k].status == ValidCheckpoint && after[k].record.state == UnverifiedTask
         && t in LastAppended(before) && LastAppended(before)[t].state in {Executing, Verifying}
  }

  lemma PartOfRecoveryAdds(before: seq<Append>, after: seq<Append>, now: int)
    requires PartOfRecovery(before, after, now)
    ensures AddsStopped(before, after)
  {
    if after != before {
      var records, n: nat :| ListsMap(records, LastAppended(before)) && n <= |records|
        && after == LogAfter(before, records, now, n);
      var added := RecoveryLog(records[..n], now);
      RecoveryLogIs(records[..n], now);
      hide RecoveryLog, LastAppended, PartOfRecovery;
      forall k | |before| <= k < |after|
        ensures after[k] == added[k - |before|]
      {
      }
    }
  }

  lemma {:induction false} RecoveryLogIs(records: seq<TaskRecord>, now: int)
    ensures forall a :: a in RecoveryLog(records, now) ==>
              && a.status == ValidCheckpoint && a.record.state == UnverifiedTask
              && exists i :: 0 <= i < |records| && records[i].taskId == a.record.taskId
                             && records[i].state in {Executing, Verifying}
  {
    if records != [] {
      var before, last := records[..|records| - 1], records[|records| - 1];
      RecoveryLogIs(before, now);
      assert forall i :: 0 <= i < |before| ==> records[i] == before[i];
      assert records[|records| - 1] == last;
    }
  }

  /** Main result: whatever was appended before a crash, a complete recovery makes the work in flight of the
      last appended records unverified and changes nothing else. */
  lemma RecoveryIsComplete(log: seq<Append>, records: seq<TaskRecord>, now: int)
    requires ListsMap(records, LastAppended(log))
    ensures LastAppended(log + RecoveryLog(records, now)) == Recovered(LastAppended(log), now)
    ensures AllStopped(LastAppended(log), LastAppended(log + RecoveryLog(records, now)), now)
  {
    RecoveredIsStopped(LastAppended(log), now);
    hide AllStopped;
    RecoveryIsSafe(log, records, now, |records|);
    assert records[..|records|] == records;
    FullyRecovered(LastAppended(log), LastAppended(log + RecoveryLog(records, now)), records, now);
  }

  lemma PartlyThenFully(before: map<string, TaskRecord>, middle: map<string, TaskRecord>, records: seq<TaskRecord>,
                        now: int, n: nat, now': int, t: string)
    requires ListsMap(records, before) && PartlyRecovered(before, middle, records, now, n) && t in before
    ensures t in middle
    ensures Normalized(middle[t], now') == Normalized(before[t], now)
              || Normalized(middle[t], now') == Normalized(before[t], now')
  {
    assert Has(records, t);
    var i :| 0 <= i < |records| && records[i].taskId == t;
  }

  /** A recovery cut short anywhere and then repeated ends like an undisturbed one, up to the time stamps of
      the records it had already turned. */
  lemma InterruptedRecovery(log: seq<Append>, records: seq<TaskRecord>, now: int, n: nat, records': seq<TaskRecord>,
                            now': int)
    requires ListsMap(records, LastAppended(log)) && n <= |records|
    requires ListsMap(records', LastAppended(log + RecoveryLog(records[..n], now)))
    ensures var after := LastAppended(log + RecoveryLog(records[..n], now) + RecoveryLog(records', now'));
            && after.Keys == LastAppended(log).Keys
            && (forall t :: t in after ==>
                  after[t] == Normalized(LastAppended(log)[t], now)
                    || after[t] == Normalized(LastAppended(log)[t], now'))
  {
    var first := log + RecoveryLog(records[..n], now);
    RecoveryIsSafe(log, records, now, n);
    RecoveryIsComplete(first, records', now');
    forall t | t in LastAppended(log)
      ensures t in LastAppended(first)
      ensures Normalized(LastAppended(first)[t], now') in
                {Normalized(LastAppended(log)[t], now), Normalized(LastAppended(log)[t], now')}
    {
      PartlyThenFully(LastAppended(log), LastAppended(first), records, now, n, now', t);
    }
    hide ListsMap, Normalized, RecoveryLog, LastAppended;
  }

  /** A second complete recovery appends nothing. */
  lemma SecondRecoveryIsIdle(latest: map<string, TaskRecord>, now: int, records: seq<TaskRecord>, now': int)
    requires ListsMap(records, Recovered(latest, now))
    ensures RecoveryLog(records, now') == [] && Recovered(Recovered(latest, now), now') == Recovered(latest, now)
  {
    hide Has;
    NothingToRecover(records, now');
  }

  lemma {:induction false} NothingToRecover(records: seq<TaskRecord>, now: int)
    requires forall i :: 0 <= i < |records| ==> !InFlight(records[i])
    ensures RecoveryLog(records, now) == []
  {
    if records != [] {
      NothingToRecover(records[..|records| - 1], now);
    }
  }

  /** Once a task was persisted, a crash at any later point leaves it to be recovered: its entry is the last
      record appended for it, normalized. */
  lemma SubmittedIsRecovered(log: seq<Append>, i: nat, n: nat, now: int)
    requires i < n <= |log| && forall k :: 0 <= k < |log| ==> log[k].status != Superseded
    ensures var t := log[i].record.taskId;
            && t in Recovered(LastAppended(log[..n]), now)
            && exists k :: i <= k < n && log[k].record.taskId == t
                && (forall m :: k < m < n ==> log[m].record.taskId != t)
                && Recovered(LastAppended(log[..n]), now)[t] == Normalized(Persisted(log[k].record), now)
                && IsStopped(log[k].record.(owner := None), Recovered(LastAppended(log[..n]), now)[t], now)
  {
    var k := LastOfTask(log, i, n);
    NormalizedIsStopped(Persisted(log[k].record), now);
    hide IsStopped;
    hide LastAppended, Normalized, Persisted;
    assert Recovered(LastAppended(log[..n]), now)[log[i].record.taskId] == Normalized(Persisted(log[k].record), now);
  }

  /** The last append for a task that had one is the task's entry. */
  lemma {:induction false} LastOfTask(log: seq<Append>, i: nat, n: nat) returns (k: nat)
    requires i < n <= |log| && forall k :: 0 <= k < |log| ==> log[k].status != Superseded
    ensures i <= k < n && log[k].record.taskId == log[i].record.taskId
    ensures forall m :: k < m < n ==> log[m].record.taskId != log[i].record.taskId
    ensures log[i].record.taskId in LastAppended(log[..n])
              && LastAppended(log[..n])[log[i].record.taskId] == Persisted(log[k].record)
    decreases n
  {
    hide Persisted;
    assert log[..n] == log[..n - 1] + [log[n - 1]];
    LastAppendedStep(log[..n - 1], log[n - 1]);
    hide LastAppended;
    if log[n - 1].record.taskId != log[i].record.taskId {
      k := LastOfTask(log, i, n - 1);
    } else {
      k := n - 1;
    }
  }

  lemma RestoredIsRecovered(records: seq<TaskRecord>, latest: map<string, TaskRecord>, now: int)
    requires ListsMap(records, Recovered(latest, now))
    ensures Restored(records) == Recovered(latest, now)
  {
    hide Has;
    RestoredListing(records, Recovered(latest, now), |records|);
    assert records[..|records|] == records;
    forall t | t in Recovered(latest, now)
      ensures t in Restored(records) && Restored(records)[t] == Recovered(latest, now)[t] {
      var i := HasIsIndexed(records, t);
    }
  }

  lemma HasIsIndexed(records: seq<TaskRecord>, t: string) returns (i: nat)
    requires Has(records, t)
    ensures i < |records| && records[i].taskId == t
  {
    i :| 0 <= i < |records| && records[i].taskId == t;
  }

  lemma {:induction false} RestoredListing(records: seq<TaskRecord>, latest: map<string, TaskRecord>, n: nat)
    requires ListsMap(records, latest) && n <= |records| && forall t :: t in latest ==> !InFlight(latest[t])
    ensures var restored := Restored(records[..n]);
            && (forall i :: 0 <= i < n ==> records[i].taskId in restored)
            && (forall t :: t in restored ==> t in latest && restored[t] == latest[t])
  {
    hide Has;
    if n > 0 {
      RestoredListing(records, latest, n - 1);
      assert records[..n][..n - 1] == records[..n - 1];
    }
  }

  /** The log of a recovery that has dealt with n records. */
  ghost function LogAfter(log: seq<Append>, records: seq<TaskRecord>, now: int, n: nat): seq<Append>
    requires n <= |records|
  {
    log + RecoveryLog(records[..n], now)
  }

  lemma LogAfterStep(log: seq<Append>, records: seq<TaskRecord>, now: int, n: nat)
    requires n < |records|
    ensures LogAfter(log, records, now, n + 1) ==
              if InFlight(records[n])
                then LogAfter(log, records, now, n) + [Append(Normalized(records[n], now), ValidCheckpoint)]
              else LogAfter(log, records, now, n)
  {
    RecoveryLogStep(records, now, n);
    hide RecoveryLog, Normalized, InFlight;
  }

  /** What the map of a log can be once a recovery has done any part of its work. */
  ghost predicate PartOfRecovery(before: seq<Append>, after: seq<Append>, now: int) {
    after == before
    || exists records, n: nat ::
      ListsMap(records, LastAppended(before)) && n <= |records| && after == LogAfter(before, records, now, n)
  }

  lemma CutShort(before: seq<Append>, after: seq<Append>, records: seq<TaskRecord>, now: int, n: nat)
    requires ListsMap(records, LastAppended(before)) && n <= |records| && after == LogAfter(before, records, now, n)
    ensures PartOfRecovery(before, after, now)
  {
  }

  lemma NothingRecovered(log: seq<Append>, now: int)
    ensures PartOfRecovery(log, log, now)
  {
  }

  lemma BeginRecovery(log: seq<Append>, records: seq<TaskRecord>, now: int)
    ensures LogAfter(log, records, now, 0) == log && NormalizedSoFar(records, [], now)
  {
    StartOfRecovery(records, now);
    assert log + [] == log;
  }

  lemma FinishRecovery(log: seq<Append>, records: seq<TaskRecord>, recovered: seq<TaskRecord>, now: int)
    requires ListsMap(records, LastAppended(log)) && |recovered| == |records|
               && NormalizedSoFar(records, recovered, now)
    ensures var after := LogAfter(log, records, now, |records|);
            && PartOfRecovery(log, after, now)
            && LastAppended(after) == Recovered(LastAppended(log), now)
            && AllStopped(LastAppended(log), LastAppended(after), now)
            && ListsMap(recovered, LastAppended(after))
  {
    hide AllStopped;
    CutShort(log, LogAfter(log, records, now, |records|), records, now, |records|);
    assert records[..|records|] == records;
    RecoveryIsComplete(log, records, now);
    AllNormalized(records, recovered, LastAppended(log), now);
  }

  lemma EmptyListing(workspace: string)
    ensures FromListing([], [], workspace)
  {
  }

  /** A live row that cannot be parsed is nothing a store has written. */
  lemma UnreadableRow(listing: seq<Row>, rows: seq<Row>, workspace: string, writes: seq<Written>, k: nat)
    requires multiset(listing) == multiset(rows) && k < |listing| && Live(listing[k], workspace)
               && Parsed(listing[k]) == None
    ensures rows != TableOf(writes)
    ensures exists row :: row in rows && Live(row, workspace) && row.stored == None
  {
    var j := RowIsListed(listing, rows, k);
    assert rows[j] in rows;
    TableRefinesMap(writes, workspace);
    hide Refines, TableOf, LastAppended;
    if rows == TableOf(writes) {
      LiveRowsParse(listing, rows, workspace, LastAppended(LogOf(writes, workspace)), k);
    }
  }

  ghost predicate NormalizedSoFar(records: seq<TaskRecord>, recovered: seq<TaskRecord>, now: int) {
    |recovered| <= |records| && forall i :: 0 <= i < |recovered| ==> recovered[i] == Normalized(records[i], now)
  }

  lemma OneMoreNormalized(records: seq<TaskRecord>, recovered: seq<TaskRecord>, now: int)
    requires NormalizedSoFar(records, recovered, now) && |recovered| < |records|
    ensures NormalizedSoFar(records, recovered + [Normalized(records[|recovered|], now)], now)
  {
    hide Normalized;
  }

  lemma AllNormalized(records: seq<TaskRecord>, recovered: seq<TaskRecord>, latest: map<string, TaskRecord>, now: int)
    requires ListsMap(records, latest) && |recovered| == |records| && NormalizedSoFar(records, recovered, now)
    ensures ListsMap(recovered, Recovered(latest, now))
  {
    hide Has;
    forall i | 0 <= i < |records| ensures recovered[i].taskId == records[i].taskId {
    }
    forall t | t in latest ensures Has(recovered, t) {
      var i := HasIsIndexed(records, t);
      HasAt(recovered, i);
    }
  }

  lemma HasAt(records: seq<TaskRecord>, i: nat)
    requires i < |records|
    ensures Has(records, records[i].taskId)
  {
  }

  /** The table of the database. */
  class CheckpointTable {
    var rows: seq<Row>
    ghost var writes: seq<Written>

    ghost predicate Valid()
      reads this
    {
      rows == TableOf(writes)
    }

    constructor ()
      ensures Valid() && writes == []
    {
      rows, writes := [], [];
    }
  }

  class TaskCheckpointStore {
    const client: CheckpointTable
    const workspace: string

    ghost predicate Valid()
      reads client
    {
      client.Valid()
    }

    /** The appends this workspace has made. */
    ghost function Log(): seq<Append>
      reads client
    {
      LogOf(client.writes, workspace)
    }

    constructor (client: CheckpointTable, workspace: string)
      ensures this.client == client && this.workspace == workspace
    {
      this.client, this.workspace := client, workspace;
    }

    /** A failing transaction changes nothing. */
    method AppendCheckpoint(record: TaskRecord, status: CheckpointStatus, storageOk: bool)
      returns (r: Result<(), StoreError>)
      requires Valid()
      modifies client
      ensures Valid()
      ensures r == if storageOk then Ok(()) else Err(StorageFailed)
      ensures Log() == if storageOk then old(Log()) + [Append(record, status)] else old(Log())
      ensures forall other :: other != workspace ==> LogOf(client.writes, other) == old(LogOf(client.writes, other))
      ensures !storageOk ==> client.rows == old(client.rows)
      ensures storageOk ==>
                && |client.rows| == |old(client.rows)| + 1
                && client.rows[|old(client.rows)|] ==
                     Row(workspace, record.taskId, status, Some(record.(owner := None)))
                && forall i :: 0 <= i < |old(client.rows)| ==>
                     var row := old(client.rows)[i];
                     client.rows[i] ==
                       if row.workspace == workspace && row.taskId == record.taskId then row.(status := Superseded)
                       else row
    {
      if !storageOk {
        return Err(StorageFailed);
      }
      ghost var written := Written(workspace, Append(record, status));
      hide TableOf, LogOf;
      forall other ensures LogOf(client.writes + [written], other) ==
                           if workspace == other then LogOf(client.writes, other) + [written.append]
                             else LogOf(client.writes, other)
      {
        LogOfStep(client.writes, written, other);
      }
      LogOfStep(client.writes, written, workspace);
      client.rows := Supersede(client.rows, workspace, record.taskId) +
        [Row(workspace, record.taskId, status, Some(Persisted(record)))];
      client.writes := client.writes + [written];
      r := Ok(());
    }

    /** The listing is what the database returns, in any order. */
    method LoadLatest(listing: seq<Row>, storageOk: bool) returns (r: Result<seq<TaskRecord>, StoreError>)
      requires multiset(listing) == multiset(client.rows)
      ensures !storageOk ==> r == Err(StorageFailed)
      ensures r.Ok? ==> FromListing(r.value, listing, workspace)
      ensures storageOk && Valid() ==> r.Ok? && ListsMap(r.value, LastAppended(Log()))
      ensures storageOk && r.Err? ==>
                && r.error == CorruptCheckpoint
                && exists row :: row in client.rows && Live(row, workspace) && row.stored == None
    {
      if !storageOk {
        return Err(StorageFailed);
      }
      var latest: seq<TaskRecord> := [];
      EmptyListing(workspace);
      hide *;
      for i := 0 to |listing|
        invariant FromListing(latest, listing[..i], workspace)
      {
        var row := listing[i];
        assert listing[..i + 1] == listing[..i] + [row];
        if !Live(row, workspace) || Has(latest, row.taskId) {
          SkipRow(latest, listing[..i], row, workspace);
          continue;
        }
        var parsed := Parsed(row);
        if parsed == None {
          UnreadableRow(listing, client.rows, workspace, client.writes, i);
          return Err(CorruptCheckpoint);
        }
        AddRow(latest, listing[..i], row, workspace);
        latest := latest + [parsed.value];
      }
      assert listing[..|listing|] == listing;
      r := Ok(latest);
      if client.rows == TableOf(client.writes) {
        TableRefinesMap(client.writes, workspace);
        ListingIsComplete(latest, listing, client.rows, workspace, LastAppended(Log()));
      }
    }

    /** Recovery can fail at any of its transactions; `appendOk` says which ones succeed. */
    method RecoverAfterCrash(listing: seq<Row>, now: int, loadOk: bool, appendOk: nat -> bool)
      returns (r: Result<seq<TaskRecord>, StoreError>)
      requires Valid() && multiset(listing) == multiset(client.rows)
      modifies client
      ensures Valid()
      ensures PartOfRecovery(old(Log()), Log(), now)
      ensures SomeStopped(LastAppended(old(Log())), LastAppended(Log()), now) && AddsStopped(old(Log()), Log())
      ensures r.Ok? ==>
                && LastAppended(Log()) == Recovered(LastAppended(old(Log())), now)
                && AllStopped(LastAppended(old(Log())), LastAppended(Log()), now)
                && ListsMap(r.value, LastAppended(Log()))
      ensures loadOk && (forall i: nat :: appendOk(i)) ==> r.Ok?
    {
      var loaded := LoadLatest(listing, loadOk);
      ghost var before := Log();
      ghost var latest := LastAppended(Log());
      hide *;
      if loaded.Err? {
        NothingRecovered(Log(), now);
        PartOfRecoveryStopsSome(before, Log(), now);
        PartOfRecoveryAdds(before, Log(), now);
        return loaded;
      }
      var records := loaded.value;
      var recovered: seq<TaskRecord> := [];
      BeginRecovery(before, records, now);
      for i := 0 to |records|
        invariant Valid() && |recovered| == i
        invariant NormalizedSoFar(records, recovered, now)
        invariant Log() == LogAfter(before, records, now, i)
      {
        LogAfterStep(before, records, now, i);
        OneMoreNormalized(records, recovered, now);
        var next := Normalized(records[i], now);
        if InFlight(records[i]) {
          var persisted := AppendCheckpoint(next, ValidCheckpoint, appendOk(i));
          if persisted.Err? {
            CutShort(before, Log(), records, now, i);
            PartOfRecoveryStopsSome(before, Log(), now);
            PartOfRecoveryAdds(before, Log(), now);
            return Err(persisted.error);
          }
        }
        recovered := recovered + [next];
      }
      FinishRecovery(before, records, recovered, now);
      PartOfRecoveryStopsSome(before, Log(), now);
      PartOfRecoveryAdds(before, Log(), now);
      r := Ok(recovered);
    }
  }
}
