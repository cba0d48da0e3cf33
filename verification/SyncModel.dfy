/** Replicated records of services/runtime/src/cross-device-sync.ts: the per-field last-writer-wins merge
    and when it makes replicas converge. */
module SyncModel {
  import opened Graphs

  datatype Category = Security | TaskState | EpisodicMemory | GraphKnowledge | Configuration

  datatype Change = Change(changeId: string, entityId: string, category: Category, logicalClock: int,
                           partition: string, fields: map<string, string>)

  datatype LocalRecord = LocalRecord(fields: map<string, string>, fieldClocks: map<string, int>, history: seq<Change>)

  type Records = map<string, LocalRecord>

  /** The clock of a field, with -1 for a field that was never written. */
  function ClockOf(record: LocalRecord, field: string): int {
    if field in record.fieldClocks then record.fieldClocks[field] else -1
  }

  function RecordOf(records: Records, entity: string): LocalRecord {
    if entity in records then records[entity] else LocalRecord(map[], map[], [])
  }

  /** The fields of a change that are written: those whose clock is not older. */
  function Winning(record: LocalRecord, change: Change): set<string> {
    set f | f in change.fields && change.logicalClock >= ClockOf(record, f)
  }

  function Merge(record: LocalRecord, change: Change): LocalRecord {
    var won := Winning(record, change);
    LocalRecord(record.fields + (map f | f in won :: change.fields[f]),
                record.fieldClocks + (map f | f in won :: change.logicalClock),
                record.history + [change])
  }

  function Apply(records: Records, change: Change): Records {
    records[change.entityId := Merge(RecordOf(records, change.entityId), change)]
  }

  /** The records of a replica that applied a log of changes. */
  ghost function ApplyAll(log: seq<Change>): Records {
    if log == [] then map[] else Apply(ApplyAll(log[..|log| - 1]), log[|log| - 1])
  }

  /** Equal fields and field clocks for every entity; histories may differ. */
  ghost predicate SameState(a: Records, b: Records) {
    && a.Keys == b.Keys
    && forall e :: e in a ==> a[e].fields == b[e].fields && a[e].fieldClocks == b[e].fieldClocks
  }

  /** The changes of a set that can write a field of an entity. */
  ghost predicate Writes(change: Change, entity: string, field: string) {
    change.entityId == entity && field in change.fields && change.logicalClock >= -1
  }

  ghost predicate IsTop(changes: set<Change>, change: Change, entity: string, field: string) {
    && change in changes && Writes(change, entity, field)
    && forall c :: c in changes && Writes(c, entity, field) ==> c.logicalClock <= change.logicalClock
  }

  /** The newest changes to the same field agree on its value. */
  ghost predicate TopAgree(changes: set<Change>) {
    forall a, b, entity, field :: IsTop(changes, a, entity, field) && IsTop(changes, b, entity, field) ==>
      a.fields[field] == b.fields[field]
  }

  /** Any two replicas that applied exactly these changes, in any order and with any repetition, agree. */
  ghost predicate Convergent(changes: set<Change>) {
    forall log, log' :: Elements(log) == changes && Elements(log') == changes ==>
      SameState(ApplyAll(log), ApplyAll(log'))
  }

  /** What a replica holds for one field, in terms of the set of changes it applied. */
  ghost predicate Explained(records: Records, changes: set<Change>, entity: string, field: string) {
    var record := RecordOf(records, entity);
    && (field in record.fields <==> field in record.fieldClocks)
    && (field in record.fields <==> exists c :: c in changes && Writes(c, entity, field))
    && (field in record.fields ==>
          exists c :: IsTop(changes, c, entity, field) && record.fields[field] == c.fields[field]
            && record.fieldClocks[field] == c.logicalClock)
  }

  lemma {:induction false} LogIsExplained(log: seq<Change>, entity: string, field: string)
    ensures Explained(ApplyAll(log), Elements(log), entity, field)
    ensures entity in ApplyAll(log) <==> exists c :: c in Elements(log) && c.entityId == entity
  {
    if log != [] {
      var before := log[..|log| - 1];
      var last := log[|log| - 1];
      LogIsExplained(before, entity, field);
      assert log == before + [last];
      ElementsAppend(before, last);
      ApplyIsExplained(ApplyAll(before), Elements(before), last, entity, field);
    }
  }

  /** The changes of a log to one entity, in order. */
  ghost function ChangesTo(log: seq<Change>, entity: string): seq<Change> {
    if log == [] then []
    else
      var last := log[|log| - 1];
      ChangesTo(log[..|log| - 1], entity) + if last.entityId == entity then [last] else []
  }

  /** The history of an entity is every change to it, also those that lost. */
  lemma {:induction false} HistoryIsLog(log: seq<Change>, entity: string)
    ensures RecordOf(ApplyAll(log), entity).history == ChangesTo(log, entity)
  {
    hide Winning;
    if log != [] {
      HistoryIsLog(log[..|log| - 1], entity);
    }
  }

  lemma ApplyIsExplained(records: Records, changes: set<Change>, change: Change, entity: string, field: string)
    requires Explained(records, changes, entity, field)
    ensures Explained(Apply(records, change), changes + {change}, entity, field)
  {
    var all := changes + {change};
    var old' := RecordOf(records, entity);
    var new' := RecordOf(Apply(records, change), entity);
    if Writes(change, entity, field) && change.logicalClock >= ClockOf(old', field) {
      assert field in Winning(old', change);
      forall c | c in all && Writes(c, entity, field) ensures c.logicalClock <= change.logicalClock {
        if c in changes {
          var top :| IsTop(changes, top, entity, field) && old'.fieldClocks[field] == top.logicalClock;
        }
      }
      assert IsTop(all, change, entity, field);
    } else {
      if change.entityId == entity {
        assert field !in Winning(old', change);
      }
      assert field in new'.fields <==> field in old'.fields;
      if field in old'.fields {
        var top :| IsTop(changes, top, entity, field) && old'.fields[field] == top.fields[field]
          && old'.fieldClocks[field] == top.logicalClock;
        assert IsTop(all, top, entity, field);
      }
    }
  }

  /** The same for replicas that applied each change once. */
  ghost predicate ConvergentOnce(changes: set<Change>) {
    forall log, log' ::
      Elements(log) == changes && Elements(log') == changes && Distinct(log) && Distinct(log') ==>
        SameState(ApplyAll(log), ApplyAll(log'))
  }

  /** Main result: replicas converge exactly when the newest changes to each field agree, whether changes may be
      delivered again or not. */
  lemma ConvergesIff(changes: set<Change>)
    ensures Convergent(changes) <==> TopAgree(changes)
    ensures ConvergentOnce(changes) <==> TopAgree(changes)
  {
    hide ApplyAll, Elements, Distinct, SameState;
    if TopAgree(changes) {
      forall log, log' | Elements(log) == changes && Elements(log') == changes
        ensures SameState(ApplyAll(log), ApplyAll(log'))
      {
        SameChangesSameState(log, log');
      }
    } else {
      var a, b, entity, field :| IsTop(changes, a, entity, field) && IsTop(changes, b, entity, field)
        && a.fields[field] != b.fields[field];
      var left, right := Diverges(changes, a, b, entity, field);
    }
  }

  /** Delivered last, two newest changes with different values leave two replicas apart. */
  lemma Diverges(changes: set<Change>, a: Change, b: Change, entity: string, field: string)
    returns (left: seq<Change>, right: seq<Change>)
    requires IsTop(changes, a, entity, field) && IsTop(changes, b, entity, field) && a.fields[field] != b.fields[field]
    ensures Elements(left) == changes && Elements(right) == changes && Distinct(left) && Distinct(right)
    ensures !SameState(ApplyAll(left), ApplyAll(right))
  {
    left := DeliveredLast(changes, a, entity, field);
    right := DeliveredLast(changes, b, entity, field);
    hide ApplyAll, IsTop, Elements, Distinct;
  }

  /** A newest change, delivered after all others, decides the value. */
  lemma DeliveredLast(changes: set<Change>, top: Change, entity: string, field: string) returns (log: seq<Change>)
    requires IsTop(changes, top, entity, field)
    ensures Elements(log) == changes && Distinct(log)
    ensures entity in ApplyAll(log) && field in ApplyAll(log)[entity].fields
    ensures ApplyAll(log)[entity].fields[field] == top.fields[field]
  {
    var before := Listing(changes - {top});
    log := before + [top];
    assert changes - {top} + {top} == changes;
    ElementsAppend(before, top);
    DistinctAppend(before, top);
    hide Distinct;
    LastTopWins(before, top, entity, field);
  }

  lemma SameChangesSameState(log: seq<Change>, log': seq<Change>)
    requires Elements(log) == Elements(log') && TopAgree(Elements(log))
    ensures SameState(ApplyAll(log), ApplyAll(log'))
  {
    var changes := Elements(log);
    var r, r' := ApplyAll(log), ApplyAll(log');
    forall e ensures e in r <==> e in r' {
      LogIsExplained(log, e, "");
      LogIsExplained(log', e, "");
    }
    forall e | e in r ensures r[e].fields == r'[e].fields && r[e].fieldClocks == r'[e].fieldClocks {
      forall f ensures SameField(r[e], r'[e], f) {
        SameChangesSameField(log, log', e, f);
      }
      SameMaps(r[e], r'[e]);
    }
  }

  lemma SameMaps(a: LocalRecord, b: LocalRecord)
    requires forall f :: SameField(a, b, f)
    ensures a.fields == b.fields && a.fieldClocks == b.fieldClocks
  {
    forall f ensures f in a.fields <==> f in b.fields {
      assert SameField(a, b, f);
    }
    forall f ensures f in a.fieldClocks <==> f in b.fieldClocks {
      assert SameField(a, b, f);
    }
    forall f | f in a.fields ensures a.fields[f] == b.fields[f] {
      assert SameField(a, b, f);
    }
    forall f | f in a.fieldClocks ensures a.fieldClocks[f] == b.fieldClocks[f] {
      assert SameField(a, b, f);
    }
  }

  ghost predicate SameField(a: LocalRecord, b: LocalRecord, f: string) {
    && (f in a.fields <==> f in a.fieldClocks) && (f in b.fields <==> f in b.fieldClocks)
    && (f in a.fields <==> f in b.fields)
    && (f in a.fields ==> a.fields[f] == b.fields[f] && a.fieldClocks[f] == b.fieldClocks[f])
  }

  lemma SameChangesSameField(log: seq<Change>, log': seq<Change>, e: string, f: string)
    requires Elements(log) == Elements(log') && TopAgree(Elements(log))
    requires e in ApplyAll(log) && e in ApplyAll(log')
    ensures SameField(ApplyAll(log)[e], ApplyAll(log')[e], f)
  {
    LogIsExplained(log, e, f);
    LogIsExplained(log', e, f);
    var changes := Elements(log);
    var a, b := ApplyAll(log)[e], ApplyAll(log')[e];
    if f in a.fields {
      var c :| IsTop(changes, c, e, f) && a.fields[f] == c.fields[f] && a.fieldClocks[f] == c.logicalClock;
      var c' :| IsTop(changes, c', e, f) && b.fields[f] == c'.fields[f] && b.fieldClocks[f] == c'.logicalClock;
    }
  }

  /** Every finite set of changes can be listed. */
  lemma {:induction false} Listing(changes: set<Change>) returns (log: seq<Change>)
    ensures Elements(log) == changes && Distinct(log)
  {
    if changes == {} {
      log := [];
    } else {
      var c :| c in changes;
      var rest := Listing(changes - {c});
      log := rest + [c];
      ElementsAppend(rest, c);
      DistinctAppend(rest, c);
    }
  }

  lemma LastTopWins(log: seq<Change>, top: Change, entity: string, field: string)
    requires IsTop(Elements(log) + {top}, top, entity, field)
    ensures entity in ApplyAll(log + [top]) && field in ApplyAll(log + [top])[entity].fields
    ensures ApplyAll(log + [top])[entity].fields[field] == top.fields[field]
  {
    assert (log + [top])[..|log|] == log;
    LogIsExplained(log, entity, field);
    var record := RecordOf(ApplyAll(log), entity);
    assert top.logicalClock >= ClockOf(record, field);
    assert field in Winning(record, top);
  }

  /** Two changes write a field of the same entity at the same clock, with different values. */
  ghost predicate Conflict(a: Change, b: Change, field: string) {
    && a.entityId == b.entityId && a.logicalClock == b.logicalClock >= -1
    && field in a.fields && field in b.fields && a.fields[field] != b.fields[field]
  }

  /** Two orders of the same two changes leave different replicas exactly when they conflict in some field. */
  lemma TiesDiverge(a: Change, b: Change)
    ensures SameState(ApplyAll([a, b]), ApplyAll([b, a])) <==> forall field :: !Conflict(a, b, field)
  {
    assert Elements([a, b]) == {a, b} == Elements([b, a]);
    if field :| Conflict(a, b, field) {
      LaterTieWins(a, b, field);
      LaterTieWins(b, a, field);
    } else {
      forall c, d, entity, field | IsTop({a, b}, c, entity, field) && IsTop({a, b}, d, entity, field)
        ensures c.fields[field] == d.fields[field]
      {
        assert !Conflict(a, b, field);
      }
      hide ApplyAll, IsTop, Conflict;
      SameChangesSameState([a, b], [b, a]);
    }
  }

  lemma LaterTieWins(a: Change, b: Change, field: string)
    requires Conflict(a, b, field)
    ensures var after := ApplyAll([a, b]);
            b.entityId in after && field in after[b.entityId].fields
              && after[b.entityId].fields[field] == b.fields[field]
  {
    assert [a, b][..1] == [a] && [a][..0] == [];
    var before := ApplyAll([a]);
    assert ApplyAll([]) == map[];
    assert before == Apply(map[], a);
    assert ClockOf(RecordOf(before, b.entityId), field) <= b.logicalClock;
    assert field in Winning(RecordOf(before, b.entityId), b);
  }
}
