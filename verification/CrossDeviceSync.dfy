/** The sync manager of services/runtime/src/cross-device-sync.ts: pulls batches of changes, applies local
    ones, and pushes what is pending.  The transport is the environment. */
module CrossDeviceSync {
  import opened Wrappers
  import opened Graphs
  import opened Sorting
  import opened SyncModel

  const MAX_SAFE_INTEGER := 9_007_199_254_740_991

  /** One pulled envelope, after decryption and parsing. */
  datatype Envelope = Unreadable | Malformed | Carries(change: Change)

  /** A pull: the next checkpoint, None when it is not a safe integer, and the envelopes. */
  datatype Pull = Pull(nextClock: Option<int>, envelopes: seq<Envelope>)

  datatype SyncError = PullFailed | InvalidCheckpoint | EnvelopeRejected | PushUnsupported | PushFailed

  function Priority(c: Category): nat {
    match c
    case Security => 0
    case TaskState => 1
    case EpisodicMemory => 2
    case GraphKnowledge => 3
    case Configuration => 4
  }

  predicate AppliesBefore(left: Change, right: Change) {
    if Priority(left.category) != Priority(right.category) then Priority(left.category) < Priority(right.category)
    else left.logicalClock <= right.logicalClock
  }

  lemma AppliesBeforeIsPreorder()
    ensures TotalPreorder(AppliesBefore)
  {
  }

  predicate WellFormed(e: Envelope) {
    e.Carries? && 0 <= e.change.logicalClock <= MAX_SAFE_INTEGER
  }

  /** The changes of the granted partitions, in envelope order. */
  function Granted(envelopes: seq<Envelope>, partitions: set<string>): seq<Change> {
    if envelopes == [] then []
    else
      var last := envelopes[|envelopes| - 1];
      Granted(envelopes[..|envelopes| - 1], partitions) +
      if last.Carries? && last.change.partition in partitions then [last.change] else []
  }

  /** The changes of a list that are new, each identifier once. */
  function Fresh(changes: seq<Change>, applied: set<string>): seq<Change> {
    if changes == [] then []
    else if changes[0].changeId in applied then Fresh(changes[1..], applied)
    else [changes[0]] + Fresh(changes[1..], applied + {changes[0].changeId})
  }

  function Ids(changes: seq<Change>): seq<string> {
    seq(|changes|, i requires 0 <= i < |changes| => changes[i].changeId)
  }

  /** The loop over a batch: what it has applied and what it will apply stay the same together. */
  lemma FreshStep(done: seq<Change>, changes: seq<Change>, i: nat, applied: set<string>)
    requires i < |changes|
    ensures done + Fresh(changes[i..], applied) ==
              if changes[i].changeId in applied then done + Fresh(changes[i + 1..], applied)
              else done + [changes[i]] + Fresh(changes[i + 1..], applied + {changes[i].changeId})
    ensures Ids(done + [changes[i]]) == Ids(done) + [changes[i].changeId]
  {
    assert changes[i..][0] == changes[i] && changes[i..][1..] == changes[i + 1..];
  }

  lemma NothingFresh(changes: seq<Change>, applied: set<string>)
    ensures changes[0..] == changes && [] + Fresh(changes, applied) == Fresh(changes, applied)
    ensures Ids([]) == []
  {
  }

  lemma NothingLeft(done: seq<Change>, changes: seq<Change>, applied: set<string>)
    ensures done + Fresh(changes[|changes|..], applied) == done
  {
  }

  // ----- A batch in terms of the envelopes

  /** The order of application: urgent categories first, then older changes, then as pulled. */
  ghost predicate Sooner(a: Change, i: nat, b: Change, j: nat) {
    || Priority(a.category) < Priority(b.category)
    || (Priority(a.category) == Priority(b.category)
        && (a.logicalClock < b.logicalClock || (a.logicalClock == b.logicalClock && i < j)))
  }

  lemma UrgentFirst()
    ensures Priority(Security) < Priority(TaskState) < Priority(EpisodicMemory) < Priority(GraphKnowledge)
              < Priority(Configuration)
  {
  }

  /** An envelope with a change of a granted partition that has not been applied before. */
  ghost predicate Due(e: Envelope, partitions: set<string>, applied: set<string>) {
    e.Carries? && e.change.partition in partitions && e.change.changeId !in applied
  }

  /** Change k of the batch comes from envelope at[k]. Each identifier that is due is in the batch once, by the
      change that comes first in the order of application. */
  ghost predicate Selects(envelopes: seq<Envelope>, partitions: set<string>, applied: set<string>, batch: seq<Change>,
                          at: seq<nat>) {
    && |at| == |batch|
    && (forall k :: 0 <= k < |batch| ==>
          at[k] < |envelopes| && Due(envelopes[at[k]], partitions, applied) && batch[k] == envelopes[at[k]].change)
    && (forall k, l :: 0 <= k < l < |batch| ==>
          Sooner(batch[k], at[k], batch[l], at[l]) && batch[k].changeId != batch[l].changeId)
    && (forall i :: 0 <= i < |envelopes| && Due(envelopes[i], partitions, applied) ==>
          IsRepresented(batch, at, envelopes[i].change, i))
  }

  ghost predicate IsRepresented(batch: seq<Change>, at: seq<nat>, c: Change, i: nat)
    requires |at| == |batch|
  {
    exists k :: 0 <= k < |batch| && Represents(batch[k], at[k], c, i)
  }

  ghost predicate Represents(c: Change, from: nat, d: Change, i: nat) {
    c.changeId == d.changeId && ((from == i && c == d) || Sooner(c, from, d, i))
  }

  ghost predicate Increasing(at: seq<nat>) {
    forall k, l :: 0 <= k < l < |at| ==> at[k] < at[l]
  }

  ghost predicate InPartition(e: Envelope, partitions: set<string>) {
    e.Carries? && e.change.partition in partitions
  }

  /** Granted change k comes from envelope at[k]. */
  ghost predicate Sources(envelopes: seq<Envelope>, partitions: set<string>, granted: seq<Change>, at: seq<nat>) {
    && |at| == |granted|
    && forall k :: 0 <= k < |at| ==>
         at[k] < |envelopes| && InPartition(envelopes[at[k]], partitions) && envelopes[at[k]].change == granted[k]
  }

  ghost predicate NoneLost(envelopes: seq<Envelope>, partitions: set<string>, at: seq<nat>) {
    forall i: nat :: i < |envelopes| && InPartition(envelopes[i], partitions) ==> i in at
  }

  lemma {:induction false} GrantedAt(envelopes: seq<Envelope>, partitions: set<string>) returns (at: seq<nat>)
    ensures Sources(envelopes, partitions, Granted(envelopes, partitions), at)
    ensures Increasing(at) && NoneLost(envelopes, partitions, at)
  {
    if envelopes == [] {
      at := [];
    } else {
      var before, last := envelopes[..|envelopes| - 1], envelopes[|envelopes| - 1];
      assert envelopes == before + [last];
      at := GrantedAt(before, partitions);
      OneMoreEnvelope(before, last, partitions, Granted(before, partitions), at);
      hide Sources, Increasing, NoneLost;
      if InPartition(last, partitions) {
        at := at + [|before|];
      }
    }
  }

  lemma OneMoreEnvelope(envelopes: seq<Envelope>, e: Envelope, partitions: set<string>, granted: seq<Change>,
                        at: seq<nat>)
    requires Sources(envelopes, partitions, granted, at) && Increasing(at) && NoneLost(envelopes, partitions, at)
    ensures var more := InPartition(e, partitions);
            var at' := at + if more then [|envelopes|] else [];
            && Sources(envelopes + [e], partitions, granted + (if more then [e.change] else []), at')
            && Increasing(at') && NoneLost(envelopes + [e], partitions, at')
  {
    hide InPartition;
    NoneLostThen(envelopes, e, partitions, at);
    hide NoneLost;
  }

  lemma NoneLostThen(envelopes: seq<Envelope>, e: Envelope, partitions: set<string>, at: seq<nat>)
    requires NoneLost(envelopes, partitions, at)
    ensures NoneLost(envelopes + [e], partitions, at + if InPartition(e, partitions) then [|envelopes|] else [])
  {
    hide InPartition;
    var at' := at + if InPartition(e, partitions) then [|envelopes|] else [];
    forall i: nat | i < |envelopes + [e]| && InPartition((envelopes + [e])[i], partitions) ensures i in at' {
      if i < |envelopes| {
        assert i in at;
      } else {
        assert at'[|at|] == i;
      }
    }
  }

  /** Position k of the news is position at[k] of the changes. */
  ghost predicate TakenFrom(changes: seq<Change>, applied: set<string>, news: seq<Change>, at: seq<nat>) {
    && |at| == |news|
    && forall k :: 0 <= k < |at| ==> at[k] < |changes| && changes[at[k]] == news[k] && news[k].changeId !in applied
  }

  ghost predicate DistinctIds(news: seq<Change>) {
    forall k, l :: 0 <= k < l < |news| ==> news[k].changeId != news[l].changeId
  }

  /** Among the first of the news there is one with this identifier. */
  ghost predicate TakenBy(news: seq<Change>, at: seq<nat>, id: string, i: int)
    requires |at| == |news|
  {
    exists k :: 0 <= k < |at| && at[k] <= i && news[k].changeId == id
  }

  /** For each identifier that is new the first change with it is taken. */
  ghost predicate FirstsTaken(changes: seq<Change>, applied: set<string>, news: seq<Change>, at: seq<nat>)
    requires |at| == |news|
  {
    forall i :: 0 <= i < |changes| && changes[i].changeId !in applied ==> TakenBy(news, at, changes[i].changeId, i)
  }

  ghost predicate Firsts(changes: seq<Change>, applied: set<string>, news: seq<Change>, at: seq<nat>) {
    && TakenFrom(changes, applied, news, at) && Increasing(at) && DistinctIds(news)
    && FirstsTaken(changes, applied, news, at)
  }

  lemma {:induction false} FreshAt(changes: seq<Change>, applied: set<string>) returns (at: seq<nat>)
    ensures Firsts(changes, applied, Fresh(changes, applied), at)
  {
    if changes == [] {
      at := [];
    } else {
      var c, tail := changes[0], changes[1..];
      assert changes == [c] + tail;
      hide Firsts;
      if c.changeId in applied {
        at := FreshAt(tail, applied);
        SkipFirst(c, tail, applied, Fresh(tail, applied), at);
        at := Next(at);
      } else {
        at := FreshAt(tail, applied + {c.changeId});
        TakeFirst(c, tail, applied, Fresh(tail, applied + {c.changeId}), at);
        at := [0] + Next(at);
      }
    }
  }

  ghost function Next(at: seq<nat>): (r: seq<nat>)
    ensures |r| == |at| && forall k :: 0 <= k < |at| ==> r[k] == at[k] + 1
  {
    seq(|at|, k requires 0 <= k < |at| => at[k] + 1)
  }

  lemma SkipFirst(c: Change, tail: seq<Change>, applied: set<string>, news: seq<Change>, at: seq<nat>)
    requires Firsts(tail, applied, news, at) && c.changeId in applied
    ensures Firsts([c] + tail, applied, news, Next(at))
  {
    hide Next, TakenBy;
    forall i | 0 <= i < |[c] + tail| && ([c] + tail)[i].changeId !in applied
      ensures TakenBy(news, Next(at), ([c] + tail)[i].changeId, i)
    {
      TakenLater(news, at, tail[i - 1].changeId, i - 1);
    }
  }

  lemma TakenLater(news: seq<Change>, at: seq<nat>, id: string, i: int)
    requires |at| == |news| && TakenBy(news, at, id, i)
    ensures TakenBy(news, Next(at), id, i + 1)
  {
    var k :| 0 <= k < |at| && at[k] <= i && news[k].changeId == id;
    assert Next(at)[k] <= i + 1;
  }

  lemma TakeFirst(c: Change, tail: seq<Change>, applied: set<string>, news: seq<Change>, at: seq<nat>)
    requires Firsts(tail, applied + {c.changeId}, news, at) && c.changeId !in applied
    ensures Firsts([c] + tail, applied, [c] + news, [0] + Next(at))
  {
    hide Next, TakenBy;
    forall i | 0 <= i < |[c] + tail| && ([c] + tail)[i].changeId !in applied
      ensures TakenBy([c] + news, [0] + Next(at), ([c] + tail)[i].changeId, i)
    {
      TakenNow(c, tail, applied, news, at, i);
    }
    hide FirstsTaken;
    assert forall k :: 0 <= k < |news| ==> news[k].changeId != c.changeId;
  }

  lemma TakenNow(c: Change, tail: seq<Change>, applied: set<string>, news: seq<Change>, at: seq<nat>, i: nat)
    requires |at| == |news| && FirstsTaken(tail, applied + {c.changeId}, news, at)
    requires i < |[c] + tail| && ([c] + tail)[i].changeId !in applied
    ensures TakenBy([c] + news, [0] + Next(at), ([c] + tail)[i].changeId, i)
  {
    var id, at' := ([c] + tail)[i].changeId, [0] + Next(at);
    if id == c.changeId {
      assert at'[0] <= i && ([c] + news)[0].changeId == id;
    } else {
      assert TakenBy(news, at, tail[i - 1].changeId, i - 1);
      var k :| 0 <= k < |at| && at[k] <= i - 1 && news[k].changeId == id;
      assert at'[k + 1] <= i && ([c] + news)[k + 1] == news[k];
    }
  }

  ghost function Through(g: seq<nat>, p: seq<nat>, f: seq<nat>): (at: seq<nat>)
    requires forall k :: 0 <= k < |p| ==> p[k] < |g|
    requires forall k :: 0 <= k < |f| ==> f[k] < |p|
    ensures |at| == |f| && forall k :: 0 <= k < |f| ==> at[k] == g[p[f[k]]]
  {
    seq(|f|, k requires 0 <= k < |f| => g[p[f[k]]])
  }

  /** Main result: a batch is the selection from the envelopes of the pull. */
  lemma BatchSelects(pull: Pull, partitions: set<string>, applied: set<string>) returns (at: seq<nat>)
    ensures Selects(pull.envelopes, partitions, applied, Batch(pull, partitions, applied), at)
  {
    AppliesBeforeIsPreorder();
    hide AppliesBefore;
    var granted := Granted(pull.envelopes, partitions);
    var sorted := StableSort(AppliesBefore, granted);
    var g := GrantedAt(pull.envelopes, partitions);
    var p := StableSortArranges(AppliesBefore, granted);
    var f := FreshAt(sorted, applied);
    at := Through(g, p, f);
    hide Granted, StableSort, Fresh;
    Composed(pull.envelopes, partitions, applied, granted, g, sorted, p, Fresh(sorted, applied), f);
    hide Sources, Increasing, NoneLost, Arranges, Firsts, Selects;
  }

  lemma BatchComes(pull: Pull, partitions: set<string>, applied: set<string>)
    ensures var batch := Batch(pull, partitions, applied);
            && |Ids(batch)| == |batch|
            && (forall k :: 0 <= k < |batch| ==>
                  && Ids(batch)[k] == batch[k].changeId && Ids(batch)[k] !in applied
                  && batch[k].partition in partitions && Carries(batch[k]) in pull.envelopes)
            && (forall e :: e in pull.envelopes && e.Carries? && e.change.partition in partitions ==>
                  e.change.changeId in applied || e.change.changeId in Ids(batch))
            && exists at :: Selects(pull.envelopes, partitions, applied, batch, at)
  {
    var batch := Batch(pull, partitions, applied);
    var at := BatchSelects(pull, partitions, applied);
    hide Batch, Sooner, Ids, Represents;
    IdsAt(batch);
    forall e | e in pull.envelopes && e.Carries? && e.change.partition in partitions && e.change.changeId !in applied
      ensures e.change.changeId in Ids(batch)
    {
      var i: nat :| i < |pull.envelopes| && pull.envelopes[i] == e;
      DueIsInBatch(pull.envelopes, partitions, applied, batch, at, i);
    }
  }

  lemma IdsAt(changes: seq<Change>)
    ensures |Ids(changes)| == |changes| && forall k :: 0 <= k < |changes| ==> Ids(changes)[k] == changes[k].changeId
  {
  }

  lemma DueIsInBatch(envelopes: seq<Envelope>, partitions: set<string>, applied: set<string>, batch: seq<Change>,
                     at: seq<nat>, i: nat)
    requires Selects(envelopes, partitions, applied, batch, at)
    requires i < |envelopes| && Due(envelopes[i], partitions, applied)
    ensures envelopes[i].change.changeId in Ids(batch)
  {
    hide Sooner, Ids;
    assert |at| == |batch| && IsRepresented(batch, at, envelopes[i].change, i);
    hide Selects, Due;
    RepresentedIsListed(batch, at, envelopes[i].change, i);
  }

  lemma RepresentedIsListed(batch: seq<Change>, at: seq<nat>, c: Change, i: nat)
    requires |at| == |batch| && IsRepresented(batch, at, c, i)
    ensures c.changeId in Ids(batch)
  {
    hide Sooner;
    var k :| 0 <= k < |batch| && Represents(batch[k], at[k], c, i);
    assert Ids(batch)[k] == c.changeId;
  }

  lemma Composed(envelopes: seq<Envelope>, partitions: set<string>, applied: set<string>, granted: seq<Change>,
                 g: seq<nat>, sorted: seq<Change>, p: seq<nat>, news: seq<Change>, f: seq<nat>)
    requires Sources(envelopes, partitions, granted, g) && Increasing(g) && NoneLost(envelopes, partitions, g)
    requires Arranges(AppliesBefore, granted, sorted, p) && Firsts(sorted, applied, news, f)
    ensures Selects(envelopes, partitions, applied, news, Through(g, p, f))
  {
    hide Through, AppliesBefore, Sooner, Represents, FirstsTaken, NoneLost;
    var at := Through(g, p, f);
    forall k, l | 0 <= k < l < |news|
      ensures Sooner(news[k], at[k], news[l], at[l]) && news[k].changeId != news[l].changeId
    {
      SoonerIn(granted, g, sorted, p, f[k], f[l]);
    }
    forall i | 0 <= i < |envelopes| && Due(envelopes[i], partitions, applied)
      ensures IsRepresented(news, at, envelopes[i].change, i)
    {
      var k := Represented(envelopes, partitions, applied, granted, g, sorted, p, news, f, i,
        envelopes[i].change);
    }
  }

  /** Envelope i reaches the sorted list at position n. */
  lemma Reaches(envelopes: seq<Envelope>, partitions: set<string>, granted: seq<Change>, g: seq<nat>,
                sorted: seq<Change>, p: seq<nat>, i: nat)
    returns (n: nat)
    requires Sources(envelopes, partitions, granted, g) && NoneLost(envelopes, partitions, g)
    requires Arranges(AppliesBefore, granted, sorted, p)
    requires i < |envelopes| && InPartition(envelopes[i], partitions)
    ensures |p| == |sorted| == |granted| == |g|
    ensures n < |p| && p[n] < |g| && g[p[n]] == i && sorted[n] == envelopes[i].change
  {
    hide AppliesBefore;
    assert i in g;
    var m: nat :| m < |g| && g[m] == i;
    assert m in p;
    n :| n < |p| && p[n] == m;
  }

  lemma TakenAs(sorted: seq<Change>, applied: set<string>, news: seq<Change>, f: seq<nat>, n: nat) returns (k: nat)
    requires Firsts(sorted, applied, news, f) && n < |sorted| && sorted[n].changeId !in applied
    ensures k < |f| == |news| && f[k] <= n && sorted[f[k]] == news[k] && news[k].changeId == sorted[n].changeId
  {
    assert TakenBy(news, f, sorted[n].changeId, n);
    k :| 0 <= k < |f| && f[k] <= n && news[k].changeId == sorted[n].changeId;
  }

  lemma Represented(envelopes: seq<Envelope>, partitions: set<string>, applied: set<string>, granted: seq<Change>,
                    g: seq<nat>, sorted: seq<Change>, p: seq<nat>, news: seq<Change>, f: seq<nat>, i: nat, d: Change)
    returns (k: nat)
    requires Sources(envelopes, partitions, granted, g) && Increasing(g) && NoneLost(envelopes, partitions, g)
    requires Arranges(AppliesBefore, granted, sorted, p) && Firsts(sorted, applied, news, f)
    requires i < |envelopes| && envelopes[i] == Carries(d) && d.partition in partitions && d.changeId !in applied
    ensures k < |f| == |news| && f[k] < |p| && p[f[k]] < |g|
    ensures Represents(news[k], g[p[f[k]]], d, i)
  {
    hide *;
    assert InPartition(envelopes[i], partitions) by { CarriesIn(d, partitions); }
    var n := Reaches(envelopes, partitions, granted, g, sorted, p, i);
    k := TakenAs(sorted, applied, news, f, n);
    if f[k] < n {
      SoonerIn(granted, g, sorted, p, f[k], n);
    }
    ItselfOrSooner(news[k], g[p[f[k]]], d, i);
  }

  lemma CarriesIn(c: Change, partitions: set<string>)
    ensures InPartition(Carries(c), partitions) <==> c.partition in partitions
  {
  }

  lemma ItselfOrSooner(c: Change, from: nat, d: Change, i: nat)
    ensures c.changeId == d.changeId && ((from == i && c == d) || Sooner(c, from, d, i)) ==> Represents(c, from, d, i)
  {
  }

  lemma SoonerIn(granted: seq<Change>, g: seq<nat>, sorted: seq<Change>, p: seq<nat>, m: nat, n: nat)
    requires Arranges(AppliesBefore, granted, sorted, p) && |g| == |granted| && m < n < |p| && Increasing(g)
    ensures p[m] < |g| && p[n] < |g| && Sooner(sorted[m], g[p[m]], sorted[n], g[p[n]])
  {
    assert AppliesBefore(sorted[m], sorted[n]);
    assert AppliesBefore(sorted[n], sorted[m]) ==> p[m] < p[n];
  }

  /** What a successful pull applies, in order. */
  function Batch(pull: Pull, partitions: set<string>, applied: set<string>): seq<Change> {
    Fresh(StableSort(AppliesBefore, Granted(pull.envelopes, partitions)), applied)
  }

  ghost function Overwrite<V>(base: map<string, V>, won: set<string>, values: map<string, V>): map<string, V> {
    base + (map f | f in won && f in values :: values[f])
  }

  lemma OverwriteOne<V>(base: map<string, V>, won: set<string>, values: map<string, V>, f: string)
    requires f in values
    ensures Overwrite(base, won + {f}, values) == Overwrite(base, won, values)[f := values[f]]
  {
  }

  lemma OverwriteNone<V>(base: map<string, V>, values: map<string, V>)
    ensures Overwrite(base, {}, values) == base
  {
  }

  ghost function Clocks(change: Change): map<string, int> {
    map f | f in change.fields :: change.logicalClock
  }

  /** A merge that has got as far as the fields in `done`. */
  ghost function Partial(record: LocalRecord, change: Change, done: set<string>): (map<string, string>,
                         map<string, int>) {
    (Overwrite(record.fields, Winning(record, change) * done, change.fields),
     Overwrite(record.fieldClocks, Winning(record, change) * done, Clocks(change)))
  }

  lemma PartialNone(record: LocalRecord, change: Change)
    ensures Partial(record, change, {}) == (record.fields, record.fieldClocks)
  {
    assert Winning(record, change) * {} == {};
    OverwriteNone(record.fields, change.fields);
    OverwriteNone(record.fieldClocks, Clocks(change));
  }

  lemma PartialStep(record: LocalRecord, change: Change, done: set<string>, f: string)
    requires f in change.fields && f !in done
    ensures var (fields, clocks) := Partial(record, change, done);
            && (f in clocks <==> f in record.fieldClocks) && (f in clocks ==> clocks[f] == record.fieldClocks[f])
            && Partial(record, change, done + {f}) ==
               if change.logicalClock >= (if f in clocks then clocks[f] else -1)
               then (fields[f := change.fields[f]], clocks[f := change.logicalClock]) else (fields, clocks)
  {
    var won := Winning(record, change);
    OverwriteOne(record.fields, won * done, change.fields, f);
    OverwriteOne(record.fieldClocks, won * done, Clocks(change), f);
    if f in won {
      assert won * (done + {f}) == won * done + {f};
    } else {
      assert won * (done + {f}) == won * done;
    }
  }

  lemma PartialIsMerge(record: LocalRecord, change: Change, done: set<string>)
    requires done == change.fields.Keys
    ensures var (fields, clocks) := Partial(record, change, done);
            LocalRecord(fields, clocks, record.history + [change]) == Merge(record, change)
  {
    assert Winning(record, change) * done == Winning(record, change);
    OverwriteFields(record, change);
    OverwriteClocks(record, change);
    hide Winning, Overwrite;
  }

  lemma OverwriteFields(record: LocalRecord, change: Change)
    ensures Overwrite(record.fields, Winning(record, change), change.fields) == Merge(record, change).fields
  {
  }

  lemma OverwriteClocks(record: LocalRecord, change: Change)
    ensures Overwrite(record.fieldClocks, Winning(record, change), Clocks(change)) == Merge(record, change).fieldClocks
  {
  }

  lemma ApplyAllStep(log: seq<Change>, change: Change)
    ensures ApplyAll(log + [change]) == Apply(ApplyAll(log), change)
  {
    assert (log + [change])[..|log|] == log;
  }

  class CrossDeviceSyncManager {
    var checkpoint: int
    var records: Records
    var pending: map<string, Change>
    var applied: set<string>
    var appliedOrder: seq<string>
    const partitions: set<string>
    ghost var log: seq<Change>  // every change applied so far, in order

    ghost predicate Valid()
      reads this
    {
      && records == ApplyAll(log) && checkpoint >= 0
      && Elements(appliedOrder) == applied && Distinct(appliedOrder)
    }

    constructor (partitions: set<string>)
      ensures Valid() && log == [] && checkpoint == 0 && applied == {} && pending == map[]
                && this.partitions == partitions
    {
      this.partitions := partitions;
      checkpoint, records, pending, applied, appliedOrder, log := 0, map[], map[], {}, [], [];
    }

    /** Merging one change, field by field in any order. */
    method ApplyChange(change: Change)
      requires Valid()
      modifies `records, `log
      ensures Valid() && log == old(log) + [change]
    {
      hide Distinct, Elements, ApplyAll, Partial, Merge;
      var current := RecordOf(records, change.entityId);
      var fields, clocks := current.fields, current.fieldClocks;
      var remaining := change.fields.Keys;
      ghost var done: set<string> := {};
      PartialNone(current, change);
      while remaining != {}
        invariant done + remaining == change.fields.Keys && done !! remaining
        invariant (fields, clocks) == Partial(current, change, done)
        invariant records == old(records) && log == old(log)
        decreases remaining
      {
        var f :| f in remaining;
        PartialStep(current, change, done, f);
        var currentClock := if f in clocks then clocks[f] else -1;
        if change.logicalClock >= currentClock {
          fields := fields[f := change.fields[f]];
          clocks := clocks[f := change.logicalClock];
        }
        remaining := remaining - {f};
        done := done + {f};
      }
      PartialIsMerge(current, change, done);
      ApplyAllStep(log, change);
      records := records[change.entityId := LocalRecord(fields, clocks, current.history + [change])];
      log := log + [change];
    }

    /** A sync either fails and changes nothing, or moves the checkpoint and applies exactly the new granted
        changes in order of category and clock. */
    method Sync(pull: Option<Pull>) returns (r: Result<seq<string>, SyncError>)
      requires Valid()
      modifies this
      ensures Valid() && pending == old(pending) && checkpoint >= old(checkpoint)
      ensures r.Ok? <==>
                && pull.Some? && pull.value.nextClock.Some?
                && old(checkpoint) <= pull.value.nextClock.value <= 9_007_199_254_740_991
                && forall e :: e in pull.value.envelopes ==>
                     e.Carries? && 0 <= e.change.logicalClock <= 9_007_199_254_740_991
      ensures r.Err? ==> records == old(records) && checkpoint == old(checkpoint) && log == old(log)
                         && applied == old(applied) && appliedOrder == old(appliedOrder)
      ensures r.Ok? ==>
                var batch := Batch(pull.value, partitions, old(applied));
                && checkpoint == pull.value.nextClock.value
                && log == old(log) + batch && r.value == Ids(batch)
                && appliedOrder == old(appliedOrder) + Ids(batch)
      ensures r.Ok? ==>
                var envelopes, added := pull.value.envelopes, log[|old(log)|..];
                && |r.value| == |added|
                && (forall k :: 0 <= k < |added| ==>
                      && r.value[k] == added[k].changeId && r.value[k] !in old(applied)
                      && added[k].partition in partitions && Carries(added[k]) in envelopes)
                && (forall e :: e in envelopes && e.change.partition in partitions ==>
                      e.change.changeId in old(applied) || e.change.changeId in r.value)
                && exists at :: Selects(envelopes, partitions, old(applied), added, at)
    {
      hide Distinct, ApplyAll, Elements, StableSort, Fresh, Selects;
      if pull == None {
        return Err(PullFailed);
      }
      var pulled := pull.value;
      if pulled.nextClock == None || pulled.nextClock.value > MAX_SAFE_INTEGER || pulled.nextClock.value < checkpoint {
        return Err(InvalidCheckpoint);
      }
      var changes: seq<Change> := [];
      for i := 0 to |pulled.envelopes|
        invariant changes == Granted(pulled.envelopes[..i], partitions)
        invariant forall j :: 0 <= j < i ==> WellFormed(pulled.envelopes[j])
        invariant records == old(records) && checkpoint == old(checkpoint) && log == old(log)
        invariant applied == old(applied) && appliedOrder == old(appliedOrder) && pending == old(pending)
      {
        var envelope := pulled.envelopes[i];
        if !WellFormed(envelope) {
          return Err(EnvelopeRejected);
        }
        assert pulled.envelopes[..i + 1][..i] == pulled.envelopes[..i];
        if envelope.change.partition in partitions {
          changes := changes + [envelope.change];
        }
      }
      assert pulled.envelopes[..|pulled.envelopes|] == pulled.envelopes;
      changes := StableSort(AppliesBefore, changes);
      BatchComes(pulled, partitions, applied);
      var appliedChangeIds := ApplyFresh(changes);
      checkpoint := pulled.nextClock.value;
      r := Ok(appliedChangeIds);
    }

    method ApplyFresh(changes: seq<Change>) returns (ids: seq<string>)
      requires Valid()
      modifies `records, `log, `applied, `appliedOrder
      ensures Valid()
      ensures log == old(log) + Fresh(changes, old(applied)) && ids == Ids(Fresh(changes, old(applied)))
      ensures appliedOrder == old(appliedOrder) + ids
    {
      hide ApplyAll, Distinct, Elements, Fresh, Ids;
      ids := [];
      NothingFresh(changes, applied);
      ghost var done: seq<Change> := [];
      for i := 0 to |changes|
        invariant Valid()
        invariant done + Fresh(changes[i..], applied) == Fresh(changes, old(applied))
        invariant log == old(log) + done && ids == Ids(done) && appliedOrder == old(appliedOrder) + ids
      {
        var change := changes[i];
        FreshStep(done, changes, i, applied);
        if change.changeId in applied {
          continue;
        }
        ApplyChange(change);
        assert change.changeId !in Elements(appliedOrder);
        DistinctAppend(appliedOrder, change.changeId);
        ElementsAppend(appliedOrder, change.changeId);
        applied := applied + {change.changeId};
        appliedOrder := appliedOrder + [change.changeId];
        ids := ids + [change.changeId];
        done := done + [change];
      }
      NothingLeft(done, changes, applied);
    }

    method ApplyLocal(change: Change)
      requires Valid()
      modifies this
      ensures Valid() && log == old(log) + [change] && pending == old(pending)[change.changeId := change]
      ensures checkpoint == old(checkpoint) && applied == old(applied) && appliedOrder == old(appliedOrder)
    {
      ApplyChange(change);
      pending := pending[change.changeId := change];
    }

    /** A flush that pushes nothing keeps everything pending. One that succeeds takes out what was pending when
        the push began; the local changes made while it was under way stay, unless they reuse an identifier that
        was being pushed. */
    method Flush(canPush: bool, pushSucceeds: bool, meanwhile: seq<Change>) returns (r: Result<set<string>, SyncError>)
      requires Valid()
      modifies this
      ensures Valid() && checkpoint == old(checkpoint) && applied == old(applied) && appliedOrder == old(appliedOrder)
      ensures r == if old(pending) == map[] then Ok({})
                   else if !canPush then Err(PushUnsupported)
                   else if !pushSucceeds then Err(PushFailed)
                   else Ok(old(pending).Keys)
      ensures old(pending) == map[] || !canPush ==> pending == old(pending) && log == old(log)
      ensures old(pending) != map[] && canPush ==>
                && log == old(log) + meanwhile
                && pending == if pushSucceeds then Queued(old(pending), meanwhile) - old(pending).Keys
                              else Queued(old(pending), meanwhile)
    {
      if pending == map[] {
        return Ok({});
      }
      if !canPush {
        return Err(PushUnsupported);
      }
      hide ApplyAll, Distinct, Elements;
      var pushed := pending.Keys;
      assert log == old(log) + meanwhile[..0];
      for i := 0 to |meanwhile|
        invariant Valid() && checkpoint == old(checkpoint) && applied == old(applied)
                    && appliedOrder == old(appliedOrder)
        invariant pending == Queued(old(pending), meanwhile[..i]) && log == old(log) + meanwhile[..i]
      {
        assert meanwhile[..i + 1] == meanwhile[..i] + [meanwhile[i]] && meanwhile[..i + 1][..i] == meanwhile[..i];
        ApplyLocal(meanwhile[i]);
      }
      assert meanwhile[..|meanwhile|] == meanwhile;
      if !pushSucceeds {
        return Err(PushFailed);
      }
      pending := pending - pushed;
      r := Ok(pushed);
    }
  }

  /** What is pending after some more local changes. */
  function Queued(pending: map<string, Change>, changes: seq<Change>): map<string, Change> {
    if changes == [] then pending
    else Queued(pending, changes[..|changes| - 1])[changes[|changes| - 1].changeId := changes[|changes| - 1]]
  }

  /** A local change made during a push is pending after it exactly when its identifier was not being pushed. */
  lemma {:induction false} PushedMeanwhile(pending: map<string, Change>, changes: seq<Change>, i: nat)
    requires i < |changes|
    ensures changes[i].changeId in Queued(pending, changes) - pending.Keys <==> changes[i].changeId !in pending
    ensures (forall j :: i < j < |changes| ==> changes[j].changeId != changes[i].changeId) ==>
              changes[i].changeId in Queued(pending, changes)
                && Queued(pending, changes)[changes[i].changeId] == changes[i]
  {
    var n := |changes| - 1;
    if i < n {
      PushedMeanwhile(pending, changes[..n], i);
    }
  }

  /** Security changes come first and configuration last, older before newer, otherwise as pulled. */
  lemma BatchOrder(changes: seq<Change>, x: Change)
    ensures SortedBy(AppliesBefore, StableSort(AppliesBefore, changes))
    ensures multiset(StableSort(AppliesBefore, changes)) == multiset(changes)
    ensures Ties(AppliesBefore, x, StableSort(AppliesBefore, changes)) == Ties(AppliesBefore, x, changes)
  {
    AppliesBeforeIsPreorder();
    StableSortSorts(AppliesBefore, changes);
    StableSortKeepsTies(AppliesBefore, changes, x);
  }

  /** A batch applies each identifier at most once, and only new ones. */
  lemma {:induction false} FreshIsNew(changes: seq<Change>, applied: set<string>)
    ensures var news := Fresh(changes, applied);
            && Distinct(Ids(news)) && Elements(Ids(news)) !! applied && Elements(news) <= Elements(changes)
            && Elements(Ids(changes)) <= applied + Elements(Ids(news))
  {
    if changes == [] {
      DistinctEmpty<string>();
    } else {
      var c, tail := changes[0], changes[1..];
      var known := applied + if c.changeId in applied then {} else {c.changeId};
      FreshIsNew(tail, known);
      IdsCons(c, tail);
      IdsCons(c, Fresh(tail, known));
      hide Ids, Elements, Distinct;
      assert changes == [c] + tail;
      if c.changeId in applied {
        assert known == applied;
      } else {
        DistinctPrepend(c.changeId, Ids(Fresh(tail, known)));
      }
    }
  }

  lemma IdsCons(c: Change, changes: seq<Change>)
    ensures Ids([c] + changes) == [c.changeId] + Ids(changes)
    ensures Elements([c] + changes) == {c} + Elements(changes)
    ensures Elements([c.changeId] + Ids(changes)) == {c.changeId} + Elements(Ids(changes))
  {
  }

  /** Two managers whose logs hold the same changes hold the same fields and clocks, however the changes
      reached them, provided the newest changes to each field agree. */
  lemma ManagersConverge(a: CrossDeviceSyncManager, b: CrossDeviceSyncManager)
    requires a.Valid() && b.Valid() && Elements(a.log) == Elements(b.log) && TopAgree(Elements(a.log))
    ensures SameState(a.records, b.records)
  {
    SameChangesSameState(a.log, b.log);
  }
}
