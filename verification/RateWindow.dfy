/** The request limit of services/runtime/src/rest-api.ts: one fixed window per token, opened by the first
    request after the previous window has expired. */
module RateWindows {
  import opened Wrappers
  import opened Timelines

  const WINDOW_MS := 60_000

  datatype RateWindow = RateWindow(startedAt: int, count: int)

  function Decide(window: Option<RateWindow>, limit: int, now: int): (RateWindow, bool) {
    if window == None || now - window.value.startedAt >= WINDOW_MS then (RateWindow(now, 1), true)
    else if window.value.count >= limit then (window.value, false)
    else (window.value.(count := window.value.count + 1), true)
  }

  class RateLimiter {
    const limit: int
    var windows: map<string, RateWindow>

    constructor (limit: int)
      ensures this.limit == limit && windows == map[]
    {
      this.limit := limit;
      windows := map[];
    }

    ghost function WindowOf(token: string): Option<RateWindow>
      reads this
    {
      if token in windows then Some(windows[token]) else None
    }

    /** The answer and the new window depend on the token's own window only. */
    method AllowRequest(token: string, now: int) returns (allowed: bool)
      modifies this
      ensures WindowOf(token) == Some(Decide(old(WindowOf(token)), limit, now).0)
      ensures allowed == Decide(old(WindowOf(token)), limit, now).1
      ensures var window := old(WindowOf(token));
              var opens := window == None || now - window.value.startedAt >= 60_000;
              && (allowed <==> opens || window.value.count < limit)
              && WindowOf(token) ==
                 if opens then Some(RateWindow(now, 1))
                 else if allowed then Some(RateWindow(window.value.startedAt, window.value.count + 1))
                 else window
      ensures forall other :: other != token ==> WindowOf(other) == old(WindowOf(other))
    {
      if token !in windows || now - windows[token].startedAt >= WINDOW_MS {
        windows := windows[token := RateWindow(now, 1)];
        return true;
      }
      var current := windows[token];
      if current.count >= limit {
        return false;
      }
      windows := windows[token := current.(count := current.count + 1)];
      allowed := true;
    }
  }

  /** An allowed request: its instant, the start of its window and its number in the window. */
  datatype Entry = Entry(at: int, startedAt: int, number: int)

  /** The window and the allowed requests after a run of requests with one token. */
  ghost function Replay(limit: int, requests: seq<int>): (Option<RateWindow>, seq<Entry>) {
    if requests == [] then (None, [])
    else
      var (window, entries) := Replay(limit, requests[..|requests| - 1]);
      var now := requests[|requests| - 1];
      var (next, allowed) := Decide(window, limit, now);
      (Some(next), if allowed then entries + [Entry(now, next.startedAt, next.count)] else entries)
  }

  /** How many requests one window can hold: the first is always allowed. */
  ghost function Capacity(limit: int): int {
    if limit < 1 then 1 else limit
  }

  ghost predicate EntryOk(e: Entry, limit: int) {
    e.startedAt <= e.at < e.startedAt + WINDOW_MS && 1 <= e.number <= Capacity(limit)
  }

  /** The next allowed request continues the window or opens a later one. */
  ghost predicate Follows(e: Entry, next: Entry) {
    && e.at <= next.at
    && ((next.startedAt == e.startedAt && next.number == e.number + 1)
        || (next.startedAt >= e.startedAt + WINDOW_MS && next.number == 1))
  }

  ghost predicate Tracks(limit: int, window: Option<RateWindow>, entries: seq<Entry>, clock: int) {
    && (window == None <==> entries == [])
    && (forall i :: 0 <= i < |entries| ==> EntryOk(entries[i], limit))
    && (forall i {:trigger entries[i]} :: 0 <= i < |entries| - 1 ==> Follows(entries[i], entries[i + 1]))
    && (entries != [] ==> var last := entries[|entries| - 1];
                          last.at <= clock && window.value == RateWindow(last.startedAt, last.number))
  }

  lemma {:induction false} ReplayTracks(limit: int, requests: seq<int>, clock: int)
    requires Sorted(requests) && (requests != [] ==> requests[|requests| - 1] <= clock)
    ensures Tracks(limit, Replay(limit, requests).0, Replay(limit, requests).1, clock)
  {
    if requests != [] {
      var now := requests[|requests| - 1];
      var before := requests[..|requests| - 1];
      ReplayTracks(limit, before, now);
      var (window, entries) := Replay(limit, before);
      var (next, allowed) := Decide(window, limit, now);
      if allowed {
        var e := Entry(now, next.startedAt, next.count);
        var longer := entries + [e];
        forall i | 0 <= i < |longer| - 1 ensures Follows(longer[i], longer[i + 1]) {
          if i < |entries| - 1 {
            assert longer[i] == entries[i] && longer[i + 1] == entries[i + 1];
          }
        }
      }
    }
  }

  ghost function Instants(entries: seq<Entry>): seq<int> {
    seq(|entries|, i requires 0 <= i < |entries| => entries[i].at)
  }

  /** Between two allowed requests lie no window change, one, or at least two full windows of time. */
  lemma {:induction false} WindowsBetween(limit: int, entries: seq<Entry>, i: nat, j: nat) returns (changes: nat)
    requires i <= j < |entries|
    requires forall k :: 0 <= k < |entries| ==> EntryOk(entries[k], limit)
    requires forall k {:trigger entries[k]} :: 0 <= k < |entries| - 1 ==> Follows(entries[k], entries[k + 1])
    ensures entries[i].at <= entries[j].at
    ensures changes == 0 ==>
              entries[j].startedAt == entries[i].startedAt && j - i == entries[j].number - entries[i].number
    ensures changes == 1 ==> entries[j].startedAt >= entries[i].startedAt + WINDOW_MS
                             && j - i <= Capacity(limit) + entries[j].number - entries[i].number
    ensures changes >= 2 ==> entries[j].startedAt >= entries[i].startedAt + 2 * WINDOW_MS
    decreases j - i
  {
    if i == j {
      changes := 0;
    } else {
      changes := WindowsBetween(limit, entries, i, j - 1);
      assert Follows(entries[j - 1], entries[j - 1 + 1]);
      if entries[j].startedAt != entries[j - 1].startedAt {
        changes := changes + 1;
      }
    }
  }

  /** Main result: over every run of requests at non-decreasing instants, any closed interval as long as a
      window holds at most two windows' worth of allowed requests. */
  lemma RateBound(limit: int, requests: seq<int>, from: int)
    requires Sorted(requests)
    ensures CountIn(Instants(Replay(limit, requests).1), from, from + 60_000) <= if limit < 1 then 2 else 2 * limit
  {
    var clock := if requests == [] then 0 else requests[|requests| - 1];
    ReplayTracks(limit, requests, clock);
    var (window, entries) := Replay(limit, requests);
    var instants := Instants(entries);
    forall i, j | 0 <= i < j < |instants| ensures instants[i] <= instants[j] {
      var changes := WindowsBetween(limit, entries, i, j);
    }
    forall i, j | 0 <= i <= j < |instants| && instants[j] - instants[i] <= WINDOW_MS
      ensures j - i < 2 * Capacity(limit) {
      var changes := WindowsBetween(limit, entries, i, j);
      assert EntryOk(entries[i], limit) && EntryOk(entries[j], limit);
    }
    CountBounded(instants, WINDOW_MS, 2 * Capacity(limit), from);
  }

  /** A limit below one still admits the request that opens a window, and no other. */
  lemma LowLimitAdmitsOpeners(limit: int, requests: seq<int>, now: int)
    requires limit < 1 && Sorted(requests + [now])
    ensures var (window, entries) := Replay(limit, requests);
            Replay(limit, requests + [now]).1 ==
              if window == None || now - window.value.startedAt >= WINDOW_MS then entries + [Entry(now, now, 1)]
                else entries
  {
    assert (requests + [now])[..|requests|] == requests;
    if requests != [] {
      var last := |requests| - 1;
      assert (requests + [now])[last] == requests[last] && (requests + [now])[last + 1] == now;
      forall i, j | 0 <= i < j < |requests| ensures requests[i] <= requests[j] {
        assert (requests + [now])[i] == requests[i] && (requests + [now])[j] == requests[j];
      }
      ReplayTracks(limit, requests, requests[last]);
    }
  }

  /** Each window holds at most its capacity. */
  lemma WindowBound(limit: int, requests: seq<int>, i: nat, j: nat)
    requires Sorted(requests) && i <= j < |Replay(limit, requests).1|
    requires Replay(limit, requests).1[i].startedAt == Replay(limit, requests).1[j].startedAt
    ensures j - i < if limit < 1 then 1 else limit
  {
    ReplayTracks(limit, requests, requests[|requests| - 1]);
    var entries := Replay(limit, requests).1;
    var changes := WindowsBetween(limit, entries, i, j);
    assert EntryOk(entries[i], limit) && EntryOk(entries[j], limit);
  }

  /** The latest requests of a window have its start, as many as it counts. */
  lemma {:induction false} SameWindow(limit: int, entries: seq<Entry>, i: nat)
    requires i < |entries| && |entries| - 1 - i < entries[|entries| - 1].number
    requires forall k :: 0 <= k < |entries| ==> EntryOk(entries[k], limit)
    requires forall k {:trigger entries[k]} :: 0 <= k < |entries| - 1 ==> Follows(entries[k], entries[k + 1])
    ensures entries[i].startedAt == entries[|entries| - 1].startedAt
    ensures entries[i].number == entries[|entries| - 1].number - (|entries| - 1 - i)
    decreases |entries| - i
  {
    hide EntryOk;
    if i < |entries| - 1 {
      SameWindow(limit, entries, i + 1);
      assert Follows(entries[i], entries[i + 1]);
    }
  }

  /** A window counts no more than was allowed. */
  lemma {:induction false} CountIsListed(limit: int, entries: seq<Entry>)
    requires entries != []
    requires forall i :: 0 <= i < |entries| ==> EntryOk(entries[i], limit)
    requires forall i {:trigger entries[i]} :: 0 <= i < |entries| - 1 ==> Follows(entries[i], entries[i + 1])
    requires entries[0].number == 1
    ensures entries[|entries| - 1].number <= |entries|
  {
    var n := |entries| - 1;
    if n > 0 {
      CountIsListed(limit, entries[..n]);
      assert Follows(entries[n - 1], entries[n - 1 + 1]);
    }
  }

  lemma {:induction false} FirstOpens(limit: int, requests: seq<int>)
    ensures var (window, entries) := Replay(limit, requests);
            (window == None <==> entries == []) && (entries != [] ==> entries[0].number == 1)
  {
    if requests != [] {
      FirstOpens(limit, requests[..|requests| - 1]);
    }
  }

  /** The converse of the bounds: a request is refused only if the minute that ends with it already holds as many
      allowed requests as the limit, and at least one. */
  lemma RefusedIsFull(limit: int, requests: seq<int>, now: int)
    requires Sorted(requests) && (requests != [] ==> requests[|requests| - 1] <= now)
    requires !Decide(Replay(limit, requests).0, limit, now).1
    ensures var n := CountIn(Instants(Replay(limit, requests).1), now - 59_999, now); limit <= n && 1 <= n
  {
    ReplayTracks(limit, requests, now);
    FirstOpens(limit, requests);
    var (window, entries) := Replay(limit, requests);
    CountIsListed(limit, entries);
    var last, instants := entries[|entries| - 1], Instants(entries);
    forall i, j | 0 <= i < j < |instants| ensures instants[i] <= instants[j] {
      var changes := WindowsBetween(limit, entries, i, j);
    }
    var first := CountSpan(instants, now - (WINDOW_MS - 1), now);
    var oldest := |entries| - last.number;
    SameWindow(limit, entries, oldest);
    assert EntryOk(entries[oldest], limit) && EntryOk(last, limit);
    assert instants[oldest] <= instants[|instants| - 1] <= now;
  }

  ghost function Repeated(t: int, n: nat): seq<int> {
    seq(n, _ => t)
  }

  lemma BurstStep(limit: int, before: seq<int>, t: int, n: nat)
    requires n > 0
    ensures Repeated(t, n) == Repeated(t, n - 1) + [t] && Repeated(t, 0) == []
    ensures var (window, entries) := Replay(limit, before + Repeated(t, n - 1));
            var (next, allowed) := Decide(window, limit, t);
            Replay(limit, before + Repeated(t, n)) ==
              (Some(next), if allowed then entries + [Entry(t, next.startedAt, next.count)] else entries)
  {
    var run := before + Repeated(t, n);
    assert run[..|run| - 1] == before + Repeated(t, n - 1);
    assert run[|run| - 1] == t;
  }

  lemma InstantsAppend(entries: seq<Entry>, e: Entry)
    ensures Instants(entries + [e]) == Instants(entries) + [e.at]
  {
  }

  lemma {:induction false} Burst(limit: int, before: seq<int>, t: int, n: nat)
    requires 1 <= n <= limit
    requires var w := Replay(limit, before).0; w == None || t - w.value.startedAt >= WINDOW_MS
    ensures Replay(limit, before + Repeated(t, n)).0 == Some(RateWindow(t, n))
    ensures Instants(Replay(limit, before + Repeated(t, n)).1) == Instants(Replay(limit, before).1) + Repeated(t, n)
  {
    BurstStep(limit, before, t, n);
    hide Instants, Replay, Repeated;
    var instants := Instants(Replay(limit, before).1);
    if n == 1 {
      assert before + [] == before && instants + [] == instants;
    } else {
      Burst(limit, before, t, n - 1);
    }
    var entries := Replay(limit, before + Repeated(t, n - 1)).1;
    InstantsAppend(entries, Entry(t, t, n));
    Regroup(instants, Repeated(t, n - 1), [t]);
    hide Decide;
  }

  lemma Regroup(a: seq<int>, b: seq<int>, c: seq<int>)
    ensures a + b + c == a + (b + c)
  {
  }

  /** The bound is reached: a full window just before a window boundary and a full one at it. */
  lemma RateBoundReached(limit: int)
    requires limit >= 1
    ensures var requests := Repeated(0, limit) + Repeated(WINDOW_MS, limit);
            Sorted(requests) && CountIn(Instants(Replay(limit, requests).1), 0, WINDOW_MS) == 2 * limit
  {
    var first, second := Repeated(0, limit), Repeated(WINDOW_MS, limit);
    assert Replay(limit, []).0 == None && Instants(Replay(limit, []).1) == [];
    hide Replay, Instants, CountIn;
    assert [] + first == first;
    Burst(limit, [], 0, limit);
    Burst(limit, first, WINDOW_MS, limit);
    assert Instants(Replay(limit, first + second).1) == first + second;
    CountAll(first + second, 0, WINDOW_MS);
  }
}
