/** The restart budget of services/runtime/src/runtime-manager.ts: a sliding window of recent restarts,
    and beyond the immediate ones an exponential backoff measured against a ceiling. */
module RestartBudgets {
  import opened StartOrders
  import opened Timelines

  const BASE_BACKOFF_MS := 500

  /** The backoff multiplier 2 to a power. */
  function PowerOfTwo(exponent: nat): nat {
    if exponent == 0 then 1 else 2 * PowerOfTwo(exponent - 1)
  }

  /** Old restarts leave the window from the front, as long as the first one is too old. */
  function Purge(times: seq<int>, windowStart: int): seq<int> {
    if times != [] && times[0] < windowStart then Purge(times[1..], windowStart) else times
  }

  /** The backoff before restart j beyond the immediate ones. */
  function BackoffMs(j: nat): nat {
    BASE_BACKOFF_MS * PowerOfTwo(j + 1)
  }

  predicate WithinBudget(definition: ServiceDefinition, count: nat) {
    count >= definition.maxImmediateRestarts ==>
      BackoffMs(count - definition.maxImmediateRestarts) <= definition.backoffCeilingMs
  }

  /** The restart times after a restart was asked for, and whether it was carried out. */
  function Request(definition: ServiceDefinition, times: seq<int>, now: int): (seq<int>, bool) {
    var kept := Purge(times, now - definition.restartWindowMs);
    if WithinBudget(definition, |kept|) then (kept + [now], true) else (kept, false)
  }

  /** The backoff exponents the ceiling leaves room for. */
  ghost function BackoffLevels(ceiling: int): set<nat> {
    set j: nat | j < ceiling && BackoffMs(j) <= ceiling
  }

  /** The most restarts any window can hold. */
  ghost function Limit(definition: ServiceDefinition): nat {
    var n := definition.maxImmediateRestarts + |BackoffLevels(definition.backoffCeilingMs)|;
    if n < 0 then 0 else n
  }

  /** The instants at which restarts happened, for a run of requests. */
  ghost function Replay(definition: ServiceDefinition, requests: seq<int>): (r: (seq<int>, seq<int>)) {
    if requests == [] then ([], [])
    else
      var (times, history) := Replay(definition, requests[..|requests| - 1]);
      var now := requests[|requests| - 1];
      var (times', done) := Request(definition, times, now);
      (times', if done then history + [now] else history)
  }

  /** The window keeps a suffix of the history, and what it dropped is out of reach. */
  ghost predicate Tracks(definition: ServiceDefinition, times: seq<int>, history: seq<int>, clock: int) {
    && Sorted(history) && |times| <= |history|
    && times == history[|history| - |times|..]
    && (forall i :: 0 <= i < |history| ==> history[i] <= clock)
    && (forall i :: 0 <= i < |history| - |times| ==> history[i] < clock - definition.restartWindowMs)
  }

  /** Restarts that are at most a window apart are few. */
  ghost predicate RateBounded(definition: ServiceDefinition, history: seq<int>) {
    Spaced(history, definition.restartWindowMs, Limit(definition))
  }

  /** Main result: over every run of restart requests at non-decreasing instants, every closed interval
      as long as the window holds at most the immediate restarts plus one per backoff level. */
  lemma {:induction false} RestartRate(definition: ServiceDefinition, requests: seq<int>, from: int)
    requires Sorted(requests)
    ensures CountIn(Replay(definition, requests).1, from, from + definition.restartWindowMs) <= Limit(definition)
  {
    hide Replay, CountIn, Limit, Tracks, RateBounded;
    var clock := if requests == [] then 0 else requests[|requests| - 1];
    ReplayTracks(definition, requests, clock);
    TrackedIsCounted(definition, Replay(definition, requests).0, Replay(definition, requests).1, clock, from);
  }

  lemma TrackedIsCounted(definition: ServiceDefinition, times: seq<int>, history: seq<int>, clock: int, from: int)
    requires Tracks(definition, times, history, clock) && RateBounded(definition, history)
    ensures CountIn(history, from, from + definition.restartWindowMs) <= Limit(definition)
  {
    hide CountIn, Limit, Spaced;
    CountBounded(history, definition.restartWindowMs, Limit(definition), from);
  }

  lemma PurgeKeepsRecent(times: seq<int>, start: int)
    requires times != [] ==> times[0] >= start
    ensures Purge(times, start) == times
  {
  }

  lemma {:induction false} PurgeDropsOld(times: seq<int>, start: int)
    requires Sorted(times)
    ensures |Purge(times, start)| <= |times|
    ensures Purge(times, start) == times[|times| - |Purge(times, start)|..]
    ensures forall i :: 0 <= i < |times| - |Purge(times, start)| ==> times[i] < start
  {
    if times != [] && times[0] < start {
      PurgeDropsOld(times[1..], start);
      forall i | 0 <= i < |times| - |Purge(times, start)| ensures times[i] < start {
        if i > 0 {
          assert times[i] == times[1..][i - 1];
        }
      }
    }
  }

  lemma {:induction false} PowerGrows(m: nat, n: nat)
    requires m <= n
    ensures PowerOfTwo(m) <= PowerOfTwo(n) && n < PowerOfTwo(n)
    decreases n
  {
    if m < n {
      PowerGrows(m, n - 1);
    } else if n > 0 {
      PowerGrows(n - 1, n - 1);
    }
  }

  /** A finite set of naturals that is closed downwards is an initial segment. */
  lemma {:induction false} InitialSegment(s: set<nat>, j: nat)
    requires forall a: nat, b: nat :: b in s && a < b ==> a in s
    ensures j in s <==> j < |s|
    decreases |s|
  {
    if s != {} {
      var top := Largest(s);
      var rest := s - {top};
      InitialSegment(rest, j);
      InitialSegment(rest, top);
      if |rest| < top {
        InitialSegment(rest, |rest|);
      }
    }
  }

  lemma {:induction false} Largest(s: set<nat>) returns (top: nat)
    requires s != {}
    ensures top in s && forall x :: x in s ==> x <= top
  {
    top :| top in s;
    var rest := s - {top};
    if rest == {} {
      assert s == {top} + rest;
    } else {
      var other := Largest(rest);
      forall x | x in s ensures x <= other || x == top {
        assert x == top || x in rest;
      }
      top := if other > top then other else top;
    }
  }

  /** One more restart is immediate, or its backoff, a second doubled for every restart beyond the immediate ones,
      is within the ceiling. */
  ghost predicate HasBudget(definition: ServiceDefinition, count: nat) {
    || count < definition.maxImmediateRestarts
    || 1_000 * PowerOfTwo(count - definition.maxImmediateRestarts) <= definition.backoffCeilingMs
  }

  lemma {:induction false} PowersMultiply(m: nat, n: nat)
    ensures PowerOfTwo(m + n) == PowerOfTwo(m) * PowerOfTwo(n) && PowerOfTwo(1) == 2
  {
    assert PowerOfTwo(1) == 2 * PowerOfTwo(0);
    if m > 0 {
      PowersMultiply(m - 1, n);
      assert PowerOfTwo(m - 1 + n) == PowerOfTwo(m - 1) * PowerOfTwo(n);
    }
  }

  /** What is left of the restart times: the oldest are gone as long as they lie before the window. */
  ghost predicate IsRecent(times: seq<int>, kept: seq<int>, start: int) {
    && |kept| <= |times| && kept == times[|times| - |kept|..]
    && (forall i :: 0 <= i < |times| - |kept| ==> times[i] < start)
    && (kept != [] ==> kept[0] >= start)
  }

  lemma {:induction false} PurgeIsRecent(times: seq<int>, start: int)
    ensures IsRecent(times, Purge(times, start), start)
  {
    if times != [] && times[0] < start {
      PurgeIsRecent(times[1..], start);
      var kept := Purge(times, start);
      forall i | 0 <= i < |times| - |kept| ensures times[i] < start {
        if i > 0 {
          assert times[i] == times[1..][i - 1];
        }
      }
    }
  }

  /** The code's test for one more restart is a comparison with the limit. */
  lemma BudgetIsLimit(definition: ServiceDefinition, count: nat)
    ensures WithinBudget(definition, count) <==> count < Limit(definition)
    ensures WithinBudget(definition, count) <==> HasBudget(definition, count)
  {
    var ceiling := definition.backoffCeilingMs;
    var levels := BackoffLevels(ceiling);
    forall a: nat, b: nat | b in levels && a < b ensures a in levels {
      PowerGrows(a + 1, b + 1);
    }
    if count >= definition.maxImmediateRestarts {
      var j: nat := count - definition.maxImmediateRestarts;
      PowerGrows(j + 1, j + 1);
      InitialSegment(levels, j);
    }
  }

  /** After purging, the window still holds a suffix of the history and nothing in reach is lost. */
  lemma PurgeTracks(definition: ServiceDefinition, times: seq<int>, history: seq<int>, clock: int, now: int)
    requires Tracks(definition, times, history, clock) && clock <= now
    ensures Tracks(definition, Purge(times, now - definition.restartWindowMs), history, now)
  {
    hide Purge, Sorted;
    var start, dropped := now - definition.restartWindowMs, |history| - |times|;
    assert Sorted(times) by { SuffixSorted(history, dropped); }
    PurgeDropsOld(times, start);
    var kept := Purge(times, start);
    SuffixOfSuffix(history, dropped, |times| - |kept|);
    forall i | 0 <= i < |history| - |kept| ensures history[i] < start {
      if i >= dropped {
        assert history[i] == times[i - dropped];
      }
    }
  }

  lemma SuffixSorted(s: seq<int>, n: nat)
    requires Sorted(s) && n <= |s|
    ensures Sorted(s[n..])
  {
  }

  lemma SuffixOfSuffix(s: seq<int>, m: nat, n: nat)
    requires m + n <= |s|
    ensures s[m..][n..] == s[m + n..]
  {
  }

  lemma GrantTracks(definition: ServiceDefinition, kept: seq<int>, history: seq<int>, now: int)
    requires Tracks(definition, kept, history, now)
    ensures Tracks(definition, kept + [now], history + [now], now)
  {
    var longer := history + [now];
    assert longer[|history| - |kept|..] == history[|history| - |kept|..] + [now];
  }

  /** Restarts in reach of the newest are all in the window, so a bounded window bounds the rate. */
  lemma GrantKeepsRate(definition: ServiceDefinition, kept: seq<int>, history: seq<int>, now: int)
    requires Tracks(definition, kept, history, now) && RateBounded(definition, history)
    requires |kept| < Limit(definition)
    ensures RateBounded(definition, history + [now])
  {
    var longer := history + [now];
    forall i, j | 0 <= i <= j < |longer| && longer[j] - longer[i] <= definition.restartWindowMs
      ensures j - i < Limit(definition)
    {
      if j < |history| {
        assert history[j] - history[i] <= definition.restartWindowMs;
      } else if i < |history| {
        assert i >= |history| - |kept|;
      }
    }
  }

  /** One request keeps the window in step with the history, and the history within its rate. */
  lemma RequestKeepsRate(definition: ServiceDefinition, times: seq<int>, history: seq<int>, clock: int, now: int)
    requires Tracks(definition, times, history, clock) && RateBounded(definition, history) && clock <= now
    ensures var r := Request(definition, times, now);
            var history' := if r.1 then history + [now] else history;
            Tracks(definition, r.0, history', now) && RateBounded(definition, history')
  {
    var kept := Purge(times, now - definition.restartWindowMs);
    PurgeTracks(definition, times, history, clock, now);
    BudgetIsLimit(definition, |kept|);
    if WithinBudget(definition, |kept|) {
      GrantTracks(definition, kept, history, now);
      GrantKeepsRate(definition, kept, history, now);
    }
  }

  lemma {:induction false} ReplayTracks(definition: ServiceDefinition, requests: seq<int>, clock: int)
    requires Sorted(requests)
    requires requests != [] ==> clock == requests[|requests| - 1]
    ensures Tracks(definition, Replay(definition, requests).0, Replay(definition, requests).1, clock)
    ensures RateBounded(definition, Replay(definition, requests).1)
  {
    if requests != [] {
      var before := requests[..|requests| - 1];
      var earlier := if before == [] then clock else before[|before| - 1];
      ReplayTracks(definition, before, earlier);
      var (times, history) := Replay(definition, before);
      RequestKeepsRate(definition, times, history, earlier, clock);
    }
  }

  // ----- Restarts by heartbeat checks

  /** A heartbeat check of one service: the reading that decides on its silence, and the one a restart uses. */
  datatype Check = Check(seen: int, now: int)

  /** What a run of checks has done: the restart times, all restarts so far, and the last heartbeat. */
  datatype Watched = Watched(times: seq<int>, history: seq<int>, lastHeartbeatAt: int)

  function CheckOnce(definition: ServiceDefinition, silence: int, w: Watched, c: Check): Watched {
    if c.seen - w.lastHeartbeatAt < silence then w
    else
      var (times, granted) := Request(definition, w.times, c.now);
      if granted then Watched(times, w.history + [c.now], c.now) else w.(times := times)
  }

  ghost function Watch(definition: ServiceDefinition, silence: int, registeredAt: int, checks: seq<Check>): Watched {
    if checks == [] then Watched([], [], registeredAt)
    else CheckOnce(definition, silence, Watch(definition, silence, registeredAt, checks[..|checks| - 1]),
      checks[|checks| - 1])
  }

  /** Clock readings do not go back. */
  ghost predicate Timed(registeredAt: int, checks: seq<Check>) {
    && (forall i :: 0 <= i < |checks| ==> registeredAt <= checks[i].seen <= checks[i].now)
    && (forall i, j :: 0 <= i < j < |checks| ==> checks[i].now <= checks[j].seen)
  }

  /** The tolerated silence as a distance; it is no distance if it is negative. */
  function Pause(silence: int): nat {
    if silence < 0 then 0 else silence
  }

  ghost predicate Apart(history: seq<int>, gap: int) {
    forall i, j :: 0 <= i < j < |history| ==> history[j] - history[i] >= (j - i) * gap
  }

  /** Restarts by checks are at least the tolerated silence apart. */
  lemma {:induction false} ChecksAreApart(definition: ServiceDefinition, silence: int, registeredAt: int,
                                          checks: seq<Check>)
    requires Timed(registeredAt, checks)
    ensures var w := Watch(definition, silence, registeredAt, checks);
            && Apart(w.history, Pause(silence))
            && (w.history != [] ==> w.lastHeartbeatAt == w.history[|w.history| - 1])
            && w.lastHeartbeatAt <= if checks == [] then registeredAt else checks[|checks| - 1].now
  {
    if checks != [] {
      var before, c := checks[..|checks| - 1], checks[|checks| - 1];
      ChecksAreApart(definition, silence, registeredAt, before);
      var w := Watch(definition, silence, registeredAt, before);
      assert w.lastHeartbeatAt <= c.seen <= c.now;
      hide Request, Timed, Watch, Apart;
      ApartAppend(w.history, Pause(silence), c.now);
    }
  }

  lemma ApartAppend(history: seq<int>, gap: int, now: int)
    requires Apart(history, gap)
    ensures history == [] || now - history[|history| - 1] >= gap ==> Apart(history + [now], gap)
  {
    var longer := history + [now];
    if history == [] || now - history[|history| - 1] >= gap {
      forall i, j | 0 <= i < j < |longer| ensures longer[j] - longer[i] >= (j - i) * gap {
        if j == |history| && i < j - 1 {
          assert history[j - 1] - history[i] >= (j - 1 - i) * gap;
          assert (j - i) * gap == (j - 1 - i) * gap + gap;
        }
      }
    }
  }

  /** The restarts of a run of checks are those of the requests it makes, so the rate bound holds for it. */
  lemma {:induction false} ChecksTrack(definition: ServiceDefinition, silence: int, registeredAt: int,
                                       checks: seq<Check>, clock: int)
    requires Timed(registeredAt, checks) && clock == if checks == [] then registeredAt else checks[|checks| - 1].now
    ensures var w := Watch(definition, silence, registeredAt, checks);
            Tracks(definition, w.times, w.history, clock) && RateBounded(definition, w.history)
  {
    if checks == [] {
    } else {
      var before, c := checks[..|checks| - 1], checks[|checks| - 1];
      var earlier := if before == [] then registeredAt else before[|before| - 1].now;
      ChecksTrack(definition, silence, registeredAt, before, earlier);
      var w := Watch(definition, silence, registeredAt, before);
      assert earlier <= c.now;
      hide Tracks, RateBounded, CheckOnce, Timed;
      CheckTracks(definition, silence, w, earlier, c);
    }
  }

  lemma CheckTracks(definition: ServiceDefinition, silence: int, w: Watched, clock: int, c: Check)
    requires Tracks(definition, w.times, w.history, clock) && RateBounded(definition, w.history) && clock <= c.now
    ensures var after := CheckOnce(definition, silence, w, c);
            Tracks(definition, after.times, after.history, c.now) && RateBounded(definition, after.history)
  {
    RequestKeepsRate(definition, w.times, w.history, clock, c.now);
    Later(definition, w.times, w.history, clock, c.now);
    hide Tracks, RateBounded, Request;
  }

  lemma Later(definition: ServiceDefinition, times: seq<int>, history: seq<int>, clock: int, now: int)
    requires Tracks(definition, times, history, clock) && clock <= now
    ensures Tracks(definition, times, history, now)
  {
  }

  /** Checks as often as the tolerated silence allows. */
  ghost function Steady(silence: int, n: nat): seq<Check> {
    seq(n, i requires 0 <= i < n => Check((i + 1) * Pause(silence), (i + 1) * Pause(silence)))
  }

  /** They all restart while the window reaches back to the first and the limit is not exceeded. */
  lemma {:induction false} SteadyRestarts(definition: ServiceDefinition, silence: int, n: nat)
    requires n <= Limit(definition) && (n > 0 ==> (n - 1) * Pause(silence) <= definition.restartWindowMs)
    ensures var w := Watch(definition, silence, 0, Steady(silence, n));
            && w.times == w.history && |w.history| == n && w.lastHeartbeatAt == n * Pause(silence)
            && forall i :: 0 <= i < n ==> w.history[i] == (i + 1) * Pause(silence)
  {
    if n > 0 {
      var pause := Pause(silence);
      Products(n - 1, n, pause);
      if n > 1 {
        Products(n - 2, n - 1, pause);
      }
      SteadyRestarts(definition, silence, n - 1);
      var checks := Steady(silence, n);
      assert checks[..n - 1] == Steady(silence, n - 1);
      var w := Watch(definition, silence, 0, checks[..n - 1]);
      assert w.times != [] ==> w.times[0] == (0 + 1) * pause == pause;
      hide Limit, WithinBudget;
      PurgeKeepsRecent(w.times, n * pause - definition.restartWindowMs);
      BudgetIsLimit(definition, |w.times|);
    }
  }

  ghost predicate FillsWindow(definition: ServiceDefinition, silence: int, registeredAt: int, checks: seq<Check>,
                              from: int) {
    && Timed(registeredAt, checks)
    && CountIn(Watch(definition, silence, registeredAt, checks).history, from, from + definition.restartWindowMs) ==
         Limit(definition)
  }

  /** Main result: some run of checks fills a window up to the limit exactly when that many restarts, each after
      the tolerated silence, fit into the window. */
  lemma RestartRateReachedIff(definition: ServiceDefinition, silence: int)
    ensures (exists registeredAt, checks, from :: FillsWindow(definition, silence, registeredAt, checks, from))
            <==> Limit(definition) == 0 || (Limit(definition) - 1) * Pause(silence) <= definition.restartWindowMs
  {
    hide FillsWindow, Limit;
    if Limit(definition) == 0 || (Limit(definition) - 1) * Pause(silence) <= definition.restartWindowMs {
      LimitIsReached(definition, silence);
    }
    forall registeredAt, checks, from | FillsWindow(definition, silence, registeredAt, checks, from)
      ensures Limit(definition) == 0 || (Limit(definition) - 1) * Pause(silence) <= definition.restartWindowMs
    {
      FilledIsBounded(definition, silence, registeredAt, checks, from);
    }
  }

  lemma FilledIsBounded(definition: ServiceDefinition, silence: int, registeredAt: int, checks: seq<Check>, from: int)
    requires FillsWindow(definition, silence, registeredAt, checks, from)
    ensures Limit(definition) == 0 || (Limit(definition) - 1) * Pause(silence) <= definition.restartWindowMs
  {
    hide Watch, Limit, CountIn;
    ChecksAreBounded(definition, silence, registeredAt, checks, from);
  }

  /** However the checks come, a window holds at most the limit, and no more restarts than fit into it. */
  lemma ChecksAreBounded(definition: ServiceDefinition, silence: int, registeredAt: int, checks: seq<Check>, from: int)
    requires Timed(registeredAt, checks)
    ensures var n := CountIn(Watch(definition, silence, registeredAt, checks).history, from,
              from + definition.restartWindowMs);
            n <= Limit(definition) && (n == 0 || (n - 1) * Pause(silence) <= definition.restartWindowMs)
  {
    hide *;
    var clock := if checks == [] then registeredAt else checks[|checks| - 1].now;
    ChecksTrack(definition, silence, registeredAt, checks, clock);
    ChecksAreApart(definition, silence, registeredAt, checks);
    var w := Watch(definition, silence, registeredAt, checks);
    TrackedIsBounded(definition, w.times, w.history, clock, Pause(silence), from);
  }

  lemma TrackedIsBounded(definition: ServiceDefinition, times: seq<int>, history: seq<int>, clock: int, gap: nat,
                         from: int)
    requires Tracks(definition, times, history, clock) && RateBounded(definition, history) && Apart(history, gap)
    ensures var n := CountIn(history, from, from + definition.restartWindowMs);
            n <= Limit(definition) && (n == 0 || (n - 1) * gap <= definition.restartWindowMs)
  {
    hide CountIn, Limit, Apart, RateBounded;
    TrackedIsCounted(definition, times, history, clock, from);
    CountApart(history, gap, from, from + definition.restartWindowMs);
  }

  lemma CountApart(history: seq<int>, gap: nat, from: int, to: int)
    requires Sorted(history) && Apart(history, gap)
    ensures var n := CountIn(history, from, to); n == 0 || (n - 1) * gap <= to - from
  {
    var first := CountSpan(history, from, to);
    var n := CountIn(history, from, to);
    hide CountIn;
    if n > 1 {
      assert history[first + n - 1] - history[first] >= (n - 1) * gap;
    } else if n == 1 {
      assert from <= history[first] <= to;
    }
  }

  lemma LimitIsReached(definition: ServiceDefinition, silence: int)
    requires Limit(definition) == 0 || (Limit(definition) - 1) * Pause(silence) <= definition.restartWindowMs
    ensures exists registeredAt, checks, from :: FillsWindow(definition, silence, registeredAt, checks, from)
  {
    var n, pause := Limit(definition), Pause(silence);
    var checks := Steady(silence, n);
    SteadyRestarts(definition, silence, n);
    SteadyIsTimed(silence, n);
    hide Watch, Limit, Timed, Steady;
    var history := Watch(definition, silence, 0, checks).history;
    forall i | 0 <= i < n ensures pause <= history[i] <= pause + definition.restartWindowMs {
      Products(i, n - 1, pause);
    }
    CountAll(history, pause, pause + definition.restartWindowMs);
    assert FillsWindow(definition, silence, 0, checks, pause);
  }

  lemma SteadyIsTimed(silence: int, n: nat)
    ensures Timed(0, Steady(silence, n))
  {
    var checks := Steady(silence, n);
    forall i | 0 <= i < n ensures 0 <= checks[i].seen {
      Products(i, i, Pause(silence));
    }
    forall i, j | 0 <= i < j < n ensures checks[i].now <= checks[j].seen {
      Products(i, j, Pause(silence));
    }
  }

  lemma Products(i: nat, j: nat, pause: nat)
    requires i <= j
    ensures i * pause <= j * pause && (i + 1) * pause == i * pause + pause && (j + 1) * pause == j * pause + pause
    ensures pause <= (i + 1) * pause <= (j + 1) * pause
  {
  }
}
