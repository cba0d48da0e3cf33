/** The supervisor of services/runtime/src/runtime-manager.ts: it starts services with dependencies first,
    stops them in the opposite order, and restarts silent ones within the restart budget. */
module RuntimeManagers {
  import opened Wrappers
  import opened Graphs
  import opened StartOrders
  import opened RestartBudgets

  datatype HealthReport =
    | FailedToStart(detail: string, checkedAt: int)
    | DegradedAfterRestart(detail: string, checkedAt: int)
    | BudgetExhausted(checkedAt: int)

  datatype RuntimeError =
    | InvalidRegistration(service: string)
    | NoOrder(cause: OrderError)
    | StartFailed(service: string, detail: string)
    | StopFailed(service: string)

  /** The mutable part of a registration. */
  datatype Status = Status(restartTimes: seq<int>, history: seq<int>, lastHeartbeatAt: int,
                           healthOverride: Option<HealthReport>)

  /** What a request for a restart does to a service: a restart within the budget is noted and counts as a sign of
      life, a refused one only reports the exhausted budget. */
  ghost predicate IsRequested(definition: ServiceDefinition, before: Status, after: Status, now: int,
                              startError: Option<string>) {
    var times := after.restartTimes;
    var kept := if HasRestarted(before, after, now) then times[..|times| - 1] else times;
    && IsRecent(before.restartTimes, kept, now - definition.restartWindowMs)
    && (HasBudget(definition, |kept|) <==> HasRestarted(before, after, now))
    && if HasBudget(definition, |kept|) then
         && after.lastHeartbeatAt == now
         && after.healthOverride ==
              if startError == None then None else Some(DegradedAfterRestart(startError.value, now))
       else
         && after.history == before.history && after.lastHeartbeatAt == before.lastHeartbeatAt
         && after.healthOverride == Some(BudgetExhausted(now))
  }

  ghost predicate HasRestarted(before: Status, after: Status, now: int) {
    var n := |after.restartTimes|;
    n > 0 && after.restartTimes[n - 1] == now && after.history == before.history + [now]
  }

  lemma RequestIs(definition: ServiceDefinition, s: Status, now: int, startError: Option<string>)
    ensures IsRequested(definition, s, AfterRequest(definition, s, now, startError), now, startError)
  {
    var kept := Purge(s.restartTimes, now - definition.restartWindowMs);
    PurgeIsRecent(s.restartTimes, now - definition.restartWindowMs);
    BudgetIsLimit(definition, |kept|);
    hide Purge, IsRecent, WithinBudget, HasBudget, Limit;
    assert |s.history| != |s.history + [now]|;
    assert (kept + [now])[..|kept|] == kept;
  }

  class Registration {
    const definition: ServiceDefinition
    var restartTimes: seq<int>
    var lastHeartbeatAt: int
    var healthOverride: Option<HealthReport>
    ghost var history: seq<int>  // the instants of all restarts so far
    ghost var clock: int  // the instant of the latest request

    ghost predicate Valid()
      reads `restartTimes, `history, `clock
    {
      Tracks(definition, restartTimes, history, clock) && RateBounded(definition, history)
    }

    ghost function Current(): Status
      reads this
    {
      Status(restartTimes, history, lastHeartbeatAt, healthOverride)
    }

    constructor (definition: ServiceDefinition, now: int)
      ensures Valid() && this.definition == definition && history == [] && clock == now
      ensures restartTimes == [] && lastHeartbeatAt == now && healthOverride == None
    {
      this.definition := definition;
      restartTimes, lastHeartbeatAt, healthOverride := [], now, None;
      history, clock := [], now;
    }

    /** A restart is carried out exactly when the recent restarts are below the limit; a refused one only
        reports the exhausted budget.  `startError` is the failure of the service's own start, if any. */
    method RestartIfAllowed(now: int, startError: Option<string>) returns (restarted: bool)
      requires Valid() && clock <= now
      modifies this
      ensures Valid() && clock == now
      ensures Current() == AfterRequest(definition, old(Current()), now, startError)
      ensures restarted <==> |Purge(old(restartTimes), now - definition.restartWindowMs)| < Limit(definition)
      ensures restarted <==> history == old(history) + [now]
      ensures IsRequested(definition, old(Current()), Current(), now, startError)
    {
      RequestIs(definition, Current(), now, startError);
      hide Tracks, RateBounded, IsRequested;
      PurgeRestartTimes(now - definition.restartWindowMs);
      BudgetIsLimit(definition, |restartTimes|);
      restarted := WithinCeiling();
      RequestKeepsRate(definition, old(restartTimes), history, clock, now);
      clock := now;
      if !restarted {
        healthOverride := Some(BudgetExhausted(now));
        return;
      }
      restartTimes := restartTimes + [now];
      history := history + [now];
      lastHeartbeatAt := now;
      if startError == None {
        healthOverride := None;
      } else {
        healthOverride := Some(DegradedAfterRestart(startError.value, now));
      }
    }

    method WithinCeiling() returns (within: bool)
      ensures within == WithinBudget(definition, |restartTimes|)
    {
      if |restartTimes| >= definition.maxImmediateRestarts {
        var backoffMs := BackoffMs(|restartTimes| - definition.maxImmediateRestarts);
        if backoffMs > definition.backoffCeilingMs {
          return false;
        }
      }
      within := true;
    }

    method PurgeRestartTimes(windowStart: int)
      modifies `restartTimes
      ensures restartTimes == Purge(old(restartTimes), windowStart)
    {
      while restartTimes != [] && restartTimes[0] < windowStart
        invariant Purge(restartTimes, windowStart) == Purge(old(restartTimes), windowStart)
        decreases |restartTimes|
      {
        restartTimes := restartTimes[1..];
      }
    }

    /** The outcome of a start by StartAll: the heartbeat, and a failure with its own instant. */
    method Started(now: int, checkedAt: int, startError: Option<string>)
      modifies `lastHeartbeatAt, `healthOverride
      ensures lastHeartbeatAt == now
      ensures healthOverride == if startError == None then None else Some(FailedToStart(startError.value, checkedAt))
    {
      lastHeartbeatAt := now;
      if startError == None {
        healthOverride := None;
      } else {
        healthOverride := Some(FailedToStart(startError.value, checkedAt));
      }
    }
  }

  function Lookup(startErrors: map<string, string>, service: string): Option<string> {
    if service in startErrors then Some(startErrors[service]) else None
  }

  /** The services of a list whose start fails. */
  function FailingIn(services: seq<string>, startErrors: map<string, string>): seq<string> {
    if services == [] then []
    else
      var n := services[|services| - 1];
      FailingIn(services[..|services| - 1], startErrors) + if n in startErrors then [n] else []
  }

  lemma {:induction false} FailingAre(services: seq<string>, startErrors: map<string, string>)
    ensures forall n :: n in FailingIn(services, startErrors) <==> n in Elements(services) && n in startErrors
  {
    if services != [] {
      FailingAre(services[..|services| - 1], startErrors);
      assert services == services[..|services| - 1] + [services[|services| - 1]];
    }
  }

  /** The failing services keep the order of the attempts. */
  lemma {:induction false} FailingInOrder(a: seq<string>, b: seq<string>, startErrors: map<string, string>)
    ensures FailingIn(a + b, startErrors) == FailingIn(a, startErrors) + FailingIn(b, startErrors)
  {
    if b == [] {
      assert a + b == a;
      assert FailingIn(a, startErrors) + [] == FailingIn(a, startErrors);
    } else {
      var n := |b| - 1;
      FailingInOrder(a, b[..n], startErrors);
      LastFailing(b, startErrors);
      LastFailing(a + b, startErrors);
      hide FailingIn;
      assert (a + b)[..|a + b| - 1] == a + b[..n];
      assert (a + b)[|a + b| - 1] == b[n];
      Regroup(FailingIn(a, startErrors), FailingIn(b[..n], startErrors), if b[n] in startErrors then [b[n]] else []);
    }
  }

  lemma LastFailing(services: seq<string>, startErrors: map<string, string>)
    requires services != []
    ensures var n := |services| - 1;
            FailingIn(services, startErrors) ==
              FailingIn(services[..n], startErrors) + if services[n] in startErrors then [services[n]] else []
  {
  }

  lemma Regroup(a: seq<string>, b: seq<string>, c: seq<string>)
    ensures a + b + c == a + (b + c)
  {
  }

  ghost predicate CriticalFailure(services: Definitions, service: string, startErrors: map<string, string>) {
    service in services && service in startErrors && services[service].critical
  }

  ghost predicate NoCriticalFailure(services: Definitions, attempted: seq<string>, startErrors: map<string, string>) {
    forall n :: n in attempted ==> !CriticalFailure(services, n, startErrors)
  }

  /** The readings of a clock, one after the other. */
  type Ticks = nat -> int

  ghost predicate NeverBack(ticks: Ticks) {
    forall i: nat, j: nat :: i <= j ==> ticks(i) <= ticks(j)
  }

  ghost function StartStatus(s: Status, now: int, checkedAt: int, startError: Option<string>): Status {
    s.(lastHeartbeatAt := now,
       healthOverride := if startError == None then None else Some(FailedToStart(startError.value, checkedAt)))
  }

  /** What start attempts leave behind: attempt i takes two readings of the clock. */
  ghost function AfterStarts(before: map<string, Status>, attempted: seq<string>, ticks: Ticks,
                             startErrors: map<string, string>): map<string, Status>
  {
    if attempted == [] then before
    else
      var i := |attempted| - 1;
      var earlier, n := AfterStarts(before, attempted[..i], ticks, startErrors), attempted[i];
      if n in earlier then earlier[n := StartStatus(earlier[n], ticks(2 * i), ticks(2 * i + 1), Lookup(startErrors, n))]
      else earlier
  }

  lemma OneMoreStart(before: map<string, Status>, attempted: seq<string>, service: string, ticks: Ticks,
                     startErrors: map<string, string>)
    ensures var earlier, i := AfterStarts(before, attempted, ticks, startErrors), |attempted|;
            AfterStarts(before, attempted + [service], ticks, startErrors) ==
              if service in earlier
              then earlier[service :=
                StartStatus(earlier[service], ticks(2 * i), ticks(2 * i + 1), Lookup(startErrors, service))]
              else earlier
  {
    assert (attempted + [service])[..|attempted|] == attempted;
  }

  lemma {:induction false} UntouchedByStarts(before: map<string, Status>, attempted: seq<string>, ticks: Ticks,
                                             startErrors: map<string, string>, n: string)
    requires n !in attempted
    ensures var after := AfterStarts(before, attempted, ticks, startErrors);
            (n in after <==> n in before) && (n in before ==> after[n] == before[n])
  {
    if attempted != [] {
      UntouchedByStarts(before, attempted[..|attempted| - 1], ticks, startErrors, n);
    }
  }

  /** Each attempted service has the heartbeat and the outcome of its own attempt, and no other status has
      changed. */
  lemma {:induction false} StartsAreLocal(before: map<string, Status>, attempted: seq<string>, ticks: Ticks,
                                          startErrors: map<string, string>, i: nat)
    requires Distinct(attempted) && i < |attempted| && attempted[i] in before
    ensures var after, n := AfterStarts(before, attempted, ticks, startErrors), attempted[i];
            && n in after
            && after[n].lastHeartbeatAt == ticks(2 * i)
            && after[n].healthOverride ==
                 (if n in startErrors then Some(FailedToStart(startErrors[n], ticks(2 * i + 1))) else None)
            && after[n].restartTimes == before[n].restartTimes && after[n].history == before[n].history
            && forall m :: m in before && m !in attempted ==> m in after && after[m] == before[m]
  {
    hide StartStatus, AfterStarts;
    var last := |attempted| - 1;
    StartsStep(before, attempted, ticks, startErrors);
    StartSetsOutcome(before[attempted[i]], attempted[i], ticks(2 * i), ticks(2 * i + 1), startErrors);
    if i == last {
      UntouchedByStarts(before, attempted[..last], ticks, startErrors, attempted[i]);
    } else {
      StartsAreLocal(before, attempted[..last], ticks, startErrors, i);
    }
    forall m | m in before && m !in attempted
      ensures var after := AfterStarts(before, attempted, ticks, startErrors); m in after && after[m] == before[m]
    {
      UntouchedByStarts(before, attempted, ticks, startErrors, m);
    }
  }

  lemma StartSetsOutcome(s: Status, n: string, now: int, checkedAt: int, startErrors: map<string, string>)
    ensures var after := StartStatus(s, now, checkedAt, Lookup(startErrors, n));
            && after.lastHeartbeatAt == now
            && after.healthOverride ==
                 (if n in startErrors then Some(FailedToStart(startErrors[n], checkedAt)) else None)
            && after.restartTimes == s.restartTimes && after.history == s.history
  {
  }

  lemma StartsStep(before: map<string, Status>, attempted: seq<string>, ticks: Ticks, startErrors: map<string, string>)
    requires attempted != []
    ensures var i := |attempted| - 1;
            var earlier, n := AfterStarts(before, attempted[..i], ticks, startErrors), attempted[i];
            AfterStarts(before, attempted, ticks, startErrors) ==
              if n in earlier
              then earlier[n := StartStatus(earlier[n], ticks(2 * i), ticks(2 * i + 1), Lookup(startErrors, n))]
              else earlier
  {
  }

  lemma OneMoreFailing(attempted: seq<string>, service: string, startErrors: map<string, string>)
    ensures FailingIn(attempted + [service], startErrors) ==
            FailingIn(attempted, startErrors) + if service in startErrors then [service] else []
  {
    assert (attempted + [service])[..|attempted|] == attempted;
  }

  lemma EmptyPass(services: Definitions, before: map<string, Status>, ticks: Ticks, startErrors: map<string, string>)
    ensures Ordered(services, []) && AfterStarts(before, [], ticks, startErrors) == before
    ensures FailingIn([], startErrors) == [] && NoCriticalFailure(services, [], startErrors)
  {
  }

  lemma OneMoreCritical(services: Definitions, attempted: seq<string>, service: string,
                        startErrors: map<string, string>)
    requires NoCriticalFailure(services, attempted, startErrors)
    ensures CriticalFailure(services, service, startErrors) <==>
              service in services && service in startErrors && services[service].critical
    ensures NoCriticalFailure(services, attempted + [service], startErrors) <==>
              !CriticalFailure(services, service, startErrors)
    ensures (attempted + [service])[..|attempted|] == attempted
  {
    assert service in attempted + [service];
  }

  ghost function CheckStatus(definition: ServiceDefinition, s: Status, seen: int, now: int, silence: int,
                             startError: Option<string>): Status
  {
    if seen - s.lastHeartbeatAt < silence then s else AfterRequest(definition, s, now, startError)
  }

  /** What a heartbeat check leaves behind: for each service one reading decides, another dates a restart. */
  ghost function AfterCheck(services: Definitions, before: map<string, Status>, checked: seq<string>, ticks: Ticks,
                            silence: int, startErrors: map<string, string>): map<string, Status>
  {
    if checked == [] then before
    else
      var i := |checked| - 1;
      var earlier, n := AfterCheck(services, before, checked[..i], ticks, silence, startErrors), checked[i];
      if n in earlier && n in services then
        earlier[n := CheckStatus(services[n], earlier[n], ticks(2 * i), ticks(2 * i + 1), silence,
          Lookup(startErrors, n))]
      else earlier
  }

  lemma OneMoreCheck(services: Definitions, before: map<string, Status>, checked: seq<string>, service: string,
                     ticks: Ticks, silence: int, startErrors: map<string, string>)
    ensures var earlier, i := AfterCheck(services, before, checked, ticks, silence, startErrors), |checked|;
            AfterCheck(services, before, checked + [service], ticks, silence, startErrors) ==
              if service in earlier && service in services
              then earlier[service := CheckStatus(services[service], earlier[service], ticks(2 * i), ticks(2 * i + 1),
                                                  silence, Lookup(startErrors, service))]
              else earlier
    ensures AfterCheck(services, before, [], ticks, silence, startErrors) == before
  {
    assert (checked + [service])[..|checked|] == checked;
  }

  lemma {:induction false} UntouchedByChecks(services: Definitions, before: map<string, Status>, checked: seq<string>,
                                             ticks: Ticks, silence: int, startErrors: map<string, string>, n: string)
    requires n !in checked
    ensures var after := AfterCheck(services, before, checked, ticks, silence, startErrors);
            (n in after <==> n in before) && (n in before ==> after[n] == before[n])
  {
    if checked != [] {
      UntouchedByChecks(services, before, checked[..|checked| - 1], ticks, silence, startErrors, n);
    }
  }

  /** Exactly the services silent at their own reading go through the restart budget, each once. */
  lemma ChecksAreLocal(services: Definitions, before: map<string, Status>, checked: seq<string>, ticks: Ticks,
                       silence: int, startErrors: map<string, string>, i: nat)
    requires Distinct(checked) && i < |checked| && checked[i] in before && checked[i] in services
    ensures var after, n := AfterCheck(services, before, checked, ticks, silence, startErrors), checked[i];
            && n in after
            && IsChecked(services[n], before[n], after[n], ticks(2 * i), ticks(2 * i + 1), silence,
                         if n in startErrors then Some(startErrors[n]) else None)
            && forall m :: m in before && m !in checked ==> m in after && after[m] == before[m]
  {
    CheckIsRequest(services[checked[i]], before[checked[i]], ticks(2 * i), ticks(2 * i + 1), silence,
                   Lookup(startErrors, checked[i]));
    CheckAt(services, before, checked, ticks, silence, startErrors, i);
    hide CheckStatus, AfterCheck, IsChecked, Distinct;
    forall m | m in before && m !in checked
      ensures var after := AfterCheck(services, before, checked, ticks, silence, startErrors);
              m in after && after[m] == before[m]
    {
      UntouchedByChecks(services, before, checked, ticks, silence, startErrors, m);
    }
  }

  lemma {:induction false} CheckAt(services: Definitions, before: map<string, Status>, checked: seq<string>,
                                   ticks: Ticks, silence: int, startErrors: map<string, string>, i: nat)
    requires Distinct(checked) && i < |checked| && checked[i] in before && checked[i] in services
    ensures var after, n := AfterCheck(services, before, checked, ticks, silence, startErrors), checked[i];
            && n in after
            && after[n] == CheckStatus(services[n], before[n], ticks(2 * i), ticks(2 * i + 1), silence,
                                       Lookup(startErrors, n))
  {
    hide CheckStatus, AfterCheck;
    var last := |checked| - 1;
    ChecksStep(services, before, checked, ticks, silence, startErrors);
    if i == last {
      UntouchedByChecks(services, before, checked[..last], ticks, silence, startErrors, checked[i]);
    } else {
      CheckAt(services, before, checked[..last], ticks, silence, startErrors, i);
    }
  }

  /** A service that is not silent is left alone; a silent one asks for a restart. */
  ghost predicate IsChecked(definition: ServiceDefinition, before: Status, after: Status, seen: int, now: int,
                            silence: int, startError: Option<string>) {
    if seen - before.lastHeartbeatAt < silence then after == before
    else IsRequested(definition, before, after, now, startError)
  }

  lemma CheckIsRequest(definition: ServiceDefinition, s: Status, seen: int, now: int, silence: int,
                       startError: Option<string>)
    ensures IsChecked(definition, s, CheckStatus(definition, s, seen, now, silence, startError), seen, now, silence,
                      startError)
  {
    RequestIs(definition, s, now, startError);
    hide IsRequested;
  }

  lemma ChecksStep(services: Definitions, before: map<string, Status>, checked: seq<string>, ticks: Ticks, silence: int,
                   startErrors: map<string, string>)
    requires checked != []
    ensures var i := |checked| - 1;
            var earlier, n := AfterCheck(services, before, checked[..i], ticks, silence, startErrors), checked[i];
            AfterCheck(services, before, checked, ticks, silence, startErrors) ==
              if n in earlier && n in services
              then earlier[n := CheckStatus(services[n], earlier[n], ticks(2 * i), ticks(2 * i + 1), silence,
                Lookup(startErrors, n))]
              else earlier
  {
  }

  /** A check does to a service what a step of the run model of the restart budget does. */
  lemma CheckIsWatched(definition: ServiceDefinition, s: Status, c: Check, silence: int, startError: Option<string>)
    ensures var after := CheckStatus(definition, s, c.seen, c.now, silence, startError);
            Watched(after.restartTimes, after.history, after.lastHeartbeatAt) ==
              CheckOnce(definition, silence, Watched(s.restartTimes, s.history, s.lastHeartbeatAt), c)
  {
  }

  ghost function AfterRequest(definition: ServiceDefinition, s: Status, now: int, startError: Option<string>): Status {
    var (times, granted) := Request(definition, s.restartTimes, now);
    if !granted then s.(restartTimes := times, healthOverride := Some(BudgetExhausted(now)))
    else Status(times, s.history + [now], now,
                if startError == None then None else Some(DegradedAfterRestart(startError.value, now)))
  }

  /** Every service that depends on a stopped one was stopped before it. */
  ghost predicate DependentsFirst(services: Definitions, stopped: seq<string>) {
    forall i, n :: 0 <= i < |stopped| && (n, stopped[i]) in Dependencies(services) ==> n in stopped[..i]
  }

  class RuntimeManager {
    var names: seq<string>  // in registration order
    var registrations: map<string, Registration>
    const heartbeatIntervalMs: int

    ghost predicate Valid()
      reads this, registrations.Values
    {
      && Elements(names) == registrations.Keys && Distinct(names)
      && forall n :: n in registrations ==> registrations[n].definition.name == n && registrations[n].Valid()
    }

    function Definitions(): Definitions
      reads this
    {
      map n | n in registrations :: registrations[n].definition
    }

    constructor (heartbeatIntervalMs: int)
      ensures Valid() && registrations == map[] && this.heartbeatIntervalMs == heartbeatIntervalMs
    {
      this.heartbeatIntervalMs := heartbeatIntervalMs;
      names, registrations := [], map[];
    }

    method Register(definition: ServiceDefinition, now: int) returns (r: Result<(), RuntimeError>)
      requires Valid()
      modifies this
      ensures Valid()
      ensures r.Ok? <==> definition.name != "" && definition.name !in old(registrations)
      ensures r.Err? ==> r.error == InvalidRegistration(definition.name)
      ensures Definitions() == if r.Ok? then old(Definitions())[definition.name := definition] else old(Definitions())
      ensures forall n :: n in old(registrations) ==> n in registrations && registrations[n] == old(registrations)[n]
    {
      hide Tracks, RateBounded, Distinct;
      if definition.name == "" || definition.name in registrations {
        return Err(InvalidRegistration(definition.name));
      }
      var registration := new Registration(definition, now);
      ElementsAppend(names, definition.name);
      assert definition.name !in Elements(names);
      DistinctAppend(names, definition.name);
      names := names + [definition.name];
      registrations := registrations[definition.name := registration];
      r := Ok(());
    }

    ghost function Statuses(): map<string, Status>
      reads this, registrations.Values
    {
      map n | n in registrations :: registrations[n].Current()
    }

    /** Attempts services with dependencies first; only a critical failure stops the pass. */
    method StartAll(ticks: Ticks, startErrors: map<string, string>)
      returns (r: Result<seq<string>, RuntimeError>, attempted: seq<string>)
      requires Valid()
      modifies registrations.Values
      ensures Valid()
      ensures Ordered(Definitions(), attempted)
      ensures Statuses() == AfterStarts(old(Statuses()), attempted, ticks, startErrors)
      ensures !Startable(Definitions()) <==> r.Err? && r.error.NoOrder?
      ensures !Startable(Definitions()) ==> attempted == []
      ensures r.Ok? ==> Elements(attempted) == registrations.Keys && r.value == FailingIn(attempted, startErrors)
      ensures r.Ok? ==> forall n :: n in r.value <==> n in registrations && n in startErrors
      ensures r.Ok? ==> NoCriticalFailure(Definitions(), attempted, startErrors)
      ensures r.Err? && !r.error.NoOrder? ==>
                && attempted != []
                && NoCriticalFailure(Definitions(), attempted[..|attempted| - 1], startErrors)
                && CriticalFailure(Definitions(), attempted[|attempted| - 1], startErrors)
                && r.error == StartFailed(attempted[|attempted| - 1], startErrors[attempted[|attempted| - 1]])
    {
      hide Tracks, RateBounded, Ordered, Startable, AfterStarts, StartStatus, Distinct, FailingIn,
        NoCriticalFailure, CriticalFailure, Lookup;
      attempted := [];
      ghost var services := Definitions();
      ghost var before := Statuses();
      var order := StartOrder(Definitions(), names);
      EmptyPass(services, before, ticks, startErrors);
      if order.Err? {
        return Err(NoOrder(order.error)), attempted;
      }
      var degraded: seq<string> := [];
      for i := 0 to |order.value|
        invariant && Valid() && Statuses() == AfterStarts(before, attempted, ticks, startErrors)
                  && Definitions() == services
        invariant attempted == order.value[..i] && degraded == FailingIn(attempted, startErrors)
        invariant NoCriticalFailure(services, attempted, startErrors)
        invariant Ordered(services, attempted)
      {
        var service := order.value[i];
        assert service in Elements(order.value);
        PrefixOrdered(services, order.value, i + 1);
        OneMoreFailing(attempted, service, startErrors);
        OneMoreCritical(services, attempted, service, startErrors);
        OneMoreStart(before, attempted, service, ticks, startErrors);
        StartOne(service, ticks(2 * i), ticks(2 * i + 1), Lookup(startErrors, service));
        attempted := attempted + [service];
        assert Statuses() == AfterStarts(before, attempted, ticks, startErrors) && Definitions() == services;
        PrefixStep(order.value, i);
        if service in startErrors {
          if registrations[service].definition.critical {
            return Err(StartFailed(service, startErrors[service])), attempted;
          }
          degraded := degraded + [service];
        }
      }
      assert order.value[..|order.value|] == order.value;
      FailingAre(attempted, startErrors);
      r := Ok(degraded);
    }

    method StartOne(service: string, now: int, checkedAt: int, startError: Option<string>)
      requires Valid() && service in registrations
      modifies registrations[service]
      ensures Valid()
      ensures Statuses() == old(Statuses())[service :=
                StartStatus(old(Statuses())[service], now, checkedAt, startError)]
    {
      hide Tracks, RateBounded, Distinct, Elements;
      assert forall n :: n in registrations && n != service ==> registrations[n] != registrations[service];
      registrations[service].Started(now, checkedAt, startError);
    }

    /** Stops dependents before what they depend on, up to the first failure. */
    method StopAll(stopErrors: set<string>) returns (r: Result<(), RuntimeError>, stopped: seq<string>)
      requires Valid()
      ensures Distinct(stopped) && Elements(stopped) <= registrations.Keys && DependentsFirst(Definitions(), stopped)
      ensures !Startable(Definitions()) <==> r.Err? && r.error.NoOrder?
      ensures !Startable(Definitions()) ==> stopped == []
      ensures r.Ok? ==> Elements(stopped) == registrations.Keys && forall n :: n in stopped ==> n !in stopErrors
      ensures r.Err? && !r.error.NoOrder? ==>
                && stopped != []
                && stopped[|stopped| - 1] in stopErrors && r.error == StopFailed(stopped[|stopped| - 1])
                && forall n :: n in stopped[..|stopped| - 1] ==> n !in stopErrors
    {
      stopped := [];
      var order := StartOrder(Definitions(), names);
      if order.Err? {
        return Err(NoOrder(order.error)), stopped;
      }
      var i := |order.value|;
      while i > 0
        invariant 0 <= i <= |order.value|
        invariant stopped == Reversed(order.value[i..])
        invariant forall n :: n in stopped ==> n !in stopErrors
      {
        i := i - 1;
        ReverseOrdered(Definitions(), order.value, i);
        assert order.value[i..] == [order.value[i]] + order.value[i + 1..];
        stopped := stopped + [order.value[i]];
        assert stopped[..|stopped| - 1] == Reversed(order.value[i + 1..]);
        if order.value[i] in stopErrors {
          return Err(StopFailed(order.value[i])), stopped;
        }
      }
      ReverseOrdered(Definitions(), order.value, 0);
      r := Ok(());
    }

    /** No request of a service is later than an instant. */
    ghost predicate QuietSince(t: int)
      reads this, registrations.Values
    {
      forall n :: n in registrations ==> registrations[n].clock <= t
    }

    /** Every service silent for three intervals goes through the restart budget, and no other. */
    method CheckHeartbeats(ticks: Ticks, startErrors: map<string, string>)
      requires Valid() && NeverBack(ticks) && QuietSince(ticks(0))
      modifies registrations.Values
      ensures Valid()
      ensures Statuses() ==
                AfterCheck(Definitions(), old(Statuses()), names, ticks, heartbeatIntervalMs * 3, startErrors)
    {
      hide Tracks, RateBounded, AfterCheck, CheckStatus, Distinct, NeverBack, QuietSince;
      ghost var before, services := Statuses(), Definitions();
      OneMoreCheck(services, before, [], "", ticks, heartbeatIntervalMs * 3, startErrors);
      for i := 0 to |names|
        invariant Valid() && QuietSince(ticks(2 * i)) && Definitions() == services
        invariant Statuses() == AfterCheck(services, before, names[..i], ticks, heartbeatIntervalMs * 3, startErrors)
      {
        NextTicks(ticks, i);
        CheckStep(services, before, names, i, ticks, heartbeatIntervalMs * 3, startErrors);
        assert names[i] in Elements(names);
        CheckOne(names[i], ticks(2 * i), ticks(2 * i + 1), ticks(2 * (i + 1)), startErrors);
      }
      assert names[..|names|] == names;
    }

    /** One service; `later` is the reading for the next one. */
    method CheckOne(service: string, seen: int, now: int, ghost later: int, startErrors: map<string, string>)
      requires Valid() && service in registrations && QuietSince(seen) && seen <= now <= later
      modifies registrations[service]
      ensures Valid() && QuietSince(later) && Definitions() == old(Definitions())
      ensures Statuses() ==
              old(Statuses())[service := CheckStatus(Definitions()[service], old(Statuses())[service], seen, now,
                                                     heartbeatIntervalMs * 3, Lookup(startErrors, service))]
    {
      hide Tracks, RateBounded, AfterRequest, Distinct, Elements, IsRequested, Purge, Limit, Lookup;
      assert forall n :: n in registrations && n != service ==> registrations[n] != registrations[service];
      var registration := registrations[service];
      if seen - registration.lastHeartbeatAt < heartbeatIntervalMs * 3 {
        return;
      }
      var restarted := registration.RestartIfAllowed(now, Lookup(startErrors, service));
    }
  }

  lemma NextTicks(ticks: Ticks, i: nat)
    requires NeverBack(ticks)
    ensures ticks(2 * i) <= ticks(2 * i + 1) <= ticks(2 * (i + 1))
  {
  }

  lemma CheckStep(services: Definitions, before: map<string, Status>, names: seq<string>, i: nat, ticks: Ticks,
                  silence: int, startErrors: map<string, string>)
    requires i < |names|
    ensures var earlier, n := AfterCheck(services, before, names[..i], ticks, silence, startErrors), names[i];
            AfterCheck(services, before, names[..i + 1], ticks, silence, startErrors) ==
              if n in earlier && n in services
              then earlier[n := CheckStatus(services[n], earlier[n], ticks(2 * i), ticks(2 * i + 1), silence,
                                            Lookup(startErrors, n))]
              else earlier
  {
    assert names[..i + 1] == names[..i] + [names[i]];
    OneMoreCheck(services, before, names[..i], names[i], ticks, silence, startErrors);
  }

  function Reversed<T>(s: seq<T>): seq<T> {
    if s == [] then [] else Reversed(s[1..]) + [s[0]]
  }

  lemma {:induction false} ReversedAt<T>(s: seq<T>)
    ensures |Reversed(s)| == |s|
    ensures forall i :: 0 <= i < |s| ==> Reversed(s)[i] == s[|s| - 1 - i]
  {
    if s != [] {
      ReversedAt(s[1..]);
      forall i | 0 <= i < |s| ensures Reversed(s)[i] == s[|s| - 1 - i] {
        if i < |s| - 1 {
          assert Reversed(s)[i] == s[1..][|s| - 2 - i];
        }
      }
    }
  }

  lemma PrefixStep(order: seq<string>, i: nat)
    requires i < |order|
    ensures order[..i + 1] == order[..i] + [order[i]] && (order[..i] + [order[i]])[..i] == order[..i]
  {
  }

  lemma PrefixOrdered(services: Definitions, order: seq<string>, n: nat)
    requires n <= |order| && (order == [] || Ordered(services, order))
    ensures Ordered(services, order[..n])
  {
    var edges := Dependencies(services);
    forall i, b | 0 <= i < n && (order[..n][i], b) in edges ensures b in order[..n][..i] {
      assert (order[i], b) in edges && order[..n][..i] == order[..i];
    }
    forall x | x in Elements(order[..n]) ensures x in services {
      assert x in Elements(order);
    }
  }

  /** Read backwards, the tail of a complete order has dependents first. */
  lemma ReverseOrdered(services: Definitions, order: seq<string>, from: nat)
    requires Ordered(services, order) && Elements(order) == services.Keys && from <= |order|
    ensures var stopped := Reversed(order[from..]);
            Distinct(stopped) && Elements(stopped) <= services.Keys && DependentsFirst(services, stopped)
    ensures from == 0 ==> Elements(Reversed(order[from..])) == services.Keys
  {
    ReversedAt(order[from..]);
    ReversedElements(order[from..]);
    forall x | x in Elements(order[from..]) ensures x in Elements(order) {
    }
    assert from == 0 ==> order[from..] == order;
    ReverseDependentsFirst(services, order, from);
  }

  lemma ReversedElements<T>(s: seq<T>)
    ensures Elements(Reversed(s)) == Elements(s)
  {
    ReversedAt(s);
    forall x | x in s ensures x in Reversed(s) {
      var i :| 0 <= i < |s| && s[i] == x;
      assert Reversed(s)[|s| - 1 - i] == x;
    }
  }

  lemma ReverseDependentsFirst(services: Definitions, order: seq<string>, from: nat)
    requires Ordered(services, order) && Elements(order) == services.Keys && from <= |order|
    ensures DependentsFirst(services, Reversed(order[from..]))
  {
    hide Ordered;
    var tail := order[from..];
    var stopped := Reversed(tail);
    ReversedAt(tail);
    forall i, n | 0 <= i < |stopped| && (n, stopped[i]) in Dependencies(services) ensures n in stopped[..i] {
      assert n in services.Keys;
      assert n in Elements(order);
      var m :| 0 <= m < |order| && order[m] == n;
      var j := |order| - 1 - i;
      assert stopped[i] == order[j];
      EarlierInOrder(services, order, m, j);
      assert stopped[|order| - 1 - m] == n;
    }
  }

  lemma EarlierInOrder(services: Definitions, order: seq<string>, m: nat, j: nat)
    requires Ordered(services, order) && m < |order| && j < |order|
    requires (order[m], order[j]) in Dependencies(services)
    ensures j < m
  {
    assert order[j] in order[..m];
  }
}
