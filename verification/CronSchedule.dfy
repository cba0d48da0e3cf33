/** The cron search of services/runtime/src/job-scheduler.ts, over any calendar. */
module CronSchedules {
  import opened Wrappers

  const MINUTE_MS := 60_000
  const HORIZON_MINUTES := 366 * 24 * 60

  datatype CalendarTime = CalendarTime(minute: nat, hour: nat, day: nat, month: nat, weekday: nat)

  /** What the calendar says about an instant; nothing is assumed about it. */
  type Calendar = int -> CalendarTime

  datatype CronFields = CronFields(minutes: set<nat>, hours: set<nat>, days: set<nat>, months: set<nat>,
                                   weekdays: set<nat>)

  predicate Matches(fields: CronFields, c: CalendarTime) {
    c.minute in fields.minutes && c.hour in fields.hours && c.day in fields.days
    && c.month in fields.months && c.weekday in fields.weekdays
  }

  /** The first minute boundary after an instant. */
  function NextBoundary(from: int): int {
    from / MINUTE_MS * MINUTE_MS + MINUTE_MS
  }

  function FirstMatch(calendar: Calendar, fields: CronFields, start: int, minutes: nat): Option<int>
    decreases minutes
  {
    if minutes == 0 then None
    else if Matches(fields, calendar(start)) then Some(start)
    else FirstMatch(calendar, fields, start + MINUTE_MS, minutes - 1)
  }

  function NextCron(calendar: Calendar, fields: CronFields, from: int): Option<int> {
    FirstMatch(calendar, fields, NextBoundary(from), HORIZON_MINUTES)
  }

  /** A minute boundary after `from` and within the horizon. */
  predicate Candidate(from: int, t: int) {
    t % MINUTE_MS == 0 && from < t < NextBoundary(from) + HORIZON_MINUTES * MINUTE_MS
  }

  /** In terms of instants and fields: a whole minute after `from`, at most 366 days of minutes ahead, at which all
      five fields are in their sets. */
  ghost predicate Occurs(calendar: Calendar, fields: CronFields, from: int, t: int) {
    && t % 60_000 == 0 && from < t <= from - from % 60_000 + 366 * 24 * 60 * 60_000
    && calendar(t).minute in fields.minutes && calendar(t).hour in fields.hours && calendar(t).day in fields.days
    && calendar(t).month in fields.months && calendar(t).weekday in fields.weekdays
  }

  ghost predicate IsNext(calendar: Calendar, fields: CronFields, from: int, t: int) {
    Occurs(calendar, fields, from, t) && forall s :: Occurs(calendar, fields, from, s) ==> t <= s
  }

  lemma OccursIff(calendar: Calendar, fields: CronFields, from: int, t: int)
    ensures Occurs(calendar, fields, from, t) <==> Candidate(from, t) && Matches(fields, calendar(t))
  {
  }

  /** The result is the least instant at which the schedule occurs; there is none exactly when it never does. */
  lemma NextCronIsLeast(calendar: Calendar, fields: CronFields, from: int)
    ensures var r := NextCron(calendar, fields, from);
            && (r.Some? ==> IsNext(calendar, fields, from, r.value))
            && (r == None <==> forall t :: !Occurs(calendar, fields, from, t))
  {
    hide Matches, Candidate, FirstMatch, Occurs;
    NextCronMatches(calendar, fields, from);
    forall t ensures Occurs(calendar, fields, from, t) <==> Candidate(from, t) && Matches(fields, calendar(t)) {
      OccursIff(calendar, fields, from, t);
    }
    hide NextCron;
  }

  lemma NextCronMatches(calendar: Calendar, fields: CronFields, from: int)
    ensures var r := NextCron(calendar, fields, from);
            && (r.Some? ==> Candidate(from, r.value) && Matches(fields, calendar(r.value)))
            && (forall t :: Candidate(from, t) && Matches(fields, calendar(t)) ==> r.Some? && r.value <= t)
  {
    hide Matches, Candidate, FirstMatch;
    var start := NextBoundary(from);
    var r := NextCron(calendar, fields, from);
    FirstMatchIsLeast(calendar, fields, start, HORIZON_MINUTES);
    if r.Some? {
      StepIsCandidate(from, (r.value - start) / MINUTE_MS);
    }
    forall t | Candidate(from, t) && Matches(fields, calendar(t)) ensures r.Some? && r.value <= t {
      var k := CandidateIsStep(from, t);
    }
  }

  lemma StepIsCandidate(from: int, k: nat)
    requires k < HORIZON_MINUTES
    ensures Candidate(from, NextBoundary(from) + k * MINUTE_MS)
  {
  }

  lemma CandidateIsStep(from: int, t: int) returns (k: nat)
    requires Candidate(from, t)
    ensures k < HORIZON_MINUTES && t == NextBoundary(from) + k * MINUTE_MS
  {
    k := (t - NextBoundary(from)) / MINUTE_MS;
  }

  lemma {:induction false} FirstMatchIsLeast(calendar: Calendar, fields: CronFields, start: int, minutes: nat)
    ensures var r := FirstMatch(calendar, fields, start, minutes);
            && (r.Some? ==> start <= r.value < start + minutes * MINUTE_MS && (r.value - start) % MINUTE_MS == 0
                            && Matches(fields, calendar(r.value)))
            && (forall k: nat :: k < minutes && Matches(fields, calendar(start + k * MINUTE_MS)) ==>
                  r.Some? && r.value <= start + k * MINUTE_MS)
    decreases minutes
  {
    hide Matches;
    if minutes > 0 && !Matches(fields, calendar(start)) {
      FirstMatchIsLeast(calendar, fields, start + MINUTE_MS, minutes - 1);
      forall k: nat | k < minutes && Matches(fields, calendar(start + k * MINUTE_MS))
        ensures FirstMatch(calendar, fields, start, minutes).Some?
                && FirstMatch(calendar, fields, start, minutes).value <= start + k * MINUTE_MS
      {
        if k > 0 {
          assert start + k * MINUTE_MS == start + MINUTE_MS + (k - 1) * MINUTE_MS;
        }
      }
    }
  }

  /** The search loop; no result stands for the error the source throws. */
  method NextCronOccurrence(calendar: Calendar, fields: CronFields, from: int) returns (r: Option<int>)
    ensures r == NextCron(calendar, fields, from)
    ensures r.Some? ==> IsNext(calendar, fields, from, r.value)
    ensures r == None ==> forall t :: !Occurs(calendar, fields, from, t)
  {
    NextCronIsLeast(calendar, fields, from);
    hide IsNext, Occurs;
    hide Matches;
    var start := NextBoundary(from);
    for offset := 0 to HORIZON_MINUTES
      invariant NextCron(calendar, fields, from) ==
                FirstMatch(calendar, fields, start + offset * MINUTE_MS, HORIZON_MINUTES - offset)
    {
      var candidate := start + offset * MINUTE_MS;
      if Matches(fields, calendar(candidate)) {
        return Some(candidate);
      }
    }
    r := None;
  }
}
