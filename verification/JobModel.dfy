/** Jobs of services/runtime/src/job-scheduler.ts as values: schedules, their occurrences, and when a
    registration is refused. */
module JobModel {
  import opened Wrappers
  import opened Graphs
  import opened CronSchedules

  datatype Priority = Low | Normal

  datatype Status = Scheduled | Running | Completed | Failed | Cancelled

  /** A parsed schedule: an interval in milliseconds, cron fields, or one instant. */
  datatype Schedule = Recurring(interval: int) | Cron(fields: CronFields) | Delayed(instant: int)

  datatype JobDefinition = JobDefinition(jobId: string, schedule: Schedule, dependencies: seq<string>,
                                         priority: Priority, group: string)

  datatype JobFailure = DependencyCycle | DependencyMissing | DependencyIncomplete | RunnerFailed

  datatype JobState = JobState(definition: JobDefinition, lastRunAt: Option<int>, nextRunAt: int, status: Status,
                               lastError: Option<JobFailure>)

  type Jobs = map<string, JobState>

  datatype IntervalUnit = Seconds | Minutes | Hours | Days

  const MAX_SAFE_INTEGER := 9_007_199_254_740_991

  /** An amount and a unit as an interval; zero and what exceeds the safe integers are refused. */
  function ParseInterval(amount: nat, unit: IntervalUnit): Option<int> {
    var multiplier := match unit case Seconds => 1_000 case Minutes => 60_000 case Hours => 3_600_000
      case Days => 86_400_000;
    var result := amount * multiplier;
    if result > MAX_SAFE_INTEGER || result <= 0 then None else Some(result)
  }

  /** The next occurrence after an instant; None stands for the error a cron search may throw. */
  function NextOccurrence(calendar: Calendar, definition: JobDefinition, from: int): Option<int> {
    match definition.schedule
    case Recurring(interval) => Some(from + interval)
    case Delayed(instant) => Some(instant)
    case Cron(fields) => NextCron(calendar, fields, from)
  }

  /** A recurring job runs at once; the others at their first occurrence. */
  function FirstOccurrence(calendar: Calendar, definition: JobDefinition, from: int): Option<int> {
    if definition.schedule.Recurring? then Some(from) else NextOccurrence(calendar, definition, from)
  }

  /** What trimming takes away: the white space and line terminators of the language. */
  predicate WhiteSpace(c: char) {
    || '\t' <= c <= '\r' || c == ' ' || c == '\U{00A0}' || c == '\U{1680}' || '\U{2000}' <= c <= '\U{200A}'
    || c == '\U{2028}' || c == '\U{2029}' || c == '\U{202F}' || c == '\U{205F}' || c == '\U{3000}' || c == '\U{FEFF}'
  }

  /** The same, one by one. */
  lemma WhiteSpaceIs(c: char)
    ensures WhiteSpace(c) <==>
              c in {'\t', '\n', '\U{000B}', '\U{000C}', '\r', ' ', '\U{00A0}', '\U{1680}', '\U{2000}', '\U{2001}',
                    '\U{2002}', '\U{2003}', '\U{2004}', '\U{2005}', '\U{2006}', '\U{2007}', '\U{2008}', '\U{2009}',
                    '\U{200A}', '\U{2028}', '\U{2029}', '\U{202F}', '\U{205F}', '\U{3000}', '\U{FEFF}'}
  {
  }

  predicate Blank(s: string) {
    forall i :: 0 <= i < |s| ==> WhiteSpace(s[i])
  }

  /** A text without the white space at its ends. */
  ghost function Trimmed(s: string): string {
    if s == "" then ""
    else if WhiteSpace(s[0]) then Trimmed(s[1..])
    else if WhiteSpace(s[|s| - 1]) then Trimmed(s[..|s| - 1])
    else s
  }

  lemma {:induction false} BlankIff(s: string)
    ensures Blank(s) <==> Trimmed(s) == ""
    decreases |s|
  {
    hide WhiteSpace;
    if s != "" {
      if WhiteSpace(s[0]) {
        BlankIff(s[1..]);
        assert s == [s[0]] + s[1..];
      } else if WhiteSpace(s[|s| - 1]) {
        BlankIff(s[..|s| - 1]);
        assert s[0] == s[..|s| - 1][0];
      }
    }
  }

  /** Blank identifiers, intervals that are not positive, and cron schedules without an occurrence. */
  predicate Rejected(calendar: Calendar, definition: JobDefinition, machineNow: int) {
    || Blank(definition.jobId) || Blank(definition.group)
    || (exists i :: 0 <= i < |definition.dependencies| && Blank(definition.dependencies[i]))
    || (definition.schedule.Recurring? && definition.schedule.interval <= 0)
    || (definition.schedule.Cron? && NextCron(calendar, definition.schedule.fields, machineNow) == None)
  }

  ghost predicate HasOccurrence(calendar: Calendar, fields: CronFields, from: int) {
    exists t :: Occurs(calendar, fields, from, t)
  }

  lemma NoOccurrenceIff(calendar: Calendar, fields: CronFields, from: int)
    ensures NextCron(calendar, fields, from) == None <==> !HasOccurrence(calendar, fields, from)
  {
    hide NextCron, Occurs;
    NextCronIsLeast(calendar, fields, from);
  }

  lemma RejectedIff(calendar: Calendar, definition: JobDefinition, machineNow: int)
    ensures Rejected(calendar, definition, machineNow) <==>
              || Trimmed(definition.jobId) == "" || Trimmed(definition.group) == ""
              || (exists d :: d in definition.dependencies && Trimmed(d) == "")
              || (definition.schedule.Recurring? && definition.schedule.interval <= 0)
              || (definition.schedule.Cron? && !HasOccurrence(calendar, definition.schedule.fields, machineNow))
  {
    hide Blank, Trimmed, NextCron, HasOccurrence;
    if definition.schedule.Cron? {
      NoOccurrenceIff(calendar, definition.schedule.fields, machineNow);
    }
    forall s ensures Blank(s) <==> Trimmed(s) == "" {
      BlankIff(s);
    }
    var ids := definition.dependencies;
    assert forall i :: 0 <= i < |ids| ==> ids[i] in ids;
    assert (exists i :: 0 <= i < |ids| && Blank(ids[i])) <==> exists d :: d in ids && Trimmed(d) == "";
  }

  /** Every job runs first at its registration, at its instant, or when its fields next match. */
  lemma FirstOccurrenceIs(calendar: Calendar, definition: JobDefinition, from: int)
    ensures var first := FirstOccurrence(calendar, definition, from);
            match definition.schedule
            case Recurring(_) => first == Some(from)
            case Delayed(instant) => first == Some(instant)
            case Cron(fields) =>
              if first.Some? then IsNext(calendar, fields, from, first.value)
              else !HasOccurrence(calendar, fields, from)
  {
    hide NextCron, Occurs;
    if definition.schedule.Cron? {
      NextCronIsLeast(calendar, definition.schedule.fields, from);
    }
  }

  lemma NoOccurrenceOrNext(calendar: Calendar, definition: JobDefinition, from: int)
    ensures FirstOccurrence(calendar, definition, from).Some? && definition.schedule.Cron? ==>
              HasOccurrence(calendar, definition.schedule.fields, from)
  {
    FirstOccurrenceIs(calendar, definition, from);
    hide FirstOccurrence, Occurs;
  }

  /** A definition that validation accepts has no first occurrence exactly when it is a cron schedule whose last
      occurrence within reach of the machine's clock is out of reach of the scheduler's. */
  lemma RegistrationThrowsIff(calendar: Calendar, definition: JobDefinition, machineNow: int, now: int)
    requires !Rejected(calendar, definition, machineNow)
    ensures FirstOccurrence(calendar, definition, now) == None <==>
              && definition.schedule.Cron?
              && HasOccurrence(calendar, definition.schedule.fields, machineNow)
              && !HasOccurrence(calendar, definition.schedule.fields, now)
  {
    hide NextCron, HasOccurrence, Blank;
    if definition.schedule.Cron? {
      NoOccurrenceIff(calendar, definition.schedule.fields, machineNow);
      NoOccurrenceIff(calendar, definition.schedule.fields, now);
    }
  }

  /** A calendar with a single leap day's midnight, one minute after the epoch. */
  function LeapDay(t: int): CalendarTime {
    if t == MINUTE_MS then CalendarTime(0, 0, 29, 2, 0) else CalendarTime(1, 1, 1, 1, 1)
  }

  /** Midnight of the 29th of February, validated a minute before it and scheduled at it: the registration of an
      accepted definition throws. */
  lemma AcceptedYetThrows(id: string, group: string) returns (definition: JobDefinition, machineNow: int, now: int)
    requires !Blank(id) && !Blank(group)
    ensures definition == JobDefinition(id, Cron(CronFields({0}, {0}, {29}, {2}, {0})), [], Normal, group)
    ensures machineNow < now && !Rejected(LeapDay, definition, machineNow)
    ensures FirstOccurrence(LeapDay, definition, now) == None
  {
    var fields := CronFields({0}, {0}, {29}, {2}, {0});
    definition, machineNow, now := JobDefinition(id, Cron(fields), [], Normal, group), 0, MINUTE_MS;
    assert Occurs(LeapDay, fields, 0, MINUTE_MS);
    forall t ensures !Occurs(LeapDay, fields, now, t) {
    }
    hide NextCron, Occurs, Blank;
    NoOccurrenceIff(LeapDay, fields, machineNow);
    NoOccurrenceIff(LeapDay, fields, now);
  }

  function NextStateAfterSuccess(calendar: Calendar, state: JobState, now: int): Option<JobState> {
    if state.definition.schedule.Delayed? then
      Some(state.(lastRunAt := Some(now), status := Completed, nextRunAt := now))
    else
      match NextOccurrence(calendar, state.definition, now)
      case None => None
      case Some(next) => Some(JobState(state.definition, Some(now), next, Scheduled, None))
  }

  predicate DueAt(jobs: Jobs, t: int, id: string) {
    id in jobs && jobs[id].status == Scheduled && jobs[id].nextRunAt <= t
  }

  /** A job that has just succeeded is not due again at the same instant. */
  lemma SuccessIsNotDueAgain(calendar: Calendar, jobs: Jobs, id: string, now: int)
    requires id in jobs
    requires jobs[id].definition.schedule.Recurring? ==> jobs[id].definition.schedule.interval > 0
    ensures var next := NextStateAfterSuccess(calendar, jobs[id], now);
            next.Some? ==> !DueAt(jobs[id := next.value], now, id)
  {
    if jobs[id].definition.schedule.Cron? {
      NextCronIsLeast(calendar, jobs[id].definition.schedule.fields, now);
    }
  }

  /** Intervals are positive safe integers: a second has a thousand milliseconds, and each longer unit is so many
      of the one before. */
  lemma ParsedIntervalsArePositive(amount: nat, unit: IntervalUnit)
    ensures var r := ParseInterval(amount, unit);
            && (r.Some? ==> 0 < r.value <= 9_007_199_254_740_991)
            && (r == None ==> amount == 0 || amount * 86_400_000 > 9_007_199_254_740_991)
    ensures ParseInterval(amount, Seconds) ==
              if 0 < 1_000 * amount <= 9_007_199_254_740_991 then Some(1_000 * amount) else None
    ensures ParseInterval(amount, Minutes) == ParseInterval(60 * amount, Seconds)
    ensures ParseInterval(amount, Hours) == ParseInterval(60 * amount, Minutes)
    ensures ParseInterval(amount, Days) == ParseInterval(24 * amount, Hours)
  {
  }
}
