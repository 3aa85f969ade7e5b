/** Recurring-scan rows, their edits, and how often they fire (backend/models/scan_schedule.py, backend/routes/schedules.py). */
module Schedules {
  import opened Results
  import opened Calendar
  import opened ScanSlots
  import opened Sets

  type ScheduleId = nat

  datatype Reason =
    | InactiveOrganisation
    | TargetNotAuthorised
    | QueueFailures(count: nat)
    | DomainRevoked(domain: string, count: nat)

  /** One row of scan_schedules. */
  datatype Row = Row(
    orgId: OrgId,
    target: string,
    timing: Timing,
    enabled: bool,
    disabledReason: Option<Reason>,
    nextRunAt: Moment,
    lastRunAt: Option<Moment>,
    lastScan: Option<ScanId>,
    failures: nat)

  /** What the check constraints and the writers of `next_run_at` maintain. */
  predicate WellFormed(row: Row) {
    && Runnable(row.timing) && 0 <= row.timing.hourUtc < 24
    && row.nextRunAt.Valid() && OnGrid(row.timing, row.nextRunAt)
  }

  predicate Due(row: Row, moment: Moment) {
    row.enabled && row.nextRunAt.Ticks() <= moment.Ticks()
  }

  function Disabled(row: Row, reason: Reason): Row {
    row.(enabled := false, disabledReason := Some(reason))
  }

  /** What every exit path of a tick does first. */
  function Taken(row: Row, moment: Moment): Row
    requires Runnable(row.timing)
  {
    NextOccurrenceFailsIff(row.timing, moment);
    row.(nextRunAt := NextOccurrence(row.timing, moment).value, lastRunAt := Some(moment))
  }

  function QueueSucceeded(row: Row): Row {
    row.(failures := 0)
  }

  function QueueFailed(row: Row, maxFailures: int): Row {
    var counted := row.(failures := row.failures + 1);
    if counted.failures >= maxFailures then Disabled(counted, QueueFailures(counted.failures)) else counted
  }

  /** A partial update; an absent field is unchanged. */
  datatype Edit = Edit(cadence: Option<Cadence>, hourUtc: Option<int>, weekday: Option<int>, enabled: Option<bool>)

  /** What the request schema admits. */
  predicate ValidEdit(e: Edit) {
    && (e.hourUtc.Some? ==> 0 <= e.hourUtc.value < 24)
    && (e.weekday.Some? ==> 0 <= e.weekday.value < 7)
  }

  function EditedTiming(t: Timing, e: Edit): Timing {
    var cadence := if e.cadence.Some? then e.cadence.value else t.cadence;
    var hour := if e.hourUtc.Some? then e.hourUtc.value else t.hourUtc;
    var kept := if e.cadence.Some? && !e.cadence.value.Weekly? then None else t.weekday;
    Timing(cadence, hour, if e.weekday.Some? then e.weekday else kept)
  }

  function EditedSwitch(row: Row, e: Edit): Row {
    if e.enabled.None? || e.enabled.value == row.enabled then row
    else if e.enabled.value then row.(enabled := true, failures := 0, disabledReason := None)
    else row.(enabled := false)
  }

  /** The whole handler: a weekly schedule without a day is refused, anything else reschedules from now. */
  function ApplyEdit(row: Row, e: Edit, now: Moment): Result<Row, TimingError> {
    var timing := EditedTiming(row.timing, e);
    if timing.cadence.Weekly? && timing.weekday.None? then Failure(WeekdayMissing) else
    match NextOccurrence(timing, now)
    case Failure(error) => Failure(error)
    case Success(next) => Success(EditedSwitch(row, e).(timing := timing, nextRunAt := next))
  }

  /** A schedule row as the session holds it: an object whose columns are assigned in place. */
  class ScanSchedule {
    const id: ScheduleId
    const orgId: OrgId
    const target: string
    var cadence: Cadence
    var hourUtc: int
    var weekday: Option<int>
    var isEnabled: bool
    var disabledReason: Option<Reason>
    var nextRunAt: Moment
    var lastRunAt: Option<Moment>
    var lastScan: Option<ScanId>
    var failures: nat

    function Value(): Row
      reads this
    {
      Row(orgId, target, Timing(cadence, hourUtc, weekday), isEnabled, disabledReason, nextRunAt, lastRunAt,
          lastScan, failures)
    }

    /** `create_schedule`: enabled, and not due before the first grid instant after now. */
    constructor (id: ScheduleId, orgId: OrgId, target: string, timing: Timing, now: Moment)
      requires Runnable(timing)
      ensures NextOccurrence(timing, now).Success?
      ensures Value() == Row(orgId, target, timing, true, None, NextOccurrence(timing, now).value, None, None, 0)
      ensures this.id == id
    {
      NextOccurrenceFailsIff(timing, now);
      this.id, this.orgId, this.target := id, orgId, target;
      cadence, hourUtc, weekday := timing.cadence, timing.hourUtc, timing.weekday;
      isEnabled, disabledReason := true, None;
      nextRunAt := InitialNextRun(timing, now).value;
      lastRunAt, lastScan, failures := None, None, 0;
    }

    /** `advance`: past `after`, or past the current value when none is given. */
    method Advance(after: Option<Moment>) returns (next: Moment)
      requires Runnable(Value().timing)
      modifies this`nextRunAt
      ensures NextOccurrence(Value().timing, if after.Some? then after.value else old(nextRunAt)) == Success(next)
      ensures Value() == old(Value()).(nextRunAt := next)
    {
      var moment := if after.Some? then after.value else nextRunAt;
      NextOccurrenceFailsIff(Value().timing, moment);
      nextRunAt := NextOccurrence(Timing(cadence, hourUtc, weekday), moment).value;
      next := nextRunAt;
    }

    method Disable(reason: Reason)
      modifies this`isEnabled, this`disabledReason
      ensures Value() == Disabled(old(Value()), reason)
    {
      isEnabled := false;
      disabledReason := Some(reason);
    }

    /** `run_schedule_now`, its write to the schedule: the cadence is not disturbed. */
    method MarkRun(scan: ScanId, now: Moment)
      modifies this`lastScan, this`lastRunAt
      ensures Value() == old(Value()).(lastRunAt := Some(now), lastScan := Some(scan))
      ensures nextRunAt == old(nextRunAt)
    {
      lastScan := Some(scan);
      lastRunAt := Some(now);
    }

    /** `update_schedule`: fields in the handler's order, written back only when the edit is accepted. */
    method Update(e: Edit, now: Moment) returns (r: Result<Row, TimingError>)
      modifies this
      ensures r == ApplyEdit(old(Value()), e, now)
      ensures Value() == if r.Success? then r.value else old(Value())
    {
      var newCadence, newHour, newWeekday := cadence, hourUtc, weekday;
      var newEnabled, newReason, newFailures := isEnabled, disabledReason, failures;
      if e.cadence.Some? {
        newCadence := e.cadence.value;
        if !newCadence.Weekly? {
          newWeekday := None;
        }
      }
      if e.hourUtc.Some? {
        newHour := e.hourUtc.value;
      }
      if e.weekday.Some? {
        newWeekday := e.weekday;
      }
      if e.enabled.Some? && e.enabled.value != isEnabled {
        newEnabled := e.enabled.value;
        if newEnabled {
          newFailures, newReason := 0, None;
        }
      }
      if newCadence.Weekly? && newWeekday.None? {
        return Failure(WeekdayMissing);
      }
      var next := NextOccurrence(Timing(newCadence, newHour, newWeekday), now);
      if next.Failure? {
        return Failure(next.error);
      }
      cadence, hourUtc, weekday := newCadence, newHour, newWeekday;
      isEnabled, disabledReason, failures := newEnabled, newReason, newFailures;
      nextRunAt := next.value;
      return Success(Value());
    }
  }

  /** Whatever can happen to a row between two looks at it. */
  datatype Event =
    | Ticked(at: Moment, selected: bool, exit: Exit)  // `selected`: in the batch and not locked elsewhere
    | Edited(at: Moment, edit: Edit)
    | RanNow(at: Moment, scan: ScanId)
    | PublishSucceeded
    | PublishFailed
    | SwitchedOff(reason: Reason)

  /** How a tick leaves a schedule it has taken. */
  datatype Exit = Dispatched(scan: ScanId) | Skipped | Refused(reason: Reason)

  predicate Fires(row: Row, e: Event) {
    e.Ticked? && e.selected && Due(row, e.at)
  }

  /** A due row that a tick has taken: advanced first, whatever exit follows. */
  function Fired(row: Row, at: Moment, exit: Exit): Row
    requires Runnable(row.timing)
  {
    var taken := Taken(row, at);
    match exit
    case Dispatched(scan) => taken.(lastScan := Some(scan))
    case Skipped => taken
    case Refused(reason) => Disabled(taken, reason)
  }

  function After(row: Row, e: Event, maxFailures: int): Row
    requires Runnable(row.timing)
  {
    match e
    case Ticked(at, _, exit) => if Fires(row, e) then Fired(row, at, exit) else row
    case Edited(at, edit) =>
      var r := ApplyEdit(row, edit, at);
      if r.Success? then r.value else row
    case RanNow(at, scan) => row.(lastRunAt := Some(at), lastScan := Some(scan))
    case PublishSucceeded => QueueSucceeded(row)
    case PublishFailed => QueueFailed(row, maxFailures)
    case SwitchedOff(reason) => Disabled(row, reason)
  }

  predicate Timed(e: Event) {
    e.Ticked? || e.Edited? || e.RanNow?
  }

  /** Events of one run: moments are real, edits pass the schema, and time does not go back. */
  predicate Plausible(events: seq<Event>) {
    && (forall i :: 0 <= i < |events| && Timed(events[i]) ==> events[i].at.Valid())
    && (forall i :: 0 <= i < |events| && events[i].Edited? ==> ValidEdit(events[i].edit))
    && (forall i, j :: 0 <= i < j < |events| && Timed(events[i]) && Timed(events[j]) ==>
          events[i].at.Ticks() <= events[j].at.Ticks())
  }

  /** Every step keeps the row runnable and its next instant on the grid in force. */
  lemma AfterKeepsWellFormed(row: Row, e: Event, maxFailures: int)
    requires WellFormed(row)
    requires Timed(e) ==> e.at.Valid()
    requires e.Edited? ==> ValidEdit(e.edit)
    ensures WellFormed(After(row, e, maxFailures))
  {
    match e {
      case Ticked(at, _, _) => NextOccurrenceOnGrid(row.timing, at);
      case Edited(at, edit) =>
        var timing := EditedTiming(row.timing, edit);
        if !(timing.cadence.Weekly? && timing.weekday.None?) {
          NextOccurrenceOnGrid(timing, at);
        }
      case _ =>
    }
  }

  /** The row just before event `n`. */
  function RowAt(row: Row, events: seq<Event>, n: nat, maxFailures: int): (r: Row)
    requires WellFormed(row) && Plausible(events) && n <= |events|
    ensures WellFormed(r)
  {
    if n == 0 then row else
    var before := RowAt(row, events, n - 1, maxFailures);
    AfterKeepsWellFormed(before, events[n - 1], maxFailures);
    After(before, events[n - 1], maxFailures)
  }

  predicate FiresAt(row: Row, events: seq<Event>, n: nat, maxFailures: int)
    requires WellFormed(row) && Plausible(events) && n < |events|
  {
    Fires(RowAt(row, events, n, maxFailures), events[n])
  }

  /** Once fired at some moment, the next run lies after that moment until it fires again. */
  lemma {:induction false} NextRunStaysAhead(row: Row, events: seq<Event>, i: nat, n: nat, maxFailures: int)
    requires WellFormed(row) && Plausible(events) && i < n <= |events|
    requires FiresAt(row, events, i, maxFailures)
    ensures events[i].at.Ticks() < RowAt(row, events, n, maxFailures).nextRunAt.Ticks()
  {
    var before := RowAt(row, events, n - 1, maxFailures);
    if i < n - 1 {
      NextRunStaysAhead(row, events, i, n - 1, maxFailures);
    }
    match events[n - 1] {
      case Ticked(at, _, _) => NextOccurrenceOnGrid(before.timing, at);
      case Edited(at, edit) =>
        if ApplyEdit(before, edit, at).Success? {
          NextOccurrenceOnGrid(EditedTiming(before.timing, edit), at);
        }
      case _ =>
    }
  }

  /**
   * No double fire: between two dispatches of one schedule lies an instant of the grid in force at
   * the second, after the first and no later than the second, whatever edits came between.
   */
  lemma NoDoubleFire(row: Row, events: seq<Event>, i: nat, j: nat, maxFailures: int)
    requires WellFormed(row) && Plausible(events) && i < j < |events|
    requires FiresAt(row, events, i, maxFailures) && FiresAt(row, events, j, maxFailures)
    ensures exists g: Moment ::
              g.Valid() && OnGrid(RowAt(row, events, j, maxFailures).timing, g)
              && events[i].at.Ticks() < g.Ticks() <= events[j].at.Ticks()
  {
    NextRunStaysAhead(row, events, i, j, maxFailures);
    var g := RowAt(row, events, j, maxFailures).nextRunAt;
    assert g.Valid() && OnGrid(RowAt(row, events, j, maxFailures).timing, g);
  }

  /** Dispatches among the first `n` events, whichever exit path each took. */
  function FireCount(row: Row, events: seq<Event>, n: nat, maxFailures: int): nat
    requires WellFormed(row) && Plausible(events) && n <= |events|
  {
    if n == 0 then 0 else
    FireCount(row, events, n - 1, maxFailures) + (if FiresAt(row, events, n - 1, maxFailures) then 1 else 0)
  }

  lemma GridGrows(t: Timing, from: int, mid: int, g: Moment, to: int)
    requires g.Valid() && OnGrid(t, g) && from <= mid < g.Ticks() <= to
    ensures |GridBetween(t, from, to)| >= |GridBetween(t, from, mid)| + 1
  {
    OnGridAtTick(t, g);
    SubsetSize(GridBetween(t, from, mid) + {g.Ticks()}, GridBetween(t, from, to));
  }

  lemma {:induction false} FiresUpTo(row: Row, events: seq<Event>, from: int, n: nat, maxFailures: int)
    returns (last: int)
    requires WellFormed(row) && Plausible(events) && n <= |events|
    requires forall i :: 0 <= i < |events| ==> !events[i].Edited?
    requires from < row.nextRunAt.Ticks()
    ensures from <= last < RowAt(row, events, n, maxFailures).nextRunAt.Ticks()
    ensures last == from || exists i :: 0 <= i < n && events[i].Ticked? && last == events[i].at.Ticks()
    ensures RowAt(row, events, n, maxFailures).timing == row.timing
    ensures FireCount(row, events, n, maxFailures) <= |GridBetween(row.timing, from, last)|
  {
    if n == 0 {
      last := from;
    } else {
      last := FiresUpTo(row, events, from, n - 1, maxFailures);
      var before := RowAt(row, events, n - 1, maxFailures);
      if FiresAt(row, events, n - 1, maxFailures) {
        GridGrows(row.timing, from, last, before.nextRunAt, events[n - 1].at.Ticks());
        NextOccurrenceOnGrid(before.timing, events[n - 1].at);
        last := events[n - 1].at.Ticks();
      }
    }
  }

  /**
   * No catch-up: left unedited, a schedule created at `created` is dispatched up to `to` at most as
   * often as the grid has instants in (created, to].
   */
  lemma NoCatchUp(row: Row, events: seq<Event>, created: Moment, to: int, maxFailures: int)
    requires Plausible(events) && created.Valid() && created.Ticks() <= to
    requires Runnable(row.timing) && 0 <= row.timing.hourUtc < 24
    requires InitialNextRun(row.timing, created) == Success(row.nextRunAt)
    requires forall i :: 0 <= i < |events| ==> !events[i].Edited?
    requires forall i :: 0 <= i < |events| && events[i].Ticked? ==> events[i].at.Ticks() <= to
    ensures WellFormed(row)
    ensures FireCount(row, events, |events|, maxFailures) <= |GridBetween(row.timing, created.Ticks(), to)|
  {
    NextOccurrenceOnGrid(row.timing, created);
    var last := FiresUpTo(row, events, created.Ticks(), |events|, maxFailures);
    SubsetSize(GridBetween(row.timing, created.Ticks(), last), GridBetween(row.timing, created.Ticks(), to));
  }

  /** An edit that switches a schedule on. */
  predicate SwitchesOn(e: Event) {
    e.Edited? && e.edit.enabled == Some(true)
  }

  /** A schedule that was switched off does not fire again, whatever happens, until an edit switches it on. */
  lemma {:induction false} SwitchedOffStaysOff(row: Row, events: seq<Event>, n: nat, maxFailures: int)
    requires WellFormed(row) && Plausible(events) && n <= |events| && !row.enabled
    requires forall i :: 0 <= i < n ==> !SwitchesOn(events[i])
    ensures !RowAt(row, events, n, maxFailures).enabled && FireCount(row, events, n, maxFailures) == 0
  {
    if n > 0 {
      SwitchedOffStaysOff(row, events, n - 1, maxFailures);
    }
  }

  /** The run with every manual run left out: at its moment a tick passes the row by. */
  function WithoutManualRuns(events: seq<Event>): (idle: seq<Event>)
    ensures |idle| == |events|
    ensures forall i :: 0 <= i < |events| ==>
              idle[i] == if events[i].RanNow? then Ticked(events[i].at, false, Skipped) else events[i]
  {
    seq(|events|, i requires 0 <= i < |events| =>
      if events[i].RanNow? then Ticked(events[i].at, false, Skipped) else events[i])
  }

  lemma PlausibleWithoutManualRuns(events: seq<Event>)
    requires Plausible(events)
    ensures Plausible(WithoutManualRuns(events))
  {
    var idle := WithoutManualRuns(events);
    forall i | 0 <= i < |events| ensures Timed(idle[i]) == Timed(events[i]) && (Timed(events[i]) ==> idle[i].at == events[i].at) {
    }
  }

  /** Two rows that differ at most in what the last scan was. */
  predicate SameCadence(a: Row, b: Row) {
    a == b.(lastRunAt := a.lastRunAt, lastScan := a.lastScan)
  }

  lemma SameCadenceGoesOn(a: Row, b: Row, e: Event, idle: Event, maxFailures: int)
    requires SameCadence(a, b) && Runnable(a.timing)
    requires idle == if e.RanNow? then Ticked(e.at, false, Skipped) else e
    ensures SameCadence(After(a, e, maxFailures), After(b, idle, maxFailures)) && (Fires(a, e) <==> Fires(b, idle))
  {
  }

  /**
   * Running now does not disturb the cadence: left out, all manual runs of a history change neither how often
   * the schedule is dispatched nor anything of its row but the last run.
   */
  lemma {:induction false} ManualRunsKeepCadence(row: Row, events: seq<Event>, n: nat, maxFailures: int)
    requires WellFormed(row) && Plausible(events) && n <= |events|
    ensures Plausible(WithoutManualRuns(events))
    ensures var idle := WithoutManualRuns(events);
            && SameCadence(RowAt(row, events, n, maxFailures), RowAt(row, idle, n, maxFailures))
            && FireCount(row, events, n, maxFailures) == FireCount(row, idle, n, maxFailures)
  {
    PlausibleWithoutManualRuns(events);
    if n > 0 {
      ManualRunsKeepCadence(row, events, n - 1, maxFailures);
      var idle := WithoutManualRuns(events);
      SameCadenceGoesOn(RowAt(row, events, n - 1, maxFailures), RowAt(row, idle, n - 1, maxFailures),
                        events[n - 1], idle[n - 1], maxFailures);
    }
  }

  /** What an accepted edit leaves in each column: given fields as given, the day kept only while the cadence may need it. */
  predicate EditLeaves(row: Row, e: Edit, now: Moment, after: Row) {
    && after.timing.cadence == (if e.cadence.Some? then e.cadence.value else row.timing.cadence)
    && after.timing.hourUtc == (if e.hourUtc.Some? then e.hourUtc.value else row.timing.hourUtc)
    && (e.weekday.Some? ==> after.timing.weekday == e.weekday)
    && (e.weekday.None? && e.cadence.Some? && !e.cadence.value.Weekly? ==> after.timing.weekday == None)
    && (e.weekday.None? && (e.cadence.None? || e.cadence.value.Weekly?) ==> after.timing.weekday == row.timing.weekday)
    && after.enabled == (if e.enabled.Some? then e.enabled.value else row.enabled)
    && (if !row.enabled && after.enabled then after.failures == 0 && after.disabledReason == None
        else after.failures == row.failures && after.disabledReason == row.disabledReason)
    && after.orgId == row.orgId && after.target == row.target
    && after.lastRunAt == row.lastRunAt && after.lastScan == row.lastScan
  }

  /**
   * An edit of a well-formed row is refused exactly when it makes the schedule weekly without a day; otherwise
   * every column is as the edit and the old row say, and the next run is the first on the new grid after now.
   */
  lemma EditLaw(row: Row, e: Edit, now: Moment)
    requires WellFormed(row) && ValidEdit(e) && now.Valid()
    ensures var r := ApplyEdit(row, e, now);
            var weekly := if e.cadence.Some? then e.cadence.value.Weekly? else row.timing.cadence.Weekly?;
            && (r.Failure? <==> weekly && e.weekday.None? && row.timing.weekday.None?)
            && (r.Success? ==>
                  && EditLeaves(row, e, now, r.value)
                  && r.value.nextRunAt.Valid() && OnGrid(r.value.timing, r.value.nextRunAt)
                  && now.Ticks() < r.value.nextRunAt.Ticks() <= now.Ticks() + Period(r.value.timing.cadence))
  {
    var timing := EditedTiming(row.timing, e);
    if !(timing.cadence.Weekly? && timing.weekday.None?) {
      NextOccurrenceOnGrid(timing, now);
    }
  }

  /** What ends a failure streak: a successful publish, or an edit that switches the schedule on. */
  predicate EndsStreak(row: Row, e: Event) {
    e.PublishSucceeded?
    || (e.Edited? && !row.enabled && e.edit.enabled == Some(true) && ApplyEdit(row, e.edit, e.at).Success?)
  }

  /** The failed publishes from event `m` up to event `n`. */
  function FailedBetween(events: seq<Event>, m: nat, n: nat): nat
    requires m <= n <= |events|
  {
    if m == n then 0 else FailedBetween(events, m, n - 1) + if events[n - 1].PublishFailed? then 1 else 0
  }

  predicate StreakGoesOn(row: Row, events: seq<Event>, m: nat, n: nat, maxFailures: int)
    requires WellFormed(row) && Plausible(events) && m <= n <= |events|
  {
    forall k :: m <= k < n ==> !EndsStreak(RowAt(row, events, k, maxFailures), events[k])
  }

  lemma StepOnFailures(row: Row, e: Event, maxFailures: int)
    requires Runnable(row.timing)
    ensures After(row, e, maxFailures).failures ==
            if EndsStreak(row, e) then 0 else row.failures + if e.PublishFailed? then 1 else 0
  {
  }

  /** The counter is the number of failed publishes since the streak began. */
  lemma {:induction false} FailuresCountTheStreak(row: Row, events: seq<Event>, m: nat, n: nat, maxFailures: int)
    requires WellFormed(row) && Plausible(events) && m <= n <= |events|
    requires StreakGoesOn(row, events, m, n, maxFailures)
    requires m == 0 || EndsStreak(RowAt(row, events, m - 1, maxFailures), events[m - 1])
    ensures RowAt(row, events, n, maxFailures).failures
            == (if m == 0 then row.failures else 0) + FailedBetween(events, m, n)
    decreases n
  {
    if n > 0 {
      var before := RowAt(row, events, n - 1, maxFailures);
      assert RowAt(row, events, n, maxFailures) == After(before, events[n - 1], maxFailures);
      StepOnFailures(before, events[n - 1], maxFailures);
      if m < n {
        FailuresCountTheStreak(row, events, m, n - 1, maxFailures);
        assert !EndsStreak(before, events[n - 1]);
      }
    }
  }

  /**
   * Exactly when an enabled schedule is switched off: by a publish that fails as the streak reaches the limit,
   * by a tick that refuses it, by an edit that says so, or from outside, each leaving its own reason.
   */
  lemma SwitchedOffIff(row: Row, e: Event, maxFailures: int)
    requires WellFormed(row) && row.enabled
    ensures var after := After(row, e, maxFailures);
            && (!after.enabled <==>
                  || (e.PublishFailed? && row.failures + 1 >= maxFailures)
                  || (Fires(row, e) && e.exit.Refused?)
                  || (e.Edited? && e.edit.enabled == Some(false) && ApplyEdit(row, e.edit, e.at).Success?)
                  || e.SwitchedOff?)
            && (!after.enabled && e.PublishFailed? ==> after.disabledReason == Some(QueueFailures(row.failures + 1)))
            && (!after.enabled && e.Ticked? ==> after.disabledReason == Some(e.exit.reason))
            && (e.SwitchedOff? ==> after.disabledReason == Some(e.reason))
  {
    if e.Ticked? {
      NextOccurrenceFailsIff(row.timing, e.at);
    }
  }

  /** The failures that switch a schedule off: the streak has reached the limit, and never before. */
  lemma StreakSwitchesOffIff(row: Row, events: seq<Event>, m: nat, n: nat, maxFailures: int)
    requires WellFormed(row) && Plausible(events) && m <= n < |events| && events[n].PublishFailed?
    requires StreakGoesOn(row, events, m, n, maxFailures) && RowAt(row, events, n, maxFailures).enabled
    requires m == 0 || EndsStreak(RowAt(row, events, m - 1, maxFailures), events[m - 1])
    ensures !RowAt(row, events, n + 1, maxFailures).enabled <==>
              (if m == 0 then row.failures else 0) + FailedBetween(events, m, n + 1) >= maxFailures
  {
    FailuresCountTheStreak(row, events, m, n, maxFailures);
  }

  /** The grid has an instant after `from` and no later than `to`. */
  ghost predicate GridSince(t: Timing, from: Moment, to: Moment) {
    exists g: Moment :: g.Valid() && OnGrid(t, g) && from.Ticks() < g.Ticks() <= to.Ticks()
  }

  /** Due since `m`: the grid has had an instant after it. */
  lemma DueIff(row: Row, m: Moment, at: Moment)
    requires WellFormed(row) && row.enabled && m.Valid() && NextOccurrence(row.timing, m) == Success(row.nextRunAt)
    ensures Due(row, at) <==> GridSince(row.timing, m, at)
  {
    NextOccurrenceIsLeast(row.timing, m);
    if Due(row, at) {
      var g := row.nextRunAt;
      assert g.Valid() && OnGrid(row.timing, g) && m.Ticks() < g.Ticks() <= at.Ticks();
    }
  }

  /** Neither dispatched nor edited from event `i` up to event `n`. */
  predicate LeftAlone(row: Row, events: seq<Event>, i: nat, n: nat, maxFailures: int)
    requires WellFormed(row) && Plausible(events) && i <= n <= |events|
  {
    forall k :: i <= k < n ==> !FiresAt(row, events, k, maxFailures) && !events[k].Edited?
  }

  lemma StepLeftAlone(row: Row, e: Event, maxFailures: int)
    requires Runnable(row.timing) && !Fires(row, e) && !e.Edited?
    ensures var after := After(row, e, maxFailures);
            after.timing == row.timing && after.nextRunAt == row.nextRunAt
  {
  }

  lemma {:induction false} NextRunIsKept(row: Row, events: seq<Event>, i: nat, n: nat, maxFailures: int)
    requires WellFormed(row) && Plausible(events) && i <= n <= |events| && LeftAlone(row, events, i, n, maxFailures)
    ensures var a, b := RowAt(row, events, i, maxFailures), RowAt(row, events, n, maxFailures);
            b.timing == a.timing && b.nextRunAt == a.nextRunAt
    decreases n
  {
    if i < n {
      NextRunIsKept(row, events, i, n - 1, maxFailures);
      assert !FiresAt(row, events, n - 1, maxFailures);
      StepLeftAlone(RowAt(row, events, n - 1, maxFailures), events[n - 1], maxFailures);
    }
  }

  /** Left alone after a dispatch, the row waits for the first grid instant after it. */
  lemma NextRunAfterDispatch(row: Row, events: seq<Event>, i: nat, j: nat, maxFailures: int)
    requires WellFormed(row) && Plausible(events) && i < j <= |events| && FiresAt(row, events, i, maxFailures)
    requires LeftAlone(row, events, i + 1, j, maxFailures)
    ensures var before, after := RowAt(row, events, i, maxFailures), RowAt(row, events, j, maxFailures);
            after.timing == before.timing && NextOccurrence(before.timing, events[i].at) == Success(after.nextRunAt)
  {
    FiredRow(RowAt(row, events, i, maxFailures), events[i], maxFailures);
    NextRunIsKept(row, events, i + 1, j, maxFailures);
  }

  /**
   * Exactly when a schedule is dispatched again: a tick that finds it enabled, after a dispatch at event `i` and
   * nothing since, dispatches it just if the grid has an instant since then.
   */
  lemma FiresAgainIff(row: Row, events: seq<Event>, i: nat, j: nat, maxFailures: int)
    requires WellFormed(row) && Plausible(events) && i < j < |events| && FiresAt(row, events, i, maxFailures)
    requires LeftAlone(row, events, i + 1, j, maxFailures)
    requires events[j].Ticked? && events[j].selected && RowAt(row, events, j, maxFailures).enabled
    ensures FiresAt(row, events, j, maxFailures) <==>
              GridSince(RowAt(row, events, i, maxFailures).timing, events[i].at, events[j].at)
  {
    NextRunAfterDispatch(row, events, i, j, maxFailures);
    DueIff(RowAt(row, events, j, maxFailures), events[i].at, events[j].at);
  }

  lemma FiredRow(row: Row, e: Event, maxFailures: int)
    requires WellFormed(row) && Fires(row, e)
    ensures var after := After(row, e, maxFailures);
            after.timing == row.timing && NextOccurrence(row.timing, e.at) == Success(after.nextRunAt)
  {
    NextOccurrenceFailsIff(row.timing, e.at);
  }

  /** The event writes the last-run columns: a dispatch, whatever its exit, or a manual run. */
  predicate MarksRun(row: Row, e: Event) {
    Fires(row, e) || e.RanNow?
  }

  /** The scan the event leaves behind as the last one, if it makes one. */
  function ScanOf(e: Event): Option<ScanId> {
    match e
    case RanNow(_, scan) => Some(scan)
    case Ticked(_, _, Dispatched(scan)) => Some(scan)
    case _ => None
  }

  lemma StepOnLastRun(row: Row, e: Event, maxFailures: int)
    requires Runnable(row.timing)
    ensures var after := After(row, e, maxFailures);
            && after.lastRunAt == (if MarksRun(row, e) then Some(e.at) else row.lastRunAt)
            && after.lastScan == (if MarksRun(row, e) && ScanOf(e).Some? then ScanOf(e) else row.lastScan)
  {
  }

  /** The row remembers its last run: the moment of the last event that marked one, and the scan that made, if any. */
  lemma {:induction false} LastRunIsRemembered(row: Row, events: seq<Event>, k: nat, n: nat, maxFailures: int)
    requires WellFormed(row) && Plausible(events) && k < n <= |events|
    requires MarksRun(RowAt(row, events, k, maxFailures), events[k])
    requires forall i :: k < i < n ==> !MarksRun(RowAt(row, events, i, maxFailures), events[i])
    ensures var before, after := RowAt(row, events, k, maxFailures), RowAt(row, events, n, maxFailures);
            && after.lastRunAt == Some(events[k].at)
            && after.lastScan == if ScanOf(events[k]).Some? then ScanOf(events[k]) else before.lastScan
    decreases n
  {
    StepOnLastRun(RowAt(row, events, n - 1, maxFailures), events[n - 1], maxFailures);
    if k < n - 1 {
      LastRunIsRemembered(row, events, k, n - 1, maxFailures);
    }
  }
}
