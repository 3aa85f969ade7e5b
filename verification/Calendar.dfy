/** Calendar arithmetic of recurring scans (backend/models/scan_schedule.py). */
module Calendar {
  import opened Results

  datatype Cadence = Hourly | Daily | Weekly

  const MICROS_PER_HOUR := 3_600_000_000
  const MICROS_PER_DAY := 24 * MICROS_PER_HOUR

  /** A UTC datetime by its fields. `day` is the proleptic ordinal, day 1 being a Monday. */
  datatype Moment = Moment(day: int, hour: nat, minute: nat, second: nat, micro: nat) {

    predicate Valid() {
      hour < 24 && minute < 60 && second < 60 && micro < 1_000_000
    }

    /** Position on the time line, in microseconds. */
    function Ticks(): int {
      day * MICROS_PER_DAY + hour * MICROS_PER_HOUR + minute * 60_000_000 + second * 1_000_000 + micro
    }

    /** Monday is 0. */
    function Weekday(): nat {
      (day + 6) % 7
    }

    function TopOfHour(h: nat): Moment {
      Moment(day, h, 0, 0, 0)
    }

    function PlusDays(n: int): Moment {
      this.(day := day + n)
    }

    function PlusHour(): Moment {
      if hour == 23 then this.(day := day + 1, hour := 0) else this.(hour := hour + 1)
    }
  }

  /** The timing columns of a schedule. The hour is ignored by `Hourly`. */
  datatype Timing = Timing(cadence: Cadence, hourUtc: int, weekday: Option<int>)

  datatype TimingError = HourOutOfRange | WeekdayMissing

  /** The first scheduled instant strictly after `after`, branch by branch as the scheduler computes it. */
  function NextOccurrence(t: Timing, after: Moment): Result<Moment, TimingError> {
    match t.cadence
    case Hourly => Success(after.TopOfHour(after.hour).PlusHour())
    case Daily =>
      if !(0 <= t.hourUtc < 24) then Failure(HourOutOfRange) else
      var candidate := after.TopOfHour(t.hourUtc);
      Success(if candidate.Ticks() <= after.Ticks() then candidate.PlusDays(1) else candidate)
    case Weekly =>
      if t.weekday.None? then Failure(WeekdayMissing)
      else if !(0 <= t.hourUtc < 24) then Failure(HourOutOfRange) else
      var today := after.TopOfHour(t.hourUtc);
      var candidate := today.PlusDays((t.weekday.value - today.Weekday()) % 7);
      Success(if candidate.Ticks() <= after.Ticks() then candidate.PlusDays(7) else candidate)
  }

  /** `next_run_at` of a schedule that has never run. */
  function InitialNextRun(t: Timing, now: Moment): Result<Moment, TimingError> {
    NextOccurrence(t, now)
  }

  /** A timing the database constraints admit for dispatch. */
  predicate Runnable(t: Timing) {
    (t.cadence.Hourly? || 0 <= t.hourUtc < 24) && (t.cadence.Weekly? ==> t.weekday.Some?)
  }

  /** Reference definition, by the fields a reader would look at on a clock: the instants of a cadence. */
  predicate OnGrid(t: Timing, m: Moment) {
    && m.minute == 0 && m.second == 0 && m.micro == 0
    && (t.cadence.Hourly? || m.hour == t.hourUtc)
    && (t.cadence.Weekly? ==> t.weekday.Some? && m.Weekday() == t.weekday.value % 7)
  }

  function Period(c: Cadence): nat {
    match c
    case Hourly => MICROS_PER_HOUR
    case Daily => MICROS_PER_DAY
    case Weekly => 7 * MICROS_PER_DAY
  }

  function OnePeriodLater(c: Cadence, m: Moment): Moment {
    match c
    case Hourly => m.PlusHour()
    case Daily => m.PlusDays(1)
    case Weekly => m.PlusDays(7)
  }

  /** Step one period at a time until past `limit`. */
  function StepPast(c: Cadence, m: Moment, limit: Moment): Moment
    requires m.Valid()
    decreases limit.Ticks() - m.Ticks()
  {
    if m.Ticks() > limit.Ticks() then m else StepPast(c, OnePeriodLater(c, m), limit)
  }

  lemma TicksBracket(m: Moment)
    requires m.Valid()
    ensures m.day * MICROS_PER_DAY <= m.Ticks() < (m.day + 1) * MICROS_PER_DAY
    ensures m.day * MICROS_PER_DAY + m.hour * MICROS_PER_HOUR <= m.Ticks()
    ensures m.Ticks() < m.day * MICROS_PER_DAY + (m.hour + 1) * MICROS_PER_HOUR
  {
  }

  lemma TicksInjective(a: Moment, b: Moment)
    requires a.Valid() && b.Valid() && a.Ticks() == b.Ticks()
    ensures a == b
  {
    TicksBracket(a);
    TicksBracket(b);
    assert a.day == b.day;
    assert a.hour == b.hour;
  }

  /** Distinct grid instants are at least one period apart. */
  lemma GridSpacing(t: Timing, a: Moment, b: Moment)
    requires a.Valid() && b.Valid() && OnGrid(t, a) && OnGrid(t, b)
    requires a.Ticks() < b.Ticks()
    ensures a.Ticks() + Period(t.cadence) <= b.Ticks()
  {
    TicksBracket(a);
    TicksBracket(b);
    assert a.day <= b.day;
    if t.cadence.Weekly? {
      assert a.day < b.day;
      assert (a.day + 6) % 7 == (b.day + 6) % 7;
      assert (b.day - a.day) % 7 == 0;
    }
  }

  lemma OnePeriodLaterOnGrid(t: Timing, m: Moment)
    requires m.Valid() && OnGrid(t, m)
    ensures var n := OnePeriodLater(t.cadence, m);
            n.Valid() && OnGrid(t, n) && n.Ticks() == m.Ticks() + Period(t.cadence)
  {
  }

  /** `NextOccurrence` fails exactly on the timings the constraints forbid. */
  lemma NextOccurrenceFailsIff(t: Timing, after: Moment)
    ensures NextOccurrence(t, after).Success? <==> Runnable(t)
  {
  }

  lemma WeekdayShift(day: int, weekday: int)
    ensures var shift := (weekday - (day + 6) % 7) % 7;
            0 <= shift < 7 && (day + shift + 6) % 7 == weekday % 7
  {
  }

  lemma WeekdayRepeats(m: Moment)
    ensures m.PlusDays(7).Weekday() == m.Weekday()
  {
  }

  /** The wall-clock part of the weekly rule: at most six days ahead, one more week when already past. */
  lemma WeeklyBounds(after: Moment, hour: nat, shift: nat)
    requires after.Valid() && hour < 24 && shift < 7
    ensures var candidate := after.TopOfHour(hour).PlusDays(shift);
            var r := if candidate.Ticks() <= after.Ticks() then candidate.PlusDays(7) else candidate;
            after.Ticks() < r.Ticks() <= after.Ticks() + Period(Weekly)
  {
    var candidate := after.TopOfHour(hour).PlusDays(shift);
    TicksBracket(after);
    TicksBracket(candidate);
  }

  lemma NextWeeklyOnGrid(t: Timing, after: Moment)
    requires t.cadence.Weekly? && Runnable(t) && after.Valid()
    ensures NextOccurrence(t, after).Success?
    ensures var r := NextOccurrence(t, after).value;
            r.Valid() && OnGrid(t, r) && after.Ticks() < r.Ticks() <= after.Ticks() + Period(Weekly)
  {
    var today := after.TopOfHour(t.hourUtc);
    var shift := (t.weekday.value - today.Weekday()) % 7;
    WeekdayShift(after.day, t.weekday.value);
    WeekdayRepeats(today.PlusDays(shift));
    WeeklyBounds(after, t.hourUtc, shift);
  }

  lemma NextOccurrenceOnGrid(t: Timing, after: Moment)
    requires Runnable(t) && after.Valid()
    ensures NextOccurrence(t, after).Success?
    ensures var r := NextOccurrence(t, after).value;
            r.Valid() && OnGrid(t, r) && after.Ticks() < r.Ticks() <= after.Ticks() + Period(t.cadence)
  {
    TicksBracket(after);
    if t.cadence.Weekly? {
      NextWeeklyOnGrid(t, after);
    }
  }

  /**
   * Minimality: the result is on the cadence's grid, strictly after `after`, at most one period
   * later, and no earlier grid instant lies after `after`.
   */
  lemma NextOccurrenceIsLeast(t: Timing, after: Moment)
    requires Runnable(t) && after.Valid()
    ensures NextOccurrence(t, after).Success?
    ensures var r := NextOccurrence(t, after).value;
            && r.Valid() && OnGrid(t, r)
            && after.Ticks() < r.Ticks() <= after.Ticks() + Period(t.cadence)
            && (forall g: Moment :: g.Valid() && OnGrid(t, g) && after.Ticks() < g.Ticks() ==> r.Ticks() <= g.Ticks())
  {
    NextOccurrenceOnGrid(t, after);
    var r := NextOccurrence(t, after).value;
    forall g: Moment | g.Valid() && OnGrid(t, g) && after.Ticks() < g.Ticks()
      ensures r.Ticks() <= g.Ticks()
    {
      if g.Ticks() < r.Ticks() {
        GridSpacing(t, g, r);
      }
    }
  }

  /** Least instants are unique, so anything else with the property is the computed one. */
  lemma LeastIsUnique(t: Timing, after: Moment, g: Moment)
    requires Runnable(t) && after.Valid() && g.Valid() && OnGrid(t, g)
    requires after.Ticks() < g.Ticks() <= after.Ticks() + Period(t.cadence)
    ensures NextOccurrence(t, after) == Success(g)
  {
    NextOccurrenceIsLeast(t, after);
    var r := NextOccurrence(t, after).value;
    if r.Ticks() < g.Ticks() {
      GridSpacing(t, r, g);
    }
    TicksInjective(r, g);
  }

  lemma {:induction false} StepPastShape(t: Timing, m: Moment, limit: Moment)
    requires m.Valid() && OnGrid(t, m)
    ensures var s := StepPast(t.cadence, m, limit);
            && s.Valid() && OnGrid(t, s) && limit.Ticks() < s.Ticks()
            && (m.Ticks() <= limit.Ticks() ==> s.Ticks() <= limit.Ticks() + Period(t.cadence))
    decreases limit.Ticks() - m.Ticks()
  {
    if m.Ticks() <= limit.Ticks() {
      OnePeriodLaterOnGrid(t, m);
      StepPastShape(t, OnePeriodLater(t.cadence, m), limit);
    }
  }

  /**
   * Jumping straight past `after` lands where stepping one period at a time from a grid instant
   * lands, exactly when the start is at most one period beyond `after`. A due row satisfies it.
   */
  lemma AdvanceIsStepping(t: Timing, nextRunAt: Moment, after: Moment)
    requires Runnable(t) && after.Valid() && nextRunAt.Valid() && OnGrid(t, nextRunAt)
    ensures NextOccurrence(t, after) == Success(StepPast(t.cadence, nextRunAt, after))
            <==> nextRunAt.Ticks() - Period(t.cadence) <= after.Ticks()
  {
    StepPastShape(t, nextRunAt, after);
    NextOccurrenceIsLeast(t, after);
    if nextRunAt.Ticks() - Period(t.cadence) <= after.Ticks() {
      LeastIsUnique(t, after, StepPast(t.cadence, nextRunAt, after));
    }
  }

  /** The moment at a tick: the inverse of `Ticks`. */
  function MomentAt(tick: int): (m: Moment)
    ensures m.Valid() && m.Ticks() == tick
  {
    var inDay := tick % MICROS_PER_DAY;
    var inHour := inDay % MICROS_PER_HOUR;
    var inMinute := inHour % 60_000_000;
    Moment(tick / MICROS_PER_DAY, inDay / MICROS_PER_HOUR, inHour / 60_000_000,
           inMinute / 1_000_000, inMinute % 1_000_000)
  }

  /** The grid instants in the half-open interval (from, to]. */
  function GridBetween(t: Timing, from: int, to: int): set<int> {
    set g: int | from < g <= to && OnGrid(t, MomentAt(g))
  }

  lemma OnGridAtTick(t: Timing, m: Moment)
    requires m.Valid()
    ensures OnGrid(t, MomentAt(m.Ticks())) <==> OnGrid(t, m)
  {
    TicksInjective(MomentAt(m.Ticks()), m);
  }
}
