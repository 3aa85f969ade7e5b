/** One scheduler tick: `dispatch_due_scans` and `_publish` (backend/workers/scheduler.py). */
module Dispatch {
  import opened Results
  import opened Calendar
  import opened Scope
  import opened ScanSlots
  import opened Schedules

  const MAX_PER_TICK := 100

  datatype Organisation = Organisation(isActive: bool, verifiedDomains: seq<string>)

  /** `authorise` is the scope check: a target and the authorised domains give the host to scan, or an error. */
  datatype Settings = Settings(
    cap: nat,
    maxFailures: int,
    authorise: (string, seq<string>) -> Result<string, ScopeError>)

  /** The service's settings; everything below holds for them as for any other. */
  function ServiceSettings(cap: nat, maxFailures: int, allowArbitrary: bool, classify: string -> IpClass): Settings {
    Settings(cap, maxFailures, (target, domains) => AssertInScope(target, domains, allowArbitrary, classify))
  }

  datatype Verdict = Refuse(reason: Reason) | Admissible(target: string)

  /** Everything but the cap: a live organisation that still covers the target. */
  function Judge(row: Row, orgs: map<OrgId, Organisation>, c: Settings): Verdict {
    if row.orgId !in orgs || !orgs[row.orgId].isActive then Refuse(InactiveOrganisation) else
    match c.authorise(row.target, Keys(orgs[row.orgId].verifiedDomains))
    case Success(target) => Admissible(target)
    case Failure(_) => Refuse(TargetNotAuthorised)
  }

  /** The schedule's organisation exists and is active. */
  predicate Stands(row: Row, orgs: map<OrgId, Organisation>) {
    row.orgId in orgs && orgs[row.orgId].isActive
  }

  /** It stands, and the scope check gives this host for the schedule's target. */
  predicate CoveredAs(row: Row, orgs: map<OrgId, Organisation>, c: Settings, host: string) {
    Stands(row, orgs) && c.authorise(row.target, Keys(orgs[row.orgId].verifiedDomains)) == Success(host)
  }

  predicate Covered(row: Row, orgs: map<OrgId, Organisation>, c: Settings) {
    Stands(row, orgs) && c.authorise(row.target, Keys(orgs[row.orgId].verifiedDomains)).Success?
  }

  /** A due row together with its key and the id a scan made from it would get. */
  datatype Candidate = Candidate(schedule: ScheduleId, row: Row, scan: ScanId)

  /** The scan one due row asks for, if any. */
  function AskedBy(one: Candidate, orgs: map<OrgId, Organisation>, c: Settings): seq<Request> {
    match Judge(one.row, orgs, c)
    case Refuse(_) => []
    case Admissible(target) => [Request(one.scan, one.row.orgId, target, Some(one.schedule))]
  }

  /** The scans a batch asks for, before the cap is applied. */
  function Eligible(batch: seq<Candidate>, orgs: map<OrgId, Organisation>, c: Settings): (rs: seq<Request>)
    ensures |rs| <= |batch|
  {
    if batch == [] then [] else
    Eligible(batch[..|batch| - 1], orgs, c) + AskedBy(batch[|batch| - 1], orgs, c)
  }

  function ForOrg(rs: seq<Request>, org: OrgId): seq<Request> {
    if rs == [] then [] else
    ForOrg(rs[..|rs| - 1], org) + (if rs[|rs| - 1].orgId == org then [rs[|rs| - 1]] else [])
  }

  /** Requests admitted in order, each against the rows present at the start and those admitted before it. */
  function Greedy(cap: nat, scans: map<ScanId, Scan>, rs: seq<Request>): (admitted: seq<Request>)
    ensures |admitted| <= |rs|
  {
    if rs == [] then [] else
    Admit(cap, scans, Greedy(cap, scans, rs[..|rs| - 1]), rs[|rs| - 1])
  }

  function Admit(cap: nat, scans: map<ScanId, Scan>, front: seq<Request>, r: Request): seq<Request> {
    if Active(scans, r.orgId) + |ForOrg(front, r.orgId)| >= cap then front else front + [r]
  }

  function Ids(rs: seq<Request>): set<ScanId> {
    set r <- rs :: r.id
  }

  function InsertAll(scans: map<ScanId, Scan>, rs: seq<Request>): map<ScanId, Scan> {
    if rs == [] then scans else
    var r := rs[|rs| - 1];
    InsertAll(scans, rs[..|rs| - 1])[r.id := Scan(r.orgId, r.target, Queued, false)]
  }

  /** How a tick leaves one due row, given the scan rows present when it reaches it. */
  function ExitFor(row: Row, id: ScanId, orgs: map<OrgId, Organisation>, scans: map<ScanId, Scan>, c: Settings): Exit {
    match Judge(row, orgs, c)
    case Refuse(reason) => Refused(reason)
    case Admissible(_) => if Active(scans, row.orgId) >= c.cap then Skipped else Dispatched(id)
  }

  /** What the loop over the batch has accumulated. */
  datatype Tally = Tally(scans: map<ScanId, Scan>, pending: seq<Request>, skipped: nat, disabled: nat)

  /** One more row: the exit it takes against the rows present, and what that adds. */
  function Count(t: Tally, one: Candidate, orgs: map<OrgId, Organisation>, c: Settings): Tally {
    var exit := ExitFor(one.row, one.scan, orgs, t.scans, c);
    match Judge(one.row, orgs, c)
    case Refuse(_) => t.(disabled := t.disabled + 1)
    case Admissible(target) =>
      if exit.Skipped? then t.(skipped := t.skipped + 1) else
      t.(scans := t.scans[one.scan := Scan(one.row.orgId, target, Queued, false)],
         pending := t.pending + [Request(one.scan, one.row.orgId, target, Some(one.schedule))])
  }

  /** The tally after the first `n` rows. */
  function TallyAt(batch: seq<Candidate>, n: nat, orgs: map<OrgId, Organisation>, scans: map<ScanId, Scan>, c: Settings): Tally
    requires n <= |batch|
  {
    if n == 0 then Tally(scans, [], 0, 0) else Count(TallyAt(batch, n - 1, orgs, scans, c), batch[n - 1], orgs, c)
  }

  /** The exit of row `i`, against the scan rows present when the tick reaches it. */
  function ExitOf(batch: seq<Candidate>, i: nat, orgs: map<OrgId, Organisation>, scans: map<ScanId, Scan>, c: Settings): Exit
    requires i < |batch|
  {
    ExitFor(batch[i].row, batch[i].scan, orgs, TallyAt(batch, i, orgs, scans, c).scans, c)
  }

  /** The schedule table after the first `n` rows of the batch. */
  function TableAfter(table: map<ScheduleId, Row>, batch: seq<Candidate>, n: nat, orgs: map<OrgId, Organisation>,
                      scans: map<ScanId, Scan>, c: Settings, moment: Moment): map<ScheduleId, Row>
    requires n <= |batch| && IsDueBatch(batch, moment)
  {
    if n == 0 then table else
    DueAt(batch, moment, n - 1);
    TableAfter(table, batch, n - 1, orgs, scans, c, moment)
      [batch[n - 1].schedule := Fired(batch[n - 1].row, moment, ExitOf(batch, n - 1, orgs, scans, c))]
  }

  /** Rows a tick may take. */
  predicate IsDueBatch(batch: seq<Candidate>, moment: Moment) {
    batch == []
    || (WellFormed(batch[|batch| - 1].row) && Due(batch[|batch| - 1].row, moment)
        && IsDueBatch(batch[..|batch| - 1], moment))
  }

  lemma {:induction false} DueAt(batch: seq<Candidate>, moment: Moment, i: nat)
    requires IsDueBatch(batch, moment) && i < |batch|
    ensures WellFormed(batch[i].row) && Due(batch[i].row, moment)
  {
    if i < |batch| - 1 {
      DueAt(batch[..|batch| - 1], moment, i);
    }
  }

  lemma {:induction false} AllDue(batch: seq<Candidate>, moment: Moment)
    requires forall i :: 0 <= i < |batch| ==> WellFormed(batch[i].row) && Due(batch[i].row, moment)
    ensures IsDueBatch(batch, moment)
  {
    if batch != [] {
      AllDue(batch[..|batch| - 1], moment);
    }
  }

  predicate DistinctSchedules(batch: seq<Candidate>) {
    forall i, j :: 0 <= i < j < |batch| ==> batch[i].schedule != batch[j].schedule
  }

  /** Rows not reached yet are as the query read them. */
  lemma {:induction false} TableUntouched(table: map<ScheduleId, Row>, batch: seq<Candidate>, n: nat, id: ScheduleId,
                                          orgs: map<OrgId, Organisation>, scans: map<ScanId, Scan>, c: Settings, moment: Moment)
    requires n <= |batch| && IsDueBatch(batch, moment) && id in table
    requires forall i :: 0 <= i < n ==> batch[i].schedule != id
    ensures var t := TableAfter(table, batch, n, orgs, scans, c, moment);
            id in t && t[id] == table[id]
  {
    if n > 0 {
      TableUntouched(table, batch, n - 1, id, orgs, scans, c, moment);
    }
  }

  /** Each row of the batch takes one step of its own history: a tick, with the exit scope and cap decide. */
  lemma {:induction false} TableAfterAt(table: map<ScheduleId, Row>, batch: seq<Candidate>, n: nat, i: nat,
                                        orgs: map<OrgId, Organisation>, scans: map<ScanId, Scan>, c: Settings, moment: Moment)
    requires i < n <= |batch| && IsDueBatch(batch, moment) && DistinctSchedules(batch)
    ensures WellFormed(batch[i].row)
    ensures var t := TableAfter(table, batch, n, orgs, scans, c, moment);
            batch[i].schedule in t &&
            t[batch[i].schedule] ==
            After(batch[i].row, Ticked(moment, true, ExitOf(batch, i, orgs, scans, c)), c.maxFailures)
  {
    DueAt(batch, moment, i);
    if i < n - 1 {
      TableAfterAt(table, batch, n - 1, i, orgs, scans, c, moment);
      assert batch[i].schedule != batch[n - 1].schedule;
    }
  }

  function Min(a: int, b: int): int { if a <= b then a else b }
  function Max(a: int, b: int): int { if a >= b then a else b }

  /** Free slots at the start of the tick, or fewer when less is asked for. */
  function Granted(cap: nat, scans: map<ScanId, Scan>, rs: seq<Request>, org: OrgId): (n: nat)
    ensures n <= |ForOrg(rs, org)|
  {
    Min(Max(0, cap - Active(scans, org)), |ForOrg(rs, org)|)
  }

  lemma ForOrgSnoc(rs: seq<Request>, r: Request, org: OrgId)
    ensures ForOrg(rs + [r], org) == ForOrg(rs, org) + (if r.orgId == org then [r] else [])
  {
    assert (rs + [r])[..|rs|] == rs;
  }

  lemma TakeOneMore<T>(asked: seq<T>, r: T, free: int)
    ensures var n := Min(Max(0, free), |asked|);
            (asked + [r])[..Min(Max(0, free), |asked| + 1)] ==
            if n >= free then asked[..n] else asked[..n] + [r]
  {
  }

  /** One more request of the organisation: it gets a slot exactly when one is left. */
  lemma GrantedOneMore(cap: nat, scans: map<ScanId, Scan>, front: seq<Request>, prefix: seq<Request>, r: Request)
    requires ForOrg(front, r.orgId) == ForOrg(prefix, r.orgId)[..Granted(cap, scans, prefix, r.orgId)]
    ensures ForOrg(Admit(cap, scans, front, r), r.orgId)
            == ForOrg(prefix + [r], r.orgId)[..Granted(cap, scans, prefix + [r], r.orgId)]
  {
    ForOrgSnoc(front, r, r.orgId);
    ForOrgSnoc(prefix, r, r.orgId);
    TakeOneMore(ForOrg(prefix, r.orgId), r, cap - Active(scans, r.orgId));
  }

  lemma GrantedToOthers(cap: nat, scans: map<ScanId, Scan>, front: seq<Request>, prefix: seq<Request>, r: Request, org: OrgId)
    requires r.orgId != org
    ensures ForOrg(Admit(cap, scans, front, r), org) == ForOrg(front, org)
    ensures ForOrg(prefix + [r], org) == ForOrg(prefix, org)
    ensures Granted(cap, scans, prefix + [r], org) == Granted(cap, scans, prefix, org)
  {
    ForOrgSnoc(front, r, org);
    ForOrgSnoc(prefix, r, org);
  }

  /**
   * One tick is, organisation by organisation, the greedy allocation of its free slots: exactly
   * min(max(0, cap - active), asked) requests get one, and they are the earliest in batch order.
   */
  lemma {:induction false} GreedyPerOrganisation(cap: nat, scans: map<ScanId, Scan>, rs: seq<Request>, org: OrgId)
    ensures ForOrg(Greedy(cap, scans, rs), org) == ForOrg(rs, org)[..Granted(cap, scans, rs, org)]
  {
    if rs != [] {
      var prefix, r := rs[..|rs| - 1], rs[|rs| - 1];
      assert rs == prefix + [r];
      GreedyPerOrganisation(cap, scans, prefix, org);
      var front := Greedy(cap, scans, prefix);
      assert Greedy(cap, scans, rs) == Admit(cap, scans, front, r);
      if r.orgId == org {
        GrantedOneMore(cap, scans, front, prefix, r);
      } else {
        GrantedToOthers(cap, scans, front, prefix, r, org);
      }
    }
  }

  /** Ids a batch may use: new to the table and different from one another. */
  predicate FreshFor(rs: seq<Request>, used: set<ScanId>) {
    && (forall i :: 0 <= i < |rs| ==> rs[i].id !in used)
    && (forall i, j :: 0 <= i < j < |rs| ==> rs[i].id != rs[j].id)
  }

  lemma {:induction false} GreedyIsSubsequence(cap: nat, scans: map<ScanId, Scan>, rs: seq<Request>, used: set<ScanId>)
    requires FreshFor(rs, used)
    ensures var g := Greedy(cap, scans, rs);
            FreshFor(g, used) && forall r <- g :: r in rs
  {
    if rs != [] {
      var prefix, r := rs[..|rs| - 1], rs[|rs| - 1];
      GreedyIsSubsequence(cap, scans, prefix, used);
      var g := Greedy(cap, scans, prefix);
      forall i | 0 <= i < |g| ensures g[i].id != r.id {
        assert g[i] in prefix;
      }
    }
  }

  lemma IdsSnoc(rs: seq<Request>, r: Request)
    ensures Ids(rs + [r]) == Ids(rs) + {r.id}
  {
    assert r in rs + [r];
    assert forall x <- rs :: x in rs + [r];
  }

  lemma {:induction false} InsertAllKeys(scans: map<ScanId, Scan>, rs: seq<Request>)
    ensures InsertAll(scans, rs).Keys == scans.Keys + Ids(rs)
  {
    if rs != [] {
      var prefix, r := rs[..|rs| - 1], rs[|rs| - 1];
      InsertAllKeys(scans, prefix);
      IdsSnoc(prefix, r);
      assert rs == prefix + [r];
    }
  }

  lemma FreshLast(rs: seq<Request>, used: set<ScanId>)
    requires FreshFor(rs, used) && rs != []
    ensures FreshFor(rs[..|rs| - 1], used) && rs[|rs| - 1].id !in used && rs[|rs| - 1].id !in Ids(rs[..|rs| - 1])
  {
  }

  /** Inserting requests raises each organisation's count by its own number of requests. */
  lemma {:induction false} ActiveAfterInsertAll(scans: map<ScanId, Scan>, rs: seq<Request>, org: OrgId)
    requires FreshFor(rs, scans.Keys)
    ensures Active(InsertAll(scans, rs), org) == Active(scans, org) + |ForOrg(rs, org)|
    ensures InsertAll(scans, rs).Keys == scans.Keys + Ids(rs)
  {
    InsertAllKeys(scans, rs);
    if rs != [] {
      var prefix, r := rs[..|rs| - 1], rs[|rs| - 1];
      FreshLast(rs, scans.Keys);
      ActiveAfterInsertAll(scans, prefix, org);
      ActiveAfterInsert(InsertAll(scans, prefix), r.id, Scan(r.orgId, r.target, Queued, false), org);
    }
  }

  lemma {:induction false} TickStepSnoc(cap: nat, s: State, rs: seq<Request>, r: Request)
    ensures TickStep(cap, s, rs + [r]) == CreateStep(cap, TickStep(cap, s, rs), r)
    decreases |rs|
  {
    if rs == [] {
      assert ([] + [r])[1..] == [];
    } else {
      assert (rs + [r])[1..] == rs[1..] + [r];
      TickStepSnoc(cap, CreateStep(cap, s, rs[0]), rs[1..], r);
    }
  }

  /** The tick of the transition system inserts exactly the greedy requests and owes their publication. */
  predicate TickedTo(s: State, t: State, g: seq<Request>) {
    && t.scans == InsertAll(s.scans, g)
    && t.unpublished == s.unpublished + Ids(g)
    && t.issued == s.issued + Ids(g)
  }

  lemma InsertAllSnoc(scans: map<ScanId, Scan>, rs: seq<Request>, r: Request)
    ensures InsertAll(scans, rs + [r]) == InsertAll(scans, rs)[r.id := Scan(r.orgId, r.target, Queued, false)]
  {
    assert (rs + [r])[..|rs|] == rs;
  }

  lemma TickedOneMore(cap: nat, s: State, t: State, g: seq<Request>, r: Request)
    requires TickedTo(s, t, g) && r.id !in s.issued && r.id !in Ids(g)
    requires Active(t.scans, r.orgId) == Active(s.scans, r.orgId) + |ForOrg(g, r.orgId)|
    ensures TickedTo(s, CreateStep(cap, t, r), Admit(cap, s.scans, g, r))
  {
    if Active(t.scans, r.orgId) < cap {
      InsertAllSnoc(s.scans, g, r);
      IdsSnoc(g, r);
    }
  }

  lemma {:induction false} TickStepIsGreedy(cap: nat, s: State, rs: seq<Request>)
    requires s.scans.Keys <= s.issued && FreshFor(rs, s.issued)
    ensures TickedTo(s, TickStep(cap, s, rs), Greedy(cap, s.scans, rs))
    decreases |rs|
  {
    if rs != [] {
      var prefix, r := rs[..|rs| - 1], rs[|rs| - 1];
      assert rs == prefix + [r];
      TickStepIsGreedy(cap, s, prefix);
      TickStepSnoc(cap, s, prefix, r);
      var t, g := TickStep(cap, s, prefix), Greedy(cap, s.scans, prefix);
      GreedyIsSubsequence(cap, s.scans, prefix, s.issued);
      assert r.id !in Ids(g);
      ActiveAfterInsertAll(s.scans, g, r.orgId);
      TickedOneMore(cap, s, t, g, r);
    }
  }

  lemma EligibleSnoc(batch: seq<Candidate>, n: nat, orgs: map<OrgId, Organisation>, c: Settings)
    requires n < |batch|
    ensures batch[..n + 1][..n] == batch[..n]
    ensures Eligible(batch[..n + 1], orgs, c) ==
            Eligible(batch[..n], orgs, c) + AskedBy(batch[n], orgs, c)
  {
    assert batch[..n + 1][..n] == batch[..n];
  }

  lemma GreedySnoc(cap: nat, scans: map<ScanId, Scan>, rs: seq<Request>, r: Request)
    ensures Greedy(cap, scans, rs + [r]) == Admit(cap, scans, Greedy(cap, scans, rs), r)
  {
    assert (rs + [r])[..|rs|] == rs;
  }

  predicate FreshIds(batch: seq<Candidate>, used: set<ScanId>) {
    && (forall i :: 0 <= i < |batch| ==> batch[i].scan !in used)
    && (forall i, j :: 0 <= i < j < |batch| ==> batch[i].scan != batch[j].scan)
  }

  /** A batch with fresh ids asks for scans with fresh ids. */
  lemma {:induction false} EligibleIsFresh(batch: seq<Candidate>, orgs: map<OrgId, Organisation>, c: Settings, used: set<ScanId>)
    requires FreshIds(batch, used)
    ensures FreshFor(Eligible(batch, orgs, c), used)
    ensures forall r <- Eligible(batch, orgs, c) :: exists i :: 0 <= i < |batch| && batch[i].scan == r.id
  {
    if batch != [] {
      var front := batch[..|batch| - 1];
      EligibleIsFresh(front, orgs, c, used);
      assert batch[|batch| - 1].scan == batch[|batch| - 1].scan;
      forall r <- Eligible(front, orgs, c) ensures r.id != batch[|batch| - 1].scan {
        var i :| 0 <= i < |front| && front[i].scan == r.id;
        assert batch[i].scan == r.id;
      }
      forall r <- Eligible(front, orgs, c) ensures exists i :: 0 <= i < |batch| && batch[i].scan == r.id {
        var i :| 0 <= i < |front| && front[i].scan == r.id;
        assert batch[i].scan == r.id;
      }
    }
  }

  /** In the middle of a tick, the rows in the table account for the requests admitted so far. */
  lemma RunningCount(cap: nat, scans: map<ScanId, Scan>, batch: seq<Candidate>, orgs: map<OrgId, Organisation>, c: Settings, org: OrgId)
    requires FreshIds(batch, scans.Keys)
    ensures var g := Greedy(cap, scans, Eligible(batch, orgs, c));
            FreshFor(g, scans.Keys) && Active(InsertAll(scans, g), org) == Active(scans, org) + |ForOrg(g, org)|
  {
    EligibleIsFresh(batch, orgs, c, scans.Keys);
    GreedyIsSubsequence(cap, scans, Eligible(batch, orgs, c), scans.Keys);
    ActiveAfterInsertAll(scans, Greedy(cap, scans, Eligible(batch, orgs, c)), org);
  }

  /** The in-memory counts agree with the rows. */
  predicate Cached(counts: map<OrgId, nat>, scans: map<ScanId, Scan>) {
    forall o <- counts :: counts[o] == Active(scans, o)
  }

  datatype Counters = Counters(due: nat, queued: nat, skipped: nat, disabled: nat, failed: nat)

  function BatchOf(table: map<ScheduleId, Row>, due: seq<ScheduleId>, newIds: seq<ScanId>): (batch: seq<Candidate>)
    requires |due| == |newIds| && forall id <- due :: id in table
    ensures |batch| == |due|
    ensures forall i :: 0 <= i < |due| ==> batch[i] == Candidate(due[i], table[due[i]], newIds[i])
  {
    seq(|due|, i requires 0 <= i < |due| => Candidate(due[i], table[due[i]], newIds[i]))
  }

  /** The answer of the due query: at most a batch, oldest first, none locked, nothing older left behind. */
  predicate IsDueQuery(table: map<ScheduleId, Row>, due: seq<ScheduleId>, locked: set<ScheduleId>, moment: Moment) {
    && |due| <= MAX_PER_TICK && Distinct(due)
    && (forall id <- due :: id in table && id !in locked && Due(table[id], moment))
    && (forall i, j :: 0 <= i < j < |due| ==> table[due[i]].nextRunAt.Ticks() <= table[due[j]].nextRunAt.Ticks())
    && (forall id <- table | id !in due && id !in locked && Due(table[id], moment) ::
          |due| == MAX_PER_TICK && forall d <- due :: table[d].nextRunAt.Ticks() <= table[id].nextRunAt.Ticks())
  }

  predicate WellFormedTable(table: map<ScheduleId, Row>) {
    forall id <- table :: WellFormed(table[id])
  }

  /** The tables a tick works on, and the broker it talks to. */
  class Dispatcher {
    const settings: Settings
    var orgs: map<OrgId, Organisation>
    var scans: map<ScanId, Scan>
    var schedules: map<ScheduleId, Row>
    var messages: set<ScanId>

    constructor (settings: Settings)
      ensures this.settings == settings && orgs == map[] && scans == map[] && schedules == map[] && messages == {}
    {
      this.settings := settings;
      orgs, scans, schedules, messages := map[], map[], map[], {};
    }

    /**
     * One due row of phase one: advance it, then refuse, skip or insert a queued scan. Active scans are
     * counted once per organisation and the count is kept in memory.
     */
    method TakeOne(id: ScheduleId, moment: Moment, newId: ScanId, activeByOrg: map<OrgId, nat>)
      returns (exit: Exit, counted: map<OrgId, nat>)
      requires id in schedules && WellFormed(schedules[id]) && newId !in scans
      requires Cached(activeByOrg, scans)
      modifies this`scans, this`schedules
      ensures exit == ExitFor(old(schedules[id]), newId, orgs, old(scans), settings)
      ensures schedules == old(schedules)[id := Fired(old(schedules[id]), moment, exit)]
      ensures var row := old(schedules[id]);
              && (exit == Refused(InactiveOrganisation) <==> !Stands(row, orgs))
              && (exit == Refused(TargetNotAuthorised) <==> Stands(row, orgs) && !Covered(row, orgs, settings))
              && (exit.Skipped? <==> Covered(row, orgs, settings) && Active(old(scans), row.orgId) >= settings.cap)
      ensures exit.Dispatched? ==>
                Judge(old(schedules[id]), orgs, settings).Admissible?
                && scans == old(scans)[newId := Scan(old(schedules[id]).orgId, Judge(old(schedules[id]), orgs, settings).target, Queued, false)]
      ensures !exit.Dispatched? ==> scans == old(scans)
      ensures Cached(counted, scans)
    {
      counted := activeByOrg;
      var row := Taken(schedules[id], moment);
      schedules := schedules[id := row];

      if row.orgId !in orgs || !orgs[row.orgId].isActive {
        schedules := schedules[id := Disabled(row, InactiveOrganisation)];
        return Refused(InactiveOrganisation), counted;
      }

      var domains := AllDomains(orgs[row.orgId].verifiedDomains);
      var target := settings.authorise(row.target, domains);
      if target.Failure? {
        schedules := schedules[id := Disabled(row, TargetNotAuthorised)];
        return Refused(TargetNotAuthorised), counted;
      }

      if row.orgId !in counted {
        counted := counted[row.orgId := Active(scans, row.orgId)];
      }
      if counted[row.orgId] >= settings.cap {
        return Skipped, counted;
      }

      var scan := Scan(row.orgId, target.value, Queued, false);
      forall o <- counted
        ensures Active(scans[newId := scan], o) == counted[o] + (if o == row.orgId then 1 else 0)
      {
        ActiveAfterInsert(scans, newId, scan, o);
      }
      scans := scans[newId := scan];
      schedules := schedules[id := row.(lastScan := Some(newId))];
      counted := counted[row.orgId := counted[row.orgId] + 1];
      exit := Dispatched(newId);
    }

    /** The loop body of phase one: one more row of the batch, and what it adds to the tally. */
    method TakeNext(moment: Moment, ghost batch: seq<Candidate>, ghost i: nat, id: ScheduleId, newId: ScanId,
                    ghost before: map<ScanId, Scan>, ghost table: map<ScheduleId, Row>, t: Tally, activeByOrg: map<OrgId, nat>)
      returns (t': Tally, counted: map<OrgId, nat>)
      requires i < |batch| && id in table && batch[i] == Candidate(id, table[id], newId)
      requires IsDueBatch(batch, moment) && DistinctSchedules(batch) && FreshIds(batch, before.Keys)
      requires schedules == TableAfter(table, batch, i, orgs, before, settings, moment)
      requires t.scans == scans && t == TallyAt(batch, i, orgs, before, settings)
      requires Cached(activeByOrg, scans)
      modifies this`scans, this`schedules
      ensures schedules == TableAfter(table, batch, i + 1, orgs, before, settings, moment)
      ensures t'.scans == scans && t' == TallyAt(batch, i + 1, orgs, before, settings)
      ensures Cached(counted, scans)
    {
      DueAt(batch, moment, i);
      NotInsertedYet(batch, i, orgs, before, settings);
      TableUntouched(table, batch, i, id, orgs, before, settings, moment);
      var orgId := schedules[id].orgId;
      var exit;
      exit, counted := TakeOne(id, moment, newId, activeByOrg);
      match exit {
        case Refused(_) => t' := t.(disabled := t.disabled + 1);
        case Skipped => t' := t.(skipped := t.skipped + 1);
        case Dispatched(scan) =>
          t' := t.(scans := scans, pending := t.pending + [Request(scan, orgId, scans[scan].target, Some(id))]);
      }
    }

    /** Phase one, one transaction over the due rows in the order of the query. */
    method PhaseOne(due: seq<ScheduleId>, moment: Moment, newIds: seq<ScanId>, ghost locked: set<ScheduleId>)
      returns (pending: seq<Request>, counters: Counters)
      requires WellFormedTable(schedules) && IsDueQuery(schedules, due, locked, moment) && |newIds| == |due|
      requires FreshIds(BatchOf(schedules, due, newIds), scans.Keys)
      modifies this`scans, this`schedules
      ensures var batch := BatchOf(old(schedules), due, newIds);
              && IsDueBatch(batch, moment)
              && schedules == TableAfter(old(schedules), batch, |due|, orgs, old(scans), settings, moment)
              && counters == Counters(|due|, 0, counters.skipped, counters.disabled, 0)
              && Tally(scans, pending, counters.skipped, counters.disabled)
                 == TallyAt(batch, |due|, orgs, old(scans), settings)
    {
      ghost var batch := BatchOf(schedules, due, newIds);
      AllDue(batch, moment);
      assert DistinctSchedules(batch);
      var tally := Tally(scans, [], 0, 0);
      var activeByOrg: map<OrgId, nat> := map[];
      for i := 0 to |due|
        invariant schedules == TableAfter(old(schedules), batch, i, orgs, old(scans), settings, moment)
        invariant tally.scans == scans && tally == TallyAt(batch, i, orgs, old(scans), settings)
        invariant Cached(activeByOrg, scans)
      {
        tally, activeByOrg := TakeNext(moment, batch, i, due[i], newIds[i], old(scans), old(schedules), tally, activeByOrg);
      }
      pending := tally.pending;
      counters := Counters(|due|, 0, tally.skipped, tally.disabled, 0);
    }

    /** `_record_success`: the task id goes to the scan, the schedule's failure streak ends. */
    method RecordSuccess(r: Request)
      modifies this`scans, this`schedules
      ensures var t := Published(Tables(old(scans), old(schedules), messages), r, true, settings.maxFailures);
              scans == t.scans && schedules == t.schedules
    {
      if r.id in scans {
        scans := scans[r.id := scans[r.id].(hasTask := true)];
      }
      if r.schedule.Some? && r.schedule.value in schedules && schedules[r.schedule.value].failures != 0 {
        schedules := schedules[r.schedule.value := schedules[r.schedule.value].(failures := 0)];
      }
    }

    /** `_record_failure`: the scan is written off, the schedule counts a failure and may switch off. */
    method RecordFailure(r: Request)
      modifies this`scans, this`schedules
      ensures var t := Published(Tables(old(scans), old(schedules), messages), r, false, settings.maxFailures);
              scans == t.scans && schedules == t.schedules
    {
      if r.id in scans {
        scans := scans[r.id := scans[r.id].(status := Failed)];
      }
      if r.schedule.Some? && r.schedule.value in schedules {
        var row := schedules[r.schedule.value];
        row := row.(failures := row.failures + 1);
        if row.failures >= settings.maxFailures {
          row := Disabled(row, QueueFailures(row.failures));
        }
        schedules := schedules[r.schedule.value := row];
      }
    }

    /** Phase two: hand each pending scan to the broker and reconcile what comes back. */
    method Publish(pending: seq<Request>, accepted: seq<bool>, counters: Counters) returns (r: Counters)
      requires |pending| <= |accepted|
      modifies this`scans, this`schedules, this`messages
      ensures Tables(scans, schedules, messages)
              == PublishedAll(old(Tables(scans, schedules, messages)), pending, accepted, |pending|, settings.maxFailures)
      ensures r == counters.(queued := counters.queued + Accepted(accepted, |pending|),
                             failed := counters.failed + |pending| - Accepted(accepted, |pending|))
    {
      r := counters;
      for i := 0 to |pending|
        invariant Tables(scans, schedules, messages)
                  == PublishedAll(old(Tables(scans, schedules, messages)), pending, accepted, i, settings.maxFailures)
        invariant r == counters.(queued := counters.queued + Accepted(accepted, i),
                                 failed := counters.failed + i - Accepted(accepted, i))
      {
        if accepted[i] {
          messages := messages + {pending[i].id};
          RecordSuccess(pending[i]);
          r := r.(queued := r.queued + 1);
        } else {
          RecordFailure(pending[i]);
          r := r.(failed := r.failed + 1);
        }
      }
    }

    /**
     * One whole tick, for any answers of the broker. Every due schedule is counted once, and every scan the
     * tick inserted ends up queued with a message or failed.
     */
    method DispatchDueScans(due: seq<ScheduleId>, moment: Moment, newIds: seq<ScanId>, ghost locked: set<ScheduleId>,
                            broker: seq<bool>)
      returns (counters: Counters)
      requires WellFormedTable(schedules) && IsDueQuery(schedules, due, locked, moment)
      requires |newIds| == |due| == |broker|
      requires FreshIds(BatchOf(schedules, due, newIds), scans.Keys)
      modifies this`scans, this`schedules, this`messages
      ensures counters.due == |due| == counters.queued + counters.failed + counters.skipped + counters.disabled
      ensures var asked := Eligible(BatchOf(old(schedules), due, newIds), orgs, settings);
              var granted := Greedy(settings.cap, old(scans), asked);
              && counters.disabled == |due| - |asked| && counters.skipped == |asked| - |granted|
              && Decided(scans, old(messages), messages, granted, broker, |granted|)
      ensures var batch := BatchOf(old(schedules), due, newIds);
              && counters.disabled == |RefusedRows(batch, orgs, settings)|
              && SchedulesAfterTick(schedules, scans, batch, moment, orgs, settings)
              && ScansAfterTick(old(scans), scans, batch, orgs, settings)
      ensures var batch := BatchOf(old(schedules), due, newIds);
              var granted := Greedy(settings.cap, old(scans), Eligible(batch, orgs, settings));
              && IsDueBatch(batch, moment)
              && Tables(scans, schedules, messages) == PublishedAll(
                   Tables(InsertAll(old(scans), granted),
                          TableAfter(old(schedules), batch, |due|, orgs, old(scans), settings, moment), old(messages)),
                   granted, broker, |granted|, settings.maxFailures)
    {
      ghost var batch := BatchOf(schedules, due, newIds);
      ghost var before := scans;
      ghost var table := schedules;
      var pending;
      pending, counters := PhaseOne(due, moment, newIds, locked);
      assert batch[..|due|] == batch;
      TallyIsGreedy(batch, |due|, orgs, before, settings);
      ghost var between := Tables(scans, schedules, messages);
      if pending != [] {
        counters := Publish(pending, broker, counters);
      }
      TickLaws(table, batch, orgs, before, settings, moment, between, broker);
    }
  }

  /** The three tables the second phase writes. */
  datatype Tables = Tables(scans: map<ScanId, Scan>, schedules: map<ScheduleId, Row>, messages: set<ScanId>)

  /** One pending scan after the broker's answer has been recorded. */
  function Published(t: Tables, r: Request, accepted: bool, maxFailures: int): Tables {
    var scans :=
      if r.id !in t.scans then t.scans
      else if accepted then t.scans[r.id := t.scans[r.id].(hasTask := true)]
      else t.scans[r.id := t.scans[r.id].(status := Failed)];
    var schedules :=
      if r.schedule.None? || r.schedule.value !in t.schedules then t.schedules
      else if accepted then t.schedules[r.schedule.value := QueueSucceeded(t.schedules[r.schedule.value])]
      else t.schedules[r.schedule.value := QueueFailed(t.schedules[r.schedule.value], maxFailures)];
    Tables(scans, schedules, if accepted then t.messages + {r.id} else t.messages)
  }

  function PublishedAll(t: Tables, pending: seq<Request>, accepted: seq<bool>, n: nat, maxFailures: int): Tables
    requires n <= |pending| <= |accepted|
  {
    if n == 0 then t else
    Published(PublishedAll(t, pending, accepted, n - 1, maxFailures), pending[n - 1], accepted[n - 1], maxFailures)
  }

  function Accepted(accepted: seq<bool>, n: nat): (count: nat)
    requires n <= |accepted|
    ensures count <= n
  {
    if n == 0 then 0 else Accepted(accepted, n - 1) + (if accepted[n - 1] then 1 else 0)
  }

  predicate SwitchedOffByQueue(row: Row) {
    row.disabledReason.Some? && row.disabledReason.value.QueueFailures?
  }

  /** How broker answers leave a schedule: as it was but for its failures, or switched off for them. */
  predicate QueueOutcome(before: Row, after: Row) {
    && after == before.(failures := after.failures, enabled := after.enabled, disabledReason := after.disabledReason)
    && ((after.enabled == before.enabled && after.disabledReason == before.disabledReason)
        || (!after.enabled && SwitchedOffByQueue(after)))
  }

  /** Phase two writes the schedules of the pending scans and no other. */
  lemma {:induction false} PublishedSchedules(t: Tables, pending: seq<Request>, accepted: seq<bool>, n: nat, maxFailures: int,
                                              id: ScheduleId)
    requires n <= |pending| <= |accepted| && id in t.schedules
    ensures var u := PublishedAll(t, pending, accepted, n, maxFailures);
            && id in u.schedules && QueueOutcome(t.schedules[id], u.schedules[id])
            && ((forall i :: 0 <= i < n ==> pending[i].schedule != Some(id)) ==> u.schedules[id] == t.schedules[id])
  {
    if n > 0 {
      PublishedSchedules(t, pending, accepted, n - 1, maxFailures, id);
    }
  }

  /** The request this row makes when its organisation stands and covers the target. */
  predicate AsksFor(one: Candidate, r: Request, orgs: map<OrgId, Organisation>, c: Settings) {
    CoveredAs(one.row, orgs, c, r.target) && r == Request(one.scan, one.row.orgId, r.target, Some(one.schedule))
  }

  lemma {:induction false} EligibleAreAskedFor(batch: seq<Candidate>, orgs: map<OrgId, Organisation>, c: Settings)
    ensures forall r <- Eligible(batch, orgs, c) :: exists i :: 0 <= i < |batch| && AsksFor(batch[i], r, orgs, c)
  {
    if batch != [] {
      var front, last := batch[..|batch| - 1], batch[|batch| - 1];
      EligibleAreAskedFor(front, orgs, c);
      forall r <- Eligible(batch, orgs, c) ensures exists i :: 0 <= i < |batch| && AsksFor(batch[i], r, orgs, c) {
        if r in AskedBy(last, orgs, c) {
          assert AsksFor(batch[|batch| - 1], r, orgs, c);
        } else {
          assert r in Eligible(front, orgs, c);
          var i :| 0 <= i < |front| && AsksFor(front[i], r, orgs, c);
          assert AsksFor(batch[i], r, orgs, c);
        }
      }
    }
  }

  /** Rows of the batch that are refused: no standing organisation, or one that does not cover the target. */
  function RefusedRows(batch: seq<Candidate>, orgs: map<OrgId, Organisation>, c: Settings): set<int> {
    set i | 0 <= i < |batch| && !Covered(batch[i].row, orgs, c)
  }

  lemma RefusedOneMore(front: seq<Candidate>, one: Candidate, orgs: map<OrgId, Organisation>, c: Settings)
    ensures |RefusedRows(front + [one], orgs, c)| == |RefusedRows(front, orgs, c)| + if Covered(one.row, orgs, c) then 0 else 1
  {
    var refused := RefusedRows(front, orgs, c);
    if Covered(one.row, orgs, c) {
      assert RefusedRows(front + [one], orgs, c) == refused;
    } else {
      assert RefusedRows(front + [one], orgs, c) == refused + {|front|};
    }
  }

  lemma AskedIffCovered(one: Candidate, orgs: map<OrgId, Organisation>, c: Settings)
    ensures |AskedBy(one, orgs, c)| == if Covered(one.row, orgs, c) then 1 else 0
  {
  }

  lemma {:induction false} EligibleCount(batch: seq<Candidate>, orgs: map<OrgId, Organisation>, c: Settings)
    ensures |RefusedRows(batch, orgs, c)| == |batch| - |Eligible(batch, orgs, c)|
  {
    if batch != [] {
      var front, last := batch[..|batch| - 1], batch[|batch| - 1];
      assert batch == front + [last];
      EligibleCount(front, orgs, c);
      RefusedOneMore(front, last, orgs, c);
      AskedIffCovered(last, orgs, c);
    }
  }

  /** How a tick leaves one due row, whatever the broker answers. */
  predicate RowAfterTick(before: Row, after: Row, moment: Moment, orgs: map<OrgId, Organisation>, c: Settings) {
    && NextOccurrence(before.timing, moment) == Success(after.nextRunAt) && after.lastRunAt == Some(moment)
    && after.orgId == before.orgId && after.target == before.target && after.timing == before.timing
    && (!Stands(before, orgs) ==> !after.enabled && after.disabledReason == Some(InactiveOrganisation))
    && (Stands(before, orgs) && !Covered(before, orgs, c) ==>
          !after.enabled && after.disabledReason == Some(TargetNotAuthorised))
    && (Covered(before, orgs, c) ==> after.enabled || SwitchedOffByQueue(after))
  }

  lemma TakenRowAfterTick(row: Row, taken: Row, moment: Moment, exit: Exit, orgs: map<OrgId, Organisation>,
                          scans: map<ScanId, Scan>, id: ScanId, c: Settings)
    requires WellFormed(row) && Due(row, moment)
    requires exit == ExitFor(row, id, orgs, scans, c) && taken == Fired(row, moment, exit)
    ensures RowAfterTick(row, taken, moment, orgs, c)
    ensures taken.lastScan == if exit.Dispatched? then Some(id) else row.lastScan
    ensures taken.failures == row.failures && (exit.Dispatched? ==> taken.enabled)
  {
    NextOccurrenceFailsIff(row.timing, moment);
  }

  /** The id kept for a row is in the table after the batch exactly when that row was dispatched. */
  lemma {:induction false} InsertedIffDispatched(batch: seq<Candidate>, i: nat, n: nat, orgs: map<OrgId, Organisation>,
                                                 scans: map<ScanId, Scan>, c: Settings)
    requires FreshIds(batch, scans.Keys) && i < n <= |batch|
    ensures batch[i].scan in TallyAt(batch, n, orgs, scans, c).scans <==> ExitOf(batch, i, orgs, scans, c).Dispatched?
  {
    if i < n - 1 {
      InsertedIffDispatched(batch, i, n - 1, orgs, scans, c);
      assert batch[i].scan != batch[n - 1].scan;
    } else {
      NotInsertedYet(batch, i, orgs, scans, c);
    }
  }

  lemma GrantedAreAskedFor(batch: seq<Candidate>, orgs: map<OrgId, Organisation>, scans: map<ScanId, Scan>, c: Settings)
    requires FreshIds(batch, scans.Keys)
    ensures forall r <- Greedy(c.cap, scans, Eligible(batch, orgs, c)) ::
              exists i :: 0 <= i < |batch| && AsksFor(batch[i], r, orgs, c)
  {
    EligibleIsFresh(batch, orgs, c, scans.Keys);
    GreedyIsSubsequence(c.cap, scans, Eligible(batch, orgs, c), scans.Keys);
    EligibleAreAskedFor(batch, orgs, c);
  }

  /** The schedules after a whole tick: each row taken, and pointing at its scan when one was inserted for it. */
  predicate SchedulesAfterTick(table: map<ScheduleId, Row>, scans: map<ScanId, Scan>, batch: seq<Candidate>, moment: Moment,
                               orgs: map<OrgId, Organisation>, c: Settings) {
    forall one <- batch :: ScheduleAfterTick(table, scans, one, moment, orgs, c)
  }

  predicate ScheduleAfterTick(table: map<ScheduleId, Row>, scans: map<ScanId, Scan>, one: Candidate, moment: Moment,
                              orgs: map<OrgId, Organisation>, c: Settings) {
    && one.schedule in table && RowAfterTick(one.row, table[one.schedule], moment, orgs, c)
    && table[one.schedule].lastScan == (if one.scan in scans then Some(one.scan) else one.row.lastScan)
    && StreakAfterTick(one, table[one.schedule], scans, c.maxFailures)
  }

  /**
   * The failure streak after a tick: untouched without a scan, ended by a publish the broker took, one longer by
   * one it refused, which switches the schedule off exactly at the limit.
   */
  predicate StreakAfterTick(one: Candidate, after: Row, scans: map<ScanId, Scan>, maxFailures: int) {
    if one.scan !in scans then after.failures == one.row.failures
    else if scans[one.scan].hasTask then after.failures == 0 && after.enabled
    else after.failures == one.row.failures + 1 && (after.enabled <==> one.row.failures + 1 < maxFailures)
  }

  /** One answer reaches this schedule: what it makes of the row. */
  lemma {:induction false} PublishedOnce(t: Tables, pending: seq<Request>, accepted: seq<bool>, n: nat, maxFailures: int,
                                         id: ScheduleId, k: nat)
    requires k < n <= |pending| <= |accepted| && id in t.schedules && pending[k].schedule == Some(id)
    requires forall i :: 0 <= i < n && i != k ==> pending[i].schedule != Some(id)
    ensures var before, u := t.schedules[id], PublishedAll(t, pending, accepted, n, maxFailures).schedules;
            && id in u
            && (accepted[k] ==> u[id] == before.(failures := 0))
            && (!accepted[k] ==> u[id].failures == before.failures + 1
                                 && u[id].enabled == (before.enabled && before.failures + 1 < maxFailures))
  {
    if k == n - 1 {
      PublishedSchedules(t, pending, accepted, n - 1, maxFailures, id);
    } else {
      PublishedOnce(t, pending, accepted, n - 1, maxFailures, id, k);
    }
  }

  /** The granted request of a row is the one with the row's scan id and its schedule, and no other bears either. */
  lemma GrantedRequestOf(batch: seq<Candidate>, i: nat, orgs: map<OrgId, Organisation>, scans: map<ScanId, Scan>, c: Settings)
    requires DistinctSchedules(batch) && FreshIds(batch, scans.Keys) && i < |batch|
    ensures forall r <- Greedy(c.cap, scans, Eligible(batch, orgs, c)) ::
              (r.id == batch[i].scan <==> r.schedule == Some(batch[i].schedule))
  {
    GrantedAreAskedFor(batch, orgs, scans, c);
    forall r <- Greedy(c.cap, scans, Eligible(batch, orgs, c))
      ensures r.id == batch[i].scan <==> r.schedule == Some(batch[i].schedule)
    {
      var j :| 0 <= j < |batch| && AsksFor(batch[j], r, orgs, c);
      assert j != i ==> batch[j].scan != batch[i].scan && batch[j].schedule != batch[i].schedule;
    }
  }

  lemma StreakOfRow(batch: seq<Candidate>, i: nat, orgs: map<OrgId, Organisation>, scans: map<ScanId, Scan>, c: Settings,
                    between: Tables, broker: seq<bool>)
    requires DistinctSchedules(batch) && FreshIds(batch, scans.Keys) && i < |batch| <= |broker|
    requires batch[i].schedule in between.schedules && between.schedules[batch[i].schedule].failures == batch[i].row.failures
    requires var granted := Greedy(c.cap, scans, Eligible(batch, orgs, c));
             && between.scans == InsertAll(scans, granted)
             && (batch[i].scan in Ids(granted) ==> between.schedules[batch[i].schedule].enabled)
    ensures var granted := Greedy(c.cap, scans, Eligible(batch, orgs, c));
            var after := PublishedAll(between, granted, broker, |granted|, c.maxFailures);
            batch[i].schedule in after.schedules
            && StreakAfterTick(batch[i], after.schedules[batch[i].schedule], after.scans, c.maxFailures)
  {
    var granted := Greedy(c.cap, scans, Eligible(batch, orgs, c));
    var one := batch[i];
    GrantedRequestOf(batch, i, orgs, scans, c);
    GreedyRowsPresent(batch, orgs, scans, c);
    InsertAllKeys(scans, granted);
    PublishedScans(between, granted, broker, |granted|, c.maxFailures);
    PublishedRows(between, granted, broker, |granted|, c.maxFailures);
    if one.scan in Ids(granted) {
      var k :| 0 <= k < |granted| && granted[k].id == one.scan;
      assert granted[k] in granted;
      forall j | 0 <= j < |granted| && j != k ensures granted[j].schedule != Some(one.schedule) {
        assert granted[j] in granted;
      }
      PublishedOnce(between, granted, broker, |granted|, c.maxFailures, one.schedule, k);
    } else {
      forall j | 0 <= j < |granted| ensures granted[j].schedule != Some(one.schedule) {
        assert granted[j] in granted;
      }
      PublishedSchedules(between, granted, broker, |granted|, c.maxFailures, one.schedule);
    }
  }

  /** A refused row asked for no scan, so phase two leaves it alone. */
  lemma RefusedAreNotGranted(batch: seq<Candidate>, i: nat, orgs: map<OrgId, Organisation>, scans: map<ScanId, Scan>, c: Settings)
    requires DistinctSchedules(batch) && FreshIds(batch, scans.Keys) && i < |batch| && !Covered(batch[i].row, orgs, c)
    ensures forall r <- Greedy(c.cap, scans, Eligible(batch, orgs, c)) :: r.schedule != Some(batch[i].schedule)
  {
    GrantedAreAskedFor(batch, orgs, scans, c);
    forall r <- Greedy(c.cap, scans, Eligible(batch, orgs, c)) ensures r.schedule != Some(batch[i].schedule) {
      var j :| 0 <= j < |batch| && AsksFor(batch[j], r, orgs, c);
      assert j != i;
    }
  }

  lemma QueueKeepsRow(row: Row, taken: Row, after: Row, moment: Moment, orgs: map<OrgId, Organisation>, c: Settings)
    requires RowAfterTick(row, taken, moment, orgs, c) && QueueOutcome(taken, after)
    requires !Covered(row, orgs, c) ==> after == taken
    ensures RowAfterTick(row, after, moment, orgs, c) && after.lastScan == taken.lastScan
  {
  }

  /** Phase one: the row is taken, with the exit that scope and cap decide. */
  lemma TakenRowOf(table: map<ScheduleId, Row>, batch: seq<Candidate>, i: nat, orgs: map<OrgId, Organisation>,
                   scans: map<ScanId, Scan>, c: Settings, moment: Moment)
    requires IsDueBatch(batch, moment) && DistinctSchedules(batch) && i < |batch|
    ensures var one, taken := batch[i], TableAfter(table, batch, |batch|, orgs, scans, c, moment);
            var exit := ExitOf(batch, i, orgs, scans, c);
            && one.schedule in taken && RowAfterTick(one.row, taken[one.schedule], moment, orgs, c)
            && taken[one.schedule].lastScan == (if exit.Dispatched? then Some(one.scan) else one.row.lastScan)
            && taken[one.schedule].failures == one.row.failures && (exit.Dispatched? ==> taken[one.schedule].enabled)
  {
    var taken := TableAfter(table, batch, |batch|, orgs, scans, c, moment);
    DueAt(batch, moment, i);
    TableAfterAt(table, batch, |batch|, i, orgs, scans, c, moment);
    TakenRowAfterTick(batch[i].row, taken[batch[i].schedule], moment, ExitOf(batch, i, orgs, scans, c), orgs,
                      TallyAt(batch, i, orgs, scans, c).scans, batch[i].scan, c);
  }

  /** Dispatched rows are those with a granted request, and those whose scan id is in the table at the end. */
  lemma DispatchedIffGranted(batch: seq<Candidate>, i: nat, orgs: map<OrgId, Organisation>, scans: map<ScanId, Scan>, c: Settings)
    requires FreshIds(batch, scans.Keys) && i < |batch|
    ensures var granted := Greedy(c.cap, scans, Eligible(batch, orgs, c));
            && (ExitOf(batch, i, orgs, scans, c).Dispatched? <==> batch[i].scan in Ids(granted))
            && (ExitOf(batch, i, orgs, scans, c).Dispatched? <==> batch[i].scan in InsertAll(scans, granted))
  {
    TallyIsGreedy(batch, |batch|, orgs, scans, c);
    assert batch[..|batch|] == batch;
    InsertedIffDispatched(batch, i, |batch|, orgs, scans, c);
    InsertAllKeys(scans, Greedy(c.cap, scans, Eligible(batch, orgs, c)));
  }

  lemma TickedRow(table: map<ScheduleId, Row>, batch: seq<Candidate>, i: nat, orgs: map<OrgId, Organisation>,
                  scans: map<ScanId, Scan>, c: Settings, moment: Moment, between: Tables, broker: seq<bool>)
    requires IsDueBatch(batch, moment) && DistinctSchedules(batch) && FreshIds(batch, scans.Keys) && i < |batch| <= |broker|
    requires between.schedules == TableAfter(table, batch, |batch|, orgs, scans, c, moment)
    requires between.scans == InsertAll(scans, Greedy(c.cap, scans, Eligible(batch, orgs, c)))
    ensures var granted := Greedy(c.cap, scans, Eligible(batch, orgs, c));
            var after := PublishedAll(between, granted, broker, |granted|, c.maxFailures);
            ScheduleAfterTick(after.schedules, after.scans, batch[i], moment, orgs, c)
  {
    var granted := Greedy(c.cap, scans, Eligible(batch, orgs, c));
    var id := batch[i].schedule;
    TakenRowOf(table, batch, i, orgs, scans, c, moment);
    DispatchedIffGranted(batch, i, orgs, scans, c);
    StreakOfRow(batch, i, orgs, scans, c, between, broker);
    PublishedScans(between, granted, broker, |granted|, c.maxFailures);
    PublishedSchedules(between, granted, broker, |granted|, c.maxFailures, id);
    if !Covered(batch[i].row, orgs, c) {
      RefusedAreNotGranted(batch, i, orgs, scans, c);
    }
    QueueKeepsRow(batch[i].row, between.schedules[id],
                  PublishedAll(between, granted, broker, |granted|, c.maxFailures).schedules[id], moment, orgs, c);
  }

  /** A scan the tick inserted belongs to a covered due row, in its organisation and with the host the check gave. */
  predicate InsertedFor(batch: seq<Candidate>, id: ScanId, scan: Scan, orgs: map<OrgId, Organisation>, c: Settings) {
    exists one <- batch :: one.scan == id && scan.orgId == one.row.orgId && CoveredAs(one.row, orgs, c, scan.target)
  }

  /** The scan table after a tick: old rows as they were, new ones only for covered due rows. */
  predicate ScansAfterTick(before: map<ScanId, Scan>, after: map<ScanId, Scan>, batch: seq<Candidate>,
                           orgs: map<OrgId, Organisation>, c: Settings) {
    && (forall id <- before :: id in after && after[id] == before[id])
    && (forall id <- after :: id in before || InsertedFor(batch, id, after[id], orgs, c))
  }

  /** Rows phase two may meet: only pending ones change, and only in status and task. */
  lemma {:induction false} PublishedScans(t: Tables, pending: seq<Request>, accepted: seq<bool>, n: nat, maxFailures: int)
    requires n <= |pending| <= |accepted|
    ensures var u := PublishedAll(t, pending, accepted, n, maxFailures);
            && u.scans.Keys == t.scans.Keys
            && (forall id <- t.scans :: u.scans[id].orgId == t.scans[id].orgId && u.scans[id].target == t.scans[id].target)
            && (forall id <- t.scans | id !in Ids(pending) :: u.scans[id] == t.scans[id])
  {
    if n > 0 {
      PublishedScans(t, pending, accepted, n - 1, maxFailures);
      assert pending[n - 1] in pending;
    }
  }

  lemma {:induction false} InsertAllRows(scans: map<ScanId, Scan>, rs: seq<Request>)
    requires FreshFor(rs, scans.Keys)
    ensures var u := InsertAll(scans, rs);
            && (forall id <- scans :: id in u && u[id] == scans[id])
            && (forall id <- u :: id in scans || exists r <- rs :: r.id == id && u[id].orgId == r.orgId && u[id].target == r.target)
  {
    if rs != [] {
      InsertAllRows(scans, rs[..|rs| - 1]);
    }
  }

  lemma TickedScans(scans: map<ScanId, Scan>, batch: seq<Candidate>, orgs: map<OrgId, Organisation>, c: Settings,
                    between: Tables, broker: seq<bool>)
    requires FreshIds(batch, scans.Keys) && |batch| <= |broker|
    requires between.scans == InsertAll(scans, Greedy(c.cap, scans, Eligible(batch, orgs, c)))
    ensures var granted := Greedy(c.cap, scans, Eligible(batch, orgs, c));
            ScansAfterTick(scans, PublishedAll(between, granted, broker, |granted|, c.maxFailures).scans, batch, orgs, c)
  {
    var granted := Greedy(c.cap, scans, Eligible(batch, orgs, c));
    EligibleIsFresh(batch, orgs, c, scans.Keys);
    GreedyIsSubsequence(c.cap, scans, Eligible(batch, orgs, c), scans.Keys);
    GrantedAreAskedFor(batch, orgs, scans, c);
    InsertAllRows(scans, granted);
    PublishedScans(between, granted, broker, |granted|, c.maxFailures);
    var after := PublishedAll(between, granted, broker, |granted|, c.maxFailures).scans;
    forall id <- after | id !in scans ensures InsertedFor(batch, id, after[id], orgs, c) {
      var r :| r in granted && r.id == id && between.scans[id].orgId == r.orgId && between.scans[id].target == r.target;
      var i :| 0 <= i < |batch| && AsksFor(batch[i], r, orgs, c);
      assert batch[i] in batch && batch[i].scan == id;
    }
  }

  /** What a tick means for its due rows and for the scan table. */
  lemma TickLaws(table: map<ScheduleId, Row>, batch: seq<Candidate>, orgs: map<OrgId, Organisation>,
                 scans: map<ScanId, Scan>, c: Settings, moment: Moment, between: Tables, broker: seq<bool>)
    requires IsDueBatch(batch, moment) && DistinctSchedules(batch) && FreshIds(batch, scans.Keys) && |batch| <= |broker|
    requires between.schedules == TableAfter(table, batch, |batch|, orgs, scans, c, moment)
    requires between.scans == InsertAll(scans, Greedy(c.cap, scans, Eligible(batch, orgs, c)))
    ensures var asked := Eligible(batch, orgs, c);
            var granted := Greedy(c.cap, scans, asked);
            var after := PublishedAll(between, granted, broker, |granted|, c.maxFailures);
            && Decided(after.scans, between.messages, after.messages, granted, broker, |granted|)
            && SchedulesAfterTick(after.schedules, after.scans, batch, moment, orgs, c)
            && ScansAfterTick(scans, after.scans, batch, orgs, c)
            && |RefusedRows(batch, orgs, c)| == |batch| - |asked|
  {
    EligibleCount(batch, orgs, c);
    GreedyRowsPresent(batch, orgs, scans, c);
    PublishedRows(between, Greedy(c.cap, scans, Eligible(batch, orgs, c)), broker,
                  |Greedy(c.cap, scans, Eligible(batch, orgs, c))|, c.maxFailures);
    TickedScans(scans, batch, orgs, c, between, broker);
    var granted := Greedy(c.cap, scans, Eligible(batch, orgs, c));
    var after := PublishedAll(between, granted, broker, |granted|, c.maxFailures);
    forall one <- batch ensures ScheduleAfterTick(after.schedules, after.scans, one, moment, orgs, c) {
      var i :| 0 <= i < |batch| && batch[i] == one;
      TickedRow(table, batch, i, orgs, scans, c, moment, between, broker);
    }
  }

  /** Distinct pending rows, each inserted as queued. */
  predicate FreshlyQueued(scans: map<ScanId, Scan>, pending: seq<Request>) {
    && (forall i :: 0 <= i < |pending| ==>
          pending[i].id in scans && scans[pending[i].id] == Scan(pending[i].orgId, pending[i].target, Queued, false))
    && (forall i, j :: 0 <= i < j < |pending| ==> pending[i].id != pending[j].id)
  }

  /** The first `n` pending scans follow the broker's answers: queued with a message, or failed. */
  predicate Decided(scans: map<ScanId, Scan>, before: set<ScanId>, messages: set<ScanId>, pending: seq<Request>,
                    accepted: seq<bool>, n: nat)
    requires n <= |pending| <= |accepted|
  {
    && messages == before + (set i | 0 <= i < n && accepted[i] :: pending[i].id)
    && forall i :: 0 <= i < n ==>
         pending[i].id in scans &&
         scans[pending[i].id] == Scan(pending[i].orgId, pending[i].target, if accepted[i] then Queued else Failed, accepted[i])
  }

  /** Phase two decides every pending row by the broker's answer and leaves the rest alone. */
  lemma {:induction false} PublishedRows(t: Tables, pending: seq<Request>, accepted: seq<bool>, n: nat, maxFailures: int)
    requires n <= |pending| <= |accepted| && FreshlyQueued(t.scans, pending)
    ensures var u := PublishedAll(t, pending, accepted, n, maxFailures);
            && Decided(u.scans, t.messages, u.messages, pending, accepted, n)
            && forall i :: n <= i < |pending| ==>
                 pending[i].id in u.scans && u.scans[pending[i].id] == t.scans[pending[i].id]
  {
    if n > 0 {
      PublishedRows(t, pending, accepted, n - 1, maxFailures);
    }
  }

  lemma {:induction false} InsertedRows(scans: map<ScanId, Scan>, rs: seq<Request>)
    requires FreshFor(rs, scans.Keys)
    ensures FreshlyQueued(InsertAll(scans, rs), rs)
  {
    if rs != [] {
      InsertedRows(scans, rs[..|rs| - 1]);
    }
  }

  lemma GreedyRowsPresent(batch: seq<Candidate>, orgs: map<OrgId, Organisation>, scans: map<ScanId, Scan>, c: Settings)
    requires FreshIds(batch, scans.Keys)
    ensures var granted := Greedy(c.cap, scans, Eligible(batch, orgs, c));
            FreshlyQueued(InsertAll(scans, granted), granted)
  {
    EligibleIsFresh(batch, orgs, c, scans.Keys);
    GreedyIsSubsequence(c.cap, scans, Eligible(batch, orgs, c), scans.Keys);
    InsertedRows(scans, Greedy(c.cap, scans, Eligible(batch, orgs, c)));
  }

  /** Phase one is the tick step of the scan lifecycle, on the requests of the eligible rows. */
  lemma PhaseOneIsTick(s: State, batch: seq<Candidate>, orgs: map<OrgId, Organisation>, c: Settings)
    requires s.scans.Keys <= s.issued && FreshIds(batch, s.issued)
    ensures var t := Apply(c.cap, s, Tick(Eligible(batch, orgs, c)));
            var tally := TallyAt(batch, |batch|, orgs, s.scans, c);
            t.scans == tally.scans && t.unpublished == s.unpublished + Ids(tally.pending)
  {
    EligibleIsFresh(batch, orgs, c, s.issued);
    TickStepIsGreedy(c.cap, s, Eligible(batch, orgs, c));
    assert batch[..|batch|] == batch;
    TallyIsGreedy(batch, |batch|, orgs, s.scans, c);
  }

  /** Recording one broker answer is two steps of the scan lifecycle. */
  lemma PublishedIsTwoSteps(cap: nat, s: State, r: Request, accepted: bool, schedules: map<ScheduleId, Row>, maxFailures: int)
    requires r.id in s.unpublished && Owned(s)
    ensures var t := Published(Tables(s.scans, schedules, s.messages), r, accepted, maxFailures);
            var mid := Apply(cap, s, if accepted then PublishOk(r.id) else PublishFail(r.id));
            var u := Apply(cap, mid, if accepted then RecordTask(r.id) else Action.RecordFailure(r.id));
            u.scans == t.scans && u.messages == t.messages && u.unpublished == s.unpublished - {r.id}
            && u.failing == s.failing
  {
  }

  /** The tally the greedy allocation predicts for `n` rows that ask for `asked`. */
  function GreedyTally(scans: map<ScanId, Scan>, asked: seq<Request>, n: nat, cap: nat): Tally
    requires |asked| <= n
  {
    var granted := Greedy(cap, scans, asked);
    Tally(InsertAll(scans, granted), granted, |asked| - |granted|, n - |asked|)
  }

  lemma FreshPrefix(batch: seq<Candidate>, n: nat, used: set<ScanId>)
    requires FreshIds(batch, used) && n <= |batch|
    ensures FreshIds(batch[..n], used)
  {
  }

  lemma GreedyTallyRefuses(scans: map<ScanId, Scan>, asked: seq<Request>, n: nat, cap: nat)
    requires |asked| <= n
    ensures var t := GreedyTally(scans, asked, n, cap);
            GreedyTally(scans, asked + [], n + 1, cap) == t.(disabled := t.disabled + 1)
  {
    assert asked + [] == asked;
  }

  lemma GreedyTallyAdmits(scans: map<ScanId, Scan>, asked: seq<Request>, r: Request, n: nat, cap: nat)
    requires |asked| <= n
    ensures var t := GreedyTally(scans, asked, n, cap);
            GreedyTally(scans, asked + [r], n + 1, cap) ==
            if Active(scans, r.orgId) + |ForOrg(t.pending, r.orgId)| >= cap then t.(skipped := t.skipped + 1)
            else t.(scans := t.scans[r.id := Scan(r.orgId, r.target, Queued, false)], pending := t.pending + [r])
  {
    var g := Greedy(cap, scans, asked);
    GreedySnoc(cap, scans, asked, r);
    if Active(scans, r.orgId) + |ForOrg(g, r.orgId)| < cap {
      InsertAllSnoc(scans, g, r);
    }
  }

  lemma GreedyCountsOne(asked: seq<Request>, one: Candidate, n: nat, orgs: map<OrgId, Organisation>,
                        scans: map<ScanId, Scan>, c: Settings)
    requires |asked| <= n
    requires var g := Greedy(c.cap, scans, asked);
             Active(InsertAll(scans, g), one.row.orgId) == Active(scans, one.row.orgId) + |ForOrg(g, one.row.orgId)|
    ensures Count(GreedyTally(scans, asked, n, c.cap), one, orgs, c)
            == GreedyTally(scans, asked + AskedBy(one, orgs, c), n + 1, c.cap)
  {
    match Judge(one.row, orgs, c) {
      case Refuse(_) => GreedyTallyRefuses(scans, asked, n, c.cap);
      case Admissible(target) =>
        GreedyTallyAdmits(scans, asked, Request(one.scan, one.row.orgId, target, Some(one.schedule)), n, c.cap);
    }
  }

  /**
   * The sequential tick is the greedy allocation over the eligible rows: rows refused and rows skipped
   * are counted, everything else is inserted and pending.
   */
  lemma {:induction false} TallyIsGreedy(batch: seq<Candidate>, n: nat, orgs: map<OrgId, Organisation>,
                                         scans: map<ScanId, Scan>, c: Settings)
    requires n <= |batch| && FreshIds(batch, scans.Keys)
    ensures TallyAt(batch, n, orgs, scans, c) == GreedyTally(scans, Eligible(batch[..n], orgs, c), n, c.cap)
  {
    if n == 0 {
      assert batch[..0] == [];
    } else {
      TallyIsGreedy(batch, n - 1, orgs, scans, c);
      TallyOneMore(batch, n - 1, orgs, scans, c);
    }
  }

  lemma TallyOneMore(batch: seq<Candidate>, n: nat, orgs: map<OrgId, Organisation>, scans: map<ScanId, Scan>, c: Settings)
    requires n < |batch| && FreshIds(batch, scans.Keys)
    ensures Count(GreedyTally(scans, Eligible(batch[..n], orgs, c), n, c.cap), batch[n], orgs, c)
            == GreedyTally(scans, Eligible(batch[..n + 1], orgs, c), n + 1, c.cap)
  {
    EligibleSnoc(batch, n, orgs, c);
    FreshPrefix(batch, n, scans.Keys);
    RunningCount(c.cap, scans, batch[..n], orgs, c, batch[n].row.orgId);
    GreedyCountsOne(Eligible(batch[..n], orgs, c), batch[n], n, orgs, scans, c);
  }

  lemma CountInsertsOwn(t: Tally, one: Candidate, orgs: map<OrgId, Organisation>, c: Settings)
    ensures Count(t, one, orgs, c).scans.Keys <= t.scans.Keys + {one.scan}
  {
  }

  /** The id kept for row `i` is not in the table before row `i` is reached. */
  lemma NotInsertedYet(batch: seq<Candidate>, i: nat, orgs: map<OrgId, Organisation>, scans: map<ScanId, Scan>, c: Settings)
    requires FreshIds(batch, scans.Keys) && i < |batch|
    ensures batch[i].scan !in TallyAt(batch, i, orgs, scans, c).scans
  {
    NotInsertedBefore(batch, i, batch[i].scan, orgs, scans, c);
  }

  lemma {:induction false} NotInsertedBefore(batch: seq<Candidate>, i: nat, id: ScanId, orgs: map<OrgId, Organisation>,
                                             scans: map<ScanId, Scan>, c: Settings)
    requires i <= |batch| && id !in scans && forall j :: 0 <= j < i ==> batch[j].scan != id
    ensures id !in TallyAt(batch, i, orgs, scans, c).scans
  {
    if i > 0 {
      NotInsertedBefore(batch, i - 1, id, orgs, scans, c);
      CountInsertsOwn(TallyAt(batch, i - 1, orgs, scans, c), batch[i - 1], orgs, c);
    }
  }
}
