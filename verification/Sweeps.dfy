/**
 * When DNS is consulted and whom a sweep may touch (backend/routes/domains.py, backend/workers/scheduler.py):
 * the attempts that never ask, and the claims a sweep read as verified.
 */
module Sweeps {
  import opened Results
  import opened DnsChecks
  import opened Strings
  import ScanSlots
  import opened Authority
  import opened Sets

  type OrgId = ScanSlots.OrgId

  /** The caller's own unverified claim with an unexpired token, and the attempt is within the limit. */
  predicate AsksDns(b: Book, org: OrgId, id: ClaimId, admitted: bool, now: int) {
    && id in b.claims && b.claims[id].orgId == org && org in b.verified
    && b.claims[id].status != Verified && !TokenExpired(b.claims[id], now) && admitted
  }

  /** Exactly when each of the early answers is given. */
  lemma EarlyAnswers(b: Book, org: OrgId, id: ClaimId, admitted: bool, answer: Answer, now: int)
    ensures var outcome := VerifyVerdict(b, org, id, admitted, answer, now);
            var own := id in b.claims && b.claims[id].orgId == org && org in b.verified;
            && (outcome.NotFound? <==> !own)
            && (outcome.AlreadyVerified? <==> own && b.claims[id].status == Verified)
            && (outcome.TokenRotated? <==>
                  (own && b.claims[id].status != Verified
                   && (b.claims[id].tokenExpires.None? || b.claims[id].tokenExpires.value <= now)))
            && (outcome.RateLimited? <==> !admitted && AsksDns(b, org, id, true, now))
  {
  }

  /** DNS has a say exactly in those attempts; then the token decides, and otherwise no answer changes anything. */
  lemma DnsHasASayIff(b: Book, org: OrgId, id: ClaimId, token: Challenge, admitted: bool, now: int)
    ensures AsksDns(b, org, id, admitted, now) <==>
              VerifyVerdict(b, org, id, admitted, Present, now) != VerifyVerdict(b, org, id, admitted, Absent, now)
    ensures AsksDns(b, org, id, admitted, now) ==>
              && VerifyVerdict(b, org, id, admitted, Present, now) == Proven
              && VerifyVerdict(b, org, id, admitted, Absent, now) == NotProven
              && VerifyVerdict(b, org, id, admitted, Unresolved, now) == NotProven
    ensures !AsksDns(b, org, id, admitted, now) ==>
              forall x: Answer, y: Answer ::
                VerifyStep(b, org, id, token, admitted, x, now) == VerifyStep(b, org, id, token, admitted, y, now)
  {
  }

  /** Everything but one claim and one organisation's list is as it was. */
  predicate OnlyTouches(b: Book, u: Book, org: OrgId, id: ClaimId) {
    && u.schedules == b.schedules && u.claims.Keys == b.claims.Keys && u.verified.Keys == b.verified.Keys
    && (forall x <- b.claims :: x != id ==> u.claims[x] == b.claims[x])
    && (forall o <- b.verified :: o != org ==> u.verified[o] == b.verified[o])
  }

  /** What each outcome of a verification attempt writes: a refused or idle one nothing at all. */
  lemma AttemptWrites(b: Book, org: OrgId, id: ClaimId, token: Challenge, admitted: bool, answer: Answer, now: int)
    requires Inv(b)
    ensures var outcome, u := VerifyVerdict(b, org, id, admitted, answer, now), VerifyStep(b, org, id, token, admitted, answer, now);
            && OnlyTouches(b, u, org, id)
            && (outcome.NotFound? || outcome.AlreadyVerified? || outcome.RateLimited? ==> u == b)
            && (!outcome.Proven? ==> u.verified == b.verified)
            && (outcome.TokenRotated? ==>
                  u.claims[id] == Claim(org, b.claims[id].domain, token, Some(now + 7 * 24 * 3600), Pending, b.claims[id].failures))
            && (outcome.NotProven? ==>
                  u.claims[id].status == ClaimStatus.Failed && u.claims[id].failures == b.claims[id].failures + 1)
            && (outcome.Proven? ==>
                  && u.claims[id].status == Verified && u.claims[id].failures == 0
                  && forall d :: d in u.verified[org] <==> d in b.verified[org] || d == b.claims[id].domain)
            && (outcome.NotProven? || outcome.Proven? ==>
                  u.claims[id] == b.claims[id].(status := u.claims[id].status, failures := u.claims[id].failures))
  {
    if org in b.verified {
      WithoutDomainShape(b.verified[org], "");
    }
  }

  lemma {:induction false} RunSnoc(s: System, actions: seq<Action>, a: Action, limits: Limits)
    ensures Run(s, actions + [a], limits) == Apply(Run(s, actions, limits), a, limits)
    decreases |actions|
  {
    if actions == [] {
      assert ([] + [a])[1..] == [];
    } else {
      assert (actions + [a])[1..] == actions[1..] + [a];
      RunSnoc(Apply(s, actions[0], limits), actions[1..], a, limits);
    }
  }

  predicate VerifiedIn(b: Book, id: ClaimId) {
    id in b.claims && b.claims[id].status == Verified
  }

  /** The claim was verified at some moment of the run at which this sweep took its snapshot. */
  predicate SnapshotHad(actions: seq<Action>, limits: Limits, sweep: SweepId, id: ClaimId) {
    exists k :: 0 <= k < |actions| && HadAt(actions, k, limits, sweep, id)
  }

  predicate HadAt(actions: seq<Action>, k: nat, limits: Limits, sweep: SweepId, id: ClaimId)
    requires k < |actions|
  {
    actions[k] == Snapshot(sweep) && VerifiedIn(Run(Start, actions[..k], limits).book, id)
  }

  lemma SnapshotHadGrows(actions: seq<Action>, a: Action, limits: Limits, sweep: SweepId, id: ClaimId)
    requires SnapshotHad(actions, limits, sweep, id)
    ensures SnapshotHad(actions + [a], limits, sweep, id)
  {
    var k :| 0 <= k < |actions| && HadAt(actions, k, limits, sweep, id);
    assert (actions + [a])[..k] == actions[..k];
    assert HadAt(actions + [a], k, limits, sweep, id);
  }

  /** In every run a sweep in flight holds only claims that were verified at its snapshot. */
  lemma {:induction false} SweepsHoldVerifiedClaims(actions: seq<Action>, limits: Limits, sweep: SweepId, id: ClaimId)
    requires sweep in Run(Start, actions, limits).sweeps && id in Run(Start, actions, limits).sweeps[sweep]
    ensures SnapshotHad(actions, limits, sweep, id)
    decreases |actions|
  {
    if actions != [] {
      var front, a := actions[..|actions| - 1], actions[|actions| - 1];
      assert actions == front + [a];
      RunSnoc(Start, front, a, limits);
      if a == Snapshot(sweep) {
        assert HadAt(actions, |front|, limits, sweep, id);
      } else {
        SweepsHoldVerifiedClaims(front, limits, sweep, id);
        SnapshotHadGrows(front, a, limits, sweep, id);
      }
    }
  }

  lemma {:induction false} UnreportedClaimIsKept(b: Book, results: seq<Report>, threshold: int, id: ClaimId)
    requires id in b.claims && forall r <- results :: r.0 != id
    ensures var u := SweepStep(b, results, threshold);
            id in u.claims && u.claims[id] == b.claims[id]
  {
    if results != [] {
      UnreportedClaimIsKept(b, results[..|results| - 1], threshold, id);
    }
  }

  /** The apply step of a sweep changes only claims that were verified when the sweep took its snapshot. */
  lemma SweepTouchesItsSnapshot(actions: seq<Action>, limits: Limits, sweep: SweepId, results: seq<Report>, id: ClaimId)
    requires id in Run(Start, actions, limits).book.claims
    ensures var s := Run(Start, actions, limits);
            var t := Apply(s, ApplySweep(sweep, results), limits);
            id in t.book.claims && (t.book.claims[id] != s.book.claims[id] ==> SnapshotHad(actions, limits, sweep, id))
  {
    var s := Run(Start, actions, limits);
    if Enabled(s, ApplySweep(sweep, results)) {
      if r :| r in results && r.0 == id {
        SweepsHoldVerifiedClaims(actions, limits, sweep, id);
        CountersAddUp(s.book, results, limits.threshold);
      } else {
        UnreportedClaimIsKept(s.book, results, limits.threshold, id);
      }
    }
  }

  predicate WithinLimit(b: Book, limit: int, org: OrgId) {
    |Held(b.claims, org)| <= if limit < 1 then 1 else limit
  }

  lemma HeldAfterInsert(claims: map<ClaimId, Claim>, id: ClaimId, c: Claim, org: OrgId)
    requires id !in claims
    ensures |Held(claims[id := c], org)| == |Held(claims, org)| + if c.orgId == org then 1 else 0
  {
    var held := Held(claims, org);
    assert Held(claims[id := c], org) == if c.orgId == org then held + {id} else held;
  }

  lemma {:induction false} SweepKeepsHolders(b: Book, results: seq<Report>, threshold: int)
    ensures var u := SweepStep(b, results, threshold);
            u.claims.Keys == b.claims.Keys && forall c <- b.claims :: u.claims[c].orgId == b.claims[c].orgId
  {
    if results != [] {
      SweepKeepsHolders(b, results[..|results| - 1], threshold);
    }
  }

  lemma RegisterKeepsLimit(b: Book, o: OrgId, domain: string, id: ClaimId, token: Challenge, now: int, limit: int, org: OrgId)
    requires Inv(b) && WithinLimit(b, limit, org)
    ensures WithinLimit(RegisterStep(b, o, domain, id, token, now), limit, org)
  {
    if RegisterStep(b, o, domain, id, token, now) != b {
      HeldAfterInsert(b.claims, id, FreshClaim(o, domain, token, now), org);
      assert Held(b.claims, o) == {};
    }
  }

  lemma AddKeepsLimit(b: Book, o: OrgId, domain: string, id: ClaimId, token: Challenge, now: int, limit: int, org: OrgId)
    requires WithinLimit(b, limit, org)
    ensures WithinLimit(AddStep(b, o, domain, id, token, now, limit), limit, org)
  {
    if AddStep(b, o, domain, id, token, now, limit) != b {
      HeldAfterInsert(b.claims, id, FreshClaim(o, domain, token, now), org);
    }
  }

  lemma OthersKeepHolders(b: Book, a: Action, limits: Limits, org: OrgId)
    requires !a.Register? && !a.Add?
    ensures |Held(ApplyToBook(b, a, limits).claims, org)| <= |Held(b.claims, org)|
  {
    var u := ApplyToBook(b, a, limits);
    if a.ApplySweep? {
      SweepKeepsHolders(b, a.results, limits.threshold);
    }
    SubsetSize(Held(u.claims, org), Held(b.claims, org));
  }

  lemma StepKeepsLimit(b: Book, a: Action, limits: Limits, org: OrgId)
    requires Inv(b) && WithinLimit(b, limits.maxDomains, org)
    ensures WithinLimit(ApplyToBook(b, a, limits), limits.maxDomains, org)
  {
    match a {
      case Register(o, typed, id, token, now) =>
        if limits.accept(typed).Success? {
          RegisterKeepsLimit(b, o, limits.accept(typed).value, id, token, now, limits.maxDomains, org);
        }
      case Add(o, typed, id, token, now) =>
        if limits.accept(typed).Success? {
          AddKeepsLimit(b, o, limits.accept(typed).value, id, token, now, limits.maxDomains, org);
        }
      case _ => OthersKeepHolders(b, a, limits, org);
    }
  }

  /** No organisation ever holds more claims than the limit, the one it registers with apart. */
  lemma {:induction false} ClaimsWithinLimit(s: System, actions: seq<Action>, limits: Limits, org: OrgId)
    requires Inv(s.book) && WithinLimit(s.book, limits.maxDomains, org)
    ensures WithinLimit(Run(s, actions, limits).book, limits.maxDomains, org)
    decreases |actions|
  {
    if actions != [] {
      StepKeepsInv(s.book, actions[0], limits);
      StepKeepsLimit(s.book, actions[0], limits, org);
      ClaimsWithinLimit(Apply(s, actions[0], limits), actions[1..], limits, org);
    }
  }

  lemma {:induction false} AppliedSweepIsGone(s: System, actions: seq<Action>, limits: Limits, sweep: SweepId)
    requires sweep !in s.sweeps && Snapshot(sweep) !in actions
    ensures sweep !in Run(s, actions, limits).sweeps
    decreases |actions|
  {
    if actions != [] {
      AppliedSweepIsGone(Apply(s, actions[0], limits), actions[1..], limits, sweep);
    }
  }

  /** One snapshot, one application: until it takes another snapshot, an applied sweep changes nothing more. */
  lemma SweepAppliesOncePerSnapshot(s: System, results: seq<Report>, between: seq<Action>, again: seq<Report>, limits: Limits,
                                    sweep: SweepId)
    requires Enabled(s, ApplySweep(sweep, results)) && Snapshot(sweep) !in between
    ensures var u := Run(Apply(s, ApplySweep(sweep, results), limits), between, limits);
            Apply(u, ApplySweep(sweep, again), limits) == u
  {
    AppliedSweepIsGone(Apply(s, ApplySweep(sweep, results), limits), between, limits, sweep);
  }

  /** The reports of claims that are still there. */
  function OfPresent(b: Book, results: seq<Report>): set<int> {
    set i | 0 <= i < |results| && results[i].0 in b.claims
  }

  /** Those that did not find the token. */
  function Failing(b: Book, results: seq<Report>): set<int> {
    set i | 0 <= i < |results| && results[i].0 in b.claims && !results[i].1.ok
  }

  predicate IsUnresolved(r: CheckResult) {
    !r.ok && r.error.Some? && Contains(r.error.value, UNRESOLVED_TEXT)
  }

  /** Those that got no answer from DNS. */
  function WithoutAnswer(b: Book, results: seq<Report>): set<int> {
    set i | 0 <= i < |results| && results[i].0 in b.claims && IsUnresolved(results[i].1)
  }

  /** Those that found nothing published as the claim's failures reach the threshold. */
  function Decisive(b: Book, results: seq<Report>, threshold: int): set<int> {
    set i | 0 <= i < |results| && IsDecisive(b, results, i, threshold)
  }

  predicate IsDecisive(b: Book, results: seq<Report>, i: int, threshold: int)
    requires 0 <= i < |results|
  {
    var before := SweepStep(b, results[..i], threshold);
    && results[i].0 in before.claims && !results[i].1.ok && !IsUnresolved(results[i].1)
    && 0 < threshold <= before.claims[results[i].0].failures + 1
  }

  predicate CountersAre(c: Counters, b: Book, results: seq<Report>, threshold: int) {
    && c.checked == |OfPresent(b, results)| && c.failed == |Failing(b, results)|
    && c.unresolved == |WithoutAnswer(b, results)| && c.revoked == |Decisive(b, results, threshold)|
  }

  lemma SetsOneMore(b: Book, front: seq<Report>, r: Report, threshold: int)
    ensures var all, n := front + [r], |front|;
            && OfPresent(b, all) == OfPresent(b, front) + (if r.0 in b.claims then {n} else {})
            && Failing(b, all) == Failing(b, front) + (if r.0 in b.claims && !r.1.ok then {n} else {})
            && WithoutAnswer(b, all) == WithoutAnswer(b, front) + (if r.0 in b.claims && IsUnresolved(r.1) then {n} else {})
            && Decisive(b, all, threshold) == Decisive(b, front, threshold) + (if IsDecisive(b, all, n, threshold) then {n} else {})
  {
    var all := front + [r];
    forall i | 0 <= i < |front| ensures IsDecisive(b, all, i, threshold) == IsDecisive(b, front, i, threshold) {
      assert all[..i] == front[..i];
    }
  }

  lemma SizesOneMore(b: Book, front: seq<Report>, r: Report, threshold: int)
    ensures var all, n := front + [r], |front|;
            && |OfPresent(b, all)| == |OfPresent(b, front)| + (if r.0 in b.claims then 1 else 0)
            && |Failing(b, all)| == |Failing(b, front)| + (if r.0 in b.claims && !r.1.ok then 1 else 0)
            && |WithoutAnswer(b, all)| == |WithoutAnswer(b, front)| + (if r.0 in b.claims && IsUnresolved(r.1) then 1 else 0)
            && |Decisive(b, all, threshold)| == |Decisive(b, front, threshold)| + (if IsDecisive(b, all, n, threshold) then 1 else 0)
  {
    SetsOneMore(b, front, r, threshold);
    var n := |front|;
    assert n !in OfPresent(b, front) && n !in Failing(b, front);
    assert n !in WithoutAnswer(b, front) && n !in Decisive(b, front, threshold);
  }

  /** What one report adds, by its result and by the claim as it stands. */
  lemma ReportCounts(t: Counters, mid: Book, r: Report, threshold: int)
    ensures var u, present := CountReport(t, mid, r, threshold), r.0 in mid.claims;
            && u.checked == t.checked + (if present then 1 else 0)
            && u.failed == t.failed + (if present && !r.1.ok then 1 else 0)
            && u.unresolved == t.unresolved + (if present && IsUnresolved(r.1) then 1 else 0)
            && u.revoked == t.revoked + (if present && !r.1.ok && !IsUnresolved(r.1)
                                            && 0 < threshold <= mid.claims[r.0].failures + 1 then 1 else 0)
  {
  }

  lemma CountOneMore(t: Counters, b: Book, front: seq<Report>, r: Report, threshold: int)
    requires CountersAre(t, b, front, threshold)
    ensures CountersAre(CountReport(t, SweepStep(b, front, threshold), r, threshold), b, front + [r], threshold)
  {
    SizesOneMore(b, front, r, threshold);
    ReportCounts(t, SweepStep(b, front, threshold), r, threshold);
    SweepKeepsHolders(b, front, threshold);
    assert (front + [r])[..|front|] == front && (front + [r])[|front|] == r;
  }

  /** The sweep's counters count what they say, report by report. */
  lemma {:induction false} CountersCount(b: Book, results: seq<Report>, threshold: int)
    ensures CountersAre(SweepCounters(b, results, threshold), b, results, threshold)
  {
    if results != [] {
      var front := results[..|results| - 1];
      CountersCount(b, front, threshold);
      assert results == front + [results[|results| - 1]];
      CountOneMore(SweepCounters(b, front, threshold), b, front, results[|results| - 1], threshold);
    }
  }
}
