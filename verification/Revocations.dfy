/**
 * What a revocation does to the schedules that depend on the domain (backend/workers/scheduler.py): which are
 * switched off, and which are left enabled and out of scope.
 */
module Revocations {
  import opened Results
  import opened ClaimableDomains
  import opened DnsChecks
  import opened Schedules
  import opened Scope
  import opened Strings
  import ScanSlots
  import opened StoredTargets
  import opened Authority

  type OrgId = ScanSlots.OrgId

  predicate CoversHost(d: string, target: string) {
    DomainKey(d) != "" && Under(NormaliseHost(target), DomainKey(d))
  }

  /**
   * Exactly when a revocation leaves an enabled schedule behind that was in scope and no longer is: its
   * stored text does not lie below the revoked domain, and its host was covered by that domain alone.
   */
  lemma LeftBehindIff(b: Book, id: ClaimId, i: ScheduleId)
    requires Inv(b) && id in b.claims && i in b.schedules
    requires var row := b.schedules[i];
             row.orgId == b.claims[id].orgId && row.enabled && InScope(row.target, b.verified[row.orgId])
    ensures var c, row, u := b.claims[id], b.schedules[i], RevokeStep(b, id);
            (u.schedules[i].enabled && !InScope(row.target, u.verified[row.orgId])) <==>
            (!Under(row.target, c.domain) && forall d <- b.verified[c.orgId] :: CoversHost(d, row.target) ==> d == c.domain)
  {
    var c, row := b.claims[id], b.schedules[i];
    var list := b.verified[c.orgId];
    WithoutDomainShape(list, c.domain);
    assert Lists(list, ProvenDomains(b.claims, c.orgId));
    assert forall d <- list :: d != "";
    assert InScope(row.target, WithoutDomain(list, c.domain)) <==>
             exists d <- WithoutDomain(list, c.domain) :: CoversHost(d, row.target);
  }

  predicate CoveredBy(host: string, list: seq<string>) {
    exists d <- list :: DomainKey(d) != "" && Under(host, DomainKey(d))
  }

  /** A covered host that does not lie below the withdrawn domain is covered by the domains that remain. */
  lemma StillCovered(list: seq<string>, domain: string, host: string)
    requires DomainKey(domain) == domain && CoveredBy(host, list) && !Under(host, domain)
    ensures CoveredBy(host, WithoutDomain(list, domain))
  {
    WithoutDomainShape(list, domain);
    var d :| d in list && DomainKey(d) != "" && Under(host, DomainKey(d));
    assert d in WithoutDomain(list, domain);
  }

  /** Every claim is on a domain in key form, as accepted domains are. */
  predicate KeyedClaims(claims: map<ClaimId, Claim>) {
    forall c <- claims :: DomainKey(claims[c].domain) == claims[c].domain
  }

  /** What the schema accepts is in key form. */
  ghost predicate AcceptsKeys(accept: string -> Result<string, DomainError>) {
    forall typed: string :: accept(typed).Success? ==> DomainKey(accept(typed).value) == accept(typed).value
  }

  lemma {:induction false} SweepKeepsDomains(b: Book, results: seq<Report>, threshold: int)
    ensures var u := SweepStep(b, results, threshold);
            u.claims.Keys == b.claims.Keys && forall c <- b.claims :: u.claims[c].domain == b.claims[c].domain
  {
    if results != [] {
      SweepKeepsDomains(b, results[..|results| - 1], threshold);
    }
  }

  lemma StepKeepsKeyed(b: Book, a: Action, limits: Limits)
    requires KeyedClaims(b.claims) && AcceptsKeys(limits.accept)
    ensures KeyedClaims(ApplyToBook(b, a, limits).claims)
  {
    if a.ApplySweep? {
      SweepKeepsDomains(b, a.results, limits.threshold);
    }
  }

  lemma {:induction false} RunKeepsKeyed(s: System, actions: seq<Action>, limits: Limits)
    requires KeyedClaims(s.book.claims) && AcceptsKeys(limits.accept)
    ensures KeyedClaims(Run(s, actions, limits).book.claims)
    decreases |actions|
  {
    if actions != [] {
      StepKeepsKeyed(s.book, actions[0], limits);
      RunKeepsKeyed(Apply(s, actions[0], limits), actions[1..], limits);
    }
  }

  /** In every reachable state of the service each claim is on a domain in key form. */
  lemma ClaimsAreKeyedInEveryRun(actions: seq<Action>, maxDomains: int, threshold: int, rules: Rules)
    ensures KeyedClaims(Run(Start, actions, ServiceLimits(maxDomains, threshold, rules)).book.claims)
  {
    var limits := ServiceLimits(maxDomains, threshold, rules);
    forall typed: string | limits.accept(typed).Success?
      ensures DomainKey(limits.accept(typed).value) == limits.accept(typed).value
    {
      AcceptedIsKey(typed, rules);
    }
    RunKeepsKeyed(Start, actions, limits);
  }

  /** The stored text of an enabled schedule lies below a domain its organisation holds. */
  predicate CoveredIfEnabled(b: Book, i: ScheduleId, org: OrgId, target: string) {
    && i in b.schedules && b.schedules[i].orgId == org && b.schedules[i].target == target && org in b.verified
    && (b.schedules[i].enabled ==> CoveredBy(target, b.verified[org]))
  }

  lemma RecheckKeepsCovered(b: Book, id: ClaimId, answer: Answer, threshold: int, i: ScheduleId, org: OrgId, target: string)
    requires Inv(b) && KeyedClaims(b.claims) && CoveredIfEnabled(b, i, org, target)
    ensures var u := RecheckStep(b, id, answer, threshold);
            KeyedClaims(u.claims) && CoveredIfEnabled(u, i, org, target)
  {
    if id in b.claims && Revokes(b.claims[id], answer, threshold) {
      var counted := b.(claims := b.claims[id := Counted(b.claims[id], answer)]);
      SameStandingKeepsInv(b, id, Counted(b.claims[id], answer));
      assert RecheckStep(b, id, answer, threshold) == RevokeStep(counted, id);
      if b.claims[id].orgId == org && b.schedules[i].enabled {
        if !Under(target, b.claims[id].domain) {
          StillCovered(b.verified[org], b.claims[id].domain, target);
        }
      }
    }
  }

  /** For a normal host, lying below a domain as text is being in scope of it. */
  lemma NormalHostCoverage(target: string, list: seq<string>)
    ensures target != "" && NormaliseHost(target) == target ==> (InScope(target, list) <==> CoveredBy(target, list))
  {
  }

  /**
   * A whole sweep, however many domains it withdraws, leaves no schedule enabled whose stored text lay below a
   * verified domain and no longer does.
   */
  lemma {:induction false} SweepLeavesNoDependent(b: Book, results: seq<Report>, threshold: int, i: ScheduleId, org: OrgId, target: string)
    requires Inv(b) && KeyedClaims(b.claims) && CoveredIfEnabled(b, i, org, target)
    ensures var u := SweepStep(b, results, threshold);
            KeyedClaims(u.claims) && CoveredIfEnabled(u, i, org, target)
  {
    if results != [] {
      var front, last := results[..|results| - 1], results[|results| - 1];
      SweepLeavesNoDependent(b, front, threshold, i, org, target);
      SweepKeepsInv(b, front, threshold);
      RecheckKeepsCovered(SweepStep(b, front, threshold), last.0, Reading(last.1), threshold, i, org, target);
    }
  }

  /** The domains of an organisation whose claims a sweep revokes. */
  function Withdrawn(b: Book, results: seq<Report>, threshold: int, org: OrgId): set<string> {
    if results == [] then {} else
    var front, last := results[..|results| - 1], results[|results| - 1];
    var mid := SweepStep(b, front, threshold);
    Withdrawn(b, front, threshold, org) +
      if last.0 in mid.claims && mid.claims[last.0].orgId == org && Revokes(mid.claims[last.0], Reading(last.1), threshold)
      then {mid.claims[last.0].domain} else {}
  }

  /** The list and one schedule after domains were withdrawn. */
  predicate WithdrawnFrom(b: Book, u: Book, org: OrgId, i: ScheduleId, gone: set<string>) {
    && org in b.verified && org in u.verified && i in b.schedules && i in u.schedules
    && Elements(u.verified[org]) == Elements(b.verified[org]) - gone
    && u.schedules[i].target == b.schedules[i].target && u.schedules[i].orgId == b.schedules[i].orgId
    && (u.schedules[i].enabled <==> b.schedules[i].enabled && forall d <- gone :: !Under(b.schedules[i].target, d))
  }

  lemma RecheckWithdraws(b: Book, id: ClaimId, answer: Answer, threshold: int, org: OrgId, i: ScheduleId)
    requires Inv(b) && org in b.verified && i in b.schedules && b.schedules[i].orgId == org
    ensures WithdrawnFrom(b, RecheckStep(b, id, answer, threshold), org, i,
              if id in b.claims && b.claims[id].orgId == org && Revokes(b.claims[id], answer, threshold)
              then {b.claims[id].domain} else {})
  {
    assert Lists(b.verified[org], ProvenDomains(b.claims, org));
    if id in b.claims {
      WithoutDomainShape(b.verified[org], b.claims[id].domain);
    }
  }

  lemma WithdrawnTwice(b: Book, mid: Book, u: Book, org: OrgId, i: ScheduleId, first: set<string>, second: set<string>)
    requires WithdrawnFrom(b, mid, org, i, first) && WithdrawnFrom(mid, u, org, i, second)
    ensures WithdrawnFrom(b, u, org, i, first + second)
  {
  }

  lemma {:induction false} SweepWithdraws(b: Book, results: seq<Report>, threshold: int, org: OrgId, i: ScheduleId)
    requires Inv(b) && org in b.verified && i in b.schedules && b.schedules[i].orgId == org
    ensures WithdrawnFrom(b, SweepStep(b, results, threshold), org, i, Withdrawn(b, results, threshold, org))
  {
    if results != [] {
      var front, last := results[..|results| - 1], results[|results| - 1];
      var mid := SweepStep(b, front, threshold);
      SweepWithdraws(b, front, threshold, org, i);
      SweepKeepsInv(b, front, threshold);
      RecheckWithdraws(mid, last.0, Reading(last.1), threshold, org, i);
      WithdrawnTwice(b, mid, SweepStep(b, results, threshold), org, i, Withdrawn(b, front, threshold, org),
        if last.0 in mid.claims && mid.claims[last.0].orgId == org && Revokes(mid.claims[last.0], Reading(last.1), threshold)
        then {mid.claims[last.0].domain} else {});
    }
  }

  lemma InScopeOfElements(target: string, list: seq<string>)
    ensures InScope(target, list) <==> NormaliseHost(target) != "" && exists d <- Elements(list) :: CoversHost(d, target)
  {
    if InScope(target, list) {
      var d :| d in list && DomainKey(d) != "" && Under(NormaliseHost(target), DomainKey(d));
      assert d in Elements(list) && CoversHost(d, target);
    }
  }

  /**
   * The same for a whole sweep, however many domains it withdraws. It leaves an enabled schedule behind
   * exactly when the stored text lies below none of them and every domain that covered its host is among them.
   */
  lemma SweepLeavesBehindIff(b: Book, results: seq<Report>, threshold: int, i: ScheduleId)
    requires Inv(b) && i in b.schedules
    requires var row := b.schedules[i];
             row.orgId in b.verified && row.enabled && InScope(row.target, b.verified[row.orgId])
    ensures var row, u, gone := b.schedules[i], SweepStep(b, results, threshold), Withdrawn(b, results, threshold, b.schedules[i].orgId);
            && i in u.schedules && row.orgId in u.verified
            && ((u.schedules[i].enabled && !InScope(row.target, u.verified[row.orgId])) <==>
                ((forall d <- gone :: !Under(row.target, d))
                 && forall d <- b.verified[row.orgId] :: CoversHost(d, row.target) ==> d in gone))
  {
    var row, u := b.schedules[i], SweepStep(b, results, threshold);
    SweepWithdraws(b, results, threshold, row.orgId, i);
    InScopeOfElements(row.target, b.verified[row.orgId]);
    InScopeOfElements(row.target, u.verified[row.orgId]);
  }

  /** The schedules switched off are the enabled ones below the revoked domain; all others are as they were. */
  lemma DisabledExactly(b: Book, id: ClaimId, i: ScheduleId)
    requires Inv(b) && id in b.claims && i in b.schedules
    ensures var c := b.claims[id];
            var row, after := b.schedules[i], RevokeStep(b, id).schedules[i];
            && (row.enabled && !after.enabled <==>
                  row.enabled && row.orgId == c.orgId && IsSuffix(Labels(c.domain), Labels(row.target)))
            && (after != row ==> after == Disabled(row, DomainRevoked(c.domain, c.failures)))
  {
    UnderIffLabelSuffix(b.schedules[i].target, b.claims[id].domain);
  }

  /**
   * Exactly when it switches off more than scope asks: the schedule's stored text lies below the revoked
   * domain, and its host is still covered by another.
   */
  lemma DisabledThoughCoveredIff(b: Book, id: ClaimId, i: ScheduleId)
    requires Inv(b) && id in b.claims && i in b.schedules
    requires var row := b.schedules[i];
             row.orgId == b.claims[id].orgId && row.enabled
    ensures var c, row, u := b.claims[id], b.schedules[i], RevokeStep(b, id);
            (!u.schedules[i].enabled && InScope(row.target, u.verified[row.orgId])) <==>
            (Under(row.target, c.domain) && NormaliseHost(row.target) != ""
             && exists d <- b.verified[c.orgId] :: d != c.domain && CoversHost(d, row.target))
  {
    var c, row := b.claims[id], b.schedules[i];
    var list := b.verified[c.orgId];
    WithoutDomainShape(list, c.domain);
    assert Lists(list, ProvenDomains(b.claims, c.orgId));
    InScopeOfElements(row.target, WithoutDomain(list, c.domain));
  }

  /** And the revocation of that domain leaves the schedule enabled, out of scope of what remains. */
  lemma PortSurvivesRevocation(b: Book, id: ClaimId, i: ScheduleId, d: string, p: string)
    requires Inv(b) && id in b.claims && i in b.schedules && HostAndPort(d, p)
    requires var c, row := b.claims[id], b.schedules[i];
             c.domain == d && b.verified[c.orgId] == [d]
             && row.orgId == c.orgId && row.enabled && row.target == d + ":" + p
    ensures var u := RevokeStep(b, id);
            u.schedules[i].enabled && !InScope(b.schedules[i].target, u.verified[b.claims[id].orgId])
  {
    PortInScope(d, p);
    LeftBehindIff(b, id, i);
  }

  /** A schedule that is as it was, or has been switched off for a revoked domain. */
  predicate KeptOrRevoked(before: Row, after: Row) {
    after == before
    || (before.enabled && after.disabledReason.Some? && after.disabledReason.value.DomainRevoked?
        && after == Disabled(before, after.disabledReason.value))
  }

  lemma {:induction false} SweepOnSchedules(b: Book, results: seq<Report>, threshold: int)
    ensures var u := SweepStep(b, results, threshold);
            u.schedules.Keys == b.schedules.Keys && forall i <- b.schedules :: KeptOrRevoked(b.schedules[i], u.schedules[i])
  {
    if results != [] {
      SweepOnSchedules(b, results[..|results| - 1], threshold);
    }
  }

  /** Of all the steps on the book only a sweep switches schedules off, each for a domain it revoked. */
  lemma OnlySweepsSwitchOff(b: Book, a: Action, limits: Limits)
    ensures var u := ApplyToBook(b, a, limits);
            && (a.Save? ==> u == b.(schedules := b.schedules[a.schedule := a.row]))
            && (!a.Save? ==> u.schedules.Keys == b.schedules.Keys
                             && forall i <- b.schedules :: KeptOrRevoked(b.schedules[i], u.schedules[i]))
            && (!a.Save? && !a.ApplySweep? ==> u.schedules == b.schedules)
  {
    if a.ApplySweep? {
      SweepOnSchedules(b, a.results, limits.threshold);
    }
  }
}
