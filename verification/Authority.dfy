/**
 * Scanning authority: domain claims, the cached list of verified domains, and the re-verification
 * sweep with its separate snapshot and apply steps (backend/routes/domains.py,
 * backend/workers/scheduler.py, the claim made by backend/routes/auth.py).
 */
module Authority {
  import opened Results
  import opened ClaimableDomains
  import opened DnsChecks
  import opened Schedules
  import opened Scope
  import opened Strings
  import opened ScanSlots

  type ClaimId = nat
  type SweepId = nat
  type Challenge = string

  const TOKEN_TTL: int := 7 * 24 * 3600

  datatype ClaimStatus = Pending | Verified | Failed

  /** One row of domain_verifications. */
  datatype Claim = Claim(
    orgId: OrgId, domain: string, token: Challenge, tokenExpires: Option<int>, status: ClaimStatus, failures: nat)

  datatype Book = Book(
    verified: map<OrgId, seq<string>>,          // Organisation.verified_domains
    claims: map<ClaimId, Claim>,
    schedules: map<ScheduleId, Row>)

  /** The book and the sweeps between their snapshot and their apply step, with the claims each read. */
  datatype System = System(book: Book, sweeps: map<SweepId, set<ClaimId>>)

  datatype VerifyOutcome = NotFound | AlreadyVerified | TokenRotated | RateLimited | NotProven | Proven

  function WithoutDomain(list: seq<string>, domain: string): seq<string> {
    if list == [] then [] else
    var front := WithoutDomain(list[..|list| - 1], domain);
    var d := list[|list| - 1];
    if d != "" && d != domain then front + [d] else front
  }

  /** `_grant`. */
  function Granted(list: seq<string>, domain: string): seq<string> {
    var current := WithoutDomain(list, "");
    if domain in current then list else current + [domain]
  }

  predicate Claims(claims: map<ClaimId, Claim>, org: OrgId, domain: string) {
    exists c <- claims :: claims[c].orgId == org && claims[c].domain == domain
  }

  function Held(claims: map<ClaimId, Claim>, org: OrgId): set<ClaimId> {
    set c | c in claims && claims[c].orgId == org
  }

  function FreshClaim(org: OrgId, domain: string, token: Challenge, now: int): Claim {
    Claim(org, domain, token, Some(now + TOKEN_TTL), Pending, 0)
  }

  /** `register`: an organisation with nothing verified and one pending claim. */
  function RegisterStep(b: Book, org: OrgId, domain: string, id: ClaimId, token: Challenge, now: int): Book {
    if org in b.verified || id in b.claims || domain == "" then b else
    b.(verified := b.verified[org := []], claims := b.claims[id := FreshClaim(org, domain, token, now)])
  }

  /** `add_domain`. */
  function AddStep(b: Book, org: OrgId, domain: string, id: ClaimId, token: Challenge, now: int, limit: int): Book {
    if org !in b.verified || id in b.claims || domain == "" || Claims(b.claims, org, domain) || |Held(b.claims, org)| >= limit
    then b else b.(claims := b.claims[id := FreshClaim(org, domain, token, now)])
  }

  predicate TokenExpired(c: Claim, now: int) {
    c.tokenExpires.None? || now >= c.tokenExpires.value
  }

  function VerifyVerdict(b: Book, org: OrgId, id: ClaimId, admitted: bool, answer: Answer, now: int): VerifyOutcome {
    if id !in b.claims || b.claims[id].orgId != org || org !in b.verified then NotFound
    else if b.claims[id].status == Verified then AlreadyVerified
    else if TokenExpired(b.claims[id], now) then TokenRotated
    else if !admitted then RateLimited
    else if answer == Present then Proven
    else NotProven
  }

  /** `verify_domain`. */
  function VerifyStep(b: Book, org: OrgId, id: ClaimId, token: Challenge, admitted: bool, answer: Answer, now: int): Book {
    match VerifyVerdict(b, org, id, admitted, answer, now)
    case TokenRotated =>
      b.(claims := b.claims[id := b.claims[id].(token := token, tokenExpires := Some(now + TOKEN_TTL), status := Pending)])
    case NotProven =>
      b.(claims := b.claims[id := b.claims[id].(status := ClaimStatus.Failed, failures := b.claims[id].failures + 1)])
    case Proven =>
      b.(claims := b.claims[id := b.claims[id].(status := Verified, failures := 0)],
         verified := b.verified[org := Granted(b.verified[org], b.claims[id].domain)])
    case _ => b
  }

  /** `delete_domain`. */
  function DeleteStep(b: Book, org: OrgId, id: ClaimId): Book {
    if id !in b.claims || b.claims[id].orgId != org || org !in b.verified then b else
    b.(verified := b.verified[org := WithoutDomain(b.verified[org], b.claims[id].domain)], claims := b.claims - {id})
  }

  /** One re-check of a claim: its counter, and whether it is now to be revoked. */
  function Counted(c: Claim, answer: Answer): Claim {
    c.(failures := if answer == Present then 0 else c.failures + 1)
  }

  predicate ShouldRevoke(c: Claim, threshold: int) {
    threshold > 0 && c.failures >= threshold
  }

  predicate Revokes(c: Claim, answer: Answer, threshold: int) {
    answer == Absent && ShouldRevoke(Counted(c, answer), threshold)
  }

  predicate Depends(row: Row, org: OrgId, domain: string) {
    row.orgId == org && row.enabled && Under(row.target, domain)
  }

  function DependentsDisabled(rows: map<ScheduleId, Row>, org: OrgId, domain: string, count: nat): map<ScheduleId, Row> {
    map i | i in rows :: if Depends(rows[i], org, domain) then Disabled(rows[i], DomainRevoked(domain, count)) else rows[i]
  }

  /** `_revoke` of the sweep. */
  function RevokeStep(b: Book, id: ClaimId): Book
    requires id in b.claims
  {
    var c := b.claims[id];
    var failed := b.(claims := b.claims[id := c.(status := ClaimStatus.Failed)]);
    if c.orgId !in b.verified then failed else
    failed.(verified := b.verified[c.orgId := WithoutDomain(b.verified[c.orgId], c.domain)],
            schedules := DependentsDisabled(b.schedules, c.orgId, c.domain, c.failures))
  }

  /** The sweep's treatment of one result; a claim deleted meanwhile is skipped. */
  function RecheckStep(b: Book, id: ClaimId, answer: Answer, threshold: int): Book {
    if id !in b.claims then b else
    var counted := b.(claims := b.claims[id := Counted(b.claims[id], answer)]);
    if Revokes(b.claims[id], answer, threshold) then RevokeStep(counted, id) else counted
  }

  type Report = (ClaimId, CheckResult)

  function SweepStep(b: Book, results: seq<Report>, threshold: int): Book {
    if results == [] then b else
    var last := results[|results| - 1];
    RecheckStep(SweepStep(b, results[..|results| - 1], threshold), last.0, Reading(last.1), threshold)
  }

  datatype Action =
    | Register(org: OrgId, typed: string, id: ClaimId, token: Challenge, now: int)
    | Add(org: OrgId, typed: string, id: ClaimId, token: Challenge, now: int)
    | Verify(org: OrgId, id: ClaimId, token: Challenge, admitted: bool, dedicated: Response, apex: Response, now: int)
    | Delete(org: OrgId, id: ClaimId)
    | Snapshot(sweep: SweepId)
    | ApplySweep(sweep: SweepId, results: seq<Report>)
    | Save(schedule: ScheduleId, row: Row)              // schedules are created and edited meanwhile

  /** `accept` is the request schema's reading of what was typed: a domain to claim, or a refusal. */
  datatype Limits = Limits(maxDomains: int, threshold: int, accept: string -> Result<string, DomainError>)

  /** The service's own limits; what holds for any `accept` holds for this one. */
  function ServiceLimits(maxDomains: int, threshold: int, rules: Rules): Limits {
    Limits(maxDomains, threshold, typed => NormaliseClaimableDomain(typed, rules))
  }

  /** What DNS says about the claim's own token. */
  function ProofOf(b: Book, id: ClaimId, dedicated: Response, apex: Response): Answer {
    if id in b.claims then Judged(b.claims[id].token, dedicated, apex) else Absent
  }

  function ApplyToBook(b: Book, a: Action, limits: Limits): Book {
    match a
    case Register(org, typed, id, token, now) =>
      var domain := limits.accept(typed);
      if domain.Failure? then b else RegisterStep(b, org, domain.value, id, token, now)
    case Add(org, typed, id, token, now) =>
      var domain := limits.accept(typed);
      if domain.Failure? then b else AddStep(b, org, domain.value, id, token, now, limits.maxDomains)
    case Verify(org, id, token, admitted, dedicated, apex, now) =>
      VerifyStep(b, org, id, token, admitted, ProofOf(b, id, dedicated, apex), now)
    case Delete(org, id) => DeleteStep(b, org, id)
    case Snapshot(_) => b
    case ApplySweep(_, results) => SweepStep(b, results, limits.threshold)
    case Save(id, row) => b.(schedules := b.schedules[id := row])
  }

  /** A sweep is applied once, to results for claims its snapshot read as verified. */
  predicate Enabled(s: System, a: Action) {
    a.ApplySweep? ==> a.sweep in s.sweeps && forall r <- a.results :: r.0 in s.sweeps[a.sweep]
  }

  function Apply(s: System, a: Action, limits: Limits): System {
    if !Enabled(s, a) then s else
    var sweeps := match a
      case Snapshot(sweep) => s.sweeps[sweep := set c | c in s.book.claims && s.book.claims[c].status == Verified]
      case ApplySweep(sweep, _) => s.sweeps - {sweep}
      case _ => s.sweeps;
    System(ApplyToBook(s.book, a, limits), sweeps)
  }

  function Run(s: System, actions: seq<Action>, limits: Limits): System
    decreases |actions|
  {
    if actions == [] then s else Run(Apply(s, actions[0], limits), actions[1..], limits)
  }

  const Start := System(Book(map[], map[], map[]), map[])

  /** The domains an organisation has proven: those of its verified claims. */
  function ProvenDomains(claims: map<ClaimId, Claim>, org: OrgId): set<string> {
    set c | c in claims && claims[c].orgId == org && claims[c].status == Verified :: claims[c].domain
  }

  function Elements(list: seq<string>): set<string> {
    set d | d in list
  }

  /** The cache is duplicate-free, has no blanks and lists exactly `proven`. */
  predicate Lists(list: seq<string>, proven: set<string>) {
    Distinct(list) && "" !in list && Elements(list) == proven
  }

  predicate ClaimsSound(claims: map<ClaimId, Claim>, orgs: set<OrgId>) {
    && (forall c <- claims :: claims[c].orgId in orgs && claims[c].domain != "")
    && (forall c <- claims, d <- claims :: claims[c].orgId == claims[d].orgId && claims[c].domain == claims[d].domain ==> c == d)
  }

  predicate Agrees(verified: map<OrgId, seq<string>>, claims: map<ClaimId, Claim>) {
    forall org <- verified :: Lists(verified[org], ProvenDomains(claims, org))
  }

  predicate Inv(b: Book) {
    ClaimsSound(b.claims, b.verified.Keys) && Agrees(b.verified, b.claims)
  }

  lemma {:induction false} WithoutDomainShape(list: seq<string>, domain: string)
    ensures var r := WithoutDomain(list, domain);
            && (forall d :: d in r <==> d in list && d != "" && d != domain)
            && (Distinct(list) ==> Distinct(r))
  {
    if list != [] {
      var front, d := list[..|list| - 1], list[|list| - 1];
      assert list == front + [d];
      WithoutDomainShape(front, domain);
      assert forall x :: x in list <==> x in front || x == d;
      if Distinct(list) {
        assert Distinct(front);
        assert d !in front;
      }
    }
  }

  lemma GrantedLists(list: seq<string>, proven: set<string>, domain: string)
    requires Lists(list, proven) && domain != ""
    ensures Lists(Granted(list, domain), proven + {domain})
  {
    WithoutDomainShape(list, "");
    var current := WithoutDomain(list, "");
    if domain !in current {
      assert forall d :: d in current + [domain] <==> d in list || d == domain;
    }
  }

  lemma WithdrawnLists(list: seq<string>, proven: set<string>, domain: string)
    requires Lists(list, proven)
    ensures Lists(WithoutDomain(list, domain), proven - {domain})
  {
    WithoutDomainShape(list, domain);
  }

  /** What a claim contributes to its organisation. */
  lemma ProvenAfterUpdate(claims: map<ClaimId, Claim>, orgs: set<OrgId>, id: ClaimId, c: Claim, org: OrgId)
    requires ClaimsSound(claims, orgs) && id in claims
    requires c.orgId == claims[id].orgId && c.domain == claims[id].domain
    ensures ClaimsSound(claims[id := c], orgs)
    ensures ProvenDomains(claims[id := c], org) ==
            if c.orgId != org then ProvenDomains(claims, org)
            else if c.status == Verified then ProvenDomains(claims, org) + {c.domain}
            else ProvenDomains(claims, org) - {c.domain}
  {
    var after := claims[id := c];
    forall d | d in ProvenDomains(claims, org) && !(c.orgId == org && c.domain == d) ensures d in ProvenDomains(after, org) {
      var k :| k in claims && claims[k].orgId == org && claims[k].status == Verified && claims[k].domain == d;
      assert k != id && after[k] == claims[k];
    }
    if c.orgId == org && c.status == Verified {
      assert after[id] == c;
    }
  }

  lemma ProvenAfterInsert(claims: map<ClaimId, Claim>, id: ClaimId, c: Claim, org: OrgId)
    requires id !in claims && c.status != Verified
    ensures ProvenDomains(claims[id := c], org) == ProvenDomains(claims, org)
  {
    var after := claims[id := c];
    forall d | d in ProvenDomains(claims, org) ensures d in ProvenDomains(after, org) {
      var k :| k in claims && claims[k].orgId == org && claims[k].status == Verified && claims[k].domain == d;
      assert after[k] == claims[k];
    }
  }

  lemma ProvenAfterDelete(claims: map<ClaimId, Claim>, orgs: set<OrgId>, id: ClaimId, org: OrgId)
    requires ClaimsSound(claims, orgs) && id in claims
    ensures ClaimsSound(claims - {id}, orgs)
    ensures ProvenDomains(claims - {id}, org) ==
            if claims[id].orgId != org then ProvenDomains(claims, org) else ProvenDomains(claims, org) - {claims[id].domain}
  {
    var after := claims - {id};
    forall d | d in ProvenDomains(claims, org) && !(claims[id].orgId == org && claims[id].domain == d)
      ensures d in ProvenDomains(after, org)
    {
      var k :| k in claims && claims[k].orgId == org && claims[k].status == Verified && claims[k].domain == d;
      assert k in after && after[k] == claims[k];
    }
  }

  /** A claim is rewritten and its organisation's list follows its status. */
  lemma UpdateKeepsInv(b: Book, id: ClaimId, c: Claim, list: seq<string>)
    requires Inv(b) && id in b.claims && c.orgId == b.claims[id].orgId && c.domain == b.claims[id].domain
    requires var before := b.verified[c.orgId];
             list == if c.status == Verified then Granted(before, c.domain) else WithoutDomain(before, c.domain)
    ensures Inv(b.(claims := b.claims[id := c], verified := b.verified[c.orgId := list]))
  {
    var claims, verified := b.claims[id := c], b.verified[c.orgId := list];
    forall org <- verified ensures Lists(verified[org], ProvenDomains(claims, org)) {
      ProvenAfterUpdate(b.claims, b.verified.Keys, id, c, org);
      if org == c.orgId {
        GrantedLists(b.verified[org], ProvenDomains(b.claims, org), c.domain);
        WithdrawnLists(b.verified[org], ProvenDomains(b.claims, org), c.domain);
      }
    }
    ProvenAfterUpdate(b.claims, b.verified.Keys, id, c, c.orgId);
    assert verified.Keys == b.verified.Keys;
  }

  /** A claim is rewritten without entering or leaving the verified status. */
  lemma SameStandingKeepsInv(b: Book, id: ClaimId, c: Claim)
    requires Inv(b) && id in b.claims && c.orgId == b.claims[id].orgId && c.domain == b.claims[id].domain
    requires c.status == Verified <==> b.claims[id].status == Verified
    ensures Inv(b.(claims := b.claims[id := c]))
  {
    var claims := b.claims[id := c];
    forall org <- b.verified ensures ProvenDomains(claims, org) == ProvenDomains(b.claims, org) {
      ProvenAfterUpdate(b.claims, b.verified.Keys, id, c, org);
      ProvenAfterUpdate(claims, b.verified.Keys, id, b.claims[id], org);
      assert claims[id := b.claims[id]] == b.claims;
    }
    ProvenAfterUpdate(b.claims, b.verified.Keys, id, c, c.orgId);
  }

  lemma RegisterKeepsInv(b: Book, org: OrgId, domain: string, id: ClaimId, token: Challenge, now: int)
    requires Inv(b)
    ensures Inv(RegisterStep(b, org, domain, id, token, now))
  {
    var u := RegisterStep(b, org, domain, id, token, now);
    if u != b {
      forall o <- u.verified ensures Lists(u.verified[o], ProvenDomains(u.claims, o)) {
        ProvenAfterInsert(b.claims, id, FreshClaim(org, domain, token, now), o);
      }
      assert u.verified.Keys == b.verified.Keys + {org};
    }
  }

  lemma AddKeepsInv(b: Book, org: OrgId, domain: string, id: ClaimId, token: Challenge, now: int, limit: int)
    requires Inv(b)
    ensures Inv(AddStep(b, org, domain, id, token, now, limit))
  {
    var u := AddStep(b, org, domain, id, token, now, limit);
    if u != b {
      forall o <- u.verified ensures Lists(u.verified[o], ProvenDomains(u.claims, o)) {
        ProvenAfterInsert(b.claims, id, FreshClaim(org, domain, token, now), o);
      }
    }
  }

  lemma VerifyKeepsInv(b: Book, org: OrgId, id: ClaimId, token: Challenge, admitted: bool, answer: Answer, now: int)
    requires Inv(b)
    ensures Inv(VerifyStep(b, org, id, token, admitted, answer, now))
  {
    match VerifyVerdict(b, org, id, admitted, answer, now) {
      case TokenRotated =>
        SameStandingKeepsInv(b, id, b.claims[id].(token := token, tokenExpires := Some(now + TOKEN_TTL), status := Pending));
      case NotProven =>
        SameStandingKeepsInv(b, id, b.claims[id].(status := ClaimStatus.Failed, failures := b.claims[id].failures + 1));
      case Proven =>
        var c := b.claims[id].(status := Verified, failures := 0);
        UpdateKeepsInv(b, id, c, Granted(b.verified[org], c.domain));
      case _ =>
    }
  }

  lemma DeleteKeepsInv(b: Book, org: OrgId, id: ClaimId)
    requires Inv(b)
    ensures Inv(DeleteStep(b, org, id))
  {
    var u := DeleteStep(b, org, id);
    if u != b {
      forall o <- u.verified ensures Lists(u.verified[o], ProvenDomains(u.claims, o)) {
        ProvenAfterDelete(b.claims, b.verified.Keys, id, o);
        WithdrawnLists(b.verified[o], ProvenDomains(b.claims, o), b.claims[id].domain);
      }
      ProvenAfterDelete(b.claims, b.verified.Keys, id, org);
      assert u.verified.Keys == b.verified.Keys;
    }
  }

  lemma RecheckKeepsInv(b: Book, id: ClaimId, answer: Answer, threshold: int)
    requires Inv(b)
    ensures Inv(RecheckStep(b, id, answer, threshold))
  {
    if id in b.claims {
      var c := Counted(b.claims[id], answer);
      SameStandingKeepsInv(b, id, c);
      if Revokes(b.claims[id], answer, threshold) {
        var counted := b.(claims := b.claims[id := c]);
        UpdateKeepsInv(counted, id, c.(status := ClaimStatus.Failed), WithoutDomain(b.verified[c.orgId], c.domain));
        assert RecheckStep(b, id, answer, threshold) == RevokeStep(counted, id);
      }
    }
  }

  lemma {:induction false} SweepKeepsInv(b: Book, results: seq<Report>, threshold: int)
    requires Inv(b)
    ensures Inv(SweepStep(b, results, threshold))
  {
    if results != [] {
      SweepKeepsInv(b, results[..|results| - 1], threshold);
      var last := results[|results| - 1];
      RecheckKeepsInv(SweepStep(b, results[..|results| - 1], threshold), last.0, Reading(last.1), threshold);
    }
  }

  lemma StepKeepsInv(b: Book, a: Action, limits: Limits)
    requires Inv(b)
    ensures Inv(ApplyToBook(b, a, limits))
  {
    match a {
      case Register(org, typed, id, token, now) =>
        var domain := limits.accept(typed);
        if domain.Success? {
          RegisterKeepsInv(b, org, domain.value, id, token, now);
        }
      case Add(org, typed, id, token, now) =>
        var domain := limits.accept(typed);
        if domain.Success? {
          AddKeepsInv(b, org, domain.value, id, token, now, limits.maxDomains);
        }
      case Verify(org, id, token, admitted, dedicated, apex, now) =>
        VerifyKeepsInv(b, org, id, token, admitted, ProofOf(b, id, dedicated, apex), now);
      case Delete(org, id) => DeleteKeepsInv(b, org, id);
      case ApplySweep(_, results) => SweepKeepsInv(b, results, limits.threshold);
      case _ =>
    }
  }

  lemma {:induction false} RunKeepsInv(s: System, actions: seq<Action>, limits: Limits)
    requires Inv(s.book)
    ensures Inv(Run(s, actions, limits).book)
    decreases |actions|
  {
    if actions != [] {
      StepKeepsInv(s.book, actions[0], limits);
      RunKeepsInv(Apply(s, actions[0], limits), actions[1..], limits);
    }
  }

  /**
   * In every reachable state, with any number of sweeps caught between snapshot and apply, the cached
   * list has no duplicate and holds exactly the domains of the verified claims.
   */
  lemma CacheAgreesInEveryRun(actions: seq<Action>, limits: Limits, org: OrgId)
    requires org in Run(Start, actions, limits).book.verified
    ensures var b := Run(Start, actions, limits).book;
            && Distinct(b.verified[org])
            && forall d :: d in b.verified[org] <==>
                 exists c <- b.claims :: b.claims[c].orgId == org && b.claims[c].status == Verified && b.claims[c].domain == d
  {
    RunKeepsInv(Start, actions, limits);
    var b := Run(Start, actions, limits).book;
    assert Lists(b.verified[org], ProvenDomains(b.claims, org));
    assert forall d :: d in b.verified[org] <==> d in Elements(b.verified[org]);
  }

  /**
   * A domain becomes authorised only by a check of a claim on it that finds the claim's own unexpired token
   * published: bare at the dedicated label, or prefixed at the apex.
   */
  lemma OnlyProofGrants(b: Book, a: Action, limits: Limits, org: OrgId, domain: string)
    requires Inv(b) && org in ApplyToBook(b, a, limits).verified && domain in ApplyToBook(b, a, limits).verified[org]
    requires !(org in b.verified && domain in b.verified[org])
    ensures a.Verify? && a.org == org && a.id in b.claims && b.claims[a.id].domain == domain
    ensures var c := b.claims[a.id];
            && c.orgId == org && !TokenExpired(c, a.now)
            && (Publishes(a.dedicated, c.token) || Publishes(a.apex, APEX_PREFIX + c.token))
  {
    match a {
      case Verify(o, id, token, admitted, dedicated, apex, now) =>
        if VerifyVerdict(b, o, id, admitted, ProofOf(b, id, dedicated, apex), now) == Proven {
          WithoutDomainShape(b.verified[o], "");
        }
      case Delete(o, id) =>
        if id in b.claims && o in b.verified {
          WithoutDomainShape(b.verified[o], b.claims[id].domain);
        }
      case ApplySweep(_, results) => SweepOnlyWithdraws(b, results, limits.threshold, org);
      case _ =>
    }
  }

  lemma {:induction false} SweepOnlyWithdraws(b: Book, results: seq<Report>, threshold: int, org: OrgId)
    ensures var u := SweepStep(b, results, threshold);
            && u.verified.Keys == b.verified.Keys
            && (org in b.verified ==> forall d <- u.verified[org] :: d in b.verified[org])
  {
    if results != [] {
      SweepOnlyWithdraws(b, results[..|results| - 1], threshold, org);
      var mid := SweepStep(b, results[..|results| - 1], threshold);
      var last := results[|results| - 1];
      RecheckOnlyWithdraws(mid, last.0, Reading(last.1), threshold, org);
    }
  }

  lemma RecheckOnlyWithdraws(b: Book, id: ClaimId, answer: Answer, threshold: int, org: OrgId)
    ensures var u := RecheckStep(b, id, answer, threshold);
            && u.verified.Keys == b.verified.Keys
            && (org in b.verified ==> forall d <- u.verified[org] :: d in b.verified[org])
  {
    if id in b.claims && b.claims[id].orgId in b.verified {
      WithoutDomainShape(b.verified[b.claims[id].orgId], b.claims[id].domain);
    }
  }

  /** A registration authorises nothing; its claim, checked within the token's time to live, does, and later it is rotated. */
  lemma RegisterThenProof(b: Book, org: OrgId, domain: string, id: ClaimId, token: Challenge, now: int, other: Challenge, at: int)
    requires org !in b.verified && id !in b.claims && domain != ""
    ensures var registered := RegisterStep(b, org, domain, id, token, now);
            && org in registered.verified && registered.verified[org] == []
            && id in registered.claims && registered.claims[id].token == token && registered.claims[id].status == Pending
            && VerifyVerdict(registered, org, id, true, Present, at) == (if at < now + TOKEN_TTL then Proven else TokenRotated)
            && (at < now + TOKEN_TTL ==>
                  VerifyStep(registered, org, id, other, true, Present, at).verified[org] == [domain])
  {
    assert WithoutDomain([], "") == [];
  }

  /** A rotated token is good again: published and checked within its time to live, it grants the domain. */
  lemma RotationThenProof(b: Book, org: OrgId, id: ClaimId, token: Challenge, now: int, other: Challenge, at: int)
    requires Inv(b) && VerifyVerdict(b, org, id, true, Absent, now) == TokenRotated && at < now + TOKEN_TTL
    ensures var rotated := VerifyStep(b, org, id, token, true, Absent, now);
            var proven := VerifyStep(rotated, org, id, other, true, Present, at);
            && rotated.verified == b.verified && rotated.claims[id].token == token
            && VerifyVerdict(rotated, org, id, true, Present, at) == Proven
            && b.claims[id].domain in proven.verified[org] && proven.claims[id].token == token
  {
    VerifyKeepsInv(b, org, id, token, true, Absent, now);
    WithoutDomainShape(b.verified[org], "");
  }

  /** Deleting takes the authority away at once, and claiming again starts over without it. */
  lemma DeleteThenReclaim(b: Book, org: OrgId, id: ClaimId, again: ClaimId, token: Challenge, now: int, limit: int)
    requires Inv(b) && id in b.claims && b.claims[id].orgId == org && org in b.verified
    requires again !in b.claims && |Held(b.claims - {id}, org)| < limit
    ensures var domain := b.claims[id].domain;
            var deleted := DeleteStep(b, org, id);
            var added := AddStep(deleted, org, domain, again, token, now, limit);
            && domain !in deleted.verified[org] && !Claims(deleted.claims, org, domain)
            && added.verified == deleted.verified
            && again in added.claims && added.claims[again] == FreshClaim(org, domain, token, now)
  {
    WithoutDomainShape(b.verified[org], b.claims[id].domain);
  }

  datatype Counters = Counters(checked: nat, failed: nat, revoked: nat, unresolved: nat)

  /** What one result adds to the counters, given the claim as it stands when its turn comes. */
  function CountReport(t: Counters, b: Book, r: Report, threshold: int): Counters {
    if r.0 !in b.claims then t else
    var checked := t.(checked := t.checked + 1);
    match Reading(r.1)
    case Present => checked
    case Unresolved => checked.(failed := t.failed + 1, unresolved := t.unresolved + 1)
    case Absent =>
      checked.(failed := t.failed + 1,
               revoked := if Revokes(b.claims[r.0], Absent, threshold) then t.revoked + 1 else t.revoked)
  }

  function SweepCounters(b: Book, results: seq<Report>, threshold: int): Counters {
    if results == [] then Counters(0, 0, 0, 0) else
    var front := results[..|results| - 1];
    CountReport(SweepCounters(b, front, threshold), SweepStep(b, front, threshold), results[|results| - 1], threshold)
  }

  /** Every report of a present claim is checked, and every failure is unresolved, a revocation, or a strike. */
  lemma {:induction false} CountersAddUp(b: Book, results: seq<Report>, threshold: int)
    ensures var c := SweepCounters(b, results, threshold);
            && c.revoked + c.unresolved <= c.failed <= c.checked <= |results|
            && (threshold <= 0 ==> c.revoked == 0)
            && ((forall r <- results :: r.0 in b.claims) ==> c.checked == |results|)
            && SweepStep(b, results, threshold).claims.Keys == b.claims.Keys
  {
    if results != [] {
      CountersAddUp(b, results[..|results| - 1], threshold);
    }
  }

  /** The handlers and the sweep over the tables, each assigning rows in place. */
  class DomainBook {
    var verified: map<OrgId, seq<string>>
    var claims: map<ClaimId, Claim>
    var schedules: map<ScheduleId, Row>

    constructor ()
      ensures Now() == Start.book
    {
      verified, claims, schedules := map[], map[], map[];
    }

    function Now(): Book
      reads this
    {
      Book(verified, claims, schedules)
    }

    /** The list without blanks and without `domain`, built by a scan. */
    method Kept(list: seq<string>, domain: string) returns (kept: seq<string>)
      ensures kept == WithoutDomain(list, domain)
    {
      kept := [];
      for i := 0 to |list|
        invariant kept == WithoutDomain(list[..i], domain)
      {
        assert list[..i + 1][..i] == list[..i];
        if list[i] != "" && list[i] != domain {
          kept := kept + [list[i]];
        }
      }
      assert list[..|list|] == list;
    }

    /** `_grant`: reassigns the list, or leaves it when the domain is already there. */
    method Grant(org: OrgId, domain: string)
      requires org in verified
      modifies this`verified
      ensures verified == old(verified)[org := Granted(old(verified)[org], domain)]
    {
      var current := Kept(verified[org], "");
      if domain !in current {
        verified := verified[org := current + [domain]];
      }
    }

    method Withdraw(org: OrgId, domain: string)
      requires org in verified
      modifies this`verified
      ensures verified == old(verified)[org := WithoutDomain(old(verified)[org], domain)]
    {
      var kept := Kept(verified[org], domain);
      verified := verified[org := kept];
    }

    /** `add_domain`: an existing claim is returned as it is, a full organisation is refused. */
    method AddDomain(org: OrgId, domain: string, id: ClaimId, token: Challenge, now: int, limit: int) returns (added: bool)
      requires org in verified && id !in claims && domain != ""
      modifies this`claims
      ensures Now() == AddStep(old(Now()), org, domain, id, token, now, limit)
      ensures added <==> !Claims(old(claims), org, domain) && |Held(old(claims), org)| < limit
    {
      added := false;
      if Claims(claims, org, domain) {
        return;
      }
      if |Held(claims, org)| >= limit {
        return;
      }
      claims := claims[id := Claim(org, domain, token, Some(now + TOKEN_TTL), Pending, 0)];
      added := true;
    }

    /** `verify_domain`; DNS is asked only once the other checks have passed. */
    method VerifyDomain(org: OrgId, id: ClaimId, token: Challenge, admitted: bool, w: Words,
                        dedicated: Response, apex: Response, now: int)
      returns (outcome: VerifyOutcome)
      modifies this
      ensures outcome == VerifyVerdict(old(Now()), org, id, admitted, ProofOf(old(Now()), id, dedicated, apex), now)
      ensures Now() == VerifyStep(old(Now()), org, id, token, admitted, ProofOf(old(Now()), id, dedicated, apex), now)
    {
      if id !in claims || claims[id].orgId != org || org !in verified {
        return NotFound;
      }
      var claim := claims[id];
      if claim.status == Verified {
        return AlreadyVerified;
      }
      if claim.tokenExpires.None? || now >= claim.tokenExpires.value {
        claim := claim.(token := token, tokenExpires := Some(now + TOKEN_TTL));
        claims := claims[id := claim.(status := Pending)];
        return TokenRotated;
      }
      if !admitted {
        return RateLimited;
      }
      var check := CheckDomainToken(w, claim.domain, claim.token, dedicated, apex);
      if !check.ok {
        claim := claim.(status := ClaimStatus.Failed);
        claims := claims[id := claim.(failures := claim.failures + 1)];
        return NotProven;
      }
      claim := claim.(status := Verified);
      claims := claims[id := claim.(failures := 0)];
      Grant(org, claim.domain);
      return Proven;
    }

    method DeleteDomain(org: OrgId, id: ClaimId) returns (found: bool)
      modifies this
      ensures Now() == DeleteStep(old(Now()), org, id)
      ensures found <==> id in old(claims) && old(claims[id]).orgId == org && org in old(verified)
      ensures found ==> id !in claims && old(claims[id]).domain !in verified[org]
    {
      if id !in claims || claims[id].orgId != org || org !in verified {
        return false;
      }
      WithoutDomainShape(verified[org], claims[id].domain);
      Withdraw(org, claims[id].domain);
      claims := claims - {id};
      return true;
    }

    /** The enabled schedules of the organisation, looked at one by one. */
    method DisableDependents(org: OrgId, domain: string, count: nat)
      modifies this`schedules
      ensures schedules == DependentsDisabled(old(schedules), org, domain, count)
    {
      var todo := set i | i in schedules && schedules[i].orgId == org && schedules[i].enabled;
      while todo != {}
        invariant schedules.Keys == old(schedules).Keys
        invariant forall i <- todo :: i in schedules && schedules[i] == old(schedules)[i]
        invariant forall i <- schedules :: i !in todo ==> schedules[i] == DependentsDisabled(old(schedules), org, domain, count)[i]
        decreases todo
      {
        var i :| i in todo;
        if Under(schedules[i].target, domain) {
          schedules := schedules[i := Disabled(schedules[i], DomainRevoked(domain, count))];
        }
        todo := todo - {i};
      }
    }

    method Revoke(id: ClaimId)
      requires id in claims
      modifies this
      ensures Now() == RevokeStep(old(Now()), id)
    {
      var claim := claims[id];
      claims := claims[id := claim.(status := ClaimStatus.Failed)];
      if claim.orgId in verified {
        Withdraw(claim.orgId, claim.domain);
        DisableDependents(claim.orgId, claim.domain, claim.failures);
      }
    }

    /** The second half of `reverify_domains`: the results of the checks, one claim at a time. */
    method ApplyResults(results: seq<Report>, threshold: int) returns (counters: Counters)
      modifies this
      ensures Now() == SweepStep(old(Now()), results, threshold)
      ensures counters == SweepCounters(old(Now()), results, threshold)
    {
      counters := Counters(0, 0, 0, 0);
      for i := 0 to |results|
        invariant Now() == SweepStep(old(Now()), results[..i], threshold)
        invariant counters == SweepCounters(old(Now()), results[..i], threshold)
      {
        assert results[..i + 1][..i] == results[..i];
        var (id, check) := results[i];
        if id !in claims {
          continue;
        }
        counters := counters.(checked := counters.checked + 1);
        if check.ok {
          claims := claims[id := claims[id].(failures := 0)];
          continue;
        }
        counters := counters.(failed := counters.failed + 1);
        claims := claims[id := claims[id].(failures := claims[id].failures + 1)];
        if Reading(check) == Unresolved {
          counters := counters.(unresolved := counters.unresolved + 1);
          continue;
        }
        if !ShouldRevoke(claims[id], threshold) {
          continue;
        }
        Revoke(id);
        counters := counters.(revoked := counters.revoked + 1);
      }
      assert results[..|results|] == results;
    }
  }
}
