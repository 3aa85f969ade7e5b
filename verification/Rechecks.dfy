/**
 * When re-checks revoke a claim: the sequence of answers that successive sweeps report of it
 * (backend/workers/scheduler.py, backend/models/domain_verification.py).
 */
module Rechecks {
  import opened Results
  import opened DnsChecks
  import opened Strings
  import opened Authority

  /** The re-checks of one claim, oldest first. */
  function Rechecked(c: Claim, answers: seq<Answer>, threshold: int): Claim {
    if answers == [] then c else
    var before := Rechecked(c, answers[..|answers| - 1], threshold);
    var counted := Counted(before, answers[|answers| - 1]);
    if Revokes(before, answers[|answers| - 1], threshold) then counted.(status := ClaimStatus.Failed) else counted
  }

  /** The length of the run of checks, up to the last, that did not find the token, found wanting or unresolved. */
  function Streak(answers: seq<Answer>): nat {
    if answers == [] || answers[|answers| - 1] == Present then 0 else 1 + Streak(answers[..|answers| - 1])
  }

  lemma {:induction false} FailuresAreStreak(c: Claim, answers: seq<Answer>, threshold: int)
    requires c.failures == 0
    ensures Rechecked(c, answers, threshold).failures == Streak(answers)
  {
    if answers != [] {
      FailuresAreStreak(c, answers[..|answers| - 1], threshold);
    }
  }

  /** At check `k` the token was found absent, and enough checks in a row, unresolved ones included, had not found it. */
  predicate FatalAt(answers: seq<Answer>, k: nat, threshold: int) {
    k < |answers| && answers[k] == Absent && Streak(answers[..k + 1]) >= threshold
  }

  lemma FatalInPrefix(answers: seq<Answer>, n: nat, k: nat, threshold: int)
    requires k < n <= |answers|
    ensures FatalAt(answers[..n], k, threshold) <==> FatalAt(answers, k, threshold)
  {
    assert answers[..n][..k + 1] == answers[..k + 1];
  }

  /**
   * Exactly when re-checks revoke a verified claim. Unresolved lookups never revoke by themselves but
   * do count: the comment beside the counter says they do not.
   */
  lemma {:induction false} RevokedIff(c: Claim, answers: seq<Answer>, threshold: int)
    requires c.failures == 0 && c.status == Verified
    ensures Rechecked(c, answers, threshold).status == ClaimStatus.Failed <==>
              (threshold > 0 && exists k :: FatalAt(answers, k, threshold))
    ensures Rechecked(c, answers, threshold).status in {Verified, ClaimStatus.Failed}
  {
    if answers != [] {
      var n := |answers| - 1;
      RevokedIff(c, answers[..n], threshold);
      FailuresAreStreak(c, answers[..n], threshold);
      assert answers[..n + 1] == answers;
      forall k: nat | k < n ensures FatalAt(answers[..n], k, threshold) <==> FatalAt(answers, k, threshold) {
        FatalInPrefix(answers, n, k, threshold);
      }
      assert Revokes(Rechecked(c, answers[..n], threshold), answers[n], threshold) <==> threshold > 0 && FatalAt(answers, n, threshold);
    }
  }

  /** One lookup that failed and one record found missing revoke at a threshold of two. */
  lemma UnresolvedCounts(c: Claim)
    requires c.failures == 0 && c.status == Verified
    ensures Rechecked(c, [Unresolved, Absent], 2).status == ClaimStatus.Failed
    ensures Rechecked(c, [Absent], 2).status == Verified
  {
    var answers := [Unresolved, Absent];
    assert answers[..1] == [Unresolved];
    assert [Unresolved][..0] == [];
    assert [Absent][..0] == [];
  }

  /** What a sweep reports of one claim. */
  function AnswersFor(results: seq<Report>, id: ClaimId): seq<Answer> {
    if results == [] then [] else
    var front, last := AnswersFor(results[..|results| - 1], id), results[|results| - 1];
    if last.0 == id then front + [Reading(last.1)] else front
  }

  lemma RecheckedSnoc(c: Claim, answers: seq<Answer>, answer: Answer, threshold: int)
    ensures var before := Rechecked(c, answers, threshold);
            Rechecked(c, answers + [answer], threshold) ==
            if Revokes(before, answer, threshold) then Counted(before, answer).(status := ClaimStatus.Failed)
            else Counted(before, answer)
  {
    assert (answers + [answer])[..|answers|] == answers;
  }

  lemma {:induction false} RecheckedAppend(c: Claim, first: seq<Answer>, second: seq<Answer>, threshold: int)
    ensures Rechecked(Rechecked(c, first, threshold), second, threshold) == Rechecked(c, first + second, threshold)
  {
    if second == [] {
      assert first + second == first;
    } else {
      var n := |second| - 1;
      RecheckedAppend(c, first, second[..n], threshold);
      assert second == second[..n] + [second[n]];
      RecheckedSnoc(Rechecked(c, first, threshold), second[..n], second[n], threshold);
      RecheckedSnoc(c, first + second[..n], second[n], threshold);
      assert first + second == first + second[..n] + [second[n]];
    }
  }

  lemma RecheckOne(b: Book, id: ClaimId, answer: Answer, threshold: int, other: ClaimId)
    requires other in b.claims
    ensures var u := RecheckStep(b, id, answer, threshold);
            && other in u.claims
            && u.claims[other] ==
                 if id != other then b.claims[other]
                 else if Revokes(b.claims[id], answer, threshold) then Counted(b.claims[id], answer).(status := ClaimStatus.Failed)
                 else Counted(b.claims[id], answer)
  {
  }

  /** A sweep re-checks each claim on exactly the answers it reports for it. */
  lemma {:induction false} SweepRechecks(b: Book, results: seq<Report>, threshold: int, id: ClaimId)
    requires id in b.claims
    ensures var u := SweepStep(b, results, threshold);
            id in u.claims && u.claims[id] == Rechecked(b.claims[id], AnswersFor(results, id), threshold)
  {
    if results != [] {
      var front, last := results[..|results| - 1], results[|results| - 1];
      SweepRechecks(b, front, threshold, id);
      RecheckOne(SweepStep(b, front, threshold), last.0, Reading(last.1), threshold, id);
      if last.0 == id {
        RecheckedSnoc(b.claims[id], AnswersFor(front, id), Reading(last.1), threshold);
      }
    }
  }

  /** The book after sweeps, oldest first. */
  function Swept(b: Book, sweeps: seq<seq<Report>>, threshold: int): Book {
    if sweeps == [] then b else SweepStep(Swept(b, sweeps[..|sweeps| - 1], threshold), sweeps[|sweeps| - 1], threshold)
  }

  function History(sweeps: seq<seq<Report>>, id: ClaimId): seq<Answer> {
    if sweeps == [] then [] else History(sweeps[..|sweeps| - 1], id) + AnswersFor(sweeps[|sweeps| - 1], id)
  }

  lemma {:induction false} SweepsRecheck(b: Book, sweeps: seq<seq<Report>>, threshold: int, id: ClaimId)
    requires id in b.claims
    ensures var u := Swept(b, sweeps, threshold);
            id in u.claims && u.claims[id] == Rechecked(b.claims[id], History(sweeps, id), threshold)
  {
    if sweeps != [] {
      var front, last := sweeps[..|sweeps| - 1], sweeps[|sweeps| - 1];
      SweepsRecheck(b, front, threshold, id);
      SweepRechecks(Swept(b, front, threshold), last, threshold, id);
      RecheckedAppend(b.claims[id], History(front, id), AnswersFor(last, id), threshold);
    }
  }

  /** Exactly when successive sweeps revoke a freshly verified claim of the book. */
  lemma SweepsRevokeIff(b: Book, sweeps: seq<seq<Report>>, threshold: int, id: ClaimId)
    requires id in b.claims && b.claims[id].status == Verified && b.claims[id].failures == 0
    ensures var u := Swept(b, sweeps, threshold);
            id in u.claims && (u.claims[id].status == ClaimStatus.Failed <==>
              (threshold > 0 && exists k :: FatalAt(History(sweeps, id), k, threshold)))
  {
    SweepsRecheck(b, sweeps, threshold, id);
    RevokedIff(b.claims[id], History(sweeps, id), threshold);
  }

  /** What a check of a claim against two DNS answers reports, as the check itself promises. */
  predicate Checks(c: Claim, dedicated: Response, apex: Response, r: CheckResult) {
    && (r.ok <==> Publishes(dedicated, c.token) || Publishes(apex, APEX_PREFIX + c.token))
    && (!r.ok ==> r.error.Some?
                  && (Contains(r.error.value, UNRESOLVED_TEXT) <==> !Answered(dedicated) && !Answered(apex)))
  }

  /**
   * One re-check from DNS to the book: the failures go to zero when the token is found and up by one otherwise, and
   * the claim is revoked exactly when somebody answered, the token was nowhere, and the failures have reached a
   * positive threshold.
   */
  lemma RecheckByDns(b: Book, id: ClaimId, dedicated: Response, apex: Response, r: CheckResult, threshold: int)
    requires id in b.claims && b.claims[id].status == Verified && Checks(b.claims[id], dedicated, apex, r)
    ensures var c, u := b.claims[id], RecheckStep(b, id, Reading(r), threshold);
            var found := Publishes(dedicated, c.token) || Publishes(apex, APEX_PREFIX + c.token);
            && id in u.claims && u.claims[id].failures == (if found then 0 else c.failures + 1)
            && (u.claims[id].status != Verified <==>
                  !found && (Answered(dedicated) || Answered(apex)) && 0 < threshold <= c.failures + 1)
            && u.claims[id] == c.(status := u.claims[id].status, failures := u.claims[id].failures)
  {
  }
}
