/** DNS proof-of-ownership checks and how the sweep reads their outcome (backend/core/dns_verify.py). */
module DnsChecks {
  import opened Results
  import opened Strings

  const CHALLENGE_LABEL := "_surfacewatch-challenge"
  const APEX_PREFIX := "surfacewatch-verification="

  /** What the resolver said about one name; each record is a list of character-strings. */
  datatype Response =
    | NameMissing
    | NoAnswer
    | ServersFailed(detail: string)
    | TimedOut
    | OtherFailure(detail: string)
    | Records(records: seq<seq<string>>)

  datatype TxtLookup = TxtLookup(name: string, values: seq<string>, error: Option<string>) {
    predicate Resolved() {
      error.None?
    }
  }

  datatype CheckResult = CheckResult(ok: bool, error: Option<string>, lookups: seq<TxtLookup>)

  /** What the check means for a claim. */
  datatype Answer = Present | Absent | Unresolved

  predicate Answered(r: Response) {
    r.NameMissing? || r.NoAnswer? || r.Records?
  }

  /** The values published: each record's strings joined and stripped, empty ones dropped. */
  function Values(records: seq<seq<string>>): seq<string> {
    if records == [] then [] else
    var front := Values(records[..|records| - 1]);
    var joined := Strip(Concat(records[|records| - 1]), IsSpace);
    if joined == "" then front else front + [joined]
  }

  /** The token stands published at a name that answered. */
  predicate Publishes(r: Response, value: string) {
    r.Records? && exists record <- r.records :: value != "" && Strip(Concat(record), IsSpace) == value
  }

  lemma {:induction false} ValuesArePublished(records: seq<seq<string>>, value: string)
    ensures value in Values(records) <==> Publishes(Records(records), value)
  {
    if records != [] {
      var front, last := records[..|records| - 1], records[|records| - 1];
      assert records == front + [last];
      ValuesArePublished(front, value);
    }
  }

  /** `lookup_txt`: an authoritative nothing is an answer, everything else that is not one is an error. */
  method LookupTxt(name: string, response: Response) returns (l: TxtLookup)
    ensures l.name == name
    ensures l.Resolved() <==> Answered(response)
    ensures l.values == if response.Records? then Values(response.records) else []
  {
    match response {
      case NameMissing => return TxtLookup(name, [], None);
      case NoAnswer => return TxtLookup(name, [], None);
      case ServersFailed(detail) =>
        return TxtLookup(name, [], Some("the nameservers for " + name + " did not answer (" + detail + ")"));
      case TimedOut => return TxtLookup(name, [], Some("the DNS lookup for " + name + " timed out"));
      case OtherFailure(detail) =>
        return TxtLookup(name, [], Some("the DNS lookup for " + name + " failed (" + detail + ")"));
      case Records(records) =>
        var values: seq<string> := [];
        for i := 0 to |records|
          invariant values == Values(records[..i])
        {
          assert records[..i + 1][..i] == records[..i];
          var joined := Strip(Concat(records[i]), IsSpace);
          if joined != "" {
            values := values + [joined];
          }
        }
        assert records[..|records|] == records;
        return TxtLookup(name, values, None);
    }
  }

  const UNRESOLVED_TEXT := "Could not check DNS"

  /** `record_name`: where the challenge is to be published. */
  function ChallengeName(domain: string): (name: string)
    ensures 'C' !in domain ==> 'C' !in name
  {
    CHALLENGE_LABEL + "." + domain
  }

  /** The advice each kind of message ends in. */
  datatype Words = Words(retry: string, propagation: string, stale: string)

  /** The advice given, in the service's own words. */
  function ShippedWords(): Words {
    Words("This is a lookup failure, not a missing record \U{2014} try again shortly.",
          PropagationHint(),
          StaleCause() + QuotingHint())
  }

  function PropagationHint(): (s: string)
    ensures 'C' !in s
  {
    "If you have just added it, " + "DNS can take a few minutes to propagate."
  }

  function StaleCause(): (s: string)
    ensures 'C' !in s
  {
    "A stale record from an earlier attempt " + "is the usual cause \U{2014} "
  }

  function QuotingHint(): (s: string)
    ensures 'C' !in s
  {
    "check the value matches exactly, " + "with no quotes or spaces."
  }

  /** No capital C, with which the words of a failed lookup begin, where a record is reported missing or stale. */
  predicate Unconfusing(w: Words) {
    'C' !in w.propagation && 'C' !in w.stale
  }

  lemma ShippedWordsAreUnconfusing()
    ensures Unconfusing(ShippedWords())
  {
    assert ShippedWords().stale == StaleCause() + QuotingHint();
  }

  /** `_explain`: which of the three failures it was, in words. */
  function Explain(w: Words, domain: string, dedicated: TxtLookup, apex: TxtLookup): string {
    if !dedicated.Resolved() && !apex.Resolved() then UnresolvedMessage(w, domain, dedicated.error.value)
    else if dedicated.values + apex.values == [] then MissingMessage(w, domain, dedicated.name)
    else StaleMessage(w, domain, |dedicated.values + apex.values|)
  }

  function UnresolvedMessage(w: Words, domain: string, error: string): (s: string)
    ensures Contains(s, UNRESOLVED_TEXT)
  {
    var rest := " for " + domain + ": " + error + ". " + w.retry;
    PrefixIsContained(UNRESOLVED_TEXT, rest);
    UNRESOLVED_TEXT + rest
  }

  function MissingMessage(w: Words, domain: string, name: string): (s: string)
    ensures 'C' !in domain && 'C' !in name && 'C' !in w.propagation ==> 'C' !in s
  {
    "No TXT record found at " + name + " (or on " + domain + " itself). " + w.propagation
  }

  function StaleMessage(w: Words, domain: string, count: nat): (s: string)
    ensures 'C' !in domain && 'C' !in w.stale ==> 'C' !in s
  {
    "Found " + Decimal(count) + " TXT record(s) for " + domain + StaleLead() + w.stale
  }

  function StaleLead(): (s: string)
    ensures 'C' !in s
  {
    ", but none matched the expected value. "
  }

  /** How the sweep reads a result: by the text of the error. */
  function Reading(r: CheckResult): Answer {
    if r.ok then Present
    else if r.error.Some? && Contains(r.error.value, UNRESOLVED_TEXT) then Unresolved
    else Absent
  }

  lemma TextNeedsCapital(s: string)
    requires Contains(s, UNRESOLVED_TEXT)
    ensures 'C' in s
  {
    var i :| 0 <= i <= |s| - |UNRESOLVED_TEXT| && OccursAt(s, UNRESOLVED_TEXT, i);
    assert s[i] == s[i..i + |UNRESOLVED_TEXT|][0];
  }

  lemma PrefixIsContained(p: string, rest: string)
    ensures Contains(p + rest, p)
  {
    assert OccursAt(p + rest, p, 0);
  }

  /** The words tell a failed lookup from a missing record, for every domain without a capital C. */
  lemma ExplainTellsApart(w: Words, domain: string, dedicated: TxtLookup, apex: TxtLookup)
    requires Unconfusing(w) && 'C' !in domain && 'C' !in dedicated.name
    ensures Contains(Explain(w, domain, dedicated, apex), UNRESOLVED_TEXT) <==> !dedicated.Resolved() && !apex.Resolved()
  {
    if Contains(Explain(w, domain, dedicated, apex), UNRESOLVED_TEXT) {
      TextNeedsCapital(Explain(w, domain, dedicated, apex));
    }
  }

  const MISSING_TEXT := "No TXT record found"
  const STALE_TEXT := "Found "

  /** Of texts that begin differently a message that begins with one begins with no other. */
  lemma BeginsWith(head: string, rest: string, other: string)
    requires head != "" && other != "" && head[0] != other[0]
    ensures head <= head + rest && !(other <= head + rest)
  {
    assert (head + rest)[0] == head[0];
  }

  lemma UnresolvedBegins(w: Words, domain: string, error: string)
    ensures var s := UnresolvedMessage(w, domain, error);
            UNRESOLVED_TEXT <= s && !(MISSING_TEXT <= s) && !(STALE_TEXT <= s)
  {
    var rest := " for " + domain + ": " + error + ". " + w.retry;
    BeginsWith(UNRESOLVED_TEXT, rest, MISSING_TEXT);
    BeginsWith(UNRESOLVED_TEXT, rest, STALE_TEXT);
  }

  lemma MissingBegins(w: Words, domain: string, name: string)
    ensures var s := MissingMessage(w, domain, name);
            MISSING_TEXT <= s && !(UNRESOLVED_TEXT <= s) && !(STALE_TEXT <= s)
  {
    var rest := " at " + (name + " (or on " + domain + " itself). " + w.propagation);
    assert MissingMessage(w, domain, name) == MISSING_TEXT + rest;
    BeginsWith(MISSING_TEXT, rest, UNRESOLVED_TEXT);
    BeginsWith(MISSING_TEXT, rest, STALE_TEXT);
  }

  lemma StaleBegins(w: Words, domain: string, count: nat)
    ensures var s := StaleMessage(w, domain, count);
            STALE_TEXT <= s && !(UNRESOLVED_TEXT <= s) && !(MISSING_TEXT <= s)
  {
    var rest := Decimal(count) + (" TXT record(s) for " + domain + StaleLead() + w.stale);
    assert StaleMessage(w, domain, count) == STALE_TEXT + rest;
    BeginsWith(STALE_TEXT, rest, UNRESOLVED_TEXT);
    BeginsWith(STALE_TEXT, rest, MISSING_TEXT);
  }

  /** Each message begins with its own words: both lookups failed, nothing is published, or something else is. */
  lemma ExplainNamesTheFailure(w: Words, domain: string, dedicated: TxtLookup, apex: TxtLookup)
    ensures var s, failed := Explain(w, domain, dedicated, apex), !dedicated.Resolved() && !apex.Resolved();
            && (UNRESOLVED_TEXT <= s <==> failed)
            && (MISSING_TEXT <= s <==> !failed && dedicated.values == [] && apex.values == [])
            && (STALE_TEXT <= s <==> !failed && (dedicated.values != [] || apex.values != []))
  {
    if !dedicated.Resolved() && !apex.Resolved() {
      UnresolvedBegins(w, domain, dedicated.error.value);
    } else {
      MissingBegins(w, domain, dedicated.name);
      StaleBegins(w, domain, |dedicated.values + apex.values|);
    }
  }

  /** What the two answers prove about a token: the bare one at the dedicated label, or the prefixed one at the apex. */
  function Judged(token: string, dedicatedSays: Response, apexSays: Response): Answer {
    if Publishes(dedicatedSays, token) || Publishes(apexSays, APEX_PREFIX + token) then Present
    else if !Answered(dedicatedSays) && !Answered(apexSays) then Unresolved
    else Absent
  }

  /**
   * The three outcomes in terms of what DNS answered: proven when the bare token stands at the
   * dedicated label or the prefixed one at the apex; unresolved when neither place answered at all;
   * otherwise absent, even if one of the two lookups failed.
   */
  method CheckDomainToken(w: Words, domain: string, token: string, dedicatedSays: Response, apexSays: Response)
    returns (r: CheckResult)
    ensures r.ok <==> Judged(token, dedicatedSays, apexSays) == Present
    ensures r.ok <==> Publishes(dedicatedSays, token) || Publishes(apexSays, APEX_PREFIX + token)
    ensures Unconfusing(w) && 'C' !in domain && !r.ok ==>
              r.error.Some? && (Contains(r.error.value, UNRESOLVED_TEXT) <==> !Answered(dedicatedSays) && !Answered(apexSays))
    ensures Unconfusing(w) && 'C' !in domain ==> Reading(r) == Judged(token, dedicatedSays, apexSays)
    ensures |r.lookups| == if Publishes(dedicatedSays, token) then 1 else 2
  {
    var dedicated := LookupTxt(ChallengeName(domain), dedicatedSays);
    PublishedValue(dedicatedSays, token);
    if token in dedicated.values {
      return CheckResult(true, None, [dedicated]);
    }
    var apex := LookupTxt(domain, apexSays);
    PublishedValue(apexSays, APEX_PREFIX + token);
    if APEX_PREFIX + token in apex.values {
      return CheckResult(true, None, [dedicated, apex]);
    }
    if Unconfusing(w) && 'C' !in domain {
      ExplainTellsApart(w, domain, dedicated, apex);
    }
    return CheckResult(false, Some(Explain(w, domain, dedicated, apex)), [dedicated, apex]);
  }

  lemma PublishedValue(r: Response, value: string)
    ensures Publishes(r, value) <==> r.Records? && value in Values(r.records)
  {
    if r.Records? {
      ValuesArePublished(r.records, value);
    }
  }
}
