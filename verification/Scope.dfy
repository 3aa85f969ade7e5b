/** Which hosts an organisation may scan (backend/core/scoring.py, backend/models/organisation.py). */
module Scope {
  import opened Results
  import opened Strings

  /** How the platform's address library classifies a bare host. */
  datatype IpClass = NotAnAddress | PublicAddress | UnsafeAddress

  datatype ScopeError = EmptyTarget | PrivateTarget | NotCovered

  const FORBIDDEN_HOSTNAMES := {"localhost", "localhost.localdomain", "ip6-localhost", "ip6-loopback", "0"}
  const FORBIDDEN_SUFFIXES := [".localhost", ".local", ".internal", ".localdomain", ".home.arpa"]

  /** Strip scheme, path, query, fragment, credentials, brackets, port and outer dots. */
  function NormaliseHost(target: string): string {
    var h0 := Lower(Strip(target, IsSpace));
    var h1 := if Contains(h0, "://") then AfterFirst(h0, "://") else h0;
    var h2 := Before(Before(Before(h1, '/'), '?'), '#');
    var h3 := AfterLast(h2, '@');
    if h3 != [] && h3[0] == '[' then Strip(Before(h3[1..], ']'), IsDot) else
    var h4 := if Count(h3, ':') == 1 then Before(h3, ':') else h3;
    Strip(h4, IsDot)
  }

  predicate IsPrivateAddress(value: string, classify: string -> IpClass) {
    var host := Strip(Lower(Strip(value, IsSpace)), IsDot);
    host != "" &&
    (host in FORBIDDEN_HOSTNAMES
     || (exists suffix <- FORBIDDEN_SUFFIXES :: EndsWith(host, suffix))
     || classify(host).UnsafeAddress?)
  }

  /** The form in which a stored domain is compared. */
  function DomainKey(domain: string): string {
    Strip(Lower(domain), IsDot)
  }

  /** The domain itself or a name below it. */
  predicate Under(host: string, domain: string) {
    host == domain || EndsWith(host, "." + domain)
  }

  predicate InScope(host: string, allowed: seq<string>) {
    var h := NormaliseHost(host);
    h != "" && exists d <- allowed :: DomainKey(d) != "" && Under(h, DomainKey(d))
  }

  function AssertInScope(host: string, allowed: seq<string>, allowArbitrary: bool, classify: string -> IpClass)
    : Result<string, ScopeError>
  {
    var h := NormaliseHost(host);
    if h == "" then Failure(EmptyTarget)
    else if IsPrivateAddress(h, classify) then Failure(PrivateTarget)
    else if allowArbitrary then Success(h)
    else if !InScope(h, allowed) then Failure(NotCovered)
    else Success(h)
  }

  function Labels(host: string): seq<string> {
    Split(host, '.')
  }

  predicate IsSuffix<T(==)>(a: seq<T>, b: seq<T>) {
    |a| <= |b| && b[|b| - |a|..] == a
  }

  lemma UnderGivesLabelSuffix(host: string, domain: string)
    requires Under(host, domain)
    ensures IsSuffix(Labels(domain), Labels(host))
  {
    if host != domain {
      var front := host[..|host| - |domain| - 1];
      assert host == front + ("." + domain);
      assert front + ("." + domain) == front + ['.'] + domain;
      SplitAppend(front, domain, '.');
    }
  }

  lemma LabelSuffixGivesUnder(host: string, domain: string)
    requires IsSuffix(Labels(domain), Labels(host))
    ensures Under(host, domain)
  {
    JoinSplit(host, '.');
    JoinSplit(domain, '.');
    var front := Labels(host)[..|Labels(host)| - |Labels(domain)|];
    assert Labels(host) == front + Labels(domain);
    if front == [] {
      assert front + Labels(domain) == Labels(domain);
    } else {
      JoinAppend(front, Labels(domain), '.');
      assert host == Join(front, '.') + ("." + domain);
    }
  }

  /** The dotted-suffix test is exactly label-sequence suffix, on any two strings. */
  lemma UnderIffLabelSuffix(host: string, domain: string)
    ensures Under(host, domain) <==> IsSuffix(Labels(domain), Labels(host))
  {
    if Under(host, domain) {
      UnderGivesLabelSuffix(host, domain);
    }
    if IsSuffix(Labels(domain), Labels(host)) {
      LabelSuffixGivesUnder(host, domain);
    }
  }

  lemma UnderTransitive(a: string, b: string, c: string)
    requires Under(a, b) && Under(b, c)
    ensures Under(a, c)
  {
    UnderIffLabelSuffix(a, b);
    UnderIffLabelSuffix(b, c);
    UnderIffLabelSuffix(a, c);
    var la, lb, lc := Labels(a), Labels(b), Labels(c);
    assert la[|la| - |lc|..] == la[|la| - |lb|..][|lb| - |lc|..];
  }

  /** Two names covering one host are comparable, and equal when equally long. */
  lemma CoveringNamesNest(host: string, a: string, b: string)
    requires Under(host, a) && Under(host, b) && |a| == |b|
    ensures a == b
  {
    assert a == host[|host| - |a|..];
    assert b == host[|host| - |b|..];
  }

  /**
   * Scope is hereditary: whatever lies below a covered host is covered by the same list. Both
   * hosts are read as the normaliser leaves them.
   */
  lemma ScopeIsHereditary(sub: string, host: string, allowed: seq<string>)
    ensures InScope(host, allowed) && NormaliseHost(sub) != "" && Under(NormaliseHost(sub), NormaliseHost(host)) ==>
              InScope(sub, allowed)
  {
    if InScope(host, allowed) && Under(NormaliseHost(sub), NormaliseHost(host)) {
      var d :| d in allowed && DomainKey(d) != "" && Under(NormaliseHost(host), DomainKey(d));
      UnderTransitive(NormaliseHost(sub), NormaliseHost(host), DomainKey(d));
    }
  }

  /** Every authorised domain, lower-cased, undotted and de-duplicated in first-seen order. */
  function Keys(verified: seq<string>): seq<string> {
    if verified == [] then [] else
    var front := Keys(verified[..|verified| - 1]);
    var d := verified[|verified| - 1];
    if d != "" && DomainKey(d) !in front then front + [DomainKey(d)] else front
  }

  /** `Organisation.all_domains`: a dictionary filled in a loop, read back as a list. */
  method AllDomains(verified: seq<string>) returns (seen: seq<string>)
    ensures seen == Keys(verified)
  {
    seen := [];
    for i := 0 to |verified|
      invariant seen == Keys(verified[..i])
    {
      assert verified[..i + 1][..i] == verified[..i];
      var d := verified[i];
      if d != "" && DomainKey(d) !in seen {
        seen := seen + [DomainKey(d)];
      }
    }
    assert verified[..|verified|] == verified;
  }

  predicate Distinct<T(==)>(s: seq<T>) {
    forall i, j :: 0 <= i < j < |s| ==> s[i] != s[j]
  }

  lemma DomainKeyIdempotent(d: string)
    ensures DomainKey(DomainKey(d)) == DomainKey(d)
  {
    StripShape(Lower(d), IsDot);
    var k := DomainKey(d);
    forall i | 0 <= i < |k| ensures LowerChar(k[i]) == k[i] {
      assert k[i] in Lower(d);
    }
    assert Lower(k) == k;
    StripKeeps(k, IsDot);
  }

  /** The list has no duplicates, holds exactly the keys of the stored domains, each already in key form. */
  lemma {:induction false} KeysShape(verified: seq<string>)
    ensures Distinct(Keys(verified))
    ensures forall k :: k in Keys(verified) <==> exists d <- verified :: d != "" && DomainKey(d) == k
    ensures forall k <- Keys(verified) :: DomainKey(k) == k
  {
    if verified != [] {
      var front := verified[..|verified| - 1];
      var d := verified[|verified| - 1];
      KeysShape(front);
      DomainKeyIdempotent(d);
      assert verified == front + [d];
      assert forall x :: x in verified <==> x in front || x == d;
    }
  }

  /** Reading scope through `all_domains` changes nothing. */
  lemma AllDomainsKeepsScope(host: string, verified: seq<string>)
    ensures InScope(host, Keys(verified)) <==> InScope(host, verified)
  {
    KeysShape(verified);
    if InScope(host, verified) {
      var d :| d in verified && DomainKey(d) != "" && Under(NormaliseHost(host), DomainKey(d));
      assert d != "";
      assert DomainKey(d) in Keys(verified);
    }
  }
}
