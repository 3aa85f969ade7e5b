/**
 * Which names are refused, as targets and as claims (backend/core/scoring.py, backend/core/domains.py), said
 * by their labels.
 */
module RefusedNames {
  import opened Results
  import opened ClaimableDomains
  import opened Scope
  import opened Strings
  import opened Urls

  /** Zones whose names never leave the local network. */
  const PRIVATE_ZONES := ["localhost", "local", "internal", "localdomain", "home.arpa"]

  /** A name properly below another. */
  predicate Below(h: string, zone: string) {
    h != zone && IsSuffix(Labels(zone), Labels(h))
  }

  lemma EndsInDottedZone(h: string, zone: string)
    ensures EndsWith(h, "." + zone) <==> Below(h, zone)
  {
    UnderIffLabelSuffix(h, zone);
  }

  /** Lower-case text without outer whitespace and dots, as the normaliser leaves a host. */
  predicate InNormalForm(h: string) {
    Strip(Lower(Strip(h, IsSpace)), IsDot) == h
  }

  predicate IsLocalName(h: string) {
    h == "localhost" || h == "localhost.localdomain" || h == "ip6-localhost" || h == "ip6-loopback" || h == "0"
  }

  predicate BelowPrivateZone(h: string) {
    exists zone <- PRIVATE_ZONES :: Below(h, zone)
  }

  lemma ForbiddenSuffixes()
    ensures |FORBIDDEN_SUFFIXES| == |PRIVATE_ZONES|
    ensures forall i :: 0 <= i < |PRIVATE_ZONES| ==> FORBIDDEN_SUFFIXES[i] == "." + PRIVATE_ZONES[i]
  {
  }

  lemma ForbiddenSuffixIsZone(h: string)
    ensures (exists suffix <- FORBIDDEN_SUFFIXES :: EndsWith(h, suffix)) <==> BelowPrivateZone(h)
  {
    ForbiddenSuffixes();
    if suffix :| suffix in FORBIDDEN_SUFFIXES && EndsWith(h, suffix) {
      var i :| 0 <= i < |FORBIDDEN_SUFFIXES| && FORBIDDEN_SUFFIXES[i] == suffix;
      EndsInDottedZone(h, PRIVATE_ZONES[i]);
      assert PRIVATE_ZONES[i] in PRIVATE_ZONES;
    }
    if BelowPrivateZone(h) {
      var i :| 0 <= i < |PRIVATE_ZONES| && Below(h, PRIVATE_ZONES[i]);
      EndsInDottedZone(h, PRIVATE_ZONES[i]);
      assert FORBIDDEN_SUFFIXES[i] in FORBIDDEN_SUFFIXES;
    }
  }

  /** Exactly which hosts are private: a local name, a name below a private zone, or an unsafe address. */
  lemma PrivateIff(h: string, classify: string -> IpClass)
    requires InNormalForm(h) && h != ""
    ensures IsPrivateAddress(h, classify) <==> IsLocalName(h) || BelowPrivateZone(h) || classify(h).UnsafeAddress?
  {
    ForbiddenSuffixIsZone(h);
  }

  /** A local or reserved name, or an unsafe address. */
  predicate IsOffLimits(h: string, classify: string -> IpClass) {
    IsLocalName(h) || BelowPrivateZone(h) || classify(h).UnsafeAddress?
  }

  lemma HostTextIsNormal(host: string)
    requires IsHostText(host)
    ensures var h := Strip(Lower(host), IsDot);
            InNormalForm(h) && IsHostText(h) && Strip(Lower(h), IsDot) == h
  {
    var h := Strip(Lower(host), IsDot);
    LowerKeepsChars(host);
    StripShape(Lower(host), IsDot);
    forall i | 0 <= i < |h| ensures LowerChar(h[i]) == h[i] && !IsSpace(h[i]) {
      assert h[i] in Lower(host);
    }
    assert Lower(h) == h;
    StripKeeps(h, IsSpace);
    StripKeeps(h, IsDot);
  }

  /** Some allowed domain, as it is compared, is the host or a name it lies below. */
  predicate CoveredByLabels(h: string, allowed: seq<string>) {
    exists d <- allowed :: DomainKey(d) != "" && IsSuffix(Labels(DomainKey(d)), Labels(h))
  }

  lemma InScopeByLabels(h: string, allowed: seq<string>)
    requires NormaliseHost(h) == h && h != ""
    ensures InScope(h, allowed) <==> CoveredByLabels(h, allowed)
  {
    forall d <- allowed ensures Under(h, DomainKey(d)) <==> IsSuffix(Labels(DomainKey(d)), Labels(h)) {
      UnderIffLabelSuffix(h, DomainKey(d));
    }
  }

  /** The verdict on a host, from its labels and the kind of address it is. */
  predicate VerdictOn(h: string, allowed: seq<string>, allowArbitrary: bool, classify: string -> IpClass,
                      r: Result<string, ScopeError>) {
    && (r == Failure(EmptyTarget) <==> h == "")
    && (r == Failure(PrivateTarget) <==> h != "" && IsOffLimits(h, classify))
    && (r == Failure(NotCovered) <==>
          h != "" && !IsOffLimits(h, classify) && !allowArbitrary && !CoveredByLabels(h, allowed))
    && (r.Success? ==> r == Success(h))
  }

  lemma VerdictOnNormalHost(text: string, h: string, allowed: seq<string>, allowArbitrary: bool, classify: string -> IpClass)
    requires NormaliseHost(text) == h == NormaliseHost(h) && InNormalForm(h)
    ensures VerdictOn(h, allowed, allowArbitrary, classify, AssertInScope(text, allowed, allowArbitrary, classify))
  {
    if h != "" {
      PrivateIff(h, classify);
      InScopeByLabels(h, allowed);
    }
  }

  /**
   * The scope check on any URL with a named host: which of the three refusals it gets, or the host, depends only
   * on the labels of that host and the kind of address it is. A private host is never returned.
   */
  lemma ScopeVerdictOnUrl(scheme: Option<string>, user: Option<string>, host: string, port: Option<string>, tail: string,
                          allowed: seq<string>, allowArbitrary: bool, classify: string -> IpClass)
    requires IsHostText(host) && (port.Some? ==> forall c <- port.value :: AuthorityChar(c) && c != '@' && c != ':')
    requires WellCut(scheme, user, host + PortPart(port), tail)
    ensures VerdictOn(Strip(Lower(host), IsDot), allowed, allowArbitrary, classify,
                      AssertInScope(Url(scheme, user, host + PortPart(port), tail), allowed, allowArbitrary, classify))
  {
    var h := Strip(Lower(host), IsDot);
    UrlNamesItsHost(scheme, user, host, port, tail);
    HostTextIsNormal(host);
    HostNamesItself(h);
    VerdictOnNormalHost(Url(scheme, user, host + PortPart(port), tail), h, allowed, allowArbitrary, classify);
  }

  /** Whatever the text, the check returns its normal form, and never one it holds private. */
  lemma NeverReturnsPrivate(text: string, allowed: seq<string>, allowArbitrary: bool, classify: string -> IpClass)
    ensures var r := AssertInScope(text, allowed, allowArbitrary, classify);
            r.Success? ==> r.value == NormaliseHost(text) && r.value != "" && !IsPrivateAddress(r.value, classify)
                           && (allowArbitrary || InScope(r.value, allowed))
  {
  }

  /** Labels that make up a claimable name. */
  predicate GoodLabels(d: string) {
    forall part <- Labels(d) :: part != "" && |part| <= MAX_LABEL_LENGTH && LabelMatches(part)
  }

  /**
   * Exactly which claims are refused, and as what, by the text that remains of what was typed: only the first
   * reason in this order is given, and a name with no reason against it is accepted.
   */
  lemma ClaimVerdict(value: string, rules: Rules)
    ensures var d, r := NormaliseHost(value), NormaliseClaimableDomain(value, rules);
            && (r == Failure(Empty) <==> d == "")
            && (r == Failure(TooLong) <==> |d| > MAX_DOMAIN_LENGTH)
            && (r == Failure(IpLiteral) <==> d != "" && |d| <= MAX_DOMAIN_LENGTH && rules.isAddress(d))
            && (r == Failure(NotQualified) <==>
                  d != "" && |d| <= MAX_DOMAIN_LENGTH && !rules.isAddress(d) && '.' !in d)
            && (r == Failure(PrivateName) <==>
                  |d| <= MAX_DOMAIN_LENGTH && !rules.isAddress(d) && '.' in d && rules.isPrivate(d))
            && (r == Failure(PublicSuffix) <==>
                  |d| <= MAX_DOMAIN_LENGTH && !rules.isAddress(d) && '.' in d && !rules.isPrivate(d) && d in rules.publicSuffixes)
            && (r == Success(d) <==>
                  |d| <= MAX_DOMAIN_LENGTH && !rules.isAddress(d) && '.' in d && !rules.isPrivate(d)
                  && d !in rules.publicSuffixes && GoodLabels(d))
            && (r.Success? ==> r == Success(d))
  {
    CheckedLabels(Labels(NormaliseHost(value)));
    CheckLabelsErrors(Labels(NormaliseHost(value)));
  }

  lemma {:induction false} CheckLabelsErrors(labels: seq<string>)
    ensures CheckLabels(labels).Some? ==> CheckLabels(labels).value in {EmptyLabel, LongLabel, BadLabel}
  {
    if labels != [] {
      CheckLabelsErrors(labels[1..]);
    }
  }

  /** The label to blame is the first bad one, and the blame fits it. */
  lemma {:induction false} FirstBadLabel(labels: seq<string>, k: nat)
    requires k < |labels| && CheckLabels(labels[..k]).None?
    requires labels[k] == "" || |labels[k]| > MAX_LABEL_LENGTH || !LabelMatches(labels[k])
    ensures CheckLabels(labels) ==
            Some(if labels[k] == "" then EmptyLabel else if |labels[k]| > MAX_LABEL_LENGTH then LongLabel else BadLabel)
  {
    if k > 0 {
      assert labels[..k][0] == labels[0] && labels[..k][1..] == labels[1..][..k - 1];
      FirstBadLabel(labels[1..], k - 1);
    }
  }

  /** Under the shipped rules nobody can claim a public suffix, an address, a local name or a name below a private zone. */
  lemma ShippedRefusals(scheme: Option<string>, user: Option<string>, host: string, port: Option<string>, tail: string,
                        classify: string -> IpClass)
    requires IsHostText(host) && (port.Some? ==> forall c <- port.value :: AuthorityChar(c) && c != '@' && c != ':')
    requires WellCut(scheme, user, host + PortPart(port), tail)
    requires var h := Strip(Lower(host), IsDot);
             h in SHIPPED_SUFFIXES || !classify(h).NotAnAddress? || IsLocalName(h) || BelowPrivateZone(h)
    ensures NormaliseClaimableDomain(Url(scheme, user, host + PortPart(port), tail), ShippedRules(classify)).Failure?
  {
    var h := Strip(Lower(host), IsDot);
    UrlNamesItsHost(scheme, user, host, port, tail);
    HostTextIsNormal(host);
    if h != "" {
      PrivateIff(h, classify);
    }
    ClaimVerdict(Url(scheme, user, host + PortPart(port), tail), ShippedRules(classify));
  }

  /** The characters of host labels, one by one. */
  lemma LabelAlphabet(c: char)
    ensures IsAlnum(c) <==> c in "abcdefghijklmnopqrstuvwxyz0123456789"
    ensures IsLabelChar(c) <==> c in "abcdefghijklmnopqrstuvwxyz0123456789-"
  {
  }

  /** A label without hyphens is good exactly at 1 to 63 letters and digits; a hyphen may only stand inside. */
  lemma PlainLabelIff(part: string)
    requires '-' !in part
    ensures IsHostLabel(part) <==> 1 <= |part| <= 63 && forall c <- part :: c in "abcdefghijklmnopqrstuvwxyz0123456789"
  {
    forall c <- part ensures IsLabelChar(c) <==> c in "abcdefghijklmnopqrstuvwxyz0123456789" {
      LabelAlphabet(c);
    }
    if part != "" {
      assert part[0] in part && part[|part| - 1] in part;
      LabelAlphabet(part[0]);
      LabelAlphabet(part[|part| - 1]);
    }
  }
}
