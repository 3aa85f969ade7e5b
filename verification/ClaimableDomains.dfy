/** What counts as a domain an organisation may claim (backend/core/domains.py). */
module ClaimableDomains {
  import opened Results
  import opened Strings
  import opened Scope

  const MAX_DOMAIN_LENGTH := 253
  const MAX_LABEL_LENGTH := 63

  /** The suffixes the service ships with. */
  const SHIPPED_SUFFIXES := GENERIC_SUFFIXES + COUNTRY_SUFFIXES + COMMONWEALTH_REGISTRIES + OTHER_REGISTRIES

  const GENERIC_SUFFIXES := {
    "com", "net", "org", "info", "biz", "int", "edu", "gov", "mil",
    "io", "co", "ai", "app", "dev", "me", "tv", "cc", "xyz", "online",
    "site", "top", "shop", "cloud", "tech", "store", "blog"}

  const COUNTRY_SUFFIXES := {
    "uk", "us", "eu", "de", "fr", "nl", "es", "it", "se", "no", "fi",
    "dk", "pl", "ch", "at", "be", "ie", "pt", "gr", "cz", "ro",
    "ca", "au", "nz", "jp", "cn", "in", "br", "mx", "ru", "za", "kr",
    "sg", "hk", "tr", "ae", "il", "ar", "cl", "id", "my", "th", "vn"}

  const COMMONWEALTH_REGISTRIES := {
    "co.uk", "org.uk", "ac.uk", "gov.uk", "net.uk", "me.uk", "ltd.uk",
    "com.au", "net.au", "org.au", "edu.au", "gov.au",
    "co.nz", "net.nz", "org.nz",
    "co.za", "org.za", "web.za"}

  const OTHER_REGISTRIES := {
    "co.jp", "or.jp", "ne.jp", "ac.jp", "go.jp",
    "com.br", "net.br", "org.br", "gov.br",
    "com.cn", "net.cn", "org.cn", "gov.cn",
    "co.in", "net.in", "org.in", "gov.in",
    "com.mx", "com.tr", "com.ar", "com.sg", "com.hk", "com.my",
    "com.tw", "com.pl", "com.ua", "com.ph", "com.vn", "com.co"}

  /** What the check is relative to: address literals, internal names and the suffix list. */
  datatype Rules = Rules(isAddress: string -> bool, isPrivate: string -> bool, publicSuffixes: set<string>)

  /** The service's own rules, given its address library. */
  function ShippedRules(classify: string -> IpClass): Rules {
    Rules(h => !classify(h).NotAnAddress?, h => IsPrivateAddress(h, classify), SHIPPED_SUFFIXES)
  }

  datatype DomainError =
    Empty | TooLong | IpLiteral | NotQualified | PrivateName | PublicSuffix | EmptyLabel | LongLabel | BadLabel

  predicate IsAlnum(c: char) {
    'a' <= c <= 'z' || '0' <= c <= '9'
  }

  predicate IsLabelChar(c: char) {
    IsAlnum(c) || c == '-'
  }

  /** Letters, digits and inner hyphens (section 2.1 of RFC 1123). */
  predicate IsHostLabel(part: string) {
    && 1 <= |part| <= MAX_LABEL_LENGTH
    && IsAlnum(part[0]) && IsAlnum(part[|part| - 1])
    && forall c <- part :: IsLabelChar(c)
  }

  /** The label pattern as the regular-expression engine reads it: `$` also accepts one final newline. */
  predicate LabelMatches(part: string) {
    IsHostLabel(part)
    || (part != "" && part[|part| - 1] == '\n' && IsHostLabel(part[..|part| - 1]))
  }

  function CheckLabels(labels: seq<string>): Option<DomainError> {
    if labels == [] then None
    else if labels[0] == "" then Some(EmptyLabel)
    else if |labels[0]| > MAX_LABEL_LENGTH then Some(LongLabel)
    else if !LabelMatches(labels[0]) then Some(BadLabel)
    else CheckLabels(labels[1..])
  }

  function CheckDomain(domain: string, rules: Rules): Result<string, DomainError> {
    if domain == "" then Failure(Empty)
    else if |domain| > MAX_DOMAIN_LENGTH then Failure(TooLong)
    else if rules.isAddress(domain) then Failure(IpLiteral)
    else if '.' !in domain then Failure(NotQualified)
    else if rules.isPrivate(domain) then Failure(PrivateName)
    else if domain in rules.publicSuffixes then Failure(PublicSuffix)
    else match CheckLabels(Labels(domain))
      case Some(e) => Failure(e)
      case None => Success(domain)
  }

  function NormaliseClaimableDomain(value: string, rules: Rules): Result<string, DomainError> {
    CheckDomain(NormaliseHost(value), rules)
  }

  /** Characters that can occur in an accepted domain. */
  predicate IsDomainChar(c: char) {
    IsLabelChar(c) || c == '.' || c == '\n'
  }

  lemma {:induction false} CheckedLabels(labels: seq<string>)
    ensures CheckLabels(labels).None? <==>
            forall part <- labels :: part != "" && |part| <= MAX_LABEL_LENGTH && LabelMatches(part)
  {
    if labels != [] {
      CheckedLabels(labels[1..]);
      assert labels == [labels[0]] + labels[1..];
    }
  }

  lemma {:induction false} JoinEnds(parts: seq<string>, c: char)
    requires |parts| >= 1
    ensures parts[0] <= Join(parts, c) && EndsWith(Join(parts, c), parts[|parts| - 1])
  {
    if |parts| > 1 {
      JoinEnds(parts[1..], c);
    }
  }

  lemma {:induction false} AfterFirstChars(s: string, sub: string)
    requires Contains(s, sub)
    ensures forall c <- AfterFirst(s, sub) :: c in s
  {
    if !OccursAt(s, sub, 0) {
      ContainsInTail(s, sub);
      AfterFirstChars(s[1..], sub);
    }
  }

  lemma {:induction false} AfterLastChars(s: string, x: char)
    ensures forall c <- AfterLast(s, x) :: c in s
  {
    if x in s {
      AfterLastChars(s[IndexOf(s, x) + 1..], x);
    }
  }

  /** Normalising introduces no character that lower-casing did not produce. */
  lemma NormaliseHostChars(target: string)
    ensures forall c <- NormaliseHost(target) :: exists b <- target :: LowerChar(b) == c
  {
    var stripped := Strip(target, IsSpace);
    StripShape(target, IsSpace);
    var h0 := Lower(stripped);
    var h1 := if Contains(h0, "://") then AfterFirst(h0, "://") else h0;
    if Contains(h0, "://") {
      AfterFirstChars(h0, "://");
    }
    var h2 := Before(Before(Before(h1, '/'), '?'), '#');
    var h3 := AfterLast(h2, '@');
    AfterLastChars(h2, '@');
    assert forall c <- h3 :: c in h0;
    if h3 != [] && h3[0] == '[' {
      StripShape(Before(h3[1..], ']'), IsDot);
    } else {
      StripShape(if Count(h3, ':') == 1 then Before(h3, ':') else h3, IsDot);
    }
    forall c <- NormaliseHost(target) ensures exists b <- target :: LowerChar(b) == c {
      assert c in h0;
      var i :| 0 <= i < |h0| && h0[i] == c;
      assert stripped[i] in target;
    }
  }

  /**
   * Shape of a checked domain (section 2.3.4 of RFC 1035): at least two labels of 1 to 63
   * characters joined by single dots, at most 253 in all; host labels exactly when it has no newline.
   */
  predicate WellShaped(d: string) {
    && d != "" && |d| <= MAX_DOMAIN_LENGTH
    && |Labels(d)| >= 2 && Join(Labels(d), '.') == d
    && (forall part <- Labels(d) :: 1 <= |part| <= MAX_LABEL_LENGTH && '.' !in part)
    && (forall c <- d :: IsDomainChar(c))
    && IsAlnum(d[0]) && (IsAlnum(d[|d| - 1]) || d[|d| - 1] == '\n')
    && ((forall part <- Labels(d) :: IsHostLabel(part)) <==> '\n' !in d)
  }

  lemma LabelsDecideShape(d: string)
    requires d != "" && |d| <= MAX_DOMAIN_LENGTH && '.' in d && CheckLabels(Labels(d)).None?
    ensures WellShaped(d)
  {
    var labels := Labels(d);
    CheckedLabels(labels);
    JoinSplit(d, '.');
    SplitParts(d, '.');
    JoinEnds(labels, '.');
    forall c <- d ensures IsDomainChar(c) {
      if c != '.' {
        SplitKeepsChars(d, '.', c);
        var part :| part in labels && c in part;
        assert LabelMatches(part);
      }
    }
    var last := labels[|labels| - 1];
    assert LabelMatches(labels[0]) && LabelMatches(last);
    assert d[0] == labels[0][0];
    assert d[|d| - 1] == last[|last| - 1];
    if '\n' in d {
      SplitKeepsChars(d, '.', '\n');
      var part :| part in labels && '\n' in part;
      assert !IsHostLabel(part);
    }
  }

  /** Every accepted domain is the normalised input and is well shaped. */
  lemma AcceptedShape(value: string, rules: Rules)
    requires NormaliseClaimableDomain(value, rules).Success?
    ensures var d := NormaliseClaimableDomain(value, rules).value;
            d == NormaliseHost(value) && WellShaped(d)
  {
    LabelsDecideShape(NormaliseHost(value));
  }

  lemma {:induction false} StripLeftShorter(s: string, drop: char -> bool)
    ensures |StripLeft(s, drop)| <= |s|
  {
    if s != [] && drop(s[0]) {
      StripLeftShorter(s[1..], drop);
    }
  }

  lemma StripShorter(s: string, drop: char -> bool)
    ensures |Strip(s, drop)| <= |s|
    ensures s != [] && !drop(s[0]) && drop(s[|s| - 1]) ==> |Strip(s, drop)| < |s|
  {
    StripLeftShorter(s, drop);
    StripRightShape(StripLeft(s, drop), drop);
  }

  lemma NormaliseHostDropsFinalNewline(d: string)
    requires d != "" && d[|d| - 1] == '\n' && IsAlnum(d[0]) && forall c <- d :: IsDomainChar(c)
    ensures |NormaliseHost(d)| < |d|
  {
    StripShorter(d, IsSpace);
    StripShape(d, IsSpace);
    var stripped := Strip(d, IsSpace);
    forall i | 0 <= i < |stripped| ensures LowerChar(stripped[i]) == stripped[i] {
      assert stripped[i] in d;
    }
    assert Lower(stripped) == stripped;
    NoHostPunctuation(stripped);
    StripShorter(stripped, IsDot);
  }

  lemma NotADomainChar(s: string, c: char)
    requires (forall x <- s :: IsDomainChar(x)) && !IsDomainChar(c)
    ensures c !in s && Before(s, c) == s && AfterLast(s, c) == s && Count(s, c) == 0
  {
    CountAbsent(s, c);
  }

  /** On domain characters the middle steps of the normaliser do nothing. */
  lemma NoHostPunctuation(s: string)
    requires forall c <- s :: IsDomainChar(c)
    ensures !Contains(s, "://")
    ensures Before(s, '/') == Before(s, '?') == Before(s, '#') == s
    ensures AfterLast(s, '@') == s && '[' !in s && Count(s, ':') == 0
  {
    NotADomainChar(s, '/');
    NotADomainChar(s, '?');
    NotADomainChar(s, '#');
    NotADomainChar(s, '@');
    NotADomainChar(s, '[');
    NotADomainChar(s, ':');
    SchemeChars(s);
  }

  /** The normaliser leaves a plain host alone. */
  lemma NormaliseHostKeeps(d: string)
    requires d != "" && forall c <- d :: IsDomainChar(c)
    requires IsAlnum(d[0]) && IsAlnum(d[|d| - 1])
    ensures NormaliseHost(d) == d && DomainKey(d) == d
  {
    StripKeeps(d, IsSpace);
    forall i | 0 <= i < |d| ensures LowerChar(d[i]) == d[i] {
      assert IsDomainChar(d[i]);
    }
    assert Lower(d) == d;
    NoHostPunctuation(d);
    StripKeeps(d, IsDot);
  }

  lemma WellShapedIsNormalIff(d: string)
    requires WellShaped(d)
    ensures NormaliseHost(d) == d <==> d[|d| - 1] != '\n'
    ensures d[|d| - 1] != '\n' ==> DomainKey(d) == d && InScope(d, [d])
  {
    if d[|d| - 1] != '\n' {
      NormaliseHostKeeps(d);
      assert d in [d];
    } else {
      NormaliseHostDropsFinalNewline(d);
    }
  }

  /** Normalising, claiming again and scope matching all give the domain back. */
  predicate IsFixedPoint(d: string, rules: Rules) {
    NormaliseHost(d) == d && NormaliseClaimableDomain(d, rules) == Success(d) && InScope(d, [d])
  }

  lemma CheckedIsFixedPointIff(d: string, rules: Rules)
    requires CheckDomain(d, rules).Success?
    ensures WellShaped(d) && (IsFixedPoint(d, rules) <==> d[|d| - 1] != '\n')
  {
    LabelsDecideShape(d);
    WellShapedIsNormalIff(d);
  }

  /**
   * Accepted domains are fixed points of the normaliser and of the claim check, and cover
   * themselves, exactly when they do not end in a newline.
   */
  lemma AcceptedIsFixedPointIff(value: string, d: string, rules: Rules)
    ensures NormaliseClaimableDomain(value, rules) == Success(d) ==>
              d != "" && (IsFixedPoint(d, rules) <==> d[|d| - 1] != '\n')
  {
    if NormaliseClaimableDomain(value, rules) == Success(d) {
      assert CheckDomain(d, rules).Success?;
      CheckedIsFixedPointIff(d, rules);
    }
  }

  lemma CheckedWithoutNewline(d: string, rules: Rules)
    requires CheckDomain(d, rules).Success? && '\n' !in d
    ensures IsFixedPoint(d, rules) && forall part <- Labels(d) :: IsHostLabel(part)
  {
    CheckedIsFixedPointIff(d, rules);
    assert d[|d| - 1] in d;
  }

  lemma NormaliseHostAddsNoNewline(value: string)
    requires '\n' !in value
    ensures '\n' !in NormaliseHost(value)
  {
    NormaliseHostChars(value);
    assert forall b <- value :: LowerChar(b) != '\n';
  }

  /** The caller's own check: an input without a newline never meets the exception. */
  lemma AcceptedWithoutNewline(value: string, d: string, rules: Rules)
    requires NormaliseClaimableDomain(value, rules) == Success(d) && '\n' !in value
    ensures IsFixedPoint(d, rules) && forall part <- Labels(d) :: IsHostLabel(part)
  {
    NormaliseHostAddsNoNewline(value);
    assert CheckDomain(d, rules).Success? && NormaliseHost(value) == d;
    CheckedWithoutNewline(d, rules);
  }

  lemma NewlineNameNormalises()
    ensures NormaliseHost("a.b\n.") == "a.b\n"
  {
    var value, d := "a.b\n.", "a.b\n";
    assert forall c <- value :: IsDomainChar(c);
    NoHostPunctuation(value);
    StripKeeps(value, IsSpace);
    assert Lower(value) == value;
    assert value[..|value| - 1] == d;
    assert StripRight(value, IsDot) == StripRight(d, IsDot) == d;
  }

  lemma NewlineNameLabels()
    ensures CheckLabels(Labels("a.b\n")).None?
  {
    SplitAbsent("a", '.');
    SplitAbsent("b\n", '.');
    SplitAppend("a", "b\n", '.');
    assert "a.b\n" == "a" + ['.'] + "b\n";
    assert "b\n"[..1] == "b";
    CheckedLabels(["a", "b\n"]);
  }

  lemma NewlineNameIsNotPrivate()
    ensures !IsPrivateAddress("a.b\n", _ => NotAnAddress)
  {
    var d := "a.b\n";
    assert d[..3] == "a.b";
    assert StripRight(d, IsSpace) == StripRight("a.b", IsSpace) == "a.b";
    assert Lower("a.b") == "a.b";
    StripKeeps("a.b", IsDot);
  }

  predicate EndsInNewline(d: string) {
    d != "" && d[|d| - 1] == '\n'
  }

  lemma GenericSuffixesEndInLetters(d: string)
    ensures d in GENERIC_SUFFIXES ==> !EndsInNewline(d)
  {
  }

  lemma CountrySuffixesEndInLetters(d: string)
    ensures d in COUNTRY_SUFFIXES ==> !EndsInNewline(d)
  {
  }

  lemma RegistriesEndInLetters(d: string)
    ensures d in COMMONWEALTH_REGISTRIES ==> !EndsInNewline(d)
    ensures d in OTHER_REGISTRIES ==> !EndsInNewline(d)
  {
  }

  lemma AcceptedIfUnlisted(value: string, d: string, rules: Rules)
    requires NormaliseHost(value) == d && d != "" && |d| <= MAX_DOMAIN_LENGTH && '.' in d && CheckLabels(Labels(d)).None?
    requires !rules.isAddress(d) && !rules.isPrivate(d) && d !in rules.publicSuffixes
    ensures NormaliseClaimableDomain(value, rules) == Success(d)
  {
  }

  /** The exception is real: under the shipped rules a newline before a trailing dot is accepted and kept. */
  lemma NewlineSurvives()
    ensures NormaliseClaimableDomain("a.b\n.", ShippedRules(_ => NotAnAddress)) == Success("a.b\n")
  {
    var d := "a.b\n";
    NewlineNameNormalises();
    NewlineNameLabels();
    NewlineNameIsNotPrivate();
    GenericSuffixesEndInLetters(d);
    CountrySuffixesEndInLetters(d);
    RegistriesEndInLetters(d);
    assert EndsInNewline(d) && d !in SHIPPED_SUFFIXES;
    AcceptedIfUnlisted("a.b\n.", d, ShippedRules(_ => NotAnAddress));
  }

  lemma WellShapedIsKey(d: string)
    requires d != "" && (forall c <- d :: IsDomainChar(c)) && d[0] != '.' && d[|d| - 1] != '.'
    ensures DomainKey(d) == d
  {
    forall i | 0 <= i < |d| ensures LowerChar(d[i]) == d[i] {
      assert IsDomainChar(d[i]);
    }
    assert Lower(d) == d;
    StripKeeps(d, IsDot);
  }

  /** Every accepted domain is in the form in which stored domains are compared, a final newline or not. */
  lemma AcceptedIsKey(value: string, rules: Rules)
    requires NormaliseClaimableDomain(value, rules).Success?
    ensures DomainKey(NormaliseClaimableDomain(value, rules).value) == NormaliseClaimableDomain(value, rules).value
  {
    AcceptedShape(value, rules);
    WellShapedIsKey(NormaliseClaimableDomain(value, rules).value);
  }
}
