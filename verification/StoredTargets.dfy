/**
 * The target text a schedule stores (backend/schemas/schedule.py, backend/routes/schedules.py), and the hosts
 * with ports that survive both normalisations.
 */
module StoredTargets {
  import opened Results
  import opened Scope
  import opened Strings

  /** What `create_schedule` stores: the schema normalises and wants a dot, then the scope check normalises again. */
  function StoredTarget(request: string, allowed: seq<string>, allowArbitrary: bool, classify: string -> IpClass)
    : Option<string>
  {
    var host := NormaliseHost(request);
    if host == "" || '.' !in host then None else
    match AssertInScope(host, allowed, allowArbitrary, classify)
    case Success(target) => Some(target)
    case Failure(_) => None
  }

  /** Lower-case text without separators, as hosts and ports are. */
  predicate PlainChar(c: char) {
    LowerChar(c) == c && !IsSpace(c) && c != '/' && c != '?' && c != '#' && c != '@' && c != '[' && c != ':'
  }

  /** A host and a port that a request may carry. */
  predicate HostAndPort(d: string, p: string) {
    && d != "" && p != "" && (forall c <- d + p :: PlainChar(c) && c != ']')
    && d[0] != '.' && d[|d| - 1] != '.' && '.' in d && '.' !in p
  }

  lemma OneColon(d: string, p: string)
    requires ':' !in d && ':' !in p
    ensures Count(d + ":" + p, ':') == 1 && Before(d + ":" + p, ':') == d
  {
    CountSplit(d + ":", p, ':');
    CountSplit(d, ":", ':');
    CountAbsent(d, ':');
    CountAbsent(p, ':');
    assert ":"[1..] == "" && Count(":", ':') == 1;
    var s := d + ":" + p;
    assert s[|d|] == ':';
    forall i | 0 <= i < |d| ensures s[i] != ':' {
      assert s[i] == d[i];
    }
  }

  lemma PlainHostIsKey(d: string)
    requires d != "" && (forall c <- d :: PlainChar(c)) && d[0] != '.' && d[|d| - 1] != '.'
    ensures DomainKey(d) == d && Strip(d, IsDot) == d
  {
    forall i | 0 <= i < |d| ensures LowerChar(d[i]) == d[i] {
      assert PlainChar(d[i]);
    }
    assert Lower(d) == d;
    StripKeeps(d, IsDot);
  }

  /** Host text with a port normalises to the host. */
  lemma PortIsDropped(d: string, p: string)
    requires HostAndPort(d, p)
    ensures NormaliseHost(d + ":" + p) == d && DomainKey(d) == d
  {
    forall i | 0 <= i < |d| ensures PlainChar(d[i]) {
      assert d[i] in d + p;
    }
    forall i | 0 <= i < |p| ensures PlainChar(p[i]) {
      assert p[i] in d + p;
    }
    HostAndPortChars(d, p);
    BracketText(d + ":" + p);
    OneColon(d, p);
    PlainHostIsKey(d);
    assert (d + ":" + p)[0] == d[0];
  }

  /** With a port the text ends in the port, not in anything that begins with a dot. */
  lemma PortEndsText(d: string, p: string, tail: string)
    requires '.' !in p && tail != "" && tail[0] == '.' && ':' !in tail
    ensures !EndsWith(d + ":" + p, tail)
  {
    var s := d + ":" + p;
    if |tail| <= |s| {
      var k := |s| - |tail|;
      assert s[k..][0] == s[k];
      assert k <= |d| ==> s[k..][|d| - k] == ':';
      assert k > |d| ==> s[k] in p;
    }
  }

  lemma PortTextNotUnder(d: string, p: string)
    requires ':' !in d && '.' !in p
    ensures !Under(d + ":" + p, d)
  {
    PortEndsText(d, p, "." + d);
  }

  lemma PortInScope(d: string, p: string)
    requires HostAndPort(d, p)
    ensures InScope(d + ":" + p, [d]) && !Under(d + ":" + p, d)
  {
    PortIsDropped(d, p);
    assert d in [d];
    forall i | 0 <= i < |d| ensures d[i] != ':' {
      assert d[i] in d + p;
    }
    PortTextNotUnder(d, p);
  }

  /** Plain text, and the punctuation of bracketed addresses. */
  predicate BracketChar(c: char) {
    PlainChar(c) || c == ':' || c == '[' || c == ']'
  }

  lemma BracketText(s: string)
    requires s != "" && forall c <- s :: BracketChar(c)
    ensures Lower(Strip(s, IsSpace)) == s && !Contains(s, "://")
    ensures AfterLast(Before(Before(Before(s, '/'), '?'), '#'), '@') == s
  {
    forall i | 0 <= i < |s| ensures BracketChar(s[i]) {
      assert s[i] in s;
    }
    assert Lower(s) == s;
    StripKeeps(s, IsSpace);
    SchemeChars(s);
    assert Before(s, '/') == Before(s, '?') == Before(s, '#') == AfterLast(s, '@') == s;
  }

  /** After an opening bracket the normaliser keeps what precedes the closing one, ports and all. */
  lemma BracketKeepsPort(s: string)
    requires s != "" && s[0] == '[' && forall c <- s :: BracketChar(c)
    ensures NormaliseHost(s) == Strip(Before(s[1..], ']'), IsDot)
  {
    BracketText(s);
  }

  lemma HostAndPortChars(d: string, p: string)
    requires HostAndPort(d, p)
    ensures var s := d + ":" + p;
            (forall c <- s :: BracketChar(c)) && ']' !in s && '.' in s && Strip(s, IsDot) == s && s[|s| - 1] != '.'
  {
    var s := d + ":" + p;
    forall i | 0 <= i < |s| ensures BracketChar(s[i]) && s[i] != ']' {
      assert s[i] == ':' || s[i] in d + p;
    }
    var k :| 0 <= k < |d| && d[k] == '.';
    assert s[k] == '.';
    assert p[|p| - 1] in p;
    StripKeeps(s, IsDot);
  }

  lemma InnerBracketPeelsOff(s: string)
    requires s != "" && (forall c <- s :: BracketChar(c)) && ']' !in s && Strip(s, IsDot) == s
    ensures NormaliseHost("[" + s) == s
  {
    var t := "[" + s;
    forall i | 0 <= i < |t| ensures BracketChar(t[i]) {
      assert i > 0 ==> t[i] == s[i - 1];
    }
    BracketKeepsPort(t);
    assert t[1..] == s && Before(s, ']') == s;
  }

  lemma WrappedChars(s: string)
    requires forall c <- s :: BracketChar(c)
    ensures forall c <- "[[" + s + "]]" :: BracketChar(c)
  {
    var t := "[[" + s + "]]";
    forall i | 0 <= i < |t| ensures BracketChar(t[i]) {
      assert 2 <= i < |s| + 2 ==> t[i] == s[i - 2];
    }
  }

  lemma ClosedBracketPeelsOff(t: string, inner: string, rest: string)
    requires t == ['['] + (inner + [']'] + rest) && (forall c <- t :: BracketChar(c))
    requires ']' !in inner && Strip(inner, IsDot) == inner
    ensures NormaliseHost(t) == inner
  {
    BracketKeepsPort(t);
    BeforeFirst(inner, ']', rest);
    assert t[1..] == inner + [']'] + rest;
  }

  lemma OuterBracketPeelsOff(s: string)
    requires s != "" && (forall c <- s :: BracketChar(c)) && ']' !in s && s[|s| - 1] != '.'
    ensures NormaliseHost("[[" + s + "]]") == "[" + s
  {
    var inner := "[" + s;
    WrappedChars(s);
    StripKeeps(inner, IsDot);
    assert "[[" + s + "]]" == ['['] + (inner + [']'] + "]");
    ClosedBracketPeelsOff("[[" + s + "]]", inner, "]");
  }

  lemma ForbiddenNamesHaveNoColon(h: string)
    ensures h in FORBIDDEN_HOSTNAMES ==> ':' !in h
  {
  }

  lemma PlainTextIsKept(s: string)
    requires s != "" && forall c <- s :: BracketChar(c)
    ensures Lower(Strip(s, IsSpace)) == s
  {
    BracketText(s);
  }

  lemma PortIsNotPrivate(d: string, p: string, classify: string -> IpClass)
    requires HostAndPort(d, p) && !classify(d + ":" + p).UnsafeAddress?
    ensures !IsPrivateAddress(d + ":" + p, classify)
  {
    var s := d + ":" + p;
    HostAndPortChars(d, p);
    PlainTextIsKept(s);
    ForbiddenNamesHaveNoColon(s);
    assert s[|d|] == ':';
    forall suffix <- FORBIDDEN_SUFFIXES ensures !EndsWith(s, suffix) {
      PortEndsText(d, p, suffix);
    }
  }

  lemma StoredIfAccepted(request: string, host: string, target: string, allowed: seq<string>, classify: string -> IpClass)
    ensures NormaliseHost(request) == host && host != "" && '.' in host && NormaliseHost(host) == target && target != ""
              && !IsPrivateAddress(target, classify) && InScope(target, allowed) ==>
              StoredTarget(request, allowed, false, classify) == Some(target)
  {
  }

  /**
   * Such a target does get stored: a request for the bracketed host with a port leaves the text with its
   * port, which is in scope of the host's domain and yet not below it.
   */
  lemma PortHidesDomain(d: string, p: string, classify: string -> IpClass)
    requires HostAndPort(d, p) && !classify(d + ":" + p).UnsafeAddress?
    ensures StoredTarget("[[" + (d + ":" + p) + "]]", [d], false, classify) == Some(d + ":" + p)
    ensures InScope(d + ":" + p, [d]) && !Under(d + ":" + p, d)
  {
    var s := d + ":" + p;
    HostAndPortChars(d, p);
    InnerBracketPeelsOff(s);
    OuterBracketPeelsOff(s);
    PortIsNotPrivate(d, p, classify);
    PortInScope(d, p);
    StoredIfAccepted("[[" + s + "]]", "[" + s, s, [d], classify);
  }
}
