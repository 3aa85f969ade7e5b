/**
 * What the host normaliser reads in a URL (backend/core/scoring.py): of scheme, credentials, host, port and
 * the rest it keeps the host, lower-cased and without outer dots.
 */
module Urls {
  import opened Results
  import opened Scope
  import opened Strings

  /** The text made of the parts that are there (section 3 of RFC 3986). */
  function Url(scheme: Option<string>, user: Option<string>, authority: string, tail: string): string {
    SchemePart(scheme) + (UserPart(user) + authority + tail)
  }

  function SchemePart(scheme: Option<string>): string {
    if scheme.Some? then scheme.value + "://" else ""
  }

  function UserPart(user: Option<string>): string {
    if user.Some? then user.value + "@" else ""
  }

  predicate OpensTail(c: char) {
    c == '/' || c == '?' || c == '#'
  }

  predicate AuthorityChar(c: char) {
    !OpensTail(c) && !IsSpace(c)
  }

  /** Whatever precedes the first "://" counts as the scheme. */
  predicate IsScheme(s: string) {
    (s != "" ==> !IsSpace(s[0])) && forall i :: 0 <= i < |s| ==> !OccursAt(s + "://", "://", i)
  }

  /** Path, query or fragment: anything at all after the character that opens it. */
  predicate IsTail(t: string) {
    t != "" ==> OpensTail(t[0])
  }

  lemma LowerConcat(a: string, b: string)
    ensures Lower(a + b) == Lower(a) + Lower(b)
  {
  }

  lemma BeforeConcat(a: string, t: string, c: char)
    requires c !in a
    ensures Before(a + t, c) == a + Before(t, c)
  {
    var s, n := a + t, |a| + IndexOf(t, c);
    forall k | 0 <= k < n ensures s[k] != c {
      assert k < |a| ==> s[k] == a[k];
      assert k >= |a| ==> s[k] == t[k - |a|];
    }
    assert n < |s| ==> s[n] == c;
    assert IndexOf(s, c) == n;
  }

  /** Cutting at the first of the three openers leaves what precedes the tail. */
  lemma TailIsCut(a: string, t: string)
    requires (forall c <- a :: !OpensTail(c)) && IsTail(t)
    ensures Before(Before(Before(a + t, '/'), '?'), '#') == a
  {
    var t1 := Before(t, '/');
    var t2 := Before(t1, '?');
    BeforeConcat(a, t, '/');
    BeforeConcat(a, t1, '?');
    BeforeConcat(a, t2, '#');
    assert t != "" ==> t1 == "" || t1[0] == t[0];
    assert t1 != "" ==> t2 == "" || t2[0] == t[0];
    assert Before(t2, '#') == "";
  }

  lemma AfterFirstAt(u: string, a: string)
    ensures var s, k := u + "@" + a, IndexOf(u + "@" + a, '@');
            k <= |u| < |s| && s[k + 1..] == (if k < |u| then u[k + 1..] + "@" + a else a)
  {
    var s := u + "@" + a;
    assert s[|u|] == '@';
  }

  lemma {:induction false} CredentialsAreCut(u: string, a: string)
    requires '@' !in a
    ensures AfterLast(u + "@" + a, '@') == a
    decreases |u|
  {
    var s := u + "@" + a;
    AfterFirstAt(u, a);
    var k := IndexOf(s, '@');
    assert AfterLast(s, '@') == AfterLast(s[k + 1..], '@');
    if k < |u| {
      CredentialsAreCut(u[k + 1..], a);
    }
  }

  lemma {:induction false} SchemeIsCut(s: string, rest: string)
    requires forall i :: 0 <= i < |s| ==> !OccursAt(s + "://", "://", i)
    ensures var text := s + "://" + rest;
            Contains(text, "://") && AfterFirst(text, "://") == rest
  {
    var text := s + "://" + rest;
    assert OccursAt(text, "://", |s|);
    if s == "" {
      assert text[3..] == rest;
    } else {
      assert text[0..3] == (s + "://")[0..3];
      assert !OccursAt(s + "://", "://", 0);
      assert text[1..] == s[1..] + "://" + rest;
      forall i | 0 <= i < |s| - 1 ensures !OccursAt(s[1..] + "://", "://", i) {
        assert (s[1..] + "://")[i..i + 3] == (s + "://")[i + 1..i + 4];
        assert !OccursAt(s + "://", "://", i + 1);
      }
      SchemeIsCut(s[1..], rest);
    }
  }

  /** What remains when scheme, tail and credentials are cut off. */
  function AuthorityOf(text: string): string {
    var rest := if Contains(text, "://") then AfterFirst(text, "://") else text;
    AfterLast(Before(Before(Before(rest, '/'), '?'), '#'), '@')
  }

  /** The last steps of the normaliser, from the authority to the host. */
  function HostOf(authority: string): string {
    if authority != [] && authority[0] == '[' then Strip(Before(authority[1..], ']'), IsDot)
    else Strip(if Count(authority, ':') == 1 then Before(authority, ':') else authority, IsDot)
  }

  lemma NormaliseInTwo(text: string)
    ensures NormaliseHost(text) == HostOf(AuthorityOf(Lower(Strip(text, IsSpace))))
  {
  }

  /** Parts that a URL can be taken apart into; without a scheme no "://" may occur anywhere. */
  predicate WellCut(scheme: Option<string>, user: Option<string>, authority: string, tail: string) {
    && (scheme.Some? ==> IsScheme(scheme.value))
    && (scheme.None? ==> !Contains(Url(scheme, user, authority, tail), "://"))
    && (user.Some? ==> forall c <- user.value :: AuthorityChar(c))
    && (forall c <- authority :: AuthorityChar(c) && c != '@') && IsTail(tail)
  }

  lemma AuthorityIsReached(scheme: Option<string>, user: Option<string>, authority: string, tail: string)
    requires WellCut(scheme, user, authority, tail)
    ensures AuthorityOf(Url(scheme, user, authority, tail)) == authority
  {
    var front := UserPart(user) + authority;
    var rest := front + tail;
    if scheme.Some? {
      SchemeIsCut(scheme.value, rest);
      assert Url(scheme, user, authority, tail) == scheme.value + "://" + rest;
    } else {
      assert Url(scheme, user, authority, tail) == rest;
    }
    TailIsCut(front, tail);
    if user.Some? {
      CredentialsAreCut(user.value, authority);
    } else {
      assert front == authority;
    }
  }

  function LowerOption(s: Option<string>): Option<string> {
    if s.Some? then Some(Lower(s.value)) else None
  }

  lemma LowerUrl(scheme: Option<string>, user: Option<string>, authority: string, tail: string)
    ensures Lower(Url(scheme, user, authority, tail))
            == Url(LowerOption(scheme), LowerOption(user), Lower(authority), Lower(tail))
  {
  }

  /** Lower-casing neither makes nor breaks a separator. */
  lemma LowerSeparator(s: string, i: nat)
    ensures OccursAt(Lower(s), "://", i) <==> OccursAt(s, "://", i)
  {
    if i + 3 <= |s| {
      assert Lower(s)[i..i + 3] == Lower(s[i..i + 3]);
      assert forall t: string :: |t| == 3 ==> (t == "://" <==> t[0] == ':' && t[1] == '/' && t[2] == '/');
    }
  }

  lemma LowerKeepsChars(a: string)
    requires forall c <- a :: AuthorityChar(c)
    ensures forall c <- Lower(a) :: AuthorityChar(c)
    ensures forall x <- {'@', ':', '['} :: x in Lower(a) ==> x in a
  {
    forall i | 0 <= i < |a| ensures AuthorityChar(LowerChar(a[i])) {
      assert a[i] in a;
    }
  }

  lemma LowerKeepsCut(scheme: Option<string>, user: Option<string>, authority: string, tail: string)
    requires WellCut(scheme, user, authority, tail)
    ensures WellCut(LowerOption(scheme), LowerOption(user), Lower(authority), Lower(tail))
  {
    LowerKeepsChars(authority);
    if user.Some? {
      LowerKeepsChars(user.value);
    }
    if scheme.Some? {
      assert Lower(scheme.value) + "://" == Lower(scheme.value + "://");
      forall i | 0 <= i < |scheme.value| ensures !OccursAt(Lower(scheme.value) + "://", "://", i) {
        LowerSeparator(scheme.value + "://", i);
        assert !OccursAt(scheme.value + "://", "://", i);
      }
    } else {
      var text := Url(scheme, user, authority, tail);
      LowerUrl(scheme, user, authority, tail);
      if Contains(Lower(text), "://") {
        var i :| 0 <= i <= |text| - 3 && OccursAt(Lower(text), "://", i);
        LowerSeparator(text, i);
      }
    }
  }

  lemma {:induction false} StripRightTail(a: string, t: string, drop: char -> bool)
    requires a == "" || !drop(a[|a| - 1])
    ensures StripRight(a + t, drop) == a + StripRight(t, drop)
    decreases |t|
  {
    if t == "" {
      assert a + t == a;
    } else if drop(t[|t| - 1]) {
      assert (a + t)[..|a + t| - 1] == a + t[..|t| - 1];
      StripRightTail(a, t[..|t| - 1], drop);
    }
  }

  lemma FrontEnds(scheme: Option<string>, user: Option<string>, authority: string)
    requires scheme.Some? ==> IsScheme(scheme.value)
    requires (user.Some? ==> forall c <- user.value :: AuthorityChar(c)) && forall c <- authority :: AuthorityChar(c)
    ensures var front := SchemePart(scheme) + (UserPart(user) + authority);
            front == "" || (!IsSpace(front[0]) && !IsSpace(front[|front| - 1]))
  {
    var back := UserPart(user) + authority;
    if user.Some? {
      assert back[0] == if user.value != "" then user.value[0] else '@';
      assert user.value != "" ==> user.value[0] in user.value;
    }
    if authority != "" {
      assert authority[0] in authority && authority[|authority| - 1] in authority;
      assert back[|back| - 1] == authority[|authority| - 1];
    } else if user.Some? {
      assert back[|back| - 1] == '@';
    }
    if back != "" {
      assert user.None? ==> back == authority;
      assert !IsSpace(back[0]) && !IsSpace(back[|back| - 1]);
    }
    var front := SchemePart(scheme) + back;
    if scheme.Some? {
      assert front[0] == if scheme.value != "" then scheme.value[0] else ':';
      assert back == "" ==> front[|front| - 1] == '/';
    } else {
      assert front == back;
    }
  }

  lemma StrippedTail(tail: string)
    requires IsTail(tail)
    ensures IsTail(StripRight(tail, IsSpace)) && (tail == "" || StripRight(tail, IsSpace) != "")
    ensures StripRight(tail, IsSpace) <= tail
  {
    StripRightShape(tail, IsSpace);
    if tail != "" {
      assert tail == tail[..1] + tail[1..];
      StripRightTail(tail[..1], tail[1..], IsSpace);
    }
  }

  lemma PrefixHasNoSeparator(s: string, t: string)
    requires s <= t && !Contains(t, "://")
    ensures !Contains(s, "://")
  {
    if Contains(s, "://") {
      var i :| 0 <= i <= |s| - 3 && OccursAt(s, "://", i);
      assert t[i..i + 3] == s[i..i + 3];
      assert OccursAt(t, "://", i);
    }
  }

  lemma StripText(front: string, tail: string)
    requires front == "" || (!IsSpace(front[0]) && !IsSpace(front[|front| - 1]))
    requires IsTail(tail)
    ensures Strip(front + tail, IsSpace) == front + StripRight(tail, IsSpace)
  {
    StripRightTail(front, tail, IsSpace);
    var text := front + tail;
    assert text != "" ==> text[0] == if front != "" then front[0] else tail[0];
    assert StripLeft(text, IsSpace) == text;
  }

  lemma UrlAsText(scheme: Option<string>, user: Option<string>, authority: string, tail: string)
    ensures Url(scheme, user, authority, tail) == SchemePart(scheme) + (UserPart(user) + authority) + tail
  {
  }

  lemma ShorterTailKeepsCut(scheme: Option<string>, user: Option<string>, authority: string, tail: string, kept: string)
    requires WellCut(scheme, user, authority, tail) && kept <= tail && IsTail(kept)
    ensures WellCut(scheme, user, authority, kept)
  {
    if scheme.None? {
      UrlAsText(scheme, user, authority, tail);
      UrlAsText(scheme, user, authority, kept);
      PrefixHasNoSeparator(Url(scheme, user, authority, kept), Url(scheme, user, authority, tail));
    }
  }

  /** Outer whitespace can only belong to the tail. */
  lemma StripUrl(scheme: Option<string>, user: Option<string>, authority: string, tail: string)
    requires WellCut(scheme, user, authority, tail)
    ensures Strip(Url(scheme, user, authority, tail), IsSpace) == Url(scheme, user, authority, StripRight(tail, IsSpace))
    ensures WellCut(scheme, user, authority, StripRight(tail, IsSpace))
  {
    var front, kept := SchemePart(scheme) + (UserPart(user) + authority), StripRight(tail, IsSpace);
    FrontEnds(scheme, user, authority);
    StrippedTail(tail);
    StripText(front, tail);
    UrlAsText(scheme, user, authority, tail);
    UrlAsText(scheme, user, authority, kept);
    ShorterTailKeepsCut(scheme, user, authority, tail, kept);
  }

  /** The normaliser looks at the authority alone, whatever else the URL holds. */
  lemma OnlyTheAuthorityCounts(scheme: Option<string>, user: Option<string>, authority: string, tail: string)
    requires WellCut(scheme, user, authority, tail)
    ensures NormaliseHost(Url(scheme, user, authority, tail)) == HostOf(Lower(authority))
  {
    var kept := StripRight(tail, IsSpace);
    StripUrl(scheme, user, authority, tail);
    LowerUrl(scheme, user, authority, kept);
    LowerKeepsCut(scheme, user, authority, kept);
    AuthorityIsReached(LowerOption(scheme), LowerOption(user), Lower(authority), Lower(kept));
    NormaliseInTwo(Url(scheme, user, authority, tail));
  }

  /** A named host, upper or lower case: no port, no brackets, nothing that cuts. */
  predicate IsHostText(host: string) {
    forall c <- host :: AuthorityChar(c) && c != '@' && c != ':' && c != '['
  }

  function PortPart(port: Option<string>): string {
    if port.Some? then ":" + port.value else ""
  }

  lemma CountLower(s: string)
    ensures Count(Lower(s), ':') == Count(s, ':')
  {
    if s != "" {
      assert Lower(s)[1..] == Lower(s[1..]);
      CountLower(s[1..]);
    }
  }

  lemma PortIsCut(host: string, port: Option<string>)
    requires IsHostText(host) && (port.Some? ==> ':' !in port.value)
    ensures HostOf(host + PortPart(port)) == Strip(host, IsDot)
  {
    CountAbsent(host, ':');
    assert host != "" ==> host[0] in host;
    if port.Some? {
      CountAbsent(port.value, ':');
      CountSplit(host + ":", port.value, ':');
      CountSplit(host, ":", ':');
      assert ":"[1..] == "" && Count(":", ':') == 1;
      BeforeFirst(host, ':', port.value);
      assert host + PortPart(port) == host + [':'] + port.value == host + ":" + port.value;
    } else {
      assert host + "" == host;
    }
  }

  lemma LowerPort(port: Option<string>)
    ensures Lower(PortPart(port)) == PortPart(LowerOption(port))
  {
    if port.Some? {
      LowerConcat(":", port.value);
      assert Lower(":") == ":";
    }
  }

  lemma LowerHostText(host: string)
    requires IsHostText(host)
    ensures IsHostText(Lower(host))
  {
    LowerKeepsChars(host);
  }

  lemma LowerHostAndPort(host: string, port: Option<string>)
    requires IsHostText(host) && (port.Some? ==> forall c <- port.value :: AuthorityChar(c) && c != '@' && c != ':')
    ensures Lower(host + PortPart(port)) == Lower(host) + PortPart(LowerOption(port))
    ensures IsHostText(Lower(host)) && (port.Some? ==> ':' !in Lower(port.value))
  {
    LowerConcat(host, PortPart(port));
    LowerPort(port);
    LowerHostText(host);
    if port.Some? {
      LowerKeepsChars(port.value);
    }
  }

  /**
   * Of a URL the normaliser keeps the host, lower-cased and without outer dots: scheme, credentials, port and
   * whatever follows do not matter, each of them there or not, and neither does the case of the host.
   */
  lemma UrlNamesItsHost(scheme: Option<string>, user: Option<string>, host: string, port: Option<string>, tail: string)
    requires IsHostText(host) && (port.Some? ==> forall c <- port.value :: AuthorityChar(c) && c != '@' && c != ':')
    requires WellCut(scheme, user, host + PortPart(port), tail)
    ensures NormaliseHost(Url(scheme, user, host + PortPart(port), tail)) == Strip(Lower(host), IsDot)
  {
    OnlyTheAuthorityCounts(scheme, user, host + PortPart(port), tail);
    LowerHostAndPort(host, port);
    PortIsCut(Lower(host), LowerOption(port));
  }

  lemma HostNamesItself(host: string)
    requires IsHostText(host)
    ensures NormaliseHost(host) == Strip(Lower(host), IsDot)
  {
    SchemeChars(host);
    assert Url(None, None, host + PortPart(None), "") == host;
    UrlNamesItsHost(None, None, host, None, "");
  }

  lemma ScopeOfNormalForm(a: string, b: string, allowed: seq<string>, allowArbitrary: bool, classify: string -> IpClass)
    requires NormaliseHost(a) == NormaliseHost(b)
    ensures AssertInScope(a, allowed, allowArbitrary, classify) == AssertInScope(b, allowed, allowArbitrary, classify)
  {
  }

  /** A URL is in scope, private or refused exactly as its bare host is. */
  lemma UrlScopeIsHostScope(scheme: Option<string>, user: Option<string>, host: string, port: Option<string>, tail: string,
                            allowed: seq<string>, allowArbitrary: bool, classify: string -> IpClass)
    requires IsHostText(host) && (port.Some? ==> forall c <- port.value :: AuthorityChar(c) && c != '@' && c != ':')
    requires WellCut(scheme, user, host + PortPart(port), tail)
    ensures AssertInScope(Url(scheme, user, host + PortPart(port), tail), allowed, allowArbitrary, classify)
            == AssertInScope(host, allowed, allowArbitrary, classify)
  {
    UrlNamesItsHost(scheme, user, host, port, tail);
    HostNamesItself(host);
    ScopeOfNormalForm(Url(scheme, user, host + PortPart(port), tail), host, allowed, allowArbitrary, classify);
  }

  lemma BracketIsCut(address: string, after: string)
    requires ']' !in address
    ensures HostOf(Lower("[" + address + "]" + after)) == Strip(Lower(address), IsDot)
  {
    var authority := Lower("[" + address + "]" + after);
    forall i | 0 <= i < |address| ensures LowerChar(address[i]) != ']' {
      assert address[i] in address;
    }
    BeforeFirst(Lower(address), ']', Lower(after));
    assert authority[1..] == Lower(address) + [']'] + Lower(after);
  }

  /** An address literal in brackets is kept whole, whatever follows the bracket (section 3.2.2 of RFC 3986). */
  lemma BracketedAddressIsKept(scheme: Option<string>, user: Option<string>, address: string, after: string, tail: string)
    requires ']' !in address && WellCut(scheme, user, "[" + address + "]" + after, tail)
    ensures NormaliseHost(Url(scheme, user, "[" + address + "]" + after, tail)) == Strip(Lower(address), IsDot)
  {
    OnlyTheAuthorityCounts(scheme, user, "[" + address + "]" + after, tail);
    BracketIsCut(address, after);
  }

  /** Text with several colons and no bracket is an address, not a host with a port. */
  lemma BareAddressIsKept(scheme: Option<string>, user: Option<string>, address: string, tail: string)
    requires Count(address, ':') >= 2 && address[0] != '[' && WellCut(scheme, user, address, tail)
    ensures NormaliseHost(Url(scheme, user, address, tail)) == Strip(Lower(address), IsDot)
  {
    OnlyTheAuthorityCounts(scheme, user, address, tail);
    CountLower(address);
  }

  lemma NoColonIsScheme(s: string)
    requires ':' !in s && (s != "" ==> !IsSpace(s[0]))
    ensures IsScheme(s)
  {
    forall i | 0 <= i < |s| ensures !OccursAt(s + "://", "://", i) {
      var text := s + "://";
      assert text[i] == s[i] && s[i] in s;
      assert text[i..i + 3][0] == text[i];
    }
  }

  /**
   * Without a scheme, a "://" further on in the text makes the normaliser read the host after it, whatever
   * host the text begins with.
   */
  lemma LaterSchemeHidesTheHost(host: string, before: string, other: string)
    requires host != "" && IsHostText(host) && IsHostText(other) && IsTail(before) && ':' !in before
    ensures NormaliseHost(host + before + "://" + other) == Strip(Lower(other), IsDot)
  {
    var scheme := host + before;
    assert host[0] in host && scheme[0] == host[0];
    assert ':' !in scheme;
    NoColonIsScheme(scheme);
    assert Url(Some(scheme), None, other + PortPart(None), "") == host + before + "://" + other;
    UrlNamesItsHost(Some(scheme), None, other, None, "");
  }

  lemma {:induction false} StripLeftSpace(a: string, s: string, drop: char -> bool)
    requires forall c <- a :: drop(c)
    ensures StripLeft(a + s, drop) == StripLeft(s, drop)
  {
    if a == "" {
      assert a + s == s;
    } else {
      assert a[0] in a && (a + s)[1..] == a[1..] + s;
      StripLeftSpace(a[1..], s, drop);
    }
  }

  lemma {:induction false} StripRightSpace(s: string, b: string, drop: char -> bool)
    requires forall c <- b :: drop(c)
    ensures StripRight(s + b, drop) == StripRight(s, drop)
    decreases |b|
  {
    if b == "" {
      assert s + b == s;
    } else {
      var n := |b| - 1;
      assert b[n] in b && (s + b)[..|s| + n] == s + b[..n];
      StripRightSpace(s, b[..n], drop);
    }
  }

  lemma {:induction false} StripLeftAppend(s: string, b: string, drop: char -> bool)
    requires forall c <- b :: drop(c)
    ensures StripLeft(s + b, drop) == if StripLeft(s, drop) == "" then "" else StripLeft(s, drop) + b
  {
    if s == "" {
      assert s + b == b + "";
      StripLeftSpace(b, "", drop);
    } else if drop(s[0]) {
      assert (s + b)[1..] == s[1..] + b;
      StripLeftAppend(s[1..], b, drop);
    }
  }

  lemma StripSpaceAfter(s: string, b: string, drop: char -> bool)
    requires forall c <- b :: drop(c)
    ensures Strip(s + b, drop) == Strip(s, drop)
  {
    StripLeftAppend(s, b, drop);
    StripRightSpace(StripLeft(s, drop), b, drop);
  }

  lemma {:induction false} LowerStripLeft(s: string)
    ensures StripLeft(Lower(s), IsSpace) == Lower(StripLeft(s, IsSpace))
  {
    if s != "" && IsSpace(s[0]) {
      assert Lower(s)[1..] == Lower(s[1..]);
      LowerStripLeft(s[1..]);
    }
  }

  lemma {:induction false} LowerStripRight(s: string)
    ensures StripRight(Lower(s), IsSpace) == Lower(StripRight(s, IsSpace))
  {
    if s != "" && IsSpace(s[|s| - 1]) {
      assert Lower(s)[..|s| - 1] == Lower(s[..|s| - 1]);
      LowerStripRight(s[..|s| - 1]);
    }
  }

  lemma LowerStrip(s: string)
    ensures Lower(Strip(Lower(s), IsSpace)) == Lower(Strip(s, IsSpace))
  {
    LowerStripLeft(s);
    LowerStripRight(StripLeft(s, IsSpace));
    var t := Strip(s, IsSpace);
    assert Lower(Lower(t)) == Lower(t);
  }

  /** Whitespace around the text does not matter, and neither does case. */
  lemma SpaceAndCaseDoNotMatter(before: string, text: string, after: string)
    requires forall c <- before + after :: IsSpace(c)
    ensures NormaliseHost(before + text + after) == NormaliseHost(text) == NormaliseHost(Lower(text))
  {
    forall c <- before ensures IsSpace(c) {
      assert c in before + after;
    }
    forall c <- after ensures IsSpace(c) {
      assert c in before + after;
    }
    assert before + text + after == before + (text + after);
    StripLeftSpace(before, text + after, IsSpace);
    StripSpaceAfter(text, after, IsSpace);
    assert Strip(before + text + after, IsSpace) == Strip(text, IsSpace);
    LowerStrip(text);
  }
}
