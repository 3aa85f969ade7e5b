/** String operations the host and domain rules are written in. */
module Strings {

  predicate EndsWith(s: string, suffix: string) {
    |suffix| <= |s| && s[|s| - |suffix|..] == suffix
  }

  function Lower(s: string): (r: string)
    ensures |r| == |s|
    ensures forall i :: 0 <= i < |s| ==> r[i] == LowerChar(s[i])
  {
    seq(|s|, i requires 0 <= i < |s| => LowerChar(s[i]))
  }

  function LowerChar(c: char): char {
    if 'A' <= c <= 'Z' then (c as int + 32) as char else c
  }

  predicate IsSpace(c: char) {
    c == ' ' || '\t' <= c <= '\r' || '\U{1C}' <= c <= '\U{1F}'
  }

  predicate IsDot(c: char) {
    c == '.'
  }

  function StripLeft(s: string, drop: char -> bool): string {
    if s != [] && drop(s[0]) then StripLeft(s[1..], drop) else s
  }

  function StripRight(s: string, drop: char -> bool): string {
    if s != [] && drop(s[|s| - 1]) then StripRight(s[..|s| - 1], drop) else s
  }

  /** Both ends, as `str.strip` does. */
  function Strip(s: string, drop: char -> bool): string {
    StripRight(StripLeft(s, drop), drop)
  }

  /** Position of the first `c`, or the length of `s` when there is none. */
  function IndexOf(s: string, c: char): (i: nat)
    ensures i <= |s| && forall k :: 0 <= k < i ==> s[k] != c
    ensures i < |s| ==> s[i] == c
    ensures i < |s| <==> c in s
  {
    if s == [] || s[0] == c then 0 else 1 + IndexOf(s[1..], c)
  }

  /** What precedes the first `c`, or all of `s`. */
  function Before(s: string, c: char): string {
    s[..IndexOf(s, c)]
  }

  lemma BeforeFirst(a: string, c: char, rest: string)
    requires c !in a
    ensures Before(a + [c] + rest, c) == a
  {
    var s := a + [c] + rest;
    assert s[|a|] == c;
    forall i | 0 <= i < |a| ensures s[i] != c {
      assert s[i] == a[i];
    }
  }

  /** What follows the last `c`, or all of `s`. */
  function AfterLast(s: string, c: char): string {
    if c !in s then s else AfterLast(s[IndexOf(s, c) + 1..], c)
  }

  predicate OccursAt(s: string, sub: string, i: int) {
    0 <= i <= |s| - |sub| && s[i..i + |sub|] == sub
  }

  predicate Contains(s: string, sub: string) {
    exists i :: 0 <= i <= |s| - |sub| && OccursAt(s, sub, i)
  }

  lemma ContainsInTail(s: string, sub: string)
    requires Contains(s, sub) && !OccursAt(s, sub, 0)
    ensures s != [] && Contains(s[1..], sub)
  {
    var i :| 0 <= i <= |s| - |sub| && OccursAt(s, sub, i);
    assert s[1..][i - 1..i - 1 + |sub|] == s[i..i + |sub|];
    assert OccursAt(s[1..], sub, i - 1);
  }

  /** What follows the first occurrence of `sub`. */
  function AfterFirst(s: string, sub: string): string
    requires Contains(s, sub)
  {
    if OccursAt(s, sub, 0) then s[|sub|..] else
    ContainsInTail(s, sub);
    AfterFirst(s[1..], sub)
  }

  function Count(s: string, c: char): nat {
    if s == [] then 0 else (if s[0] == c then 1 else 0) + Count(s[1..], c)
  }

  lemma {:induction false} CountAbsent(s: string, c: char)
    requires c !in s
    ensures Count(s, c) == 0
  {
    if s != [] {
      CountAbsent(s[1..], c);
    }
  }

  lemma {:induction false} CountSplit(a: string, b: string, c: char)
    ensures Count(a + b, c) == Count(a, c) + Count(b, c)
  {
    if a == [] {
      assert a + b == b;
    } else {
      assert (a + b)[1..] == a[1..] + b;
      CountSplit(a[1..], b, c);
    }
  }

  lemma SchemeChars(s: string)
    ensures Contains(s, "://") ==> ':' in s && '/' in s
  {
    if Contains(s, "://") {
      var i :| 0 <= i <= |s| - 3 && OccursAt(s, "://", i);
      assert s[i] == s[i..i + 3][0] && s[i + 1] == s[i..i + 3][1];
    }
  }

  function Concat(parts: seq<string>): string {
    if parts == [] then "" else parts[0] + Concat(parts[1..])
  }

  function Split(s: string, c: char): (r: seq<string>)
    ensures |r| >= 1
  {
    if s == [] then [[]] else
    var rest := Split(s[1..], c);
    if s[0] == c then [[]] + rest else [[s[0]] + rest[0]] + rest[1..]
  }

  function Join(parts: seq<string>, c: char): string
    requires |parts| >= 1
  {
    if |parts| == 1 then parts[0] else parts[0] + [c] + Join(parts[1..], c)
  }

  /** Splitting is undone by joining. */
  lemma {:induction false} JoinSplit(s: string, c: char)
    ensures Join(Split(s, c), c) == s
  {
    if s != [] {
      JoinSplit(s[1..], c);
      var rest := Split(s[1..], c);
      if s[0] == c {
        assert ([[]] + rest)[1..] == rest;
      } else if |rest| > 1 {
        assert ([[s[0]] + rest[0]] + rest[1..])[1..] == rest[1..];
        assert s == [s[0]] + (rest[0] + [c] + Join(rest[1..], c));
      }
    }
  }

  lemma {:induction false} SplitAbsent(s: string, c: char)
    requires c !in s
    ensures Split(s, c) == [s]
  {
    if s != [] {
      SplitAbsent(s[1..], c);
      assert s == [s[0]] + s[1..];
    }
  }

  /** A separator in the middle cuts the split there. */
  lemma {:induction false} SplitAppend(a: string, b: string, c: char)
    ensures Split(a + [c] + b, c) == Split(a, c) + Split(b, c)
  {
    var s := a + [c] + b;
    if a == [] {
      assert s[1..] == b;
    } else {
      assert s[1..] == a[1..] + [c] + b;
      SplitAppend(a[1..], b, c);
    }
  }

  lemma {:induction false} JoinAppend(p: seq<string>, q: seq<string>, c: char)
    requires |p| >= 1 && |q| >= 1
    ensures Join(p + q, c) == Join(p, c) + [c] + Join(q, c)
    decreases |p|
  {
    if |p| == 1 {
      assert (p + q)[1..] == q;
    } else {
      assert (p + q)[1..] == p[1..] + q;
      JoinAppend(p[1..], q, c);
    }
  }

  /** No part of a split contains the separator, and parts hold only characters of the string. */
  lemma {:induction false} SplitParts(s: string, c: char)
    ensures forall part <- Split(s, c) :: c !in part && forall x <- part :: x in s
  {
    if s != [] {
      SplitParts(s[1..], c);
      var rest, all := Split(s[1..], c), Split(s, c);
      forall k | 0 <= k < |all| ensures c !in all[k] && forall x <- all[k] :: x in s {
        if k == 0 && s[0] != c {
          assert all[0] == [s[0]] + rest[0] && rest[0] in rest;
        } else if k > 0 {
          assert all[k] == (if s[0] == c then rest[k - 1] else rest[k]);
          assert all[k] in rest;
        }
      }
    }
  }

  /** Every other character survives in some part. */
  lemma {:induction false} SplitKeepsChars(s: string, c: char, x: char)
    requires x in s && x != c
    ensures exists part <- Split(s, c) :: x in part
  {
    var rest, all := Split(s[1..], c), Split(s, c);
    if x in s[1..] {
      SplitKeepsChars(s[1..], c, x);
      var k :| 0 <= k < |rest| && x in rest[k];
      assert x in all[if s[0] == c then k + 1 else k];
    } else {
      assert x == s[0] && x in all[0];
    }
  }

  /** Nothing to strip at either end leaves the string alone. */
  lemma StripKeeps(s: string, drop: char -> bool)
    requires s == [] || (!drop(s[0]) && !drop(s[|s| - 1]))
    ensures Strip(s, drop) == s
  {
  }

  lemma {:induction false} StripShape(s: string, drop: char -> bool)
    ensures var r := Strip(s, drop);
            (r == [] || (!drop(r[0]) && !drop(r[|r| - 1]))) && forall c <- r :: c in s
  {
    StripLeftShape(s, drop);
    StripRightShape(StripLeft(s, drop), drop);
  }

  lemma {:induction false} StripLeftShape(s: string, drop: char -> bool)
    ensures var r := StripLeft(s, drop);
            (r == [] || !drop(r[0])) && forall c <- r :: c in s
  {
    if s != [] && drop(s[0]) {
      StripLeftShape(s[1..], drop);
    }
  }

  lemma {:induction false} StripRightShape(s: string, drop: char -> bool)
    ensures var r := StripRight(s, drop);
            r <= s && (r == [] || !drop(r[|r| - 1]))
  {
    if s != [] && drop(s[|s| - 1]) {
      StripRightShape(s[..|s| - 1], drop);
    }
  }

  predicate IsDigit(c: char) {
    '0' <= c <= '9'
  }

  /** Decimal notation. */
  function Decimal(n: nat): (s: string)
    ensures |s| >= 1 && forall c <- s :: IsDigit(c)
  {
    var digit := ('0' as int + n % 10) as char;
    if n < 10 then [digit] else Decimal(n / 10) + [digit]
  }

  lemma {:induction false} DecimalInjective(m: nat, n: nat)
    requires Decimal(m) == Decimal(n)
    ensures m == n
  {
    var a, b := Decimal(m), Decimal(n);
    assert a[|a| - 1] == b[|b| - 1];
    if m >= 10 && n >= 10 {
      assert a[..|a| - 1] == Decimal(m / 10) && b[..|b| - 1] == Decimal(n / 10);
      DecimalInjective(m / 10, n / 10);
    }
  }
}
