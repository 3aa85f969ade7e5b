/** Keyboard runs and repeated units in passwords (backend/core/passwords.py). */
module Passwords {
  import opened Sets
  import opened Strings

  const KEYBOARD_ROWS: seq<string> := ["qwertyuiop", "asdfghjkl", "zxcvbnm", "1234567890", "abcdefghijklmnopqrstuvwxyz"]
  const MIN_RUN := 4

  type Adjacency = (char, char) -> bool

  function Reverse(s: string): (r: string)
    ensures |r| == |s| && forall i :: 0 <= i < |s| ==> r[i] == s[|s| - 1 - i]
  {
    seq(|s|, i requires 0 <= i < |s| => s[|s| - 1 - i])
  }

  /** `b` follows `a` in `text`. */
  predicate Follows(text: string, a: char, b: char) {
    exists i :: 0 <= i < |text| - 1 && text[i] == a && text[i + 1] == b
  }

  /** A step between neighbours of some row, in either direction. */
  predicate StepOf(rows: seq<string>, a: char, b: char) {
    exists row <- rows :: Follows(row, a, b) || Follows(Reverse(row), a, b)
  }

  lemma FollowsReversed(row: string, a: char, b: char)
    ensures Follows(Reverse(row), a, b) <==> Follows(row, b, a)
  {
    var text := Reverse(row);
    if Follows(text, a, b) {
      var i :| 0 <= i < |text| - 1 && text[i] == a && text[i + 1] == b;
      var j := |row| - 2 - i;
      assert row[j] == b && row[j + 1] == a;
    }
    if Follows(row, b, a) {
      var i :| 0 <= i < |row| - 1 && row[i] == b && row[i + 1] == a;
      var j := |row| - 2 - i;
      assert text[j] == a && text[j + 1] == b;
    }
  }

  /** The pairs of one text, as two-character strings. */
  predicate PairIn(text: string, p: string) {
    |p| == 2 && Follows(text, p[0], p[1])
  }

  function PairAt(text: string, k: nat): string
    requires k + 2 <= |text|
  {
    text[k..k + 2]
  }

  method AddPairs(pairs: set<string>, text: string) returns (more: set<string>)
    ensures forall p :: p in more <==> p in pairs || PairIn(text, p)
  {
    more := pairs;
    var i := 0;
    while i < |text| - 1
      invariant 0 <= i && (|text| > 0 ==> i <= |text| - 1)
      invariant forall p <- more :: p in pairs || PairIn(text, p)
      invariant pairs <= more
      invariant forall k: nat :: k < i && k + 2 <= |text| ==> PairAt(text, k) in more
    {
      more := more + {PairAt(text, i)};
      i := i + 1;
    }
    forall p | PairIn(text, p) ensures p in more {
      var k :| 0 <= k < |text| - 1 && text[k] == p[0] && text[k + 1] == p[1];
      assert p == PairAt(text, k);
    }
  }

  /** Every two-character step along a row, in both directions. */
  method AdjacentPairs(rows: seq<string>) returns (pairs: set<string>)
    ensures forall p :: p in pairs <==> |p| == 2 && StepOf(rows, p[0], p[1])
  {
    pairs := {};
    for k := 0 to |rows|
      invariant forall p :: p in pairs <==> |p| == 2 && StepOf(rows[..k], p[0], p[1])
    {
      assert rows[..k + 1] == rows[..k] + [rows[k]];
      var once := AddPairs(pairs, rows[k]);
      pairs := AddPairs(once, Reverse(rows[k]));
    }
    assert rows[..|rows|] == rows;
  }

  /** Each character of s[i..j] steps to the next. */
  predicate Run(adj: Adjacency, s: string, i: nat, j: nat) {
    i <= j <= |s| && forall k :: i < k < j ==> adj(s[k - 1], s[k])
  }

  predicate LongRunAt(adj: Adjacency, s: string, i: nat, j: nat, k: nat) {
    i <= k < j && i + MIN_RUN <= j && Run(adj, s, i, j)
  }

  /** Position `k` lies in some run of at least four characters. */
  ghost predicate InLongRun(adj: Adjacency, s: string, k: nat) {
    exists i: nat, j: nat :: LongRunAt(adj, s, i, j, k)
  }

  /** The positions below `m` that lie in long runs. */
  ghost function Covered(adj: Adjacency, s: string, m: nat): set<nat> {
    set k: nat | k < m && InLongRun(adj, s, k)
  }

  /** A run that cannot be extended on either side. */
  predicate Maximal(adj: Adjacency, s: string, i: nat, j: nat) {
    && i < j && Run(adj, s, i, j)
    && (i > 0 ==> !adj(s[i - 1], s[i]))
    && (j < |s| ==> !adj(s[j - 1], s[j]))
  }

  lemma RunsStayInside(adj: Adjacency, s: string, i: nat, j: nat, a: nat, b: nat, k: nat)
    requires Maximal(adj, s, i, j) && i <= k < j && Run(adj, s, a, b) && a <= k < b
    ensures i <= a && b <= j
  {
  }

  /** A maximal run is covered as a whole or not at all, by its length. */
  lemma MaximalRunCounts(adj: Adjacency, s: string, i: nat, j: nat)
    requires Maximal(adj, s, i, j)
    ensures |Covered(adj, s, j)| == |Covered(adj, s, i)| + if j - i >= MIN_RUN then j - i else 0
  {
    forall k: nat | i <= k < j ensures InLongRun(adj, s, k) <==> j - i >= MIN_RUN {
      if InLongRun(adj, s, k) {
        var a: nat, b: nat :| LongRunAt(adj, s, a, b, k);
        RunsStayInside(adj, s, i, j, a, b, k);
      }
      if j - i >= MIN_RUN {
        assert LongRunAt(adj, s, i, j, k);
      }
    }
    var block := Interval(i, j);
    if j - i >= MIN_RUN {
      assert Covered(adj, s, j) == Covered(adj, s, i) + block;
    } else {
      assert Covered(adj, s, j) == Covered(adj, s, i);
    }
  }

  predicate KeyChar(c: char) {
    'a' <= c <= 'z' || '0' <= c <= '9'
  }

  function KeyChars(s: string): string {
    if s == "" then "" else
    var front, c := KeyChars(s[..|s| - 1]), s[|s| - 1];
    if KeyChar(c) then front + [c] else front
  }

  /** Letters and digits, lower-cased. */
  function Folded(value: string): string {
    KeyChars(Lower(value))
  }

  predicate LetterOrDigit(c: char) {
    'a' <= c <= 'z' || 'A' <= c <= 'Z' || '0' <= c <= '9'
  }

  /** The small form of a letter; a digit is its own. */
  function Small(c: char): char {
    if 'A' <= c <= 'Z' then 'a' + (c - 'A') else c
  }

  /** `at` lists, in order, the positions of all letters and digits of the value. */
  predicate ListsKept(value: string, at: seq<int>) {
    && (forall j, k :: 0 <= j < k < |at| ==> at[j] < at[k])
    && (forall k :: 0 <= k < |at| ==> 0 <= at[k] < |value| && LetterOrDigit(value[at[k]]))
    && (forall i :: 0 <= i < |value| && LetterOrDigit(value[i]) ==> i in at)
  }

  lemma FoldedSnoc(front: string, c: char)
    ensures Folded(front + [c]) == Folded(front) + if LetterOrDigit(c) then [Small(c)] else []
  {
    assert Lower(front + [c]) == Lower(front) + [LowerChar(c)];
    assert (Lower(front) + [LowerChar(c)])[..|front|] == Lower(front);
  }

  lemma ListsKeptSnoc(front: string, c: char, at: seq<int>)
    requires ListsKept(front, at)
    ensures ListsKept(front + [c], if LetterOrDigit(c) then at + [|front|] else at)
  {
    var all := front + [c];
    assert forall i :: 0 <= i < |front| ==> all[i] == front[i];
    if LetterOrDigit(c) {
      var longer := at + [|front|];
      forall j, k | 0 <= j < k < |longer| ensures longer[j] < longer[k] {
        assert k < |at| ==> at[j] < at[k];
      }
      forall i | 0 <= i < |all| && LetterOrDigit(all[i]) ensures i in longer {
        assert i < |front| ==> i in at;
        assert longer[|at|] == |front|;
      }
    }
  }

  /** The folded text is the letters and digits of the value, in order and in lower case, and nothing else. */
  lemma {:induction false} FoldedIsLettersAndDigits(value: string) returns (at: seq<int>)
    ensures ListsKept(value, at)
    ensures |Folded(value)| == |at| && forall k :: 0 <= k < |at| ==> Folded(value)[k] == Small(value[at[k]])
    decreases |value|
  {
    if value == "" {
      at := [];
    } else {
      var front, c := value[..|value| - 1], value[|value| - 1];
      at := FoldedIsLettersAndDigits(front);
      assert value == front + [c];
      FoldedSnoc(front, c);
      ListsKeptSnoc(front, c, at);
      if LetterOrDigit(c) {
        at := at + [|front|];
      }
    }
  }

  /** The one-pass count: exactly the positions in runs of at least four adjacent steps. */
  method CoveredCount(adj: Adjacency, folded: string) returns (covered: nat)
    requires |folded| >= MIN_RUN
    ensures covered == |Covered(adj, folded, |folded|)|
  {
    covered := 0;
    var run := 1;
    assert Covered(adj, folded, 0) == {};
    for i := 1 to |folded| + 1
      invariant i <= |folded| ==>
                  1 <= run <= i && Run(adj, folded, i - run, i) && (i > run ==> !adj(folded[i - run - 1], folded[i - run]))
                  && covered == |Covered(adj, folded, i - run)|
      invariant i == |folded| + 1 ==> covered == |Covered(adj, folded, |folded|)|
    {
      if i < |folded| && adj(folded[i - 1], folded[i]) {
        run := run + 1;
        continue;
      }
      MaximalRunCounts(adj, folded, i - run, i);
      if run >= MIN_RUN {
        covered := covered + run;
      }
      run := 1;
    }
  }

  /** The share of the password made of keyboard or alphabet runs. */
  method KeyboardCoverage(adj: Adjacency, value: string) returns (share: real)
    ensures var folded := Folded(value);
            share == if |folded| == 0 then 0.0 else |Covered(adj, folded, |folded|)| as real / |folded| as real
  {
    var folded := Folded(value);
    if |folded| < MIN_RUN {
      ShortHasNone(adj, folded);
      return 0.0;
    }
    var covered := CoveredCount(adj, folded);
    return covered as real / |folded| as real;
  }

  lemma ShortHasNone(adj: Adjacency, s: string)
    requires |s| < MIN_RUN
    ensures Covered(adj, s, |s|) == {}
  {
  }

  /** Never more than the whole. */
  lemma CoverageWithin(adj: Adjacency, s: string)
    ensures |Covered(adj, s, |s|)| <= |s|
  {
    SubsetSize(Covered(adj, s, |s|), Interval(0, |s|));
  }

  /** At least seven tenths. */
  ghost predicate MostlyKeyboard(adj: Adjacency, value: string) {
    var folded := Folded(value);
    folded != "" && 10 * |Covered(adj, folded, |folded|)| >= 7 * |folded|
  }

  method IsKeyboardRun(adj: Adjacency, value: string) returns (mostly: bool)
    ensures mostly <==> MostlyKeyboard(adj, value)
  {
    var share := KeyboardCoverage(adj, value);
    mostly := share >= 0.7;
    ghost var folded := Folded(value);
    if folded != "" {
      ShareAtLeast(|Covered(adj, folded, |folded|)|, |folded|);
    }
  }

  lemma ShareAtLeast(part: nat, whole: nat)
    requires whole > 0
    ensures part as real / whole as real >= 0.7 <==> 10 * part >= 7 * whole
  {
    QuotientAtLeast(part as real, whole as real);
    assert (10 * part) as real == 10.0 * part as real && (7 * whole) as real == 7.0 * whole as real;
  }

  lemma QuotientAtLeast(x: real, y: real)
    requires y > 0.0
    ensures x / y >= 0.7 <==> 10.0 * x >= 7.0 * y
  {
    var q := x / y;
    assert q * y == x;
    if q >= 0.7 {
      assert (q - 0.7) * y >= 0.0;
    } else {
      assert (0.7 - q) * y > 0.0;
    }
  }

  lemma LongRunShifts(adj: Adjacency, a: string, b: string, k: nat)
    requires k < |b| && InLongRun(adj, b, k)
    ensures InLongRun(adj, a + b, |a| + k)
  {
    var i: nat, j: nat :| LongRunAt(adj, b, i, j, k);
    forall m | |a| + i < m < |a| + j ensures adj((a + b)[m - 1], (a + b)[m]) {
      assert adj(b[m - |a| - 1], b[m - |a|]);
    }
    assert LongRunAt(adj, a + b, |a| + i, |a| + j, |a| + k);
  }

  lemma PieceIsLongRun(adj: Adjacency, piece: string, rest: string, k: nat)
    requires Run(adj, piece, 0, |piece|) && |piece| >= MIN_RUN && k < |piece|
    ensures InLongRun(adj, piece + rest, k)
  {
    assert LongRunAt(adj, piece + rest, 0, |piece|, k);
  }

  /** Runs of at least four back to back are covered to the last character, whatever happens at the joints. */
  lemma {:induction false} PiecesAreCovered(adj: Adjacency, pieces: seq<string>)
    requires forall p <- pieces :: |p| >= MIN_RUN && Run(adj, p, 0, |p|)
    ensures forall k: nat :: k < |Concat(pieces)| ==> InLongRun(adj, Concat(pieces), k)
  {
    if pieces != [] {
      var piece, rest := pieces[0], Concat(pieces[1..]);
      PiecesAreCovered(adj, pieces[1..]);
      forall k: nat | k < |Concat(pieces)| ensures InLongRun(adj, Concat(pieces), k) {
        if k < |piece| {
          PieceIsLongRun(adj, piece, rest, k);
        } else {
          LongRunShifts(adj, piece, rest, k - |piece|);
        }
      }
    }
  }

  /** A contiguous part of a row, read in either direction. */
  predicate SliceOf(rows: seq<string>, chunk: string) {
    exists row <- rows :: Contains(row, chunk) || Contains(Reverse(row), chunk)
  }

  function Steps(rows: seq<string>): Adjacency {
    (a, b) => StepOf(rows, a, b)
  }

  /** Each step inside a part of a text is a step of that text. */
  lemma PartSteps(text: string, chunk: string)
    requires Contains(text, chunk)
    ensures forall k :: 0 < k < |chunk| ==> Follows(text, chunk[k - 1], chunk[k])
  {
    var i :| 0 <= i <= |text| - |chunk| && OccursAt(text, chunk, i);
    forall k | 0 < k < |chunk| ensures Follows(text, chunk[k - 1], chunk[k]) {
      assert text[i + k - 1] == chunk[k - 1] && text[i + k - 1 + 1] == chunk[k];
    }
  }

  lemma SliceIsRun(rows: seq<string>, chunk: string)
    requires SliceOf(rows, chunk)
    ensures Run(Steps(rows), chunk, 0, |chunk|)
  {
    var row :| row in rows && (Contains(row, chunk) || Contains(Reverse(row), chunk));
    if Contains(row, chunk) {
      PartSteps(row, chunk);
    } else {
      PartSteps(Reverse(row), chunk);
    }
  }

  /** Any value that folds to row slices of at least four characters, in either direction, is flagged. */
  lemma SlicesAreFlagged(rows: seq<string>, pieces: seq<string>, value: string)
    requires pieces != [] && (forall p <- pieces :: SliceOf(rows, p) && |p| >= MIN_RUN)
    requires Folded(value) == Concat(pieces)
    ensures Covered(Steps(rows), Folded(value), |Folded(value)|) == Interval(0, |Folded(value)|)
    ensures MostlyKeyboard(Steps(rows), value)
  {
    forall p <- pieces ensures Run(Steps(rows), p, 0, |p|) {
      SliceIsRun(rows, p);
    }
    PiecesAreCovered(Steps(rows), pieces);
    assert pieces[0] in pieces;
  }

  predicate NoRepeats(text: string) {
    forall i, j :: 0 <= i < j < |text| ==> text[i] != text[j]
  }

  /** In a text without repeated characters, a chunk is a part of it exactly when each of its steps is a step of it. */
  lemma {:induction false} PartIffSteps(text: string, chunk: string)
    requires NoRepeats(text) && |chunk| >= 2
    ensures Contains(text, chunk) <==> forall k :: 0 < k < |chunk| ==> Follows(text, chunk[k - 1], chunk[k])
  {
    if Contains(text, chunk) {
      PartSteps(text, chunk);
    } else if forall k :: 0 < k < |chunk| ==> Follows(text, chunk[k - 1], chunk[k]) {
      StepsMakePart(text, chunk);
    }
  }

  lemma {:induction false} StepsMakePart(text: string, chunk: string)
    requires NoRepeats(text) && |chunk| >= 2
    requires forall k :: 0 < k < |chunk| ==> Follows(text, chunk[k - 1], chunk[k])
    ensures Contains(text, chunk)
  {
    var n := |chunk| - 1;
    assert Follows(text, chunk[n - 1], chunk[n]);
    var j :| 0 <= j < |text| - 1 && text[j] == chunk[n - 1] && text[j + 1] == chunk[n];
    if n == 1 {
      assert chunk == [text[j], text[j + 1]];
      assert OccursAt(text, chunk, j);
    } else {
      var front := chunk[..n];
      StepsMakePart(text, front);
      var i :| 0 <= i <= |text| - n && OccursAt(text, front, i);
      assert text[i + n - 1] == text[i..i + n][n - 1] == front[n - 1];
      PartExtends(text, front, i, chunk[n]);
      assert chunk == front + [chunk[n]];
    }
  }

  lemma PartExtends(text: string, front: string, i: nat, c: char)
    requires OccursAt(text, front, i) && i + |front| < |text| && text[i + |front|] == c
    ensures Contains(text, front + [c])
  {
    assert text[i..i + |front| + 1] == text[i..i + |front|] + [c];
    assert OccursAt(text, front + [c], i);
  }

  /** Corrected claim: a chunk is a slice exactly when all its steps are steps of one row in one direction. */
  lemma SliceIffSteps(rows: seq<string>, chunk: string)
    requires (forall row <- rows :: NoRepeats(row)) && |chunk| >= 2
    ensures SliceOf(rows, chunk) <==>
            exists row <- rows ::
              (forall k :: 0 < k < |chunk| ==> Follows(row, chunk[k - 1], chunk[k]))
              || (forall k :: 0 < k < |chunk| ==> Follows(row, chunk[k], chunk[k - 1]))
  {
    forall row <- rows
      ensures Contains(row, chunk) <==> forall k :: 0 < k < |chunk| ==> Follows(row, chunk[k - 1], chunk[k])
      ensures Contains(Reverse(row), chunk) <==> forall k :: 0 < k < |chunk| ==> Follows(row, chunk[k], chunk[k - 1])
    {
      PartIffSteps(row, chunk);
      PartIffSteps(Reverse(row), chunk);
      forall k | 0 < k < |chunk|
        ensures Follows(Reverse(row), chunk[k - 1], chunk[k]) <==> Follows(row, chunk[k], chunk[k - 1])
      {
        FollowsReversed(row, chunk[k - 1], chunk[k]);
      }
    }
  }

  /**
   * Adjacency alone does not make a slice: two neighbours back and forth, as in "qwqw", take allowed
   * steps only and are no slice of any row.
   */
  lemma BackAndForthIsNoSlice(rows: seq<string>, row: string, i: nat)
    requires (forall r <- rows :: NoRepeats(r)) && row in rows && i + 1 < |row|
    ensures var a, b := row[i], row[i + 1];
            Run(Steps(rows), [a, b, a, b], 0, 4) && !SliceOf(rows, [a, b, a, b])
  {
    var a, b := row[i], row[i + 1];
    assert Follows(row, a, b);
    FollowsReversed(row, b, a);
    assert StepOf(rows, a, b) && StepOf(rows, b, a);
    forall r <- rows ensures !Contains(r, [a, b, a, b]) && !Contains(Reverse(r), [a, b, a, b]) {
      PartRepeats(r, [a, b, a, b]);
      PartRepeats(Reverse(r), [a, b, a, b]);
    }
  }

  /** A text without repeats has no part with the same character first and third. */
  lemma PartRepeats(text: string, chunk: string)
    requires NoRepeats(text) && |chunk| >= 3 && chunk[0] == chunk[2]
    ensures !Contains(text, chunk)
  {
    forall i | 0 <= i <= |text| - |chunk| ensures !OccursAt(text, chunk, i) {
      var part := text[i..i + |chunk|];
      assert part[0] == text[i] && part[2] == text[i + 2];
    }
  }

  /** `unit * m`. */
  function Repeat(unit: string, m: nat): string {
    if m == 0 then "" else unit + Repeat(unit, m - 1)
  }

  /** The string agrees with itself shifted by `p`. */
  predicate Periodic(s: string, p: nat) {
    forall i :: p <= i < |s| ==> s[i] == s[i - p]
  }

  lemma {:induction false} RepeatIsPeriodic(unit: string, m: nat)
    ensures |Repeat(unit, m)| == m * |unit|
    ensures Periodic(Repeat(unit, m), |unit|)
    ensures m > 0 ==> unit <= Repeat(unit, m)
  {
    if m > 0 {
      RepeatIsPeriodic(unit, m - 1);
      assert m * |unit| == |unit| + (m - 1) * |unit|;
    }
  }

  /** A periodic string is its first period repeated. */
  lemma {:induction false} PeriodicIsRepeat(s: string, p: nat, m: nat)
    requires p > 0 && m > 0 && |s| == m * p && Periodic(s, p)
    ensures p <= |s| && s == Repeat(s[..p], m)
  {
    assert m * p == p + (m - 1) * p;
    assert (m - 1) * p >= 0;
    if m == 1 {
      assert Repeat(s[..p], 0) == "";
    } else {
      var rest := s[p..];
      assert (m - 1) * p == p + (m - 2) * p && (m - 2) * p >= 0;
      PeriodicIsRepeat(rest, p, m - 1);
      assert rest[..p] == s[..p] by {
        forall i | 0 <= i < p ensures rest[i] == s[i] {
          assert s[p + i] == s[p + i - p];
        }
      }
    }
  }

  /** A unit of length `p` repeated at least three times makes up the string, a remainder aside. */
  predicate Repeats(s: string, p: nat) {
    && p > 0 && |s| / p >= 3
    && p * (|s| / p) <= |s| && Periodic(s[..p * (|s| / p)], p)
  }

  lemma WholeUnits(n: nat, p: nat)
    requires p > 0
    ensures 0 <= p * (n / p) <= n && p * (n / p) == (n / p) * p
    ensures n / p >= 3 ==> p <= n / 2
    ensures n / p >= 1 ==> p <= p * (n / p)
  {
    assert n == p * (n / p) + n % p;
    if n / p >= 1 {
      assert p * (n / p) >= p * 1;
    }
    if n / p >= 3 {
      assert p * (n / p) >= p * 3;
    }
  }

  lemma RepeatIffPeriodic(whole: string, p: nat, m: nat)
    requires p > 0 && m > 0 && |whole| == m * p
    ensures p <= |whole| && (Repeat(whole[..p], m) == whole <==> Periodic(whole, p))
  {
    assert m * p == p + (m - 1) * p;
    assert (m - 1) * p >= 0;
    if Repeat(whole[..p], m) == whole {
      RepeatIsPeriodic(whole[..p], m);
    }
    if Periodic(whole, p) {
      PeriodicIsRepeat(whole, p, m);
    }
  }

  /** The test of one unit length: string repetition is index-shift equality. */
  lemma UnitTest(s: string, p: nat)
    requires 0 < p <= |s| / 2
    ensures 0 <= p * (|s| / p) <= |s|
    ensures Repeat(s[..p], |s| / p) == s[..p * (|s| / p)] <==> Periodic(s[..p * (|s| / p)], p)
  {
    WholeUnits(|s|, p);
    AtLeastOneUnit(|s|, p);
    var whole := s[..p * (|s| / p)];
    RepeatIffPeriodic(whole, p, |s| / p);
    assert whole[..p] == s[..p];
  }

  lemma AtLeastOneUnit(n: nat, p: nat)
    requires 0 < p <= n
    ensures n / p >= 1
  {
    assert n == p * (n / p) + n % p;
  }

  /** True exactly when some unit repeats at least three times. */
  method HasRepeatedUnit(value: string) returns (found: bool)
    ensures found <==> exists p: nat :: Repeats(Lower(value), p)
  {
    var folded := Lower(value);
    for size := 1 to |folded| / 2 + 1
      invariant forall p: nat :: p < size ==> !Repeats(folded, p)
    {
      UnitTest(folded, size);
      var unit := folded[..size];
      if Repeat(unit, |folded| / size) == folded[..size * (|folded| / size)] {
        if |folded| / size >= 3 {
          assert Repeats(folded, size);
          return true;
        }
      }
    }
    forall p: nat ensures !Repeats(folded, p) {
      if p > |folded| / 2 {
        WholeUnits(|folded|, p);
      }
    }
    return false;
  }

  lemma ShippedRowsHaveNoRepeats()
    ensures forall row <- KEYBOARD_ROWS :: NoRepeats(row)
  {
    assert NoRepeats("qwertyuiop");
    assert NoRepeats("asdfghjkl");
    assert NoRepeats("zxcvbnm");
    assert NoRepeats("1234567890");
    assert NoRepeats("abcdefghijklmnopqrstuvwxyz");
  }
}
