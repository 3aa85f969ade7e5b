/** Fixed-window rate limiting over a counter store with key expiry (backend/core/ratelimit.py). */
module RateLimit {
  import opened Results
  import opened Sets

  /** A counter; without an expiry it would count for ever, so the next increment gives it one. */
  datatype Entry = Entry(count: nat, expires: Option<int>)

  /** What the store does during one call; `ExpireLost` is a failure between the increment and the expiry. */
  datatype Store = Up | Down | ExpireLost

  datatype Rule = Rule(bucket: string, limit: nat, window: int)

  const BUCKETS := {"login:ip", "login:account", "register:ip", "refresh:ip", "password:user", "domain_verify:org"}

  function Key(bucket: string, identity: string): string {
    "ratelimit:" + bucket + ":" + identity
  }

  /** The entry as the store reports it at `now`. */
  function Alive(e: Option<Entry>, now: int): Option<Entry> {
    if e.Some? && (e.value.expires.None? || now < e.value.expires.value) then e else None
  }

  function CountOf(e: Option<Entry>, now: int): nat {
    if Alive(e, now).Some? then e.value.count else 0
  }

  function Incremented(e: Option<Entry>, now: int): Entry {
    match Alive(e, now)
    case None => Entry(1, None)
    case Some(x) => x.(count := x.count + 1)
  }

  /** `_incr` when the store answers. */
  function Hit(e: Option<Entry>, now: int, window: int): Entry {
    var x := Incremented(e, now);
    if x.expires.None? then x.(expires := Some(now + window)) else x
  }

  /** The counter of one key after hits at `times`. */
  function After(times: seq<int>, window: int): Option<Entry> {
    if times == [] then None else
    Some(Hit(After(times[..|times| - 1], window), times[|times| - 1], window))
  }

  predicate Sorted(times: seq<int>) {
    forall i, j :: 0 <= i <= j < |times| ==> times[i] <= times[j]
  }

  /**
   * When the window of each attempt began, said without counters or expiry: an attempt opens a window
   * unless it falls into the one the attempt before it belongs to.
   */
  function Starts(times: seq<int>, window: int): (s: seq<int>)
    ensures |s| == |times|
  {
    if times == [] then [] else
    var n := |times| - 1;
    var front := Starts(times[..n], window);
    if n > 0 && times[n] < front[n - 1] + window then front + [front[n - 1]] else front + [times[n]]
  }

  /** Windows are disjoint: a start covers its own attempts only, and different starts are a window apart. */
  lemma {:induction false} StartsShape(times: seq<int>, window: int)
    requires Sorted(times) && window > 0
    ensures var s := Starts(times, window);
            && (forall i :: 0 <= i < |s| ==> s[i] <= times[i] < s[i] + window)
            && (forall i, j :: 0 <= i < j < |s| ==> s[i] == s[j] || s[i] + window <= s[j])
  {
    if times != [] {
      var n := |times| - 1;
      StartsShape(times[..n], window);
      var front := Starts(times[..n], window);
      assert n > 0 ==> front[n - 1] <= times[n];
    }
  }

  function InWindow(starts: seq<int>, w: int): set<nat> {
    set i: nat | i < |starts| && starts[i] == w
  }

  lemma InWindowGrows(starts: seq<int>, w: int)
    requires starts != []
    ensures var n := |starts| - 1;
            InWindow(starts, w) == InWindow(starts[..n], w) + if starts[n] == w then {n} else {}
    ensures |InWindow(starts, w)| == |InWindow(starts[..|starts| - 1], w)| + if starts[|starts| - 1] == w then 1 else 0
  {
    var n := |starts| - 1;
    var before, added := InWindow(starts[..n], w), if starts[n] == w then {n} else {};
    assert InWindow(starts, w) == before + added;
    assert n !in before;
  }

  /** The last attempt joins the window before it, or opens one no earlier attempt belongs to. */
  predicate Opens(times: seq<int>, window: int)
    requires times != []
  {
    var n := |times| - 1;
    n == 0 || times[n] >= Starts(times[..n], window)[n - 1] + window
  }

  lemma LastStart(times: seq<int>, window: int)
    requires times != [] && Sorted(times) && window > 0
    ensures var n, s := |times| - 1, Starts(times, window);
            && s[..n] == Starts(times[..n], window)
            && (if Opens(times, window) then s[n] == times[n] && InWindow(s[..n], s[n]) == {}
                else n > 0 && s[n] == s[n - 1])
  {
    var n, s := |times| - 1, Starts(times, window);
    assert s[..n] == Starts(times[..n], window);
    if n > 0 && Opens(times, window) {
      StartsShape(times[..n], window);
      forall i | 0 <= i < n ensures s[..n][i] < times[n] {
        assert i < n - 1 ==> s[..n][i] <= s[..n][n - 1];
      }
    }
  }

  /** The counter after the last attempt: how many attempts its window has seen, to expire when the window ends. */
  lemma {:induction false} CounterIsRank(times: seq<int>, window: int)
    requires times != [] && Sorted(times) && window > 0
    ensures var s := Starts(times, window);
            After(times, window) == Some(Entry(|InWindow(s, s[|s| - 1])|, Some(s[|s| - 1] + window)))
  {
    var n, s := |times| - 1, Starts(times, window);
    LastStart(times, window);
    InWindowGrows(s, s[n]);
    if n > 0 {
      CounterIsRank(times[..n], window);
    }
  }

  /** `enforce` lets the `i`-th attempt through. */
  predicate Admitted(times: seq<int>, window: int, limit: nat, i: nat)
    requires i < |times|
  {
    After(times[..i + 1], window).value.count <= limit
  }

  function AdmittedIn(times: seq<int>, window: int, limit: nat, w: int): set<nat> {
    set i: nat | i < |times| && Starts(times, window)[i] == w && Admitted(times, window, limit, i)
  }

  function Min(a: nat, b: nat): nat {
    if a < b then a else b
  }

  lemma StartsPrefix(times: seq<int>, window: int, i: nat)
    requires i + 1 < |times|
    ensures Starts(times, window)[i] == Starts(times[..|times| - 1], window)[i]
  {
  }

  lemma AdmittedPrefix(times: seq<int>, window: int, limit: nat, n: nat, i: nat)
    requires i < n <= |times|
    ensures Admitted(times, window, limit, i) <==> Admitted(times[..n], window, limit, i)
  {
    assert times[..n][..i + 1] == times[..i + 1];
  }

  lemma AdmittedInPrefix(times: seq<int>, window: int, limit: nat, w: int)
    requires times != []
    ensures var n := |times| - 1;
            AdmittedIn(times, window, limit, w) == AdmittedIn(times[..n], window, limit, w)
              + if Starts(times, window)[n] == w && Admitted(times, window, limit, n) then {n} else {}
  {
    var n := |times| - 1;
    forall i: nat | i < n
      ensures i in AdmittedIn(times, window, limit, w) <==> i in AdmittedIn(times[..n], window, limit, w)
    {
      StartsPrefix(times, window, i);
      AdmittedPrefix(times, window, limit, n, i);
    }
  }

  /** For any attempts at any times, each window admits exactly the smaller of its attempts and the limit. */
  lemma {:induction false} WindowAdmitsExactly(times: seq<int>, window: int, limit: nat, w: int)
    requires Sorted(times) && window > 0
    ensures |AdmittedIn(times, window, limit, w)| == Min(|InWindow(Starts(times, window), w)|, limit)
  {
    var s := Starts(times, window);
    if times == [] {
      assert AdmittedIn(times, window, limit, w) == {} && InWindow(s, w) == {};
    } else {
      var n := |times| - 1;
      WindowAdmitsExactly(times[..n], window, limit, w);
      AdmittedInPrefix(times, window, limit, w);
      InWindowGrows(s, w);
      LastAdmitted(times, window, limit);
      assert n !in AdmittedIn(times[..n], window, limit, w);
    }
  }

  lemma LastAdmitted(times: seq<int>, window: int, limit: nat)
    requires times != [] && Sorted(times) && window > 0
    ensures var n, s := |times| - 1, Starts(times, window);
            && s[..n] == Starts(times[..n], window)
            && (Admitted(times, window, limit, n) <==> |InWindow(s, s[n])| <= limit)
  {
    CounterIsRank(times, window);
    LastStart(times, window);
    assert times[..|times|] == times;
  }

  function AdmittedDuring(times: seq<int>, window: int, limit: nat, a: int): set<nat> {
    set i: nat | i < |times| && a <= times[i] < a + window && Admitted(times, window, limit, i)
  }

  lemma AtMostAWindowful(times: seq<int>, window: int, limit: nat, which: set<nat>)
    requires Sorted(times) && window > 0
    requires forall i <- which :: i < |times| && Admitted(times, window, limit, i)
    requires forall i <- which, j <- which :: Starts(times, window)[i] == Starts(times, window)[j]
    ensures |which| <= limit
  {
    if which != {} {
      var k :| k in which;
      var w := Starts(times, window)[k];
      WindowAdmitsExactly(times, window, limit, w);
      assert which <= AdmittedIn(times, window, limit, w);
      SubsetSize(which, AdmittedIn(times, window, limit, w));
    }
  }

  /** Attempts within one window length whose windows all began before `a`, or all since, share their window. */
  lemma SameSideSameWindow(times: seq<int>, window: int, a: int, i: nat, j: nat)
    requires Sorted(times) && window > 0 && i < |times| && j < |times|
    requires a <= times[i] < a + window && a <= times[j] < a + window
    requires var s := Starts(times, window); s[i] < a <==> s[j] < a
    ensures Starts(times, window)[i] == Starts(times, window)[j]
  {
    StartsShape(times, window);
    var s := Starts(times, window);
    assert s[i] <= times[i] < s[i] + window && s[j] <= times[j] < s[j] + window;
  }

  /** Any interval one window long, wherever it lies, admits at most twice the limit. */
  lemma AnyWindowLengthAdmitsTwice(times: seq<int>, window: int, limit: nat, a: int)
    requires Sorted(times) && window > 0
    ensures |AdmittedDuring(times, window, limit, a)| <= 2 * limit
  {
    var all := AdmittedDuring(times, window, limit, a);
    var early := set i | i in all && Starts(times, window)[i] < a;
    var late := all - early;
    forall i <- early, j <- early ensures Starts(times, window)[i] == Starts(times, window)[j] {
      SameSideSameWindow(times, window, a, i, j);
    }
    forall i <- late, j <- late ensures Starts(times, window)[i] == Starts(times, window)[j] {
      SameSideSameWindow(times, window, a, i, j);
    }
    AtMostAWindowful(times, window, limit, early);
    AtMostAWindowful(times, window, limit, late);
    assert all == early + late && early !! late;
  }

  /** A failed attempt guarded by `assert_under`: charged when it is let through. */
  function FailuresAfter(times: seq<int>, window: int, limit: nat): Option<Entry> {
    if times == [] then None else
    var n := |times| - 1;
    var e := FailuresAfter(times[..n], window, limit);
    if CountOf(e, times[n]) > limit then e else Some(Hit(e, times[n], window))
  }

  predicate LetThrough(times: seq<int>, window: int, limit: nat, i: nat)
    requires i < |times|
  {
    CountOf(FailuresAfter(times[..i], window, limit), times[i]) <= limit
  }

  function LetThroughIn(times: seq<int>, window: int, limit: nat, w: int): set<nat> {
    set i: nat | i < |times| && Starts(times, window)[i] == w && LetThrough(times, window, limit, i)
  }

  /** The failure counter stops one past the limit. */
  lemma {:induction false} FailureCounter(times: seq<int>, window: int, limit: nat)
    requires times != [] && Sorted(times) && window > 0
    ensures var s := Starts(times, window);
            FailuresAfter(times, window, limit)
              == Some(Entry(Min(|InWindow(s, s[|s| - 1])|, limit + 1), Some(s[|s| - 1] + window)))
  {
    var n, s := |times| - 1, Starts(times, window);
    LastStart(times, window);
    InWindowGrows(s, s[n]);
    if n > 0 {
      FailureCounter(times[..n], window, limit);
    }
  }

  /** Because the guard refuses only above the limit, each window lets limit + 1 failures through, not limit. */
  lemma {:induction false} LockoutAdmitsOneMore(times: seq<int>, window: int, limit: nat, w: int)
    requires Sorted(times) && window > 0
    ensures |LetThroughIn(times, window, limit, w)| == Min(|InWindow(Starts(times, window), w)|, limit + 1)
  {
    var s := Starts(times, window);
    if times == [] {
      assert LetThroughIn(times, window, limit, w) == {} && InWindow(s, w) == {};
    } else {
      var n := |times| - 1;
      LockoutAdmitsOneMore(times[..n], window, limit, w);
      LetThroughInPrefix(times, window, limit, w);
      InWindowGrows(s, w);
      LastStart(times, window);
      LastLetThrough(times, window, limit);
      assert n !in LetThroughIn(times[..n], window, limit, w);
    }
  }

  lemma LetThroughPrefix(times: seq<int>, window: int, limit: nat, n: nat, i: nat)
    requires i < n <= |times|
    ensures LetThrough(times, window, limit, i) <==> LetThrough(times[..n], window, limit, i)
  {
    assert times[..n][..i] == times[..i];
  }

  lemma LetThroughInPrefix(times: seq<int>, window: int, limit: nat, w: int)
    requires times != []
    ensures var n := |times| - 1;
            LetThroughIn(times, window, limit, w) == LetThroughIn(times[..n], window, limit, w)
              + if Starts(times, window)[n] == w && LetThrough(times, window, limit, n) then {n} else {}
  {
    var n := |times| - 1;
    forall i: nat | i < n
      ensures i in LetThroughIn(times, window, limit, w) <==> i in LetThroughIn(times[..n], window, limit, w)
    {
      StartsPrefix(times, window, i);
      LetThroughPrefix(times, window, limit, n, i);
    }
  }

  /** The last attempt is let through exactly when its window has seen at most `limit` before it. */
  lemma LastLetThrough(times: seq<int>, window: int, limit: nat)
    requires times != [] && Sorted(times) && window > 0
    ensures var n, s := |times| - 1, Starts(times, window);
            LetThrough(times, window, limit, n) <==> |InWindow(s[..n], s[n])| <= limit
  {
    LastStart(times, window);
    if |times| > 1 {
      FailureCounter(times[..|times| - 1], window, limit);
    }
  }

  /** What happens to one account's failure counter: a failed attempt, or the clearing that follows a success. */
  datatype LoginEvent = Failed(at: int) | Cleared

  function AccountCounter(events: seq<LoginEvent>, window: int, limit: nat): Option<Entry> {
    if events == [] then None else
    var e := AccountCounter(events[..|events| - 1], window, limit);
    match events[|events| - 1]
    case Failed(at) => if CountOf(e, at) > limit then e else Some(Hit(e, at, window))
    case Cleared => None
  }

  /** The failed attempts since the last success. */
  function SinceCleared(events: seq<LoginEvent>): seq<int> {
    if events == [] then [] else
    match events[|events| - 1]
    case Failed(at) => SinceCleared(events[..|events| - 1]) + [at]
    case Cleared => []
  }

  /** A success starts the count over: what counts is the failures since, and nothing before. */
  lemma {:induction false} ClearStartsOver(events: seq<LoginEvent>, window: int, limit: nat)
    ensures AccountCounter(events, window, limit) == FailuresAfter(SinceCleared(events), window, limit)
  {
    if events != [] {
      var n := |events| - 1;
      ClearStartsOver(events[..n], window, limit);
      if events[n].Failed? {
        var before := SinceCleared(events[..n]);
        assert (before + [events[n].at])[..|before|] == before;
      }
    }
  }

  /** A hit that reached the store; `kept` says whether its expiry write, if one was due, went through. */
  datatype Attempt = Attempt(at: int, kept: bool)

  function AfterAttempts(attempts: seq<Attempt>, window: int): Option<Entry> {
    if attempts == [] then None else
    var e, a := AfterAttempts(attempts[..|attempts| - 1], window), attempts[|attempts| - 1];
    Some(if a.kept then Hit(e, a.at, window) else Incremented(e, a.at))
  }

  predicate InOrder(attempts: seq<Attempt>) {
    forall i, j :: 0 <= i <= j < |attempts| ==> attempts[i].at <= attempts[j].at
  }

  /** Some attempt from `first` on had its expiry kept, and a window has passed since. */
  predicate Closed(attempts: seq<Attempt>, first: nat, now: int, window: int) {
    exists k :: first <= k < |attempts| && attempts[k].kept && attempts[k].at + window <= now
  }

  /** Where the window of the last attempt began, said without counters: a window lasts until one has passed since a kept expiry. */
  function First(attempts: seq<Attempt>, window: int): (first: nat)
    requires attempts != []
    ensures first < |attempts|
  {
    var n := |attempts| - 1;
    if n > 0 && !Closed(attempts[..n], First(attempts[..n], window), attempts[n].at, window)
    then First(attempts[..n], window) else n
  }

  predicate NoneKept(attempts: seq<Attempt>, first: nat) {
    forall k :: first <= k < |attempts| ==> !attempts[k].kept
  }

  /** The entry expires a window after the earliest kept attempt of its window, or not at all. */
  predicate ExpiresWithWindow(e: Entry, attempts: seq<Attempt>, first: nat, window: int) {
    && (e.expires.None? <==> NoneKept(attempts, first))
    && (e.expires.Some? ==>
          && (exists k :: first <= k < |attempts| && attempts[k].kept && e.expires.value == attempts[k].at + window)
          && forall k :: first <= k < |attempts| && attempts[k].kept ==> e.expires.value <= attempts[k].at + window)
  }

  lemma AliveIffOpen(e: Entry, attempts: seq<Attempt>, first: nat, now: int, window: int)
    requires ExpiresWithWindow(e, attempts, first, window)
    ensures Alive(Some(e), now).Some? <==> !Closed(attempts, first, now, window)
  {
    if e.expires.Some? && e.expires.value <= now {
      var k :| first <= k < |attempts| && attempts[k].kept && e.expires.value == attempts[k].at + window;
      assert attempts[k].kept && attempts[k].at + window <= now;
    }
  }

  lemma WindowGoesOn(e: Entry, attempts: seq<Attempt>, first: nat, a: Attempt, window: int)
    requires ExpiresWithWindow(e, attempts, first, window) && InOrder(attempts + [a]) && first < |attempts|
    requires Alive(Some(e), a.at).Some?
    ensures var x := if a.kept then Hit(Some(e), a.at, window) else Incremented(Some(e), a.at);
            x.count == e.count + 1 && ExpiresWithWindow(x, attempts + [a], first, window)
  {
    var all := attempts + [a];
    assert all[|attempts|] == a;
    assert forall k :: 0 <= k < |attempts| ==> all[k] == attempts[k];
    if e.expires.Some? {
      var k :| first <= k < |attempts| && attempts[k].kept && e.expires.value == attempts[k].at + window;
      assert all[k].kept && e.expires.value == all[k].at + window;
      assert all[k].at <= all[|attempts|].at;
    }
  }

  lemma WindowBegins(attempts: seq<Attempt>, a: Attempt, e: Option<Entry>, window: int)
    requires Alive(e, a.at).None?
    ensures var x := if a.kept then Hit(e, a.at, window) else Incremented(e, a.at);
            x.count == 1 && ExpiresWithWindow(x, attempts + [a], |attempts|, window)
  {
    var all := attempts + [a];
    assert all[|attempts|] == a;
  }

  /** The counter is the rank of the last attempt in its window, and expires with that window, lost expiry writes and all. */
  lemma {:induction false} AttemptCounter(attempts: seq<Attempt>, window: int)
    requires attempts != [] && InOrder(attempts) && window > 0
    ensures var first, e := First(attempts, window), AfterAttempts(attempts, window);
            e.Some? && e.value.count == |attempts| - first && ExpiresWithWindow(e.value, attempts, first, window)
  {
    var n := |attempts| - 1;
    var front, a := attempts[..n], attempts[n];
    assert attempts == front + [a];
    if n == 0 {
      WindowBegins(front, a, None, window);
    } else {
      AttemptCounter(front, window);
      var e := AfterAttempts(front, window);
      AliveIffOpen(e.value, front, First(front, window), a.at, window);
      if Alive(e, a.at).Some? {
        WindowGoesOn(e.value, front, First(front, window), a, window);
      } else {
        WindowBegins(front, a, e, window);
      }
    }
  }

  function TimesAt(attempts: seq<Attempt>): seq<int> {
    seq(|attempts|, i requires 0 <= i < |attempts| => attempts[i].at)
  }

  /** When no expiry write is lost these are the plain hits the window bounds speak of. */
  lemma {:induction false} KeptAttemptsAreHits(attempts: seq<Attempt>, window: int)
    requires forall a <- attempts :: a.kept
    ensures AfterAttempts(attempts, window) == After(TimesAt(attempts), window)
  {
    if attempts != [] {
      var n := |attempts| - 1;
      KeptAttemptsAreHits(attempts[..n], window);
      assert TimesAt(attempts)[..n] == TimesAt(attempts[..n]);
      assert attempts[n] in attempts;
    }
  }

  /** A call of `enforce` on some key, and what the store does during it. */
  datatype Call = Call(key: string, now: int, store: Store)

  function EntryOf(counters: map<string, Entry>, key: string): Option<Entry> {
    if key in counters then Some(counters[key]) else None
  }

  function StoredBy(e: Option<Entry>, now: int, store: Store, window: int): Entry
    requires !store.Down?
  {
    if store.Up? then Hit(e, now, window) else Incremented(e, now)
  }

  /** The store after calls on any mix of keys. */
  function CountersAfter(calls: seq<Call>, window: int): map<string, Entry> {
    if calls == [] then map[] else
    var before, c := CountersAfter(calls[..|calls| - 1], window), calls[|calls| - 1];
    if c.store.Down? then before else before[c.key := StoredBy(EntryOf(before, c.key), c.now, c.store, window)]
  }

  /** The attempts on a key that were actually counted. */
  function AttemptsOf(calls: seq<Call>, key: string): seq<Attempt> {
    if calls == [] then [] else
    var before, c := AttemptsOf(calls[..|calls| - 1], key), calls[|calls| - 1];
    if !c.store.Down? && c.key == key then before + [Attempt(c.now, c.store.Up?)] else before
  }

  /** Keys do not disturb one another, and calls the store missed leave no trace. */
  lemma {:induction false} CountersAreIndependent(calls: seq<Call>, window: int, key: string)
    ensures EntryOf(CountersAfter(calls, window), key) == AfterAttempts(AttemptsOf(calls, key), window)
  {
    if calls != [] {
      var n := |calls| - 1;
      CountersAreIndependent(calls[..n], window, key);
      var before, c := AttemptsOf(calls[..n], key), calls[n];
      if !c.store.Down? && c.key == key {
        assert (before + [Attempt(c.now, c.store.Up?)])[..|before|] == before;
      }
    }
  }

  lemma {:induction false} AttemptsInOrder(calls: seq<Call>, key: string)
    requires forall i, j :: 0 <= i <= j < |calls| ==> calls[i].now <= calls[j].now
    ensures InOrder(AttemptsOf(calls, key))
    ensures calls != [] ==> forall a <- AttemptsOf(calls, key) :: a.at <= calls[|calls| - 1].now
  {
    if calls != [] {
      var n := |calls| - 1;
      AttemptsInOrder(calls[..n], key);
      var before := AttemptsOf(calls[..n], key);
      forall k | 0 <= k < |before| ensures before[k].at <= calls[n].now {
        assert before[k] in before;
      }
    }
  }

  /** `enforce` on the last of many calls: open when the store is down or its expiry write fails, else by the count. */
  predicate LastAllowed(calls: seq<Call>, window: int, limit: nat)
    requires calls != []
  {
    var c := calls[|calls| - 1];
    c.store.Down? ||
    var e := StoredBy(EntryOf(CountersAfter(calls[..|calls| - 1], window), c.key), c.now, c.store, window);
    (c.store.ExpireLost? && e.expires.None?) || e.count <= limit
  }

  /**
   * Among calls on any mix of keys, with outages and lost expiry writes, a call is allowed exactly when the
   * store is down, when its own expiry write is lost and its window has no expiry yet, or when its window has
   * seen no more than the limit.
   */
  lemma AllowedWithinWindow(calls: seq<Call>, window: int, limit: nat)
    requires calls != [] && window > 0
    requires forall i, j :: 0 <= i <= j < |calls| ==> calls[i].now <= calls[j].now
    ensures var c := calls[|calls| - 1];
            var attempts := AttemptsOf(calls, c.key);
            if c.store.Down? then LastAllowed(calls, window, limit) else
            attempts != [] &&
            (LastAllowed(calls, window, limit) <==>
              (c.store.ExpireLost? && NoneKept(attempts, First(attempts, window)))
              || |attempts| - First(attempts, window) <= limit)
  {
    var c := calls[|calls| - 1];
    if !c.store.Down? {
      CountersAreIndependent(calls, window, c.key);
      AttemptsInOrder(calls, c.key);
      AttemptCounter(AttemptsOf(calls, c.key), window);
    }
  }

  /** A counter left without an expiry gets one from the next hit that reaches the store, and so ends. */
  lemma LostExpiryIsRepaired(e: Option<Entry>, t0: int, t1: int, window: int)
    requires Alive(e, t0).None? && t0 <= t1 && window > 0
    ensures var x := Incremented(e, t0);
            && Alive(Some(x), t1).Some?
            && Hit(Some(x), t1, window) == Entry(2, Some(t1 + window))
            && CountOf(Some(Hit(Some(x), t1, window)), t1 + window) == 0
  {
  }

  lemma SamePrefix(a: string, b: string, x: string, y: string)
    requires a + x == b + y && |a| <= |b|
    ensures a <= b && (a == b ==> x == y)
  {
    assert (a + x)[..|a|] == a;
    assert (b + y)[..|a|] == b[..|a|];
    assert (a + x)[|a|..] == x;
    assert (b + y)[|b|..] == y;
  }

  /** One key means that one bucket begins the other. */
  lemma SharedKey(a: string, b: string, x: string, y: string)
    requires Key(a, x) == Key(b, y) && |a| <= |b|
    ensures a <= b && (a == b ==> x == y)
  {
    var head := "ratelimit:";
    assert Key(a, x) == head + (a + (":" + x)) && Key(b, y) == head + (b + (":" + y));
    SamePrefix(head, head, a + (":" + x), b + (":" + y));
    SamePrefix(a, b, ":" + x, ":" + y);
    if a == b {
      SamePrefix(":", ":", x, y);
    }
  }

  /** No bucket is the beginning of another, so two rules never share a counter, whatever the identities. */
  lemma KeysNeverCollide(a: string, b: string, x: string, y: string)
    requires a in BUCKETS && b in BUCKETS && Key(a, x) == Key(b, y)
    ensures a == b && x == y
  {
    if |a| <= |b| {
      SharedKey(a, b, x, y);
      BucketsArePrefixFree(a, b);
    } else {
      SharedKey(b, a, y, x);
      BucketsArePrefixFree(b, a);
    }
  }

  lemma BucketsArePrefixFree(a: string, b: string)
    requires a in BUCKETS && b in BUCKETS && a <= b
    ensures a == b
  {
    assert a[2] == b[2] && a[6] == b[6];
  }

  /** The limiter over its store; each method is told what the store does. */
  class RateLimiter {
    const enabled: bool
    var counters: map<string, Entry>

    constructor (enabled: bool)
      ensures this.enabled == enabled && counters == map[]
    {
      this.enabled, counters := enabled, map[];
    }

    method Incr(key: string, window: int, now: int, store: Store) returns (count: Option<nat>)
      modifies this`counters
      ensures store.Down? ==> counters == old(counters) && count == None
      ensures !store.Down? ==>
                var x := Incremented(EntryOf(old(counters), key), now);
                if store.ExpireLost? && x.expires.None? then counters == old(counters)[key := x] && count == None
                else counters == old(counters)[key := Hit(EntryOf(old(counters), key), now, window)] && count == Some(x.count)
    {
      if store.Down? {
        return None;
      }
      var x := Incremented(EntryOf(counters, key), now);
      counters := counters[key := x];
      if x.expires.None? {
        if store.ExpireLost? {
          return None;
        }
        counters := counters[key := x.(expires := Some(now + window))];
      }
      return Some(x.count);
    }

    /** The count without consuming budget; zero when the store is down. */
    method Peek(key: string, now: int, store: Store) returns (count: nat)
      ensures count == if store.Down? then 0 else CountOf(EntryOf(counters, key), now)
    {
      count := if store.Down? then 0 else CountOf(EntryOf(counters, key), now);
    }

    method Enforce(rule: Rule, identity: string, now: int, store: Store) returns (allowed: bool)
      modifies this`counters
      ensures !enabled || store.Down? ==> allowed && counters == old(counters)
      ensures enabled && store.Up? ==>
                var x := Hit(EntryOf(old(counters), Key(rule.bucket, identity)), now, rule.window);
                counters == old(counters)[Key(rule.bucket, identity) := x] && (allowed <==> x.count <= rule.limit)
      ensures enabled && store.ExpireLost? ==>
                var x := Incremented(EntryOf(old(counters), Key(rule.bucket, identity)), now);
                counters == old(counters)[Key(rule.bucket, identity) := x]
                && (allowed <==> x.expires.None? || x.count <= rule.limit)
    {
      if !enabled {
        return true;
      }
      var count := Incr(Key(rule.bucket, identity), rule.window, now, store);
      allowed := count.None? || count.value <= rule.limit;
    }

    method AssertUnder(rule: Rule, identity: string, now: int, store: Store) returns (allowed: bool)
      ensures allowed <==> !enabled || store.Down? || CountOf(EntryOf(counters, Key(rule.bucket, identity)), now) <= rule.limit
    {
      if !enabled {
        return true;
      }
      var count := Peek(Key(rule.bucket, identity), now, store);
      allowed := count <= rule.limit;
    }

    method RecordFailure(rule: Rule, identity: string, now: int, store: Store)
      modifies this`counters
      ensures !enabled || store.Down? ==> counters == old(counters)
      ensures enabled && store.Up? ==>
                counters == old(counters)[Key(rule.bucket, identity) :=
                                            Hit(EntryOf(old(counters), Key(rule.bucket, identity)), now, rule.window)]
      ensures enabled && store.ExpireLost? ==>
                counters == old(counters)[Key(rule.bucket, identity) :=
                                            Incremented(EntryOf(old(counters), Key(rule.bucket, identity)), now)]
    {
      if enabled {
        var _ := Incr(Key(rule.bucket, identity), rule.window, now, store);
      }
    }

    method ClearFailures(rule: Rule, identity: string, store: Store)
      modifies this`counters
      ensures counters == if enabled && !store.Down? then old(counters) - {Key(rule.bucket, identity)} else old(counters)
    {
      if enabled && !store.Down? {
        counters := counters - {Key(rule.bucket, identity)};
      }
    }
  }
}
