/**
 * The browser client's single-flight refresh (frontend/src/lib/api.ts), composed with the server's
 * rotation: one page, any number of concurrent 401s.
 */
module Browser {
  import opened Results
  import opened Sessions

  type Caller = nat

  /** The shared promise: still fetching, or settled; `clears` when a microtask is queued to drop it. */
  datatype Flight = Flying | Settled(ok: bool, clears: bool)

  datatype Tab = Tab(
    stored: Option<Token>,             // the refresh token in local storage
    flight: Option<Flight>,            // refreshInFlight
    waiting: set<Caller>,              // callers awaiting the unsettled promise
    results: map<Caller, bool>,        // callers whose await has a value they have not acted on yet
    sent: seq<Token>                   // every refresh token ever posted
  )

  /** A refresh POST on the wire, with the server's answer once there is one. */
  datatype Post = Post(token: Token, reply: Option<Outcome>)

  datatype World = World(tab: Tab, wire: seq<Post>, auth: Auth, answers: seq<Outcome>)

  datatype Action =
    | Unauthorised(caller: Caller)                    // a request of `caller` came back 401
    | Answer(post: nat, pair: Pair, now: int)         // the server handles a POST
    | Receive(post: nat)                              // its response reaches the page
    | Lose(post: nat)                                 // or does not
    | Microtask
    | Resume(caller: Caller)
    | Login(user: UserId, pair: Pair, family: FamilyId, now: int)
    | Logout(served: bool)
    | Elsewhere(auth: Auth)                           // anything other clients do to the server

  /** `refreshAccessToken` on a 401. */
  function OnUnauthorised(t: Tab, caller: Caller): Tab {
    match t.flight
    case Some(Flying) => t.(waiting := t.waiting + {caller})
    case Some(Settled(ok, _)) => t.(results := t.results[caller := ok])
    case None =>
      if t.stored.None? then t.(flight := Some(Settled(false, false)), results := t.results[caller := false])
      else t.(flight := Some(Flying), waiting := t.waiting + {caller}, sent := t.sent + [t.stored.value])
  }

  /** The end of the fetch: a pair is stored, anything else is `false`; every waiting caller gets the value. */
  function OnResponse(t: Tab, got: Option<Token>): Tab {
    t.(stored := if got.Some? then got else t.stored,
       flight := Some(Settled(got.Some?, true)),
       results := t.results + (map c | c in t.waiting :: got.Some?),
       waiting := {})
  }

  function OnMicrotask(t: Tab): Tab {
    if t.flight.Some? && t.flight.value.Settled? && t.flight.value.clears then t.(flight := None) else t
  }

  /** A caller told `true` retries once and never refreshes again; one told `false` clears the tokens. */
  function OnResume(t: Tab, caller: Caller): Tab {
    if caller !in t.results then t
    else t.(results := t.results - {caller}, stored := if t.results[caller] then t.stored else None)
  }

  function Without(wire: seq<Post>, post: nat): seq<Post>
    requires post < |wire|
  {
    wire[..post] + wire[post + 1..]
  }

  function UnauthorisedStep(w: World, caller: Caller): World {
    var tab := OnUnauthorised(w.tab, caller);
    if |tab.sent| == |w.tab.sent| then w.(tab := tab)
    else w.(tab := tab, wire := w.wire + [Post(tab.sent[|tab.sent| - 1], None)])
  }

  function AnswerStep(w: World, post: nat, pair: Pair, now: int, ttl: Lifetimes): World {
    if post >= |w.wire| || w.wire[post].reply.Some? || !NewPair(w.auth, pair) then w else
    var (auth, outcome) := Refreshed(w.auth, w.wire[post].token, pair, now, ttl);
    w.(auth := auth, wire := w.wire[post := w.wire[post].(reply := Some(outcome))], answers := w.answers + [outcome])
  }

  function Granted(o: Outcome): Option<Token> {
    if o.Issued? then Some(o.pair.refresh) else None
  }

  function ReceiveStep(w: World, post: nat): World {
    if post >= |w.wire| || w.wire[post].reply.None? then w else
    w.(tab := OnResponse(w.tab, Granted(w.wire[post].reply.value)), wire := Without(w.wire, post))
  }

  function LoginStep(w: World, user: UserId, pair: Pair, family: FamilyId, now: int, ttl: Lifetimes): World {
    if user !in w.auth.users || !w.auth.users[user].isActive || !NewPair(w.auth, pair) then w else
    w.(tab := w.tab.(stored := Some(pair.refresh)), auth := LoggedIn(w.auth, user, pair, family, now, ttl))
  }

  function LogoutStep(w: World, served: bool): World {
    if w.tab.stored.None? then w else
    w.(tab := w.tab.(stored := None),
       auth := if served then w.auth.(rows := Revoked(w.auth.rows, {w.tab.stored.value})) else w.auth)
  }

  function Apply(w: World, a: Action, ttl: Lifetimes): World {
    match a
    case Unauthorised(caller) => UnauthorisedStep(w, caller)
    case Answer(post, pair, now) => AnswerStep(w, post, pair, now, ttl)
    case Receive(post) => ReceiveStep(w, post)
    case Lose(post) =>
      if post < |w.wire| then w.(tab := OnResponse(w.tab, None), wire := Without(w.wire, post)) else w
    case Microtask => w.(tab := OnMicrotask(w.tab))
    case Resume(caller) => w.(tab := OnResume(w.tab, caller))
    case Login(user, pair, family, now) => LoginStep(w, user, pair, family, now, ttl)
    case Logout(served) => LogoutStep(w, served)
    case Elsewhere(auth) => w.(auth := auth)
  }

  function Run(w: World, actions: seq<Action>, ttl: Lifetimes): World
    decreases |actions|
  {
    if actions == [] then w else Run(Apply(w, actions[0], ttl), actions[1..], ttl)
  }

  /** A POST is on the wire exactly while the promise is unsettled, and then only one. */
  predicate SingleFlight(w: World) {
    |w.wire| == if w.tab.flight == Some(Flying) then 1 else 0
  }

  /** At most one POST is outstanding in every run, even when responses get lost or the user signs out. */
  lemma {:induction false} AtMostOnePost(w: World, actions: seq<Action>, ttl: Lifetimes)
    requires SingleFlight(w)
    ensures SingleFlight(Run(w, actions, ttl))
    decreases |actions|
  {
    if actions != [] {
      AtMostOnePost(Apply(w, actions[0], ttl), actions[1..], ttl);
    }
  }

  /** The promise made when no token is stored: settled to `false` and never dropped. */
  predicate Stuck(w: World) {
    w.wire == [] && w.tab.flight == Some(Settled(false, false))
  }

  /** Exactly when the promise becomes one that is never dropped: a 401 with no refresh in flight and no token stored. */
  lemma StuckIff(w: World, a: Action, ttl: Lifetimes)
    requires SingleFlight(w)
    ensures Stuck(Apply(w, a, ttl)) <==>
              Stuck(w) || (a.Unauthorised? && w.tab.flight.None? && w.tab.stored.None?)
  {
  }

  /** A settled promise is queued to be dropped, unless it is the stuck one. */
  predicate ClearsUnlessStuck(w: World) {
    w.tab.flight.Some? && w.tab.flight.value.Settled? ==> w.tab.flight.value.clears || Stuck(w)
  }

  /** In every run the next microtask drops a settled promise exactly when it is not the stuck one. */
  lemma {:induction false} SettledIsDroppedIff(w: World, actions: seq<Action>, ttl: Lifetimes)
    requires SingleFlight(w) && ClearsUnlessStuck(w)
    ensures var u := Run(w, actions, ttl);
            && ClearsUnlessStuck(u)
            && (u.tab.flight.Some? && u.tab.flight.value.Settled? ==>
                  (Apply(u, Microtask, ttl).tab.flight == None <==> !Stuck(u)))
    decreases |actions|
  {
    if actions != [] {
      SettledIsDroppedIff(Apply(w, actions[0], ttl), actions[1..], ttl);
    }
  }

  /** Callers only wait while a POST is on the wire. */
  predicate WaitersInFlight(w: World) {
    SingleFlight(w) && (w.tab.waiting != {} ==> w.tab.flight == Some(Flying))
  }

  predicate Heard(w: World, caller: Caller) {
    caller in w.tab.waiting || caller in w.tab.results
  }

  /** A caller that awaits the refresh is never forgotten: until it resumes it waits or has its answer, and it has it once no POST is out. */
  lemma {:induction false} NobodyIsForgotten(w: World, actions: seq<Action>, ttl: Lifetimes, caller: Caller)
    requires WaitersInFlight(w) && Heard(w, caller) && Resume(caller) !in actions
    ensures var u := Run(w, actions, ttl);
            WaitersInFlight(u) && Heard(u, caller) && (u.wire == [] ==> caller in u.tab.results)
    decreases |actions|
  {
    if actions != [] {
      NobodyIsForgotten(Apply(w, actions[0], ttl), actions[1..], ttl, caller);
    }
  }

  /** Every 401 joins the one promise: its caller waits for it, or has the value it settled with. */
  lemma CallersShareThePromise(w: World, caller: Caller, ttl: Lifetimes)
    ensures var t := Apply(w, Unauthorised(caller), ttl).tab;
            && t.flight.Some? && (w.tab.flight.Some? ==> t.flight == w.tab.flight)
            && (t.flight.value.Flying? ==> caller in t.waiting)
            && (t.flight.value.Settled? ==> caller in t.results && t.results[caller] == t.flight.value.ok)
  {
  }

  /** The step takes a POST off the wire: its response arrives or is lost. */
  predicate Departs(w: World, a: Action) {
    (a.Receive? && a.post < |w.wire| && w.wire[a.post].reply.Some?) || (a.Lose? && a.post < |w.wire|)
  }

  /** The refresh token the page receives with it, if the server granted one. */
  function Brought(w: World, a: Action): Option<Token>
    requires Departs(w, a)
  {
    if a.Receive? && w.wire[a.post].reply.value.Issued? then Some(w.wire[a.post].reply.value.pair.refresh) else None
  }

  /** What becomes of the POST on the wire: not back yet, or back with a new token or with nothing. */
  function Fate(w: World, actions: seq<Action>, ttl: Lifetimes): Option<Option<Token>>
    decreases |actions|
  {
    if actions == [] then None
    else if Departs(w, actions[0]) then Some(Brought(w, actions[0]))
    else Fate(Apply(w, actions[0], ttl), actions[1..], ttl)
  }

  /** A token that arrives replaces the stored one; a refused or lost refresh leaves it to the callers to clear. */
  lemma ArrivalStoresToken(w: World, a: Action, ttl: Lifetimes)
    requires Departs(w, a)
    ensures Apply(w, a, ttl).tab.stored == if Brought(w, a).Some? then Brought(w, a) else w.tab.stored
  {
  }

  lemma {:induction false} AnswerIsKept(w: World, actions: seq<Action>, ttl: Lifetimes, caller: Caller)
    requires caller in w.tab.results && caller !in w.tab.waiting && WaitersInFlight(w)
    requires Resume(caller) !in actions && Unauthorised(caller) !in actions
    ensures var u := Run(w, actions, ttl);
            caller in u.tab.results && u.tab.results[caller] == w.tab.results[caller]
    decreases |actions|
  {
    if actions != [] {
      AnswerIsKept(Apply(w, actions[0], ttl), actions[1..], ttl, caller);
    }
  }

  /**
   * What the waiting callers are told, in every run: nothing while the POST is out, then `true` exactly when it
   * came back with a new pair, whether it was refused, failed or got lost otherwise.
   */
  lemma {:induction false} CallersAreToldTheFate(w: World, actions: seq<Action>, ttl: Lifetimes, caller: Caller)
    requires WaitersInFlight(w) && caller in w.tab.waiting && caller !in w.tab.results
    requires Resume(caller) !in actions && Unauthorised(caller) !in actions
    ensures var u, fate := Run(w, actions, ttl), Fate(w, actions, ttl);
            && (caller in u.tab.results <==> fate.Some?)
            && (fate.Some? ==> (u.tab.results[caller] <==> fate.value.Some?))
    decreases |actions|
  {
    if actions != [] {
      var t := Apply(w, actions[0], ttl);
      if Departs(w, actions[0]) {
        AnswerIsKept(t, actions[1..], ttl, caller);
      } else {
        CallersAreToldTheFate(t, actions[1..], ttl, caller);
      }
    }
  }

  /** A caller acts on its answer once: told `true` it retries with the tokens there are, told `false` it clears them. */
  lemma AnswerIsActedOnOnce(w: World, caller: Caller, ttl: Lifetimes)
    requires caller in w.tab.results
    ensures var u := Apply(w, Resume(caller), ttl);
            && u.tab.stored == (if w.tab.results[caller] then w.tab.stored else None)
            && Apply(u, Resume(caller), ttl) == u && u.auth == w.auth && u.wire == w.wire
            && forall c <- w.tab.results :: c != caller ==> c in u.tab.results && u.tab.results[c] == w.tab.results[c]
  {
  }

  function Unanswered(w: World): nat {
    if |w.wire| == 1 && w.wire[0].reply.None? then 1 else 0
  }

  /** When nothing gets lost, every POST but the one on the wire has had exactly one answer. */
  lemma {:induction false} EveryPostIsAnswered(w: World, actions: seq<Action>, ttl: Lifetimes)
    requires SingleFlight(w) && |w.tab.sent| == |w.answers| + Unanswered(w)
    requires forall a <- actions :: !a.Lose?
    ensures var u := Run(w, actions, ttl);
            SingleFlight(u) && |u.tab.sent| == |u.answers| + Unanswered(u)
    decreases |actions|
  {
    if actions != [] {
      EveryPostIsAnswered(Apply(w, actions[0], ttl), actions[1..], ttl);
    }
  }

  /** After a sign-in the page holds a refresh token that the server exchanges, and an access token that works. */
  lemma SignInTakesEffect(w: World, user: UserId, pair: Pair, family: FamilyId, now: int, ttl: Lifetimes, at: int, next: Pair)
    requires user in w.auth.users && w.auth.users[user].isActive && NewPair(w.auth, pair)
    requires at < now + ttl.access && at < now + ttl.refresh
    ensures var u := Apply(w, Login(user, pair, family, now), ttl);
            && u.tab.stored == Some(pair.refresh)
            && ResolveUser(u.auth, pair.access, at) == Some(user)
            && Refreshed(u.auth, pair.refresh, next, at, ttl).1 == Issued(next)
  {
    FreshPairWorks(w.auth, user, pair, family, now, ttl, at, next);
  }

  /** Signing out forgets the token here, and if the server heard of it, it is never exchanged again there. */
  lemma LogoutEndsTheSession(w: World, served: bool, ttl: Lifetimes, pair: Pair, now: int)
    requires w.tab.stored.Some?
    ensures var u := Apply(w, Logout(served), ttl);
            && u.tab.stored == None
            && (served && w.tab.stored.value in w.auth.rows ==>
                  !Refreshed(u.auth, w.tab.stored.value, pair, now, ttl).1.Issued?)
  {
  }

  /** From then on, whatever happens, a later sign-in included, the page never posts a refresh again. */
  lemma {:induction false} StuckForever(w: World, actions: seq<Action>, ttl: Lifetimes)
    requires Stuck(w)
    ensures Stuck(Run(w, actions, ttl)) && Run(w, actions, ttl).tab.sent == w.tab.sent
    decreases |actions|
  {
    if actions != [] {
      StuckForever(Apply(w, actions[0], ttl), actions[1..], ttl);
    }
  }

  /** A token the server would still exchange: minted, recorded and not revoked. */
  predicate Live(auth: Auth, token: Token) {
    token in auth.minted && token in auth.rows && !auth.rows[token].revoked
  }

  /** The token whose next use matters: the one just granted, or else the stored one. */
  function Next(w: World): Option<Token> {
    if |w.wire| == 1 && w.wire[0].reply.Some? then Granted(w.wire[0].reply.value) else w.tab.stored
  }

  /** The account and the clock are on the session's side; nothing is said about the row's revocation. */
  predicate Current(auth: Auth, token: Token, now: int) {
    && Decodes(auth, token, Refresh, now)
    && AccountStands(Lookup(auth, auth.minted[token].userId), auth.minted[token])
    && auth.users[auth.minted[token].userId].tokenVersion == auth.minted[token].version
    && (token in auth.rows ==> auth.rows[token].expires > now)
  }

  /** Other clients mint more tokens but leave this session's current row alone. */
  predicate LeavesAlone(w: World, auth: Auth) {
    && w.auth.minted.Keys <= auth.minted.Keys
    && (Next(w).Some? && Live(w.auth, Next(w).value) ==> Live(auth, Next(w).value))
  }

  /** No response is lost, nobody signs in or out during a refresh, the account stands. */
  predicate Smooth(w: World, a: Action) {
    match a
    case Answer(post, _, now) => post < |w.wire| ==> Current(w.auth, w.wire[post].token, now)
    case Lose(_) => false
    case Login(_, _, _, _) => w.wire == []
    case Logout(_) => w.wire == []
    case Elsewhere(auth) => LeavesAlone(w, auth)
    case _ => true
  }

  predicate SmoothRun(w: World, actions: seq<Action>, ttl: Lifetimes)
    decreases |actions|
  {
    actions == [] || (Smooth(w, actions[0]) && SmoothRun(Apply(w, actions[0], ttl), actions[1..], ttl))
  }

  predicate NeverTwice(sent: seq<Token>) {
    forall i, j :: 0 <= i < j < |sent| ==> sent[i] != sent[j]
  }

  /** The history of tokens: no repeats, all of them minted. */
  predicate SentOnce(w: World) {
    NeverTwice(w.tab.sent) && forall t <- w.tab.sent :: t in w.auth.minted
  }

  /** The next token is live; it has not been sent unless it is the one on the wire, unanswered. */
  predicate NextFresh(w: World) {
    && (Next(w).Some? ==> Live(w.auth, Next(w).value))
    && (if |w.wire| == 1 && w.wire[0].reply.None? then w.tab.stored == Some(w.wire[0].token)
        else Next(w).Some? ==> Next(w).value !in w.tab.sent)
  }

  predicate AllIssued(w: World) {
    && (forall o <- w.answers :: o.Issued?)
    && (forall p <- w.wire :: p.reply.Some? ==> p.reply.value.Issued?)
  }

  /** Only the stuck promise ever says `false`. */
  predicate FalseMeansStuck(t: Tab) {
    && t.flight != Some(Settled(false, true))
    && forall c <- t.results :: !t.results[c] ==> t.flight == Some(Settled(false, false))
  }

  predicate Sound(w: World) {
    SingleFlight(w) && SentOnce(w) && NextFresh(w) && AllIssued(w) && FalseMeansStuck(w.tab)
  }

  /** A page that has just loaded with a live token, or none. */
  predicate Loaded(w: World) {
    && w.wire == [] && w.answers == [] && w.tab == Tab(w.tab.stored, None, {}, map[], [])
    && (w.tab.stored.Some? ==> Live(w.auth, w.tab.stored.value))
  }

  lemma UnauthorisedKeepsSound(w: World, caller: Caller)
    requires Sound(w)
    ensures Sound(UnauthorisedStep(w, caller))
  {
  }

  /** A live token presented while the account stands is rotated into a live, never sent one. */
  lemma AnswerIsIssued(w: World, post: nat, pair: Pair, now: int, ttl: Lifetimes)
    requires Sound(w) && post < |w.wire| && w.wire[post].reply.None? && NewPair(w.auth, pair)
    requires Current(w.auth, w.wire[post].token, now)
    ensures var (auth, outcome) := Refreshed(w.auth, w.wire[post].token, pair, now, ttl);
            outcome == Issued(pair) && Live(auth, pair.refresh) && w.auth.minted.Keys <= auth.minted.Keys
  {
    assert Next(w) == Some(w.wire[post].token);
  }

  lemma AnswerKeepsSound(w: World, post: nat, pair: Pair, now: int, ttl: Lifetimes)
    requires Sound(w) && Smooth(w, Answer(post, pair, now))
    ensures Sound(AnswerStep(w, post, pair, now, ttl))
  {
    if post < |w.wire| && w.wire[post].reply.None? && NewPair(w.auth, pair) {
      AnswerIsIssued(w, post, pair, now, ttl);
      assert pair.refresh !in w.tab.sent;
    }
  }

  lemma ReceiveKeepsSound(w: World, post: nat)
    requires Sound(w)
    ensures Sound(ReceiveStep(w, post))
  {
    if post < |w.wire| && w.wire[post].reply.Some? {
      assert post == 0 && Without(w.wire, post) == [];
    }
  }

  lemma LoginKeepsSound(w: World, user: UserId, pair: Pair, family: FamilyId, now: int, ttl: Lifetimes)
    requires Sound(w) && w.wire == []
    ensures Sound(LoginStep(w, user, pair, family, now, ttl))
  {
  }

  lemma SmoothStepKeepsSound(w: World, a: Action, ttl: Lifetimes)
    requires Sound(w) && Smooth(w, a)
    ensures Sound(Apply(w, a, ttl))
  {
    match a {
      case Unauthorised(caller) => UnauthorisedKeepsSound(w, caller);
      case Answer(post, pair, now) => AnswerKeepsSound(w, post, pair, now, ttl);
      case Receive(post) => ReceiveKeepsSound(w, post);
      case Login(user, pair, family, now) => LoginKeepsSound(w, user, pair, family, now, ttl);
      case _ =>
    }
  }

  lemma {:induction false} SmoothRunKeepsSound(w: World, actions: seq<Action>, ttl: Lifetimes)
    requires Sound(w) && SmoothRun(w, actions, ttl)
    ensures Sound(Run(w, actions, ttl))
    decreases |actions|
  {
    if actions != [] {
      SmoothStepKeepsSound(w, actions[0], ttl);
      SmoothRunKeepsSound(Apply(w, actions[0], ttl), actions[1..], ttl);
    }
  }

  /**
   * Client and server composed. On a smooth run of a freshly loaded page at most one POST is
   * outstanding, no refresh token is ever sent twice, and every answer is a new pair: the server's
   * reuse branch is never reached.
   */
  lemma NeverReplays(w: World, actions: seq<Action>, ttl: Lifetimes)
    requires Loaded(w) && SmoothRun(w, actions, ttl)
    ensures var u := Run(w, actions, ttl);
            |u.wire| <= 1 && NeverTwice(u.tab.sent) && forall o <- u.answers :: o.Issued? && o != Reused
  {
    SmoothRunKeepsSound(w, actions, ttl);
  }

  /** The page's own state and the functions that change it. */
  class Page {
    var stored: Option<Token>
    var refreshInFlight: Option<Flight>
    var waiting: set<Caller>
    var results: map<Caller, bool>
    var sent: seq<Token>

    constructor (stored: Option<Token>)
      ensures Now() == Tab(stored, None, {}, map[], [])
    {
      this.stored := stored;
      refreshInFlight, waiting, results, sent := None, {}, map[], [];
    }

    function Now(): Tab
      reads this
    {
      Tab(stored, refreshInFlight, waiting, results, sent)
    }

    /** A 401 for `caller`: join the refresh in flight, or start one and say which token to post. */
    method RefreshAccessToken(caller: Caller) returns (post: Option<Token>)
      modifies this
      ensures Now() == OnUnauthorised(old(Now()), caller)
      ensures post.Some? <==> old(refreshInFlight).None? && old(stored).Some?
      ensures post.Some? ==> post == old(stored)
    {
      post := None;
      if refreshInFlight.Some? {
        match refreshInFlight.value {
          case Flying => waiting := waiting + {caller};
          case Settled(ok, _) => results := results[caller := ok];
        }
        return;
      }
      if stored.None? {
        refreshInFlight := Some(Settled(false, false));
        results := results[caller := false];
        return;
      }
      post := stored;
      refreshInFlight := Some(Flying);
      waiting := waiting + {caller};
      sent := sent + [stored.value];
    }

    /** The fetch ended, with a token or without. */
    method Settle(got: Option<Token>)
      modifies this
      ensures Now() == OnResponse(old(Now()), got)
      ensures stored == (if got.Some? then got else old(stored)) && waiting == {}
      ensures forall c <- old(waiting) :: c in results && (results[c] <==> got.Some?)
    {
      if got.Some? {
        stored := got;
      }
      refreshInFlight := Some(Settled(got.Some?, true));
      results := results + (map c | c in waiting :: got.Some?);
      waiting := {};
    }

    method ClearInFlight()
      modifies this
      ensures Now() == OnMicrotask(old(Now()))
    {
      if refreshInFlight.Some? && refreshInFlight.value.Settled? && refreshInFlight.value.clears {
        refreshInFlight := None;
      }
    }

    method ResumeCaller(caller: Caller) returns (retry: bool)
      modifies this
      ensures Now() == OnResume(old(Now()), caller)
      ensures retry <==> caller in old(results) && old(results[caller])
      ensures stored == (if caller in old(results) && !retry then None else old(stored)) && caller !in results
    {
      retry := caller in results && results[caller];
      if caller in results {
        if !results[caller] {
          stored := None;
        }
        results := results - {caller};
      }
    }
  }
}
