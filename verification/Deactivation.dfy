/** What a deactivation means for every continuation of a run (backend/routes/auth.py, backend/core/deps.py). */
module Deactivation {
  import opened Results
  import opened Sessions
  import opened SessionRuns

  /** A refresh that read the account while it was active was already racing, and read a version before the cut. */
  predicate ReadBefore(racing: set<Token>, t: Txn, user: UserId, cut: nat) {
    t.payload.userId == user && t.user.Some? && t.user.value.Some? && t.user.value.value.isActive ==>
      t.token in racing && t.user.value.value.tokenVersion < cut
  }

  predicate AllReadBefore(racing: set<Token>, txns: map<TxnId, Txn>, user: UserId, cut: nat) {
    forall x <- txns :: ReadBefore(racing, txns[x], user, cut)
  }

  /** Since the first `from` exchanges, tokens of the user were only spent by racing refreshes. */
  predicate OnlyRacers(racing: set<Token>, minted: map<Token, Payload>, from: nat, log: seq<Exchange>, user: UserId) {
    forall i :: from <= i < |log| ==>
      log[i].spent in minted && (minted[log[i].spent].userId == user ==> log[i].spent in racing)
  }

  /** Whatever was minted for the user since carries a version from before the cut. */
  predicate OnlyCutTokens(before: map<Token, Payload>, minted: map<Token, Payload>, user: UserId, cut: nat) {
    forall t <- minted | t !in before && minted[t].userId == user :: minted[t].version < cut
  }

  predicate IsOff(users: map<UserId, User>, user: UserId) {
    user in users && !users[user].isActive
  }

  /** What holds of a user since the deactivation in state `s`. */
  predicate StaysOff(s: State, u: State, user: UserId, cut: nat) {
    && IsOff(u.auth.users, user) && AllReadBefore(Racing(s.txns), u.txns, user, cut)
    && s.exchanges <= u.exchanges && OnlyRacers(Racing(s.txns), u.auth.minted, |s.exchanges|, u.exchanges, user)
    && OnlyCutTokens(s.auth.minted, u.auth.minted, user, cut)
  }

  lemma MintKeepsOff(before: map<Token, Payload>, s: Auth, log: seq<Exchange>, racing: set<Token>, from: nat, id: UserId, u: User,
                     p: Pair, now: int, ttl: Lifetimes, user: UserId, cut: nat)
    requires NewPair(s, p) && OnlyRacers(racing, s.minted, from, log, user) && OnlyCutTokens(before, s.minted, user, cut)
    requires id == user ==> u.tokenVersion < cut
    ensures var minted := MintPair(s.minted, id, u, p, now, ttl);
            OnlyRacers(racing, minted, from, log, user) && OnlyCutTokens(before, minted, user, cut)
  {
  }

  lemma CommitKeepsOff(s: State, u: State, t: Txn, pair: Pair, now: int, ttl: Lifetimes, user: UserId, cut: nat)
    requires StaysOff(s, u, user, cut) && ReadBefore(Racing(s.txns), t, user, cut) && NewPair(u.auth, pair) && t.user.Some?
    requires t.token in u.auth.minted && t.payload == u.auth.minted[t.token]
    ensures StaysOff(s, CommitStep(u, t, pair, now, ttl), user, cut)
  {
    var outcome := Verdict(t.payload, t.user.value, Some(t.row), pair, now);
    if outcome.Issued? && t.token in u.auth.rows {
      var account := t.user.value.value;
      MintKeepsOff(s.auth.minted, u.auth, u.exchanges, Racing(s.txns), |s.exchanges|, t.payload.userId, account, pair, now, ttl,
                   user, cut);
    }
  }

  lemma FinishKeepsOff(s: State, u: State, txn: TxnId, pair: Pair, now: int, ttl: Lifetimes, user: UserId, cut: nat)
    requires StaysOff(s, u, user, cut) && ReadsHold(u.auth.users, u.auth.minted, u.txns)
    ensures StaysOff(s, FinishStep(u, txn, pair, now, ttl), user, cut)
  {
    if txn in u.txns && u.txns[txn].user.Some? && NewPair(u.auth, pair) {
      CommitKeepsOff(s, u.(txns := u.txns - {txn}), u.txns[txn], pair, now, ttl, user, cut);
    }
  }

  lemma LoginKeepsOff(s: State, u: State, id: UserId, pair: Pair, family: FamilyId, now: int, ttl: Lifetimes, user: UserId, cut: nat)
    requires StaysOff(s, u, user, cut)
    ensures StaysOff(s, LoginStep(u, id, pair, family, now, ttl), user, cut)
  {
    if LoginStep(u, id, pair, family, now, ttl) != u {
      MintKeepsOff(s.auth.minted, u.auth, u.exchanges, Racing(s.txns), |s.exchanges|, id, u.auth.users[id], pair, now, ttl,
                   user, cut);
    }
  }

  lemma StepKeepsOff(s: State, u: State, a: Action, ttl: Lifetimes, user: UserId, cut: nat)
    requires StaysOff(s, u, user, cut) && ReadsHold(u.auth.users, u.auth.minted, u.txns)
    ensures StaysOff(s, Apply(u, a, ttl), user, cut)
  {
    match a {
      case Finish(txn, pair, now) => FinishKeepsOff(s, u, txn, pair, now, ttl, user, cut);
      case Login(id, pair, family, now) => LoginKeepsOff(s, u, id, pair, family, now, ttl, user, cut);
      case _ =>
    }
  }

  lemma {:induction false} RunKeepsOff(s: State, u: State, actions: seq<Action>, ttl: Lifetimes, user: UserId, cut: nat)
    requires Inv(u) && StaysOff(s, u, user, cut)
    ensures Inv(Run(u, actions, ttl)) && StaysOff(s, Run(u, actions, ttl), user, cut)
    decreases |actions|
  {
    if actions != [] {
      StepKeepsInv(u, actions[0], ttl);
      StepKeepsOff(s, u, actions[0], ttl, user, cut);
      RunKeepsOff(s, Apply(u, actions[0], ttl), actions[1..], ttl, user, cut);
    }
  }

  /**
   * Deactivation is for good. In every continuation the account stays off, no login of the user does anything,
   * no access token of the user resolves, whenever it was minted, and the only refreshes of the user that
   * still succeed are those that had already read the account; what these mint is cut off as well.
   */
  lemma DeactivationIsForGood(s: State, user: UserId, actions: seq<Action>, ttl: Lifetimes)
    requires Inv(s) && user in s.auth.users
    ensures var u := Run(Apply(s, Bump(user, true), ttl), actions, ttl);
            && IsOff(u.auth.users, user)
            && (forall pair, family, now :: Apply(u, Login(user, pair, family, now), ttl) == u)
            && (forall t, now :: ResolveUser(u.auth, t, now) != Some(user))
            && s.exchanges <= u.exchanges
            && OnlyRacers(Racing(s.txns), u.auth.minted, |s.exchanges|, u.exchanges, user)
            && OnlyCutTokens(s.auth.minted, u.auth.minted, user, s.auth.users[user].tokenVersion + 1)
  {
    var cut := s.auth.users[user].tokenVersion + 1;
    var start := Apply(s, Bump(user, true), ttl);
    StepKeepsInv(s, Bump(user, true), ttl);
    forall x <- s.txns ensures ReadBefore(Racing(s.txns), s.txns[x], user, cut) {
    }
    RunKeepsOff(s, start, actions, ttl, user, cut);
  }

  /** How often the run raises the user's version. */
  function Bumps(actions: seq<Action>, user: UserId): nat {
    if actions == [] then 0 else (if actions[0].Bump? && actions[0].user == user then 1 else 0) + Bumps(actions[1..], user)
  }

  /** Nothing but password changes and deactivations touches an account, and only a deactivation switches it off. */
  lemma {:induction false} AccountInEveryRun(s: State, actions: seq<Action>, ttl: Lifetimes, user: UserId)
    requires user in s.auth.users
    ensures var u := Run(s, actions, ttl);
            user in u.auth.users && u.auth.users[user] ==
              User(s.auth.users[user].orgId, s.auth.users[user].isActive && Bump(user, true) !in actions,
                   s.auth.users[user].tokenVersion + Bumps(actions, user))
    decreases |actions|
  {
    if actions != [] {
      var rest := actions[1..];
      assert actions == [actions[0]] + rest;
      StepOnAccount(s, actions[0], ttl, user);
      AccountInEveryRun(Apply(s, actions[0], ttl), rest, ttl, user);
    }
  }

  lemma StepOnAccount(s: State, a: Action, ttl: Lifetimes, user: UserId)
    requires user in s.auth.users
    ensures var u := Apply(s, a, ttl);
            user in u.auth.users && u.auth.users[user] ==
              User(s.auth.users[user].orgId, s.auth.users[user].isActive && a != Bump(user, true),
                   s.auth.users[user].tokenVersion + if a.Bump? && a.user == user then 1 else 0)
  {
  }

  /** A new account is active from the start: it can sign in, and its access token resolves until it expires. */
  lemma NewAccountSignsIn(s: State, id: UserId, orgId: OrgId, pair: Pair, family: FamilyId, now: int, ttl: Lifetimes, at: int)
    requires id !in s.auth.users && NewPair(s.auth, pair) && family !in s.chains && at < now + ttl.access
    ensures var u := Apply(Apply(s, AddUser(id, orgId), ttl), Login(id, pair, family, now), ttl);
            id in u.auth.users && u.auth.users[id] == User(orgId, true, 0) && ResolveUser(u.auth, pair.access, at) == Some(id)
  {
  }

  /** Every link from a spent token to its successor stands in the log of exchanges. */
  predicate LinksAreLogged(rows: map<Token, Row>, log: seq<Exchange>) {
    forall t <- rows :: rows[t].replacedBy.Some? ==> Exchange(t, rows[t].replacedBy.value) in log
  }

  lemma LogGrows(log: seq<Exchange>, e: Exchange)
    ensures forall x <- log :: x in log + [e]
    ensures e in log + [e]
  {
  }

  lemma RotationIsLogged(s: Auth, log: seq<Exchange>, token: Token, id: UserId, user: User, pair: Pair, now: int, ttl: Lifetimes)
    requires LinksAreLogged(s.rows, log) && token in s.rows
    ensures LinksAreLogged(Rotated(s, token, id, user, pair, now, ttl).rows, log + [Exchange(token, pair.refresh)])
  {
    LogGrows(log, Exchange(token, pair.refresh));
  }

  lemma CommitIsLogged(s: State, t: Txn, pair: Pair, now: int, ttl: Lifetimes)
    requires LinksAreLogged(s.auth.rows, s.exchanges) && t.user.Some?
    ensures var u := CommitStep(s, t, pair, now, ttl);
            LinksAreLogged(u.auth.rows, u.exchanges)
  {
    if Verdict(t.payload, t.user.value, Some(t.row), pair, now).Issued? && t.token in s.auth.rows {
      RotationIsLogged(s.auth, s.exchanges, t.token, t.payload.userId, t.user.value.value, pair, now, ttl);
    }
  }

  lemma StepIsLogged(s: State, a: Action, ttl: Lifetimes)
    requires LinksAreLogged(s.auth.rows, s.exchanges)
    ensures var u := Apply(s, a, ttl);
            LinksAreLogged(u.auth.rows, u.exchanges)
  {
    match a {
      case Finish(txn, pair, now) =>
        if txn in s.txns && s.txns[txn].user.Some? && NewPair(s.auth, pair) {
          CommitIsLogged(s.(txns := s.txns - {txn}), s.txns[txn], pair, now, ttl);
        }
      case _ =>
    }
  }

  /** The log of exchanges is complete in every run: no token is spent without an entry. */
  lemma {:induction false} EveryExchangeIsLogged(s: State, actions: seq<Action>, ttl: Lifetimes)
    requires LinksAreLogged(s.auth.rows, s.exchanges)
    ensures var u := Run(s, actions, ttl);
            LinksAreLogged(u.auth.rows, u.exchanges)
    decreases |actions|
  {
    if actions != [] {
      StepIsLogged(s, actions[0], ttl);
      EveryExchangeIsLogged(Apply(s, actions[0], ttl), actions[1..], ttl);
    }
  }
}
