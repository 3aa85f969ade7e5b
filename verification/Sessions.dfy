/**
 * Accounts, tokens and refresh sessions (backend/routes/auth.py, backend/core/deps.py,
 * backend/models/refresh_session.py). A session row is named by its token: the stored hash is unique.
 */
module Sessions {
  import opened Results

  type UserId = nat
  type OrgId = nat
  type FamilyId = nat
  type Token = nat

  datatype User = User(orgId: OrgId, isActive: bool, tokenVersion: nat)

  datatype Kind = Access | Refresh

  /** The signed claims of a minted token. */
  datatype Payload = Payload(kind: Kind, userId: UserId, orgId: OrgId, version: nat, expires: int)

  datatype Row = Row(userId: UserId, orgId: OrgId, family: FamilyId, expires: int, revoked: bool, replacedBy: Option<Token>)

  datatype Auth = Auth(users: map<UserId, User>, minted: map<Token, Payload>, rows: map<Token, Row>)

  datatype Lifetimes = Lifetimes(access: int, refresh: int)

  /** Tokens drawn for one response; never seen before. */
  datatype Pair = Pair(access: Token, refresh: Token)

  datatype Outcome = Issued(pair: Pair) | BadToken | BadAccount | Outdated | Unknown | Reused | Expired

  predicate NewPair(s: Auth, p: Pair) {
    p.access != p.refresh && p.access !in s.minted && p.refresh !in s.minted && p.refresh !in s.rows
  }

  predicate Decodes(s: Auth, token: Token, kind: Kind, now: int) {
    token in s.minted && s.minted[token].kind == kind && s.minted[token].expires > now
  }

  /** The account behind a payload exists, is active and has not moved organisation. */
  predicate AccountStands(user: Option<User>, p: Payload) {
    user.Some? && user.value.isActive && user.value.orgId == p.orgId
  }

  function Lookup(s: Auth, id: UserId): Option<User> {
    if id in s.users then Some(s.users[id]) else None
  }

  /** `_resolve_user`: the account an access token acts for, or a refusal. */
  function ResolveUser(s: Auth, token: Token, now: int): Option<UserId> {
    if !Decodes(s, token, Access, now) then None else
    var p := s.minted[token];
    if AccountStands(Lookup(s, p.userId), p) && s.users[p.userId].tokenVersion == p.version then Some(p.userId) else None
  }

  function MintPair(minted: map<Token, Payload>, id: UserId, user: User, p: Pair, now: int, ttl: Lifetimes): map<Token, Payload> {
    minted[p.access := Payload(Access, id, user.orgId, user.tokenVersion, now + ttl.access)]
          [p.refresh := Payload(Refresh, id, user.orgId, user.tokenVersion, now + ttl.refresh)]
  }

  function Revoked(rows: map<Token, Row>, which: set<Token>): map<Token, Row> {
    map t | t in rows :: if t in which then rows[t].(revoked := true) else rows[t]
  }

  function FamilyOf(rows: map<Token, Row>, family: FamilyId): set<Token> {
    set t | t in rows && rows[t].family == family
  }

  function RowsOf(rows: map<Token, Row>, user: UserId): set<Token> {
    set t | t in rows && rows[t].userId == user
  }

  /** The rotation itself: a successor in the same family, then the old row revoked and linked to it. */
  function Rotated(s: Auth, token: Token, id: UserId, user: User, p: Pair, now: int, ttl: Lifetimes): Auth
    requires token in s.rows
  {
    var old_ := s.rows[token];
    var successor := Row(id, user.orgId, old_.family, now + ttl.refresh, false, None);
    s.(minted := MintPair(s.minted, id, user, p, now, ttl),
       rows := s.rows[p.refresh := successor][token := old_.(revoked := true, replacedBy := Some(p.refresh))])
  }

  /** `_issue_tokens` after a login: a pair and a row that starts its own family. */
  function LoggedIn(s: Auth, id: UserId, p: Pair, family: FamilyId, now: int, ttl: Lifetimes): Auth
    requires id in s.users
  {
    var user := s.users[id];
    s.(minted := MintPair(s.minted, id, user, p, now, ttl),
       rows := s.rows[p.refresh := Row(id, user.orgId, family, now + ttl.refresh, false, None)])
  }

  /** How a decoded refresh token is answered, from the account and the row the handler read. */
  function Verdict(p: Payload, user: Option<User>, row: Option<Row>, pair: Pair, now: int): Outcome {
    if !AccountStands(user, p) then BadAccount
    else if user.value.tokenVersion != p.version then Outdated
    else if row.None? then Unknown
    else if row.value.revoked then Reused
    else if row.value.expires <= now then Expired
    else Issued(pair)
  }

  function RowOf(s: Auth, token: Token): Option<Row> {
    if token in s.rows then Some(s.rows[token]) else None
  }

  /** `refresh` as one atomic handler. */
  function Refreshed(s: Auth, token: Token, pair: Pair, now: int, ttl: Lifetimes): (Auth, Outcome) {
    if !Decodes(s, token, Refresh, now) then (s, BadToken) else
    var p := s.minted[token];
    var outcome := Verdict(p, Lookup(s, p.userId), RowOf(s, token), pair, now);
    if token !in s.rows then (s, outcome) else
    match outcome
    case Issued(_) => (Rotated(s, token, p.userId, s.users[p.userId], pair, now, ttl), outcome)
    case Expired => (s.(rows := Revoked(s.rows, {token})), outcome)
    case _ => (s.(rows := Revoked(s.rows, FamilyOf(s.rows, s.rows[token].family))), outcome)
  }

  function Bumped(s: Auth, id: UserId, deactivate: bool): Auth
    requires id in s.users
  {
    var user := s.users[id];
    s.(users := s.users[id := user.(tokenVersion := user.tokenVersion + 1, isActive := user.isActive && !deactivate)])
  }

  /** `change_password` and `deactivate_user`: new version, every session of the user revoked. */
  function SignedOutEverywhere(s: Auth, id: UserId, deactivate: bool): Auth
    requires id in s.users
  {
    Bumped(s, id, deactivate).(rows := Revoked(s.rows, RowsOf(s.rows, id)))
  }

  predicate FamilyDead(rows: map<Token, Row>, family: FamilyId) {
    forall t <- rows :: rows[t].family == family ==> rows[t].revoked
  }

  /**
   * Presenting a spent token again while the account checks still pass is answered as reuse, mints
   * nothing, and leaves every row of its family revoked and every other row as it was.
   */
  lemma ReuseKillsFamily(s: Auth, token: Token, pair: Pair, now: int, ttl: Lifetimes)
    requires Decodes(s, token, Refresh, now) && token in s.rows && s.rows[token].revoked
    requires var p := s.minted[token];
             AccountStands(Lookup(s, p.userId), p) && s.users[p.userId].tokenVersion == p.version
    ensures var (t, outcome) := Refreshed(s, token, pair, now, ttl);
            && outcome == Reused && t.minted == s.minted && t.users == s.users
            && t.rows.Keys == s.rows.Keys && FamilyDead(t.rows, s.rows[token].family)
            && forall x <- s.rows :: s.rows[x].family != s.rows[token].family ==> t.rows[x] == s.rows[x]
  {
  }

  /** The account is still what it was when the token was minted: there, active, in its organisation, at its version. */
  predicate Unchanged(s: Auth, p: Payload) {
    p.userId in s.users && s.users[p.userId] == User(p.orgId, true, p.version)
  }

  /** A token works exactly for the unchanged account: an access token resolves, a refresh token with a live row is exchanged. */
  lemma TokensWorkIff(s: Auth, token: Token, pair: Pair, now: int, ttl: Lifetimes)
    requires token in s.minted
    ensures ResolveUser(s, token, now).Some? <==>
              s.minted[token].kind == Access && now < s.minted[token].expires && Unchanged(s, s.minted[token])
    ensures Refreshed(s, token, pair, now, ttl).1.Issued? <==>
              && s.minted[token].kind == Refresh && now < s.minted[token].expires && Unchanged(s, s.minted[token])
              && token in s.rows && !s.rows[token].revoked && now < s.rows[token].expires
  {
  }

  /** Nothing but the rows of the token's family changes, and these only by being revoked. */
  predicate OnlyRevokes(s: Auth, t: Auth, which: set<Token>) {
    t == s.(rows := t.rows) && t.rows.Keys == s.rows.Keys
    && forall x <- s.rows :: t.rows[x] == if x in which then s.rows[x].(revoked := true) else s.rows[x]
  }

  /**
   * A decoded token that is not exchanged: if the account has changed or the token is spent its whole family
   * is revoked, if its row has merely expired that row alone is, and nothing is minted.
   */
  lemma RefusalRevokes(s: Auth, token: Token, pair: Pair, now: int, ttl: Lifetimes)
    requires Decodes(s, token, Refresh, now) && !Refreshed(s, token, pair, now, ttl).1.Issued?
    ensures OnlyRevokes(s, Refreshed(s, token, pair, now, ttl).0,
                        if token !in s.rows then {}
                        else if Unchanged(s, s.minted[token]) && !s.rows[token].revoked then {token}
                        else FamilyOf(s.rows, s.rows[token].family))
  {
  }

  /** A token of a dead family is never exchanged, whatever else holds. */
  lemma DeadFamilyYieldsNothing(s: Auth, token: Token, pair: Pair, now: int, ttl: Lifetimes)
    requires token in s.rows && FamilyDead(s.rows, s.rows[token].family)
    ensures !Refreshed(s, token, pair, now, ttl).1.Issued?
    ensures FamilyDead(Refreshed(s, token, pair, now, ttl).0.rows, s.rows[token].family)
  {
  }

  /** After a password change or a deactivation none of the user's rows is left unrevoked. */
  lemma SignOutRevokesAll(s: Auth, id: UserId, deactivate: bool)
    requires id in s.users
    ensures var t := SignedOutEverywhere(s, id, deactivate);
            (forall x <- t.rows :: t.rows[x].userId == id ==> t.rows[x].revoked)
            && t.users[id].tokenVersion == s.users[id].tokenVersion + 1
  {
  }

  /**
   * A pair works as what it is, and only as that: until it expires its access token resolves to the account
   * and its refresh token is exchanged, and neither does the other's job.
   */
  lemma FreshPairWorks(s: Auth, id: UserId, p: Pair, family: FamilyId, now: int, ttl: Lifetimes, at: int, next: Pair)
    requires id in s.users && s.users[id].isActive && NewPair(s, p)
    ensures var t := LoggedIn(s, id, p, family, now, ttl);
            && (ResolveUser(t, p.access, at) == if at < now + ttl.access then Some(id) else None)
            && ResolveUser(t, p.refresh, at) == None
            && (at < now + ttl.refresh ==> Refreshed(t, p.refresh, next, at, ttl).1 == Issued(next))
            && Refreshed(t, p.access, next, at, ttl) == (t, BadToken)
  {
  }

  /** Between two versions of the account: a successful exchange spends the token and hands its place to the successor. */
  lemma ExchangeSpendsAndHandsOver(s: Auth, token: Token, p: Pair, now: int, ttl: Lifetimes, at: int, next: Pair)
    requires NewPair(s, p) && token in s.rows && Refreshed(s, token, p, now, ttl).1 == Issued(p)
    requires at < s.minted[token].expires && at < now + ttl.refresh
    ensures var t := Refreshed(s, token, p, now, ttl).0;
            && Refreshed(t, token, next, at, ttl).1 == Reused
            && Refreshed(t, p.refresh, next, at, ttl).1 == Issued(next)
            && t.rows[p.refresh].family == s.rows[token].family && t.rows[p.refresh].userId == s.minted[token].userId
            && (at < now + ttl.access ==> ResolveUser(t, p.access, at) == Some(s.minted[token].userId))
            && forall x <- s.rows :: x != token ==> x in t.rows && t.rows[x] == s.rows[x]
  {
  }

  /** The handlers over the three tables, each an atomic request. */
  class AuthService {
    const ttl: Lifetimes
    var users: map<UserId, User>
    var minted: map<Token, Payload>
    var rows: map<Token, Row>

    constructor (ttl: Lifetimes)
      ensures this.ttl == ttl && Now() == Auth(map[], map[], map[])
    {
      this.ttl := ttl;
      users, minted, rows := map[], map[], map[];
    }

    function Now(): Auth
      reads this
    {
      Auth(users, minted, rows)
    }

    /** Revoke the still active rows among `which`, one at a time. */
    method RevokeRows(which: set<Token>)
      modifies this`rows
      ensures rows == Revoked(old(rows), which)
    {
      var todo := set t | t in rows && t in which && !rows[t].revoked;
      while todo != {}
        invariant rows.Keys == old(rows).Keys
        invariant forall t <- rows :: t !in todo ==> rows[t] == Revoked(old(rows), which)[t]
        invariant forall t <- todo :: t in which && t in rows && rows[t] == old(rows)[t]
        decreases todo
      {
        var t :| t in todo;
        rows := rows[t := rows[t].(revoked := true)];
        todo := todo - {t};
      }
    }

    /** `_issue_tokens` after a login; the family is one never used before. */
    method Login(id: UserId, pair: Pair, family: FamilyId, now: int) returns (outcome: Outcome)
      requires NewPair(Now(), pair) && FamilyOf(rows, family) == {}
      modifies this
      ensures outcome.Issued? ==> FamilyOf(rows, family) == {pair.refresh} && !rows[pair.refresh].revoked
      ensures if id in old(users) && old(users[id]).isActive
              then outcome == Issued(pair) && Now() == LoggedIn(old(Now()), id, pair, family, now, ttl)
              else outcome == BadAccount && Now() == old(Now())
    {
      if id !in users || !users[id].isActive {
        return BadAccount;
      }
      var user := users[id];
      minted := minted[pair.access := Payload(Access, id, user.orgId, user.tokenVersion, now + ttl.access)];
      minted := minted[pair.refresh := Payload(Refresh, id, user.orgId, user.tokenVersion, now + ttl.refresh)];
      rows := rows[pair.refresh := Row(id, user.orgId, family, now + ttl.refresh, false, None)];
      outcome := Issued(pair);
    }

    /** `refresh`, check by check in the handler's order. */
    method RefreshTokens(token: Token, pair: Pair, now: int) returns (outcome: Outcome)
      requires NewPair(Now(), pair)
      modifies this
      ensures (Now(), outcome) == Refreshed(old(Now()), token, pair, now, ttl)
    {
      if !Decodes(Now(), token, Refresh, now) {
        return BadToken;
      }
      var payload := minted[token];
      var session := RowOf(Now(), token);
      if payload.userId !in users || !users[payload.userId].isActive || users[payload.userId].orgId != payload.orgId {
        if session.Some? {
          RevokeRows(FamilyOf(rows, session.value.family));
        }
        return BadAccount;
      }
      var user := users[payload.userId];
      if user.tokenVersion != payload.version {
        if session.Some? {
          RevokeRows(FamilyOf(rows, session.value.family));
        }
        return Outdated;
      }
      if session.None? {
        return Unknown;
      }
      if session.value.revoked {
        RevokeRows(FamilyOf(rows, session.value.family));
        return Reused;
      }
      if session.value.expires <= now {
        RevokeRows({token});
        return Expired;
      }
      minted := MintPair(minted, payload.userId, user, pair, now, ttl);
      rows := rows[pair.refresh := Row(payload.userId, user.orgId, session.value.family, now + ttl.refresh, false, None)];
      rows := rows[token := rows[token].(revoked := true)];
      rows := rows[token := rows[token].(replacedBy := Some(pair.refresh))];
      assert rows == Rotated(old(Now()), token, payload.userId, user, pair, now, ttl).rows;
      outcome := Issued(pair);
    }

    /** `logout`: this session only. */
    method Logout(token: Token)
      modifies this`rows
      ensures rows == Revoked(old(rows), {token}) && (token in rows ==> rows[token].revoked)
    {
      if token in rows && !rows[token].revoked {
        rows := rows[token := rows[token].(revoked := true)];
      }
    }

    method SignOutEverywhere(id: UserId, deactivate: bool)
      requires id in users
      modifies this
      ensures Now() == SignedOutEverywhere(old(Now()), id, deactivate)
      ensures users == old(users)[id := User(old(users[id]).orgId, old(users[id]).isActive && !deactivate,
                                             old(users[id]).tokenVersion + 1)]
      ensures minted == old(minted) && forall t <- rows :: rows[t].userId == id ==> rows[t].revoked
    {
      var user := users[id];
      if deactivate {
        user := user.(isActive := false);
      }
      users := users[id := user.(tokenVersion := user.tokenVersion + 1)];
      RevokeRows(RowsOf(rows, id));
    }
  }
}
