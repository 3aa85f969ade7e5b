/**
 * Refresh requests interleaved: each takes the row lock, reads the account and commits in separate
 * steps, among logins, revocations of any rows that are not locked, and version bumps.
 */
module SessionRuns {
  import opened Results
  import opened Sessions

  type TxnId = nat

  /** A refresh in flight: it holds the lock of `token`'s row and remembers what it read. */
  datatype Txn = Txn(token: Token, payload: Payload, row: Row, user: Option<Option<User>>)

  datatype Exchange = Exchange(spent: Token, issued: Token)

  datatype State = State(
    auth: Auth,
    txns: map<TxnId, Txn>,
    exchanges: seq<Exchange>,             // every refresh token ever exchanged, in commit order
    chains: map<FamilyId, seq<Token>>     // per family, its tokens in the order they were minted
  )

  const Start := State(Auth(map[], map[], map[]), map[], [], map[])

  datatype Action =
    | AddUser(id: UserId, orgId: OrgId)
    | Login(user: UserId, pair: Pair, family: FamilyId, now: int)
    | Begin(txn: TxnId, token: Token, now: int)
    | ReadUser(txn: TxnId)
    | Finish(txn: TxnId, pair: Pair, now: int)
    | Revoke(tokens: set<Token>)          // logout, reuse, password change or deactivation, row by row
    | Bump(user: UserId, deactivate: bool)

  predicate Locked(s: State, token: Token) {
    exists x <- s.txns :: s.txns[x].token == token
  }

  /** The row lock: SELECT ... FOR UPDATE waits while another transaction holds the row. */
  function BeginStep(s: State, txn: TxnId, token: Token, now: int): State {
    if txn in s.txns || !Decodes(s.auth, token, Refresh, now) || token !in s.auth.rows || Locked(s, token) then s else
    s.(txns := s.txns[txn := Txn(token, s.auth.minted[token], s.auth.rows[token], None)])
  }

  function ReadUserStep(s: State, txn: TxnId): State {
    if txn !in s.txns || s.txns[txn].user.Some? then s else
    var t := s.txns[txn];
    s.(txns := s.txns[txn := t.(user := Some(Lookup(s.auth, t.payload.userId)))])
  }

  function ChainOf(s: State, family: FamilyId): seq<Token> {
    if family in s.chains then s.chains[family] else []
  }

  /** The commit: rotate, write off an expired row, or revoke what can be written of a refused token's family. */
  function CommitStep(s: State, t: Txn, pair: Pair, now: int, ttl: Lifetimes): State
    requires t.user.Some?
  {
    match Verdict(t.payload, t.user.value, Some(t.row), pair, now)
    case Expired => s.(auth := s.auth.(rows := Revoked(s.auth.rows, {t.token})))
    case Issued(_) =>
      if t.token !in s.auth.rows then s else
      s.(auth := Rotated(s.auth, t.token, t.payload.userId, t.user.value.value, pair, now, ttl),
         exchanges := s.exchanges + [Exchange(t.token, pair.refresh)],
         chains := s.chains[t.row.family := ChainOf(s, t.row.family) + [pair.refresh]])
    case _ => RevokeStep(s, FamilyOf(s.auth.rows, t.row.family))
  }

  function FinishStep(s: State, txn: TxnId, pair: Pair, now: int, ttl: Lifetimes): State {
    if txn !in s.txns || s.txns[txn].user.None? || !NewPair(s.auth, pair) then s else
    CommitStep(s.(txns := s.txns - {txn}), s.txns[txn], pair, now, ttl)
  }

  function LoginStep(s: State, user: UserId, pair: Pair, family: FamilyId, now: int, ttl: Lifetimes): State {
    if user !in s.auth.users || !s.auth.users[user].isActive || !NewPair(s.auth, pair) || family in s.chains then s else
    s.(auth := LoggedIn(s.auth, user, pair, family, now, ttl), chains := s.chains[family := [pair.refresh]])
  }

  /** A write to a locked row waits; the others take effect. */
  function RevokeStep(s: State, tokens: set<Token>): State {
    s.(auth := s.auth.(rows := Revoked(s.auth.rows, set t <- tokens | !Locked(s, t))))
  }

  function Apply(s: State, a: Action, ttl: Lifetimes): State {
    match a
    case AddUser(id, orgId) =>
      if id in s.auth.users then s else s.(auth := s.auth.(users := s.auth.users[id := User(orgId, true, 0)]))
    case Login(user, pair, family, now) => LoginStep(s, user, pair, family, now, ttl)
    case Begin(txn, token, now) => BeginStep(s, txn, token, now)
    case ReadUser(txn) => ReadUserStep(s, txn)
    case Finish(txn, pair, now) => FinishStep(s, txn, pair, now, ttl)
    case Revoke(tokens) => RevokeStep(s, tokens)
    case Bump(user, deactivate) => if user in s.auth.users then s.(auth := Bumped(s.auth, user, deactivate)) else s
  }

  /** The tokens of `family` form one chain: distinct, all of them, linked in order, spent ones revoked. */
  predicate IsChain(rows: map<Token, Row>, family: FamilyId, c: seq<Token>) {
    && |c| >= 1
    && (forall i, j :: 0 <= i < j < |c| ==> c[i] != c[j])
    && (forall t <- c :: t in rows && rows[t].family == family)
    && (forall i :: 0 <= i < |c| - 1 ==> rows[c[i]].revoked && rows[c[i]].replacedBy == Some(c[i + 1]))
    && rows[c[|c| - 1]].replacedBy == None
  }

  predicate AllChains(rows: map<Token, Row>, chains: map<FamilyId, seq<Token>>) {
    forall f <- chains :: IsChain(rows, f, chains[f])
  }

  predicate AllCovered(rows: map<Token, Row>, chains: map<FamilyId, seq<Token>>) {
    forall t <- rows :: rows[t].family in chains && t in chains[rows[t].family]
  }

  predicate ChainsCover(rows: map<Token, Row>, chains: map<FamilyId, seq<Token>>) {
    AllChains(rows, chains) && AllCovered(rows, chains)
  }

  /** One lock per row, and a locked row is still what its holder read. */
  predicate LocksHold(rows: map<Token, Row>, txns: map<TxnId, Txn>) {
    && (forall x <- txns :: txns[x].token in rows && rows[txns[x].token] == txns[x].row)
    && (forall x <- txns, y <- txns :: txns[x].token == txns[y].token ==> x == y)
  }

  /** A payload names a known user and is no newer than the account. */
  predicate NotNewer(users: map<UserId, User>, id: UserId, version: nat) {
    id in users && version <= users[id].tokenVersion
  }

  predicate TokensKnown(s: Auth) {
    && (forall t <- s.rows :: t in s.minted && s.minted[t].kind == Refresh)
    && (forall t <- s.minted :: NotNewer(s.users, s.minted[t].userId, s.minted[t].version))
  }

  /** What a transaction holds of its token is true, and what it read of the account is no newer than the account. */
  predicate ReadsHold(users: map<UserId, User>, minted: map<Token, Payload>, txns: map<TxnId, Txn>) {
    forall x <- txns ::
      && txns[x].token in minted && txns[x].payload == minted[txns[x].token]
      && (txns[x].user.Some? && txns[x].user.value.Some? ==>
            NotNewer(users, txns[x].payload.userId, txns[x].user.value.value.tokenVersion))
  }

  /** The log of exchanges is made of links, each token spent once. */
  predicate ExchangesLogged(rows: map<Token, Row>, log: seq<Exchange>) {
    && (forall i :: 0 <= i < |log| ==> log[i].spent in rows && rows[log[i].spent].replacedBy == Some(log[i].issued))
    && (forall i, j :: 0 <= i < j < |log| ==> log[i].spent != log[j].spent)
  }

  predicate Inv(s: State) {
    && ChainsCover(s.auth.rows, s.chains) && ExchangesLogged(s.auth.rows, s.exchanges)
    && LocksHold(s.auth.rows, s.txns) && TokensKnown(s.auth) && ReadsHold(s.auth.users, s.auth.minted, s.txns)
  }

  /** Rows keep their family and their link, and no revocation is undone. */
  predicate LinksKept(rows: map<Token, Row>, rows': map<Token, Row>, t: Token) {
    t in rows && t in rows' && rows'[t].family == rows[t].family && rows'[t].replacedBy == rows[t].replacedBy
    && (rows[t].revoked ==> rows'[t].revoked)
  }

  lemma ChainSurvives(rows: map<Token, Row>, rows': map<Token, Row>, family: FamilyId, c: seq<Token>)
    requires IsChain(rows, family, c) && forall t <- c :: LinksKept(rows, rows', t)
    ensures IsChain(rows', family, c)
  {
    assert forall i :: 0 <= i < |c| ==> LinksKept(rows, rows', c[i]);
  }

  lemma RevokedKeepsChain(rows: map<Token, Row>, which: set<Token>, f: FamilyId, c: seq<Token>)
    requires IsChain(rows, f, c)
    ensures IsChain(Revoked(rows, which), f, c)
  {
    assert forall t <- c :: LinksKept(rows, Revoked(rows, which), t);
    ChainSurvives(rows, Revoked(rows, which), f, c);
  }

  lemma RevokedKeepsChains(rows: map<Token, Row>, which: set<Token>, chains: map<FamilyId, seq<Token>>)
    requires ChainsCover(rows, chains)
    ensures ChainsCover(Revoked(rows, which), chains)
  {
    forall f <- chains ensures IsChain(Revoked(rows, which), f, chains[f]) {
      RevokedKeepsChain(rows, which, f, chains[f]);
    }
  }

  lemma RevokedKeepsLocks(s: State, which: set<Token>)
    requires LocksHold(s.auth.rows, s.txns) && forall t <- which :: !Locked(s, t)
    ensures LocksHold(Revoked(s.auth.rows, which), s.txns)
  {
    forall x <- s.txns ensures s.txns[x].token !in which {
      assert Locked(s, s.txns[x].token);
    }
  }

  lemma RevokeKeepsInv(s: State, which: set<Token>)
    requires Inv(s) && forall t <- which :: !Locked(s, t)
    ensures Inv(s.(auth := s.auth.(rows := Revoked(s.auth.rows, which))))
  {
    RevokedKeepsChains(s.auth.rows, which, s.chains);
    RevokedKeepsLocks(s, which);
  }

  lemma RevokeStepKeepsInv(s: State, tokens: set<Token>)
    requires Inv(s)
    ensures Inv(RevokeStep(s, tokens))
  {
    RevokeKeepsInv(s, set t <- tokens | !Locked(s, t));
  }

  /** Steps that only touch the transactions owe nothing about rows, log or tokens. */
  lemma OnlyTxnsChange(s: State, txns: map<TxnId, Txn>)
    requires Inv(s) && LocksHold(s.auth.rows, txns) && ReadsHold(s.auth.users, s.auth.minted, txns)
    ensures Inv(s.(txns := txns))
  {
  }

  lemma LockOneMore(rows: map<Token, Row>, txns: map<TxnId, Txn>, txn: TxnId, t: Txn)
    requires LocksHold(rows, txns) && t.token in rows && rows[t.token] == t.row
    requires forall x <- txns :: txns[x].token != t.token
    ensures LocksHold(rows, txns[txn := t])
  {
  }

  lemma BeginKeepsInv(s: State, txn: TxnId, token: Token, now: int)
    requires Inv(s)
    ensures Inv(BeginStep(s, txn, token, now))
  {
    if BeginStep(s, txn, token, now) != s {
      var t := Txn(token, s.auth.minted[token], s.auth.rows[token], None);
      assert forall x <- s.txns :: s.txns[x].token != token;
      LockOneMore(s.auth.rows, s.txns, txn, t);
      OnlyTxnsChange(s, s.txns[txn := t]);
    }
  }

  lemma ReadOneMore(users: map<UserId, User>, minted: map<Token, Payload>, txns: map<TxnId, Txn>, txn: TxnId, user: Option<User>)
    requires ReadsHold(users, minted, txns) && txn in txns
    requires user.Some? ==> NotNewer(users, txns[txn].payload.userId, user.value.tokenVersion)
    ensures ReadsHold(users, minted, txns[txn := txns[txn].(user := Some(user))])
  {
  }

  lemma ReadUserKeepsReads(s: State, txn: TxnId)
    requires TokensKnown(s.auth) && ReadsHold(s.auth.users, s.auth.minted, s.txns)
    ensures ReadsHold(s.auth.users, s.auth.minted, ReadUserStep(s, txn).txns)
  {
    if txn in s.txns && s.txns[txn].user.None? {
      var t := s.txns[txn];
      assert NotNewer(s.auth.users, t.payload.userId, t.payload.version);
      ReadOneMore(s.auth.users, s.auth.minted, s.txns, txn, Lookup(s.auth, t.payload.userId));
    }
  }

  lemma ReadKeepsLocks(rows: map<Token, Row>, txns: map<TxnId, Txn>, txn: TxnId, user: Option<Option<User>>)
    requires LocksHold(rows, txns) && txn in txns
    ensures LocksHold(rows, txns[txn := txns[txn].(user := user)])
  {
  }

  lemma ReadUserKeepsInv(s: State, txn: TxnId)
    requires Inv(s)
    ensures Inv(ReadUserStep(s, txn))
  {
    ReadUserKeepsReads(s, txn);
    if txn in s.txns && s.txns[txn].user.None? {
      var t := s.txns[txn].(user := Some(Lookup(s.auth, s.txns[txn].payload.userId)));
      ReadKeepsLocks(s.auth.rows, s.txns, txn, t.user);
      OnlyTxnsChange(s, s.txns[txn := t]);
    }
  }

  /** A row with a new token in a new family. */
  lemma FreshRowKeepsChains(rows: map<Token, Row>, chains: map<FamilyId, seq<Token>>, token: Token, row: Row)
    requires ChainsCover(rows, chains) && token !in rows && row.family !in chains && row.replacedBy == None
    ensures ChainsCover(rows[token := row], chains[row.family := [token]])
  {
    var rows' := rows[token := row];
    forall f <- chains ensures IsChain(rows', f, chains[f]) {
      assert IsChain(rows, f, chains[f]);
      assert forall t <- chains[f] :: LinksKept(rows, rows', t);
      ChainSurvives(rows, rows', f, chains[f]);
    }
    assert IsChain(rows', row.family, [token]);
  }

  lemma MintKeepsTokens(s: Auth, id: UserId, user: User, p: Pair, row: Row, now: int, ttl: Lifetimes)
    requires TokensKnown(s) && NewPair(s, p) && NotNewer(s.users, id, user.tokenVersion)
    ensures TokensKnown(s.(minted := MintPair(s.minted, id, user, p, now, ttl), rows := s.rows[p.refresh := row]))
  {
  }

  lemma MintKeepsReads(s: Auth, txns: map<TxnId, Txn>, id: UserId, user: User, p: Pair, now: int, ttl: Lifetimes)
    requires NewPair(s, p) && ReadsHold(s.users, s.minted, txns)
    ensures ReadsHold(s.users, MintPair(s.minted, id, user, p, now, ttl), txns)
  {
  }

  lemma InsertKeepsLogAndLocks(rows: map<Token, Row>, token: Token, row: Row, log: seq<Exchange>, txns: map<TxnId, Txn>)
    requires token !in rows && ExchangesLogged(rows, log) && LocksHold(rows, txns)
    ensures ExchangesLogged(rows[token := row], log) && LocksHold(rows[token := row], txns)
  {
  }

  lemma LoginKeepsInv(s: State, user: UserId, pair: Pair, family: FamilyId, now: int, ttl: Lifetimes)
    requires Inv(s) && user in s.auth.users && NewPair(s.auth, pair) && family !in s.chains
    ensures Inv(s.(auth := LoggedIn(s.auth, user, pair, family, now, ttl), chains := s.chains[family := [pair.refresh]]))
  {
    var u := s.auth.users[user];
    var row := Row(user, u.orgId, family, now + ttl.refresh, false, None);
    FreshRowKeepsChains(s.auth.rows, s.chains, pair.refresh, row);
    InsertKeepsLogAndLocks(s.auth.rows, pair.refresh, row, s.exchanges, s.txns);
    MintKeepsTokens(s.auth, user, u, pair, row, now, ttl);
    MintKeepsReads(s.auth, s.txns, user, u, pair, now, ttl);
    var auth := LoggedIn(s.auth, user, pair, family, now, ttl);
    assert auth.rows == s.auth.rows[pair.refresh := row] && auth.users == s.auth.users;
  }

  lemma BumpKeepsInv(s: State, user: UserId, deactivate: bool)
    requires Inv(s) && user in s.auth.users
    ensures Inv(s.(auth := Bumped(s.auth, user, deactivate)))
  {
    var users := Bumped(s.auth, user, deactivate).users;
    OlderUsersKeep(s.auth, users, s.txns);
    OnlyUsersChange(s, users);
  }

  /** Accounts stay known and versions only rise. */
  lemma OlderUsersKeep(s: Auth, users: map<UserId, User>, txns: map<TxnId, Txn>)
    requires TokensKnown(s) && ReadsHold(s.users, s.minted, txns)
    requires forall id <- s.users :: NotNewer(users, id, s.users[id].tokenVersion)
    ensures TokensKnown(s.(users := users)) && ReadsHold(users, s.minted, txns)
  {
  }

  lemma OnlyUsersChange(s: State, users: map<UserId, User>)
    requires Inv(s) && TokensKnown(s.auth.(users := users)) && ReadsHold(users, s.auth.minted, s.txns)
    ensures Inv(s.(auth := s.auth.(users := users)))
  {
  }

  /** The table after linking `token` to its successor. */
  predicate LinkedTo(rows: map<Token, Row>, rows': map<Token, Row>, token: Token, next: Token) {
    && token in rows && next !in rows && rows'.Keys == rows.Keys + {next}
    && (forall t <- rows :: t != token ==> rows'[t] == rows[t])
    && rows'[token] == rows[token].(revoked := true, replacedBy := Some(next))
    && rows'[next].family == rows[token].family && rows'[next].replacedBy == None
  }

  lemma RotatedIsLinked(s: Auth, token: Token, id: UserId, user: User, p: Pair, now: int, ttl: Lifetimes)
    requires NewPair(s, p) && token in s.rows
    ensures LinkedTo(s.rows, Rotated(s, token, id, user, p, now, ttl).rows, token, p.refresh)
  {
  }

  lemma OtherChainsSurvive(rows: map<Token, Row>, rows': map<Token, Row>, token: Token, next: Token, f: FamilyId, c: seq<Token>)
    requires LinkedTo(rows, rows', token, next) && IsChain(rows, f, c) && f != rows[token].family
    ensures IsChain(rows', f, c)
  {
    assert forall t <- c :: t != token;
    assert forall t <- c :: LinksKept(rows, rows', t);
    ChainSurvives(rows, rows', f, c);
  }

  /** An unrevoked row is the last of its chain; rotating it appends its successor. */
  lemma OwnChainGrows(rows: map<Token, Row>, rows': map<Token, Row>, token: Token, next: Token, c: seq<Token>)
    requires LinkedTo(rows, rows', token, next) && IsChain(rows, rows[token].family, c)
    requires token in c && !rows[token].revoked
    ensures IsChain(rows', rows[token].family, c + [next])
  {
    var k :| 0 <= k < |c| && c[k] == token;
    assert k == |c| - 1;
    forall i | 0 <= i < |c| - 1 ensures LinksKept(rows, rows', c[i]) {
      assert c[i] != token && c[i] in c;
    }
    ChainGrows(rows, rows', rows[token].family, c, next);
  }

  lemma LinkKeepsChains(rows: map<Token, Row>, rows': map<Token, Row>, chains: map<FamilyId, seq<Token>>, token: Token, next: Token)
    requires AllChains(rows, chains) && LinkedTo(rows, rows', token, next) && !rows[token].revoked
    requires rows[token].family in chains && token in chains[rows[token].family]
    ensures var f := rows[token].family;
            AllChains(rows', chains[f := chains[f] + [next]])
  {
    var family := rows[token].family;
    OwnChainGrows(rows, rows', token, next, chains[family]);
    forall f <- chains | f != family ensures IsChain(rows', f, chains[f]) {
      OtherChainsSurvive(rows, rows', token, next, f, chains[f]);
    }
  }

  lemma LinkKeepsCover(rows: map<Token, Row>, rows': map<Token, Row>, chains: map<FamilyId, seq<Token>>, token: Token, next: Token)
    requires LinkedTo(rows, rows', token, next) && AllCovered(rows, chains)
    ensures AllCovered(rows', chains[rows[token].family := chains[rows[token].family] + [next]])
  {
    forall t <- rows' ensures t == next || (t in rows && rows'[t].family == rows[t].family) {
      assert t in rows.Keys + {next};
    }
  }

  lemma LinkKeepsLog(rows: map<Token, Row>, rows': map<Token, Row>, log: seq<Exchange>, token: Token, next: Token)
    requires ExchangesLogged(rows, log) && LinkedTo(rows, rows', token, next) && rows[token].replacedBy == None
    ensures ExchangesLogged(rows', log + [Exchange(token, next)])
  {
    forall i | 0 <= i < |log| ensures log[i].spent != token {
      assert rows[log[i].spent].replacedBy == Some(log[i].issued);
    }
  }

  lemma LinkKeepsLocks(rows: map<Token, Row>, rows': map<Token, Row>, txns: map<TxnId, Txn>, token: Token, next: Token)
    requires LocksHold(rows, txns) && LinkedTo(rows, rows', token, next) && forall x <- txns :: txns[x].token != token
    ensures LocksHold(rows', txns)
  {
  }

  lemma UnrevokedIsUnlinked(rows: map<Token, Row>, chains: map<FamilyId, seq<Token>>, token: Token)
    requires ChainsCover(rows, chains) && token in rows && !rows[token].revoked
    ensures rows[token].replacedBy == None
  {
    var c := chains[rows[token].family];
    var k :| 0 <= k < |c| && c[k] == token;
    assert IsChain(rows, rows[token].family, c);
  }

  lemma ChainGrows(rows: map<Token, Row>, rows': map<Token, Row>, family: FamilyId, c: seq<Token>, next: Token)
    requires IsChain(rows, family, c) && next !in rows
    requires next in rows' && rows'[next].family == family && rows'[next].replacedBy == None
    requires forall i :: 0 <= i < |c| - 1 ==> LinksKept(rows, rows', c[i])
    requires var last := c[|c| - 1];
             last in rows' && rows'[last].family == family && rows'[last].revoked && rows'[last].replacedBy == Some(next)
    ensures IsChain(rows', family, c + [next])
  {
    var d := c + [next];
    forall i | 0 <= i < |c| ensures d[i] in rows' && d[i] in rows && rows'[d[i]].family == family {
      assert c[i] in c;
    }
  }

  lemma RotationKeepsInv(s: State, token: Token, id: UserId, user: User, pair: Pair, now: int, ttl: Lifetimes)
    requires Inv(s) && NewPair(s.auth, pair) && !Locked(s, token)
    requires token in s.auth.rows && !s.auth.rows[token].revoked && NotNewer(s.auth.users, id, user.tokenVersion)
    ensures var f := s.auth.rows[token].family;
            f in s.chains &&
            Inv(s.(auth := Rotated(s.auth, token, id, user, pair, now, ttl),
                   exchanges := s.exchanges + [Exchange(token, pair.refresh)],
                   chains := s.chains[f := s.chains[f] + [pair.refresh]]))
  {
    var rows := s.auth.rows;
    var rows' := Rotated(s.auth, token, id, user, pair, now, ttl).rows;
    RotatedIsLinked(s.auth, token, id, user, pair, now, ttl);
    UnrevokedIsUnlinked(rows, s.chains, token);
    LinkKeepsChains(rows, rows', s.chains, token, pair.refresh);
    LinkKeepsCover(rows, rows', s.chains, token, pair.refresh);
    LinkKeepsLog(rows, rows', s.exchanges, token, pair.refresh);
    assert forall x <- s.txns :: s.txns[x].token != token;
    LinkKeepsLocks(rows, rows', s.txns, token, pair.refresh);
    MintKeepsReads(s.auth, s.txns, id, user, pair, now, ttl);
    RotationKeepsTokens(s.auth, token, id, user, pair, now, ttl);
  }

  lemma RotationKeepsTokens(s: Auth, token: Token, id: UserId, user: User, p: Pair, now: int, ttl: Lifetimes)
    requires TokensKnown(s) && NewPair(s, p) && token in s.rows && NotNewer(s.users, id, user.tokenVersion)
    ensures TokensKnown(Rotated(s, token, id, user, p, now, ttl))
  {
  }

  lemma EndKeepsInv(s: State, txn: TxnId) returns (s': State, t: Txn)
    requires Inv(s) && txn in s.txns
    ensures s' == s.(txns := s.txns - {txn}) && t == s.txns[txn]
    ensures Inv(s') && !Locked(s', t.token) && t.token in s.auth.rows && s.auth.rows[t.token] == t.row
    ensures t.user.Some? && t.user.value.Some? ==>
              NotNewer(s.auth.users, t.payload.userId, t.user.value.value.tokenVersion)
  {
    s', t := s.(txns := s.txns - {txn}), s.txns[txn];
    EndKeepsLocks(s.auth.rows, s.txns, txn);
    OnlyTxnsChange(s, s.txns - {txn});
  }

  lemma EndKeepsLocks(rows: map<Token, Row>, txns: map<TxnId, Txn>, txn: TxnId)
    requires LocksHold(rows, txns) && txn in txns
    ensures LocksHold(rows, txns - {txn}) && forall x <- txns - {txn} :: txns[x].token != txns[txn].token
  {
  }

  /** The three things a commit can do. */
  lemma CommitByVerdict(s: State, t: Txn, pair: Pair, now: int, ttl: Lifetimes)
    requires t.user.Some? && t.token in s.auth.rows
    ensures var outcome := Verdict(t.payload, t.user.value, Some(t.row), pair, now);
            CommitStep(s, t, pair, now, ttl) ==
            if outcome.Expired? then s.(auth := s.auth.(rows := Revoked(s.auth.rows, {t.token})))
            else if outcome.Issued? then
              s.(auth := Rotated(s.auth, t.token, t.payload.userId, t.user.value.value, pair, now, ttl),
                 exchanges := s.exchanges + [Exchange(t.token, pair.refresh)],
                 chains := s.chains[t.row.family := ChainOf(s, t.row.family) + [pair.refresh]])
            else RevokeStep(s, FamilyOf(s.auth.rows, t.row.family))
  {
  }

  lemma CommitKeepsInv(s: State, t: Txn, pair: Pair, now: int, ttl: Lifetimes)
    requires Inv(s) && NewPair(s.auth, pair) && !Locked(s, t.token)
    requires t.user.Some? && t.token in s.auth.rows && s.auth.rows[t.token] == t.row
    requires t.user.value.Some? ==> NotNewer(s.auth.users, t.payload.userId, t.user.value.value.tokenVersion)
    ensures Inv(CommitStep(s, t, pair, now, ttl))
  {
    CommitByVerdict(s, t, pair, now, ttl);
    var outcome := Verdict(t.payload, t.user.value, Some(t.row), pair, now);
    if outcome.Expired? {
      RevokeKeepsInv(s, {t.token});
    } else if outcome.Issued? {
      RotationKeepsInv(s, t.token, t.payload.userId, t.user.value.value, pair, now, ttl);
    } else {
      RevokeStepKeepsInv(s, FamilyOf(s.auth.rows, t.row.family));
    }
  }

  lemma FinishKeepsInv(s: State, txn: TxnId, pair: Pair, now: int, ttl: Lifetimes)
    requires Inv(s)
    ensures Inv(FinishStep(s, txn, pair, now, ttl))
  {
    if txn in s.txns && s.txns[txn].user.Some? && NewPair(s.auth, pair) {
      var s', t := EndKeepsInv(s, txn);
      CommitKeepsInv(s', t, pair, now, ttl);
      assert FinishStep(s, txn, pair, now, ttl) == CommitStep(s', t, pair, now, ttl);
    }
  }

  lemma StepKeepsInv(s: State, a: Action, ttl: Lifetimes)
    requires Inv(s)
    ensures Inv(Apply(s, a, ttl))
  {
    match a {
      case AddUser(id, orgId) => AddUserKeepsInv(s, id, orgId);
      case Login(user, pair, family, now) =>
        if LoginStep(s, user, pair, family, now, ttl) != s {
          LoginKeepsInv(s, user, pair, family, now, ttl);
        }
      case Begin(txn, token, now) => BeginKeepsInv(s, txn, token, now);
      case ReadUser(txn) => ReadUserKeepsInv(s, txn);
      case Finish(txn, pair, now) => FinishKeepsInv(s, txn, pair, now, ttl);
      case Revoke(tokens) => RevokeStepKeepsInv(s, tokens);
      case Bump(user, deactivate) =>
        if user in s.auth.users {
          BumpKeepsInv(s, user, deactivate);
        }
    }
  }

  lemma AddUserKeepsInv(s: State, id: UserId, orgId: OrgId)
    requires Inv(s)
    ensures id !in s.auth.users ==> Inv(s.(auth := s.auth.(users := s.auth.users[id := User(orgId, true, 0)])))
  {
    if id !in s.auth.users {
      var users := s.auth.users[id := User(orgId, true, 0)];
      OlderUsersKeep(s.auth, users, s.txns);
      OnlyUsersChange(s, users);
    }
  }

  function Run(s: State, actions: seq<Action>, ttl: Lifetimes): State
    decreases |actions|
  {
    if actions == [] then s else Run(Apply(s, actions[0], ttl), actions[1..], ttl)
  }

  lemma {:induction false} RunKeepsInv(s: State, actions: seq<Action>, ttl: Lifetimes)
    requires Inv(s)
    ensures Inv(Run(s, actions, ttl))
    decreases |actions|
  {
    if actions != [] {
      StepKeepsInv(s, actions[0], ttl);
      RunKeepsInv(Apply(s, actions[0], ttl), actions[1..], ttl);
    }
  }

  /**
   * The shape of a family: its rows are exactly one chain of distinct tokens linked in order, a linked
   * row is revoked, no two rows share a successor, and at most one row is unrevoked, the last.
   */
  predicate FamilyShape(rows: map<Token, Row>, f: FamilyId, c: seq<Token>) {
    && IsChain(rows, f, c)
    && (forall t <- rows :: rows[t].family == f ==> t in c)
    && (forall t <- c :: rows[t].replacedBy.Some? ==> rows[t].revoked)
    && (forall t <- c, u <- c :: rows[t].replacedBy.Some? && rows[t].replacedBy == rows[u].replacedBy ==> t == u)
    && (forall t <- c :: !rows[t].revoked ==> t == c[|c| - 1])
  }

  lemma ChainGivesShape(rows: map<Token, Row>, f: FamilyId, c: seq<Token>)
    requires IsChain(rows, f, c) && forall t <- rows :: rows[t].family == f ==> t in c
    ensures FamilyShape(rows, f, c)
  {
    forall t <- c, u <- c | rows[t].replacedBy.Some? && rows[t].replacedBy == rows[u].replacedBy ensures t == u {
      var i :| 0 <= i < |c| && c[i] == t;
      var j :| 0 <= j < |c| && c[j] == u;
      assert i < |c| - 1 && j < |c| - 1;
      assert c[i + 1] == c[j + 1];
    }
  }

  lemma FamilyShapeInEveryRun(actions: seq<Action>, ttl: Lifetimes, f: FamilyId)
    requires f in Run(Start, actions, ttl).chains
    ensures var s := Run(Start, actions, ttl);
            FamilyShape(s.auth.rows, f, s.chains[f])
  {
    RunKeepsInv(Start, actions, ttl);
    var s := Run(Start, actions, ttl);
    ChainGivesShape(s.auth.rows, f, s.chains[f]);
  }

  /** Over any run each refresh token is exchanged at most once. */
  lemma ExchangedAtMostOnce(actions: seq<Action>, ttl: Lifetimes, i: nat, j: nat)
    requires i < |Run(Start, actions, ttl).exchanges| && j < |Run(Start, actions, ttl).exchanges|
    requires Run(Start, actions, ttl).exchanges[i].spent == Run(Start, actions, ttl).exchanges[j].spent
    ensures i == j
  {
    RunKeepsInv(Start, actions, ttl);
  }

  /** Family `f` stays dead, and the exchanges a step adds spend tokens of other families. */
  predicate StaysDead(s: State, u: State, f: FamilyId) {
    && f in s.chains && f in u.chains && u.chains[f] == s.chains[f] && FamilyDead(u.auth.rows, f)
    && s.exchanges <= u.exchanges
    && forall i :: |s.exchanges| <= i < |u.exchanges| ==>
         u.exchanges[i].spent in u.auth.rows && u.auth.rows[u.exchanges[i].spent].family != f
  }

  lemma CommitStaysDead(s: State, t: Txn, pair: Pair, now: int, ttl: Lifetimes, f: FamilyId)
    requires f in s.chains && FamilyDead(s.auth.rows, f) && NewPair(s.auth, pair)
    requires t.user.Some? && t.token in s.auth.rows && s.auth.rows[t.token] == t.row
    ensures StaysDead(s, CommitStep(s, t, pair, now, ttl), f)
  {
    if Verdict(t.payload, t.user.value, Some(t.row), pair, now).Issued? {
      assert t.row.family != f;
      RotatedIsLinked(s.auth, t.token, t.payload.userId, t.user.value.value, pair, now, ttl);
      LinkStaysDead(s.auth.rows, CommitStep(s, t, pair, now, ttl).auth.rows, t.token, pair.refresh, f);
    }
  }

  lemma LinkStaysDead(rows: map<Token, Row>, rows': map<Token, Row>, token: Token, next: Token, f: FamilyId)
    requires LinkedTo(rows, rows', token, next) && FamilyDead(rows, f) && rows[token].family != f
    ensures FamilyDead(rows', f)
  {
    forall t <- rows' | rows'[t].family == f ensures rows'[t].revoked {
      assert t in rows.Keys + {next};
    }
  }

  lemma DeadFamilyStaysDead(s: State, a: Action, ttl: Lifetimes, f: FamilyId)
    requires LocksHold(s.auth.rows, s.txns) && f in s.chains && FamilyDead(s.auth.rows, f)
    ensures StaysDead(s, Apply(s, a, ttl), f)
  {
    match a {
      case Finish(txn, pair, now) =>
        if FinishStep(s, txn, pair, now, ttl) != s {
          CommitStaysDead(s.(txns := s.txns - {txn}), s.txns[txn], pair, now, ttl, f);
        }
      case Login(user, pair, family, now) => assert StaysDead(s, LoginStep(s, user, pair, family, now, ttl), f);
      case _ =>
    }
  }

  /** Once every row of a family is revoked, no token of it ever yields a pair again, in any interleaving. */
  lemma {:induction false} DeadFamilyNeverYields(s: State, actions: seq<Action>, ttl: Lifetimes, f: FamilyId)
    requires Inv(s) && f in s.chains && FamilyDead(s.auth.rows, f)
    ensures var u := Run(s, actions, ttl);
            && FamilyDead(u.auth.rows, f) && s.exchanges <= u.exchanges
            && forall i :: |s.exchanges| <= i < |u.exchanges| ==> u.exchanges[i].spent !in s.chains[f]
    decreases |actions|
  {
    if actions != [] {
      var t := Apply(s, actions[0], ttl);
      StepKeepsInv(s, actions[0], ttl);
      DeadFamilyStaysDead(s, actions[0], ttl, f);
      DeadFamilyNeverYields(t, actions[1..], ttl, f);
      assert IsChain(t.auth.rows, f, t.chains[f]);
    }
  }

  /** The tokens whose refresh had already read the account. */
  function Racing(txns: map<TxnId, Txn>): set<Token> {
    set x | x in txns && txns[x].user.Some? :: txns[x].token
  }

  /** The payload was minted for `user` before the version reached `cut`. */
  predicate Outlived(p: Payload, user: UserId, cut: nat) {
    p.userId == user && p.version < cut
  }

  predicate TxnCut(racing: set<Token>, t: Txn, user: UserId, cut: nat) {
    t.user.Some? && t.user.value.Some? && t.payload.userId == user && t.user.value.value.tokenVersion < cut ==>
      t.token in racing
  }

  /** A token outlived by the cut only goes to a racing refresh, whose new token is outlived as well and was not racing. */
  predicate CutExchange(racing: set<Token>, minted: map<Token, Payload>, e: Exchange, user: UserId, cut: nat) {
    && e.spent in minted && e.issued in minted && e.issued !in racing
    && (Outlived(minted[e.spent], user, cut) ==> Outlived(minted[e.issued], user, cut) && e.spent in racing)
  }

  predicate TxnsCut(racing: set<Token>, txns: map<TxnId, Txn>, user: UserId, cut: nat) {
    forall x <- txns :: TxnCut(racing, txns[x], user, cut)
  }

  predicate LogCut(racing: set<Token>, minted: map<Token, Payload>, before: seq<Exchange>, log: seq<Exchange>, user: UserId, cut: nat) {
    before <= log && racing <= minted.Keys && forall i :: |before| <= i < |log| ==> CutExchange(racing, minted, log[i], user, cut)
  }

  /** What holds since the version of `user` reached `cut`, with `racing` in flight and `before` logged at that moment. */
  predicate CutHolds(racing: set<Token>, before: seq<Exchange>, s: State, user: UserId, cut: nat) {
    && user in s.auth.users && cut <= s.auth.users[user].tokenVersion
    && TxnsCut(racing, s.txns, user, cut)
    && LogCut(racing, s.auth.minted, before, s.exchanges, user, cut)
  }

  lemma MintKeepsLogCut(s: Auth, id: UserId, u: User, p: Pair, now: int, ttl: Lifetimes,
                        racing: set<Token>, before: seq<Exchange>, log: seq<Exchange>, user: UserId, cut: nat)
    requires NewPair(s, p) && LogCut(racing, s.minted, before, log, user, cut)
    ensures LogCut(racing, MintPair(s.minted, id, u, p, now, ttl), before, log, user, cut)
  {
    var minted' := MintPair(s.minted, id, u, p, now, ttl);
    forall i | |before| <= i < |log| ensures CutExchange(racing, minted', log[i], user, cut) {
      assert CutExchange(racing, s.minted, log[i], user, cut);
    }
  }

  lemma CutCommit(racing: set<Token>, before: seq<Exchange>, s: State, t: Txn, pair: Pair, now: int, ttl: Lifetimes, user: UserId, cut: nat)
    requires NewPair(s.auth, pair) && t.user.Some? && TxnCut(racing, t, user, cut)
    requires t.token in s.auth.minted && t.payload == s.auth.minted[t.token]
    requires LogCut(racing, s.auth.minted, before, s.exchanges, user, cut)
    ensures var u := CommitStep(s, t, pair, now, ttl);
            LogCut(racing, u.auth.minted, before, u.exchanges, user, cut)
            && u.txns == s.txns && u.auth.users == s.auth.users
  {
    var outcome := Verdict(t.payload, t.user.value, Some(t.row), pair, now);
    if outcome.Issued? && t.token in s.auth.rows {
      var u := t.user.value.value;
      var minted' := MintPair(s.auth.minted, t.payload.userId, u, pair, now, ttl);
      MintKeepsLogCut(s.auth, t.payload.userId, u, pair, now, ttl, racing, before, s.exchanges, user, cut);
      assert CutExchange(racing, minted', Exchange(t.token, pair.refresh), user, cut);
      assert CommitStep(s, t, pair, now, ttl).auth.minted == minted';
    }
  }

  lemma CutFinish(racing: set<Token>, before: seq<Exchange>, s: State, txn: TxnId, pair: Pair, now: int, ttl: Lifetimes, user: UserId, cut: nat)
    requires ReadsHold(s.auth.users, s.auth.minted, s.txns) && CutHolds(racing, before, s, user, cut)
    ensures CutHolds(racing, before, FinishStep(s, txn, pair, now, ttl), user, cut)
  {
    if txn in s.txns && s.txns[txn].user.Some? && NewPair(s.auth, pair) {
      CutCommit(racing, before, s.(txns := s.txns - {txn}), s.txns[txn], pair, now, ttl, user, cut);
    }
  }

  lemma CutReadUser(racing: set<Token>, before: seq<Exchange>, s: State, txn: TxnId, user: UserId, cut: nat)
    requires CutHolds(racing, before, s, user, cut)
    ensures CutHolds(racing, before, ReadUserStep(s, txn), user, cut)
  {
    if txn in s.txns && s.txns[txn].user.None? {
      assert TxnCut(racing, s.txns[txn].(user := Some(Lookup(s.auth, s.txns[txn].payload.userId))), user, cut);
    }
  }

  lemma CutLogin(racing: set<Token>, before: seq<Exchange>, s: State, id: UserId, pair: Pair, family: FamilyId, now: int, ttl: Lifetimes,
                 user: UserId, cut: nat)
    requires CutHolds(racing, before, s, user, cut)
    ensures CutHolds(racing, before, LoginStep(s, id, pair, family, now, ttl), user, cut)
  {
    if LoginStep(s, id, pair, family, now, ttl) != s {
      MintKeepsLogCut(s.auth, id, s.auth.users[id], pair, now, ttl, racing, before, s.exchanges, user, cut);
    }
  }

  lemma CutStep(racing: set<Token>, before: seq<Exchange>, s: State, a: Action, ttl: Lifetimes, user: UserId, cut: nat)
    requires ReadsHold(s.auth.users, s.auth.minted, s.txns) && CutHolds(racing, before, s, user, cut)
    ensures CutHolds(racing, before, Apply(s, a, ttl), user, cut)
  {
    match a {
      case Finish(txn, pair, now) => CutFinish(racing, before, s, txn, pair, now, ttl, user, cut);
      case Login(id, pair, family, now) => CutLogin(racing, before, s, id, pair, family, now, ttl, user, cut);
      case ReadUser(txn) => CutReadUser(racing, before, s, txn, user, cut);
      case _ =>
    }
  }

  lemma {:induction false} CutRun(racing: set<Token>, before: seq<Exchange>, s: State, actions: seq<Action>, ttl: Lifetimes, user: UserId, cut: nat)
    requires Inv(s) && CutHolds(racing, before, s, user, cut)
    ensures Inv(Run(s, actions, ttl)) && CutHolds(racing, before, Run(s, actions, ttl), user, cut)
    decreases |actions|
  {
    if actions != [] {
      StepKeepsInv(s, actions[0], ttl);
      CutStep(racing, before, s, actions[0], ttl, user, cut);
      CutRun(racing, before, Apply(s, actions[0], ttl), actions[1..], ttl, user, cut);
    }
  }

  lemma CutTokensAreRefused(racing: set<Token>, before: seq<Exchange>, u: State, user: UserId, cut: nat)
    requires CutHolds(racing, before, u, user, cut)
    ensures forall t <- u.auth.minted, now: int | Outlived(u.auth.minted[t], user, cut) :: ResolveUser(u.auth, t, now) == None
    ensures forall i, j | |before| <= i < |u.exchanges| && |before| <= j < |u.exchanges| ::
              Outlived(u.auth.minted[u.exchanges[i].spent], user, cut) ==> u.exchanges[j].spent != u.exchanges[i].issued
  {
    forall i, j | |before| <= i < |u.exchanges| && |before| <= j < |u.exchanges|
                  && Outlived(u.auth.minted[u.exchanges[i].spent], user, cut)
      ensures u.exchanges[j].spent != u.exchanges[i].issued
    {
      assert CutExchange(racing, u.auth.minted, u.exchanges[i], user, cut);
      assert CutExchange(racing, u.auth.minted, u.exchanges[j], user, cut);
    }
  }

  lemma MintedBeforeTheCut(s: Auth, user: UserId)
    requires TokensKnown(s) && user in s.users
    ensures forall t <- s.minted | s.minted[t].userId == user :: s.minted[t].version < s.users[user].tokenVersion + 1
  {
    forall t <- s.minted | s.minted[t].userId == user ensures s.minted[t].version < s.users[user].tokenVersion + 1 {
      assert NotNewer(s.users, s.minted[t].userId, s.minted[t].version);
    }
  }

  lemma CutBegins(s: State, user: UserId, deactivate: bool, ttl: Lifetimes)
    requires Inv(s) && user in s.auth.users
    ensures CutHolds(Racing(s.txns), s.exchanges, Apply(s, Bump(user, deactivate), ttl), user, s.auth.users[user].tokenVersion + 1)
  {
    var cut := s.auth.users[user].tokenVersion + 1;
    forall x <- s.txns ensures TxnCut(Racing(s.txns), s.txns[x], user, cut) {
    }
    assert Racing(s.txns) <= s.auth.minted.Keys;
  }

  /**
   * `token_version` cuts every earlier token. After the version of a user is raised, in any run:
   * no access token minted before resolves, and no refresh token minted before is exchanged except
   * by a refresh that had already read the account; what that one mints is cut as well and is never exchanged.
   */
  lemma VersionCutsEarlierTokens(s: State, user: UserId, deactivate: bool, actions: seq<Action>, ttl: Lifetimes)
    requires Inv(s) && user in s.auth.users
    ensures var cut := s.auth.users[user].tokenVersion + 1;
            var u := Run(Apply(s, Bump(user, deactivate), ttl), actions, ttl);
            && (forall t <- s.auth.minted | s.auth.minted[t].userId == user :: s.auth.minted[t].version < cut)
            && (forall t <- u.auth.minted, now: int | Outlived(u.auth.minted[t], user, cut) :: ResolveUser(u.auth, t, now) == None)
            && LogCut(Racing(s.txns), u.auth.minted, s.exchanges, u.exchanges, user, cut)
            && (forall i, j | |s.exchanges| <= i < |u.exchanges| && |s.exchanges| <= j < |u.exchanges| ::
                  Outlived(u.auth.minted[u.exchanges[i].spent], user, cut) ==> u.exchanges[j].spent != u.exchanges[i].issued)
  {
    var cut := s.auth.users[user].tokenVersion + 1;
    var start := Apply(s, Bump(user, deactivate), ttl);
    StepKeepsInv(s, Bump(user, deactivate), ttl);
    CutBegins(s, user, deactivate, ttl);
    CutRun(Racing(s.txns), s.exchanges, start, actions, ttl, user, cut);
    CutTokensAreRefused(Racing(s.txns), s.exchanges, Run(start, actions, ttl), user, cut);
    MintedBeforeTheCut(s.auth, user);
  }

  function ThreeSteps(s: State, txn: TxnId, token: Token, pair: Pair, now: int, ttl: Lifetimes): State {
    FinishStep(ReadUserStep(BeginStep(s, txn, token, now), txn), txn, pair, now, ttl)
  }

  lemma ThreeStepsCommit(s: State, txn: TxnId, token: Token, pair: Pair, now: int, ttl: Lifetimes)
    requires token in s.auth.rows && txn !in s.txns && !Locked(s, token) && NewPair(s.auth, pair)
    requires Decodes(s.auth, token, Refresh, now)
    ensures var p := s.auth.minted[token];
            ThreeSteps(s, txn, token, pair, now, ttl)
              == CommitStep(s, Txn(token, p, s.auth.rows[token], Some(Lookup(s.auth, p.userId))), pair, now, ttl)
  {
    var p := s.auth.minted[token];
    var t := Txn(token, p, s.auth.rows[token], Some(Lookup(s.auth, p.userId)));
    var s2 := ReadUserStep(BeginStep(s, txn, token, now), txn);
    assert s2.txns[txn] == t && s2.txns - {txn} == s.txns;
    assert s2.(txns := s.txns) == s;
  }

  /** The outcomes that revoke the family of the presented token. */
  predicate Refusal(o: Outcome) {
    o.BadAccount? || o.Outdated? || o.Reused?
  }

  /** Rows of the family held by refreshes in flight have nothing left to revoke. */
  predicate HeldRowsRevoked(s: State, f: FamilyId) {
    forall t <- s.auth.rows :: s.auth.rows[t].family == f && Locked(s, t) ==> s.auth.rows[t].revoked
  }

  lemma UnlockedRevocation(s: State, f: FamilyId)
    ensures RevokeStep(s, FamilyOf(s.auth.rows, f)).auth.rows == Revoked(s.auth.rows, FamilyOf(s.auth.rows, f)) <==>
              HeldRowsRevoked(s, f)
  {
    var rows, which := s.auth.rows, FamilyOf(s.auth.rows, f);
    var some, all := RevokeStep(s, which).auth.rows, Revoked(rows, which);
    forall t <- rows ensures some[t] == all[t] <==> (rows[t].family == f && Locked(s, t) ==> rows[t].revoked) {
    }
    if HeldRowsRevoked(s, f) {
      assert forall t <- rows :: some[t] == all[t];
    }
  }

  /**
   * Run without interruption, the three steps alone have the effect of the atomic handler for every outcome,
   * except that a refusal cannot revoke what other refreshes hold: exactly when those rows are already revoked
   * the effects agree.
   */
  lemma InterleavedIsAtomicIff(s: State, txn: TxnId, token: Token, pair: Pair, now: int, ttl: Lifetimes)
    requires token in s.auth.rows && txn !in s.txns && !Locked(s, token) && NewPair(s.auth, pair)
    ensures var (auth, outcome) := Refreshed(s.auth, token, pair, now, ttl);
            ThreeSteps(s, txn, token, pair, now, ttl).auth == auth <==>
              (Refusal(outcome) ==> HeldRowsRevoked(s, s.auth.rows[token].family))
  {
    if Decodes(s.auth, token, Refresh, now) {
      ThreeStepsCommit(s, txn, token, pair, now, ttl);
      UnlockedRevocation(s, s.auth.rows[token].family);
    }
  }

  /** A refresh other than `txn` holds a row of the family that is not revoked. */
  predicate HeldElsewhere(s: State, txn: TxnId, f: FamilyId) {
    exists y <- s.txns :: y != txn && HoldsActive(s.auth.rows, s.txns[y].token, f)
  }

  predicate HoldsActive(rows: map<Token, Row>, token: Token, f: FamilyId) {
    token in rows && rows[token].family == f && !rows[token].revoked
  }

  lemma UnheldFamilyDies(s: State, f: FamilyId)
    ensures FamilyDead(RevokeStep(s, FamilyOf(s.auth.rows, f)).auth.rows, f) <==>
              forall x <- s.txns :: !HoldsActive(s.auth.rows, s.txns[x].token, f)
  {
    var rows := s.auth.rows;
    var rows' := RevokeStep(s, FamilyOf(rows, f)).auth.rows;
    forall x <- s.txns | HoldsActive(rows, s.txns[x].token, f) ensures !FamilyDead(rows', f) {
      var token := s.txns[x].token;
      assert Locked(s, token);
      assert rows'[token].family == f && !rows'[token].revoked;
    }
    if forall x <- s.txns :: !HoldsActive(rows, s.txns[x].token, f) {
      forall t <- rows' | rows'[t].family == f ensures rows'[t].revoked {
        assert t in FamilyOf(rows, f);
      }
    }
  }

  /** An exchanged token stays linked, hence revoked. */
  lemma ExchangedIsRevoked(s: State, i: nat)
    requires Inv(s) && i < |s.exchanges|
    ensures var t := s.exchanges[i].spent;
            t in s.auth.rows && s.auth.rows[t].revoked
  {
    var t := s.exchanges[i].spent;
    if !s.auth.rows[t].revoked {
      UnrevokedIsUnlinked(s.auth.rows, s.chains, t);
    }
  }

  /**
   * A token already exchanged and presented again while the account checks pass mints nothing. It leaves
   * its family dead exactly when no other refresh in flight holds an unrevoked row of it, and then no token
   * of the family is exchanged in any continuation.
   */
  lemma ReplayKillsFamilyIff(s: State, txn: TxnId, i: nat, pair: Pair, now: int, ttl: Lifetimes, actions: seq<Action>)
    requires Inv(s) && i < |s.exchanges| && txn in s.txns && s.txns[txn].token == s.exchanges[i].spent
    requires s.txns[txn].user.Some? && NewPair(s.auth, pair)
    requires var t := s.txns[txn];
             AccountStands(t.user.value, t.payload) && t.user.value.value.tokenVersion == t.payload.version
    ensures var f, u := s.txns[txn].row.family, FinishStep(s, txn, pair, now, ttl);
            && u.exchanges == s.exchanges && u.auth.minted == s.auth.minted
            && (FamilyDead(u.auth.rows, f) <==> !HeldElsewhere(s, txn, f))
            && (FamilyDead(u.auth.rows, f) ==>
                  var v := Run(u, actions, ttl);
                  && f in u.chains && FamilyDead(v.auth.rows, f)
                  && forall k :: |u.exchanges| <= k < |v.exchanges| ==> v.exchanges[k].spent !in u.chains[f])
  {
    ReplayIsRefused(s, txn, i, pair, now, ttl);
    var f, u := s.txns[txn].row.family, FinishStep(s, txn, pair, now, ttl);
    if FamilyDead(u.auth.rows, f) {
      FinishKeepsInv(s, txn, pair, now, ttl);
      DeadFamilyNeverYields(u, actions, ttl, f);
    }
  }

  lemma FinishOfReused(s: State, txn: TxnId, pair: Pair, now: int, ttl: Lifetimes)
    requires txn in s.txns && s.txns[txn].user.Some? && NewPair(s.auth, pair) && s.txns[txn].row.revoked
    requires var t := s.txns[txn];
             AccountStands(t.user.value, t.payload) && t.user.value.value.tokenVersion == t.payload.version
    ensures FinishStep(s, txn, pair, now, ttl)
            == RevokeStep(s.(txns := s.txns - {txn}), FamilyOf(s.auth.rows, s.txns[txn].row.family))
  {
  }

  lemma HeldByOthers(s: State, txn: TxnId, f: FamilyId)
    requires txn in s.txns
    ensures var mid := s.(txns := s.txns - {txn});
            HeldElsewhere(s, txn, f) <==> !forall x <- mid.txns :: !HoldsActive(mid.auth.rows, mid.txns[x].token, f)
  {
    var mid := s.(txns := s.txns - {txn});
    if HeldElsewhere(s, txn, f) {
      var y :| y in s.txns && y != txn && HoldsActive(s.auth.rows, s.txns[y].token, f);
      assert y in mid.txns && mid.txns[y] == s.txns[y];
    }
  }

  lemma RevokedSpendsNothing(s: State, tokens: set<Token>)
    ensures var u := RevokeStep(s, tokens);
            u.exchanges == s.exchanges && u.auth.minted == s.auth.minted && u.chains == s.chains
  {
  }

  lemma ReplayIsRefused(s: State, txn: TxnId, i: nat, pair: Pair, now: int, ttl: Lifetimes)
    requires Inv(s) && i < |s.exchanges| && txn in s.txns && s.txns[txn].token == s.exchanges[i].spent
    requires s.txns[txn].user.Some? && NewPair(s.auth, pair)
    requires var t := s.txns[txn];
             AccountStands(t.user.value, t.payload) && t.user.value.value.tokenVersion == t.payload.version
    ensures var f, u := s.txns[txn].row.family, FinishStep(s, txn, pair, now, ttl);
            && u.exchanges == s.exchanges && u.auth.minted == s.auth.minted && f in u.chains
            && (FamilyDead(u.auth.rows, f) <==> !HeldElsewhere(s, txn, f))
  {
    ExchangedIsRevoked(s, i);
    var f, mid := s.txns[txn].row.family, s.(txns := s.txns - {txn});
    assert s.auth.rows[s.txns[txn].token] == s.txns[txn].row;
    assert f in s.chains;
    FinishOfReused(s, txn, pair, now, ttl);
    RevokedSpendsNothing(mid, FamilyOf(mid.auth.rows, f));
    UnheldFamilyDies(mid, f);
    HeldByOthers(s, txn, f);
  }
}
