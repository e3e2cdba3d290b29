/**
 Login sessions and their single-use refresh tokens: creation, redemption with rotation in
 place, and revocation, under a clock that never goes back.
 */
module Sessions {
  import opened Wrappers
  import Runs

  type UserId = nat
  type SessionId = nat
  type Token = nat

  /** SHA3-256 of a token: distinct tokens have distinct digests. */
  datatype Digest = Digest(token: Token)

  datatype Session = Session(user: UserId, refreshTokenHash: Digest, expiresAt: int, revokedAt: Option<int>) {
    predicate IsActive(now: int) { revokedAt == None && expiresAt > now }
  }

  type Table = map<SessionId, Session>

  /** Account standing: present and enabled, or not. Absent means the user row is gone. */
  type Users = map<UserId, bool>

  predicate InGoodStanding(users: Users, user: UserId) {
    user in users && users[user]
  }

  datatype Error = InvalidRefreshToken | AccountDisabled | SessionNotFound

  /** The schema's unique constraint on the refresh-token hash. */
  predicate UniqueHashes(table: Table) {
    forall a <- table, b <- table :: table[a].refreshTokenHash == table[b].refreshTokenHash ==> a == b
  }

  // ---- What each operation does ------------------------------------------------------

  predicate Redeems(table: Table, id: SessionId, token: Token, now: int) {
    id in table && table[id].refreshTokenHash == Digest(token) && table[id].IsActive(now)
  }

  /** Redeeming `token`: its active session gets a new token and expiry, nothing else changes. */
  ghost predicate Refreshes(table: Table, users: Users, token: Token, minted: Token, now: int, ttl: int, table': Table,
                            r: Result<SessionId, Error>)
  {
    if !exists id :: Redeems(table, id, token, now) then r == Err(InvalidRefreshToken) && table' == table
    else
      var id :| Redeems(table, id, token, now);
      if !InGoodStanding(users, table[id].user) then r == Err(AccountDisabled) && table' == table
      else r == Ok(id) && table' == table[id := table[id].(refreshTokenHash := Digest(minted), expiresAt := now + ttl)]
  }

  function RevokeRow(s: Session, now: int): Session {
    if s.revokedAt == None then s.(revokedAt := Some(now)) else s
  }

  function RevokedAllOf(table: Table, user: UserId, now: int): Table {
    map id | id in table :: if table[id].user == user then RevokeRow(table[id], now) else table[id]
  }

  // ---- The services --------------------------------------------------------------

  class SessionRepository {
    var sessions: Table

    constructor ()
      ensures sessions == map[]
    {
      sessions := map[];
    }

    method GetByRefreshTokenHash(hash: Digest) returns (found: Option<SessionId>)
      requires UniqueHashes(sessions)
      ensures found.Some? ==> found.value in sessions && sessions[found.value].refreshTokenHash == hash
      ensures found.None? ==> forall id <- sessions :: sessions[id].refreshTokenHash != hash
    {
      var hits := set id | id in sessions && sessions[id].refreshTokenHash == hash;
      if hits == {} {
        assert forall id <- sessions :: sessions[id].refreshTokenHash == hash ==> id in hits;
        return None;
      }
      var id :| id in hits;
      return Some(id);
    }

    method Revoke(id: SessionId, now: int)
      requires id in sessions
      modifies this
      ensures sessions == old(sessions)[id := RevokeRow(old(sessions)[id], now)]
    {
      if sessions[id].revokedAt == None {
        sessions := sessions[id := sessions[id].(revokedAt := Some(now))];
      }
    }

    method RevokeAllForUser(user: UserId, now: int)
      modifies this
      ensures sessions == RevokedAllOf(old(sessions), user, now)
    {
      var todo := set id | id in sessions && sessions[id].user == user && sessions[id].revokedAt == None;
      while todo != {}
        invariant sessions.Keys == old(sessions).Keys
        invariant todo <= sessions.Keys
        invariant forall id <- todo ::
                    sessions[id] == old(sessions)[id] && sessions[id].user == user && sessions[id].revokedAt == None
        invariant forall id <- sessions :: id !in todo ==>
                    sessions[id] == if old(sessions)[id].user == user then RevokeRow(old(sessions)[id], now)
                    else old(sessions)[id]
      {
        var id :| id in todo;
        sessions := sessions[id := sessions[id].(revokedAt := Some(now))];
        todo := todo - {id};
      }
    }

    method RotateRefreshToken(id: SessionId, newHash: Digest, newExpiresAt: int)
      requires id in sessions
      modifies this
      ensures sessions ==
              old(sessions)[id := old(sessions)[id].(refreshTokenHash := newHash, expiresAt := newExpiresAt)]
    {
      sessions := sessions[id := sessions[id].(refreshTokenHash := newHash)];
      sessions := sessions[id := sessions[id].(expiresAt := newExpiresAt)];
    }
  }

  class AuthService {
    const repo: SessionRepository
    const ttl: int

    constructor (repo: SessionRepository, ttl: int)
      ensures this.repo == repo && this.ttl == ttl
    {
      this.repo := repo;
      this.ttl := ttl;
    }

    method CreateSession(user: UserId, id: SessionId, minted: Token, now: int)
      modifies repo
      ensures repo.sessions == old(repo.sessions)[id := Session(user, Digest(minted), now + ttl, None)]
    {
      repo.sessions := repo.sessions[id := Session(user, Digest(minted), now + ttl, None)];
    }

    method RefreshSession(token: Token, minted: Token, now: int) returns (r: Result<SessionId, Error>)
      requires UniqueHashes(repo.sessions)
      modifies repo
      ensures r.Ok? ==> Redeems(old(repo.sessions), r.value, token, now)
      ensures r.Ok? ==> repo.sessions == old(repo.sessions)[r.value :=
                          old(repo.sessions)[r.value].(refreshTokenHash := Digest(minted), expiresAt := now + ttl)]
      ensures r.Err? ==> r.error == InvalidRefreshToken && repo.sessions == old(repo.sessions)
                         && forall id :: !Redeems(old(repo.sessions), id, token, now)
    {
      var found := repo.GetByRefreshTokenHash(Digest(token));
      if found.None? || !repo.sessions[found.value].IsActive(now) {
        return Err(InvalidRefreshToken);
      }
      repo.RotateRefreshToken(found.value, Digest(minted), now + ttl);
      return Ok(found.value);
    }

    /**
     Redemption rotates first and looks at the account after. For a disabled or missing
     account it then revokes the session and raises; the raise rolls the whole request back.
     */
    method Refresh(users: Users, token: Token, minted: Token, now: int) returns (r: Result<SessionId, Error>)
      requires UniqueHashes(repo.sessions)
      modifies repo
      ensures Refreshes(old(repo.sessions), users, token, minted, now, ttl, repo.sessions, r)
    {
      var before := repo.sessions;
      var redeemed := RefreshSession(token, minted, now);
      if redeemed.Err? {
        return redeemed;
      }
      assert forall id :: Redeems(before, id, token, now) ==> id == redeemed.value;
      var id := redeemed.value;
      if !InGoodStanding(users, repo.sessions[id].user) {
        repo.Revoke(id, now);
        repo.sessions := before;
        return Err(AccountDisabled);
      }
      return Ok(id);
    }

    method RevokeSession(user: UserId, id: SessionId, now: int) returns (r: Result<(), Error>)
      modifies repo
      ensures r.Ok? <==>
              id in old(repo.sessions) && old(repo.sessions)[id].user == user && old(repo.sessions)[id].IsActive(now)
      ensures r.Err? ==> r.error == SessionNotFound
      ensures repo.sessions == if r.Ok? then old(repo.sessions)[id := RevokeRow(old(repo.sessions)[id], now)]
              else old(repo.sessions)
    {
      if id !in repo.sessions || repo.sessions[id].user != user || !repo.sessions[id].IsActive(now) {
        return Err(SessionNotFound);
      }
      repo.Revoke(id, now);
      return Ok(());
    }
  }

  // ---- Runs --------------------------------------------------------------------------

  /**
   `last` is the newest token issued for each session, `issued` every token ever issued,
   `redeemed` the successful redemptions so far, oldest first.
   */
  datatype State = State(table: Table, users: Users, now: int, last: map<SessionId, Token>, issued: set<Token>,
                         redeemed: seq<Token>)

  datatype Op =
    | Wait(time: nat)
    | Login(user: UserId, id: SessionId, minted: Token)
    | Refresh(token: Token, minted: Token)
    | Logout(id: SessionId)
    | RevokeOne(user: UserId, id: SessionId)
    | RevokeAll(user: UserId)
    | SetStanding(user: UserId, enabled: bool)

  /** One service call; tokens and ids drawn at random are new. */
  ghost predicate Step(s: State, op: Op, ttl: int, s': State) {
    match op
    case Wait(time) => s' == s.(now := s.now + time)
    case Login(user, id, minted) =>
      && id !in s.table && minted !in s.issued && InGoodStanding(s.users, user)
      && s' == s.(table := s.table[id := Session(user, Digest(minted), s.now + ttl, None)],
                  last := s.last[id := minted], issued := s.issued + {minted})
    case Refresh(token, minted) =>
      && minted !in s.issued
      && exists r :: Refreshes(s.table, s.users, token, minted, s.now, ttl, s'.table, r)
                     && s' == if r.Ok? then s.(table := s'.table, last := s.last[r.value := minted],
                                               issued := s.issued + {minted}, redeemed := s.redeemed + [token])
                              else s
    case Logout(id) => id in s.table && s' == s.(table := s.table[id := RevokeRow(s.table[id], s.now)])
    case RevokeOne(user, id) =>
      s' == if id in s.table && s.table[id].user == user && s.table[id].IsActive(s.now)
            then s.(table := s.table[id := RevokeRow(s.table[id], s.now)]) else s
    case RevokeAll(user) => s' == s.(table := RevokedAllOf(s.table, user, s.now))
    case SetStanding(user, enabled) => s' == s.(users := s.users[user := enabled])
  }

  ghost predicate IsRun(states: seq<State>, ops: seq<Op>, ttl: int) {
    Runs.IsRun((s, op, s') => Step(s, op, ttl, s'), states, ops)
  }

  predicate Initial(s: State) {
    s.table == map[] && s.last == map[] && s.issued == {} && s.redeemed == []
  }

  /** Each session stores the digest of its last token; no token belongs to two sessions or comes back once redeemed. */
  predicate Inv(s: State) {
    && s.last.Keys == s.table.Keys
    && (forall id <- s.table :: s.table[id].refreshTokenHash == Digest(s.last[id]) && s.last[id] in s.issued)
    && (forall a <- s.table, b <- s.table :: s.last[a] == s.last[b] ==> a == b)
    && (forall i :: 0 <= i < |s.redeemed| ==> s.redeemed[i] in s.issued)
    && (forall i, id <- s.table :: 0 <= i < |s.redeemed| ==> s.redeemed[i] != s.last[id])
    && (forall i, j :: 0 <= i < j < |s.redeemed| ==> s.redeemed[i] != s.redeemed[j])
  }

  lemma RefreshKeepsInv(s: State, op: Op, ttl: int, s': State)
    requires Inv(s) && Step(s, op, ttl, s') && op.Refresh?
    ensures Inv(s')
  {
  }

  lemma {:induction false} StepKeepsInv(s: State, op: Op, ttl: int, s': State)
    requires Inv(s) && Step(s, op, ttl, s')
    ensures Inv(s')
  {
    if op.Refresh? {
      RefreshKeepsInv(s, op, ttl, s');
    }
  }

  lemma RunKeepsInv(states: seq<State>, ops: seq<Op>, ttl: int, n: nat)
    requires IsRun(states, ops, ttl) && Initial(states[0]) && n < |states|
    ensures Inv(states[n])
  {
    forall s, op, s' | Inv(s) && Step(s, op, ttl, s') ensures Inv(s') {
      StepKeepsInv(s, op, ttl, s');
    }
    Runs.Invariant((s, op, s') => Step(s, op, ttl, s'), Inv, states, ops, 0, n);
  }

  /** The unique constraint the repository relies on is one every run keeps. */
  lemma HashesStayUnique(states: seq<State>, ops: seq<Op>, ttl: int, n: nat)
    requires IsRun(states, ops, ttl) && Initial(states[0]) && n < |states|
    ensures UniqueHashes(states[n].table)
  {
    RunKeepsInv(states, ops, ttl, n);
  }

  /** Each refresh token ever issued redeems successfully at most once. */
  lemma TokensRedeemOnce(states: seq<State>, ops: seq<Op>, ttl: int, n: nat, i: nat, j: nat)
    requires IsRun(states, ops, ttl) && Initial(states[0]) && n < |states|
    requires i < |states[n].redeemed| && j < |states[n].redeemed| && states[n].redeemed[i] == states[n].redeemed[j]
    ensures i == j
  {
    RunKeepsInv(states, ops, ttl, n);
  }

  /** The only token that redeems an active session is the last one issued for it. */
  lemma OnlyLastTokenRedeems(states: seq<State>, ops: seq<Op>, ttl: int, n: nat, id: SessionId, token: Token)
    requires IsRun(states, ops, ttl) && Initial(states[0]) && n < |states| && id in states[n].table
    ensures id in states[n].last
    ensures Redeems(states[n].table, id, token, states[n].now) <==>
            token == states[n].last[id] && states[n].table[id].IsActive(states[n].now)
  {
    RunKeepsInv(states, ops, ttl, n);
  }

  predicate Dead(s: State, id: SessionId) {
    id in s.table && !s.table[id].IsActive(s.now)
  }

  lemma DeadStep(s: State, op: Op, ttl: int, s': State, id: SessionId)
    requires Inv(s) && Step(s, op, ttl, s') && Dead(s, id)
    ensures Dead(s', id)
  {
  }

  /** A revoked or expired session never becomes active again. */
  lemma {:induction false} DeadStaysDead(states: seq<State>, ops: seq<Op>, ttl: int, from: nat, to: nat, id: SessionId)
    requires IsRun(states, ops, ttl) && Initial(states[0]) && from <= to < |states| && Dead(states[from], id)
    ensures Dead(states[to], id)
  {
    if from < to {
      DeadStaysDead(states, ops, ttl, from, to - 1, id);
      RunKeepsInv(states, ops, ttl, to - 1);
      assert Step(states[to - 1], ops[to - 1], ttl, states[to]);
      DeadStep(states[to - 1], ops[to - 1], ttl, states[to], id);
    }
  }

  // ---- What the history of calls says -------------------------------------------------

  /** A session's current token as the history of calls has it. */
  datatype Grant = Grant(user: UserId, token: Token, expiresAt: int)

  /**
   Independent reference, read off the calls alone: a login grants its token; redeeming that token
   in time on an account in good standing replaces it; revoking the session, one's own session or
   all of the user's takes it away.
   */
  function Granted(states: seq<State>, ops: seq<Op>, ttl: int, n: nat, id: SessionId): Option<Grant>
    requires n <= |ops| && |states| == |ops| + 1
  {
    if n == 0 then None
    else GrantAfter(Granted(states, ops, ttl, n - 1, id), id, ops[n - 1], states[n - 1].now, states[n - 1].users, ttl)
  }

  function GrantAfter(g: Option<Grant>, id: SessionId, op: Op, now: int, users: Users, ttl: int): Option<Grant> {
    match op
    case Login(user, i, minted) => if i == id then Some(Grant(user, minted, now + ttl)) else g
    case Refresh(token, minted) =>
      if && g.Some? && g.value.token == token && now < g.value.expiresAt
         && g.value.user in users && users[g.value.user]
      then Some(Grant(g.value.user, minted, now + ttl)) else g
    case Logout(i) => if i == id then None else g
    case RevokeOne(user, i) => if i == id && g.Some? && g.value.user == user then None else g
    case RevokeAll(user) => if g.Some? && g.value.user == user then None else g
    case _ => g
  }

  /** The row a grant stands for; without one the session is gone for good or never was. */
  predicate RowIs(s: State, id: SessionId, g: Option<Grant>) {
    match g
    case None => id in s.table ==> Dead(s, id)
    case Some(grant) => id in s.table && s.table[id] == Session(grant.user, Digest(grant.token), grant.expiresAt, None)
  }

  lemma {:induction false} RowsFollowHistory(states: seq<State>, ops: seq<Op>, ttl: int, n: nat, id: SessionId)
    requires IsRun(states, ops, ttl) && Initial(states[0]) && n < |states|
    ensures RowIs(states[n], id, Granted(states, ops, ttl, n, id))
  {
    if n > 0 {
      RowsFollowHistory(states, ops, ttl, n - 1, id);
      RunKeepsInv(states, ops, ttl, n - 1);
      assert Step(states[n - 1], ops[n - 1], ttl, states[n]);
      RowFollowsStep(states[n - 1], ops[n - 1], ttl, states[n], id, Granted(states, ops, ttl, n - 1, id));
    }
  }

  lemma RowFollowsRefresh(s: State, op: Op, ttl: int, s': State, id: SessionId, g: Option<Grant>)
    requires Inv(s) && Step(s, op, ttl, s') && RowIs(s, id, g) && op.Refresh?
    ensures RowIs(s', id, GrantAfter(g, id, op, s.now, s.users, ttl))
  {
    assert forall other :: Redeems(s.table, other, op.token, s.now) ==> s.last[other] == op.token;
    if g.Some? && g.value.token == op.token && s.now < g.value.expiresAt {
      assert Redeems(s.table, id, op.token, s.now);
    }
  }

  lemma RowFollowsStep(s: State, op: Op, ttl: int, s': State, id: SessionId, g: Option<Grant>)
    requires Inv(s) && Step(s, op, ttl, s') && RowIs(s, id, g)
    ensures RowIs(s', id, GrantAfter(g, id, op, s.now, s.users, ttl))
  {
    if op.Refresh? {
      RowFollowsRefresh(s, op, ttl, s', id, g);
    }
  }

  /**
   In every run a token redeems a session exactly if the history of calls has granted it to that
   session and not taken it away since, and its time has not run out.
   */
  lemma RedeemsAsHistorySays(states: seq<State>, ops: seq<Op>, ttl: int, n: nat, id: SessionId, token: Token)
    requires IsRun(states, ops, ttl) && Initial(states[0]) && n < |states|
    ensures var g := Granted(states, ops, ttl, n, id);
            Redeems(states[n].table, id, token, states[n].now) <==>
            g.Some? && g.value.token == token && states[n].now < g.value.expiresAt
  {
    RowsFollowHistory(states, ops, ttl, n, id);
  }

  /** Logging out of a session, revoking one's own, or revoking all of its user's. */
  predicate Revokes(s: State, op: Op, id: SessionId) {
    && id in s.table
    && (op == Logout(id) || op == RevokeOne(s.table[id].user, id) || op == RevokeAll(s.table[id].user))
  }

  lemma RevokingKills(s: State, op: Op, ttl: int, s': State, id: SessionId)
    requires Step(s, op, ttl, s') && Revokes(s, op, id)
    ensures Dead(s', id) && (s.table[id].expiresAt > s.now ==> s'.table[id].revokedAt.Some?)
  {
  }

  /**
   A session that has been revoked, in any of the three ways, is dead, and no token redeems it in
   any continuation.
   */
  lemma RevokedIsDeadForEver(states: seq<State>, ops: seq<Op>, ttl: int, n: nat, m: nat, id: SessionId, token: Token)
    requires IsRun(states, ops, ttl) && Initial(states[0]) && n < m < |states| && Revokes(states[n], ops[n], id)
    ensures Dead(states[n + 1], id) && Dead(states[m], id)
    ensures !Redeems(states[m].table, id, token, states[m].now)
  {
    assert Step(states[n], ops[n], ttl, states[n + 1]);
    RevokingKills(states[n], ops[n], ttl, states[n + 1], id);
    DeadStaysDead(states, ops, ttl, n + 1, m, id);
  }

  /**
   Refreshing on a disabled account is meant to leave the old token dead and the session
   revoked. The refusal rolls both back: the session is untouched, and once the account is
   enabled again the very same token redeems it, if it has not expired meanwhile.
   */
  lemma {:induction false} DisabledRefreshLeavesTokenAlive(
    table: Table, users: Users, id: SessionId, token: Token, minted: Token, now: int, ttl: int, table1: Table,
    r1: Result<SessionId, Error>, users': Users, now': int, table2: Table, r2: Result<SessionId, Error>)
    requires UniqueHashes(table) && Redeems(table, id, token, now) && !InGoodStanding(users, table[id].user)
    requires Refreshes(table, users, token, minted, now, ttl, table1, r1)
    requires InGoodStanding(users', table[id].user) && Refreshes(table1, users', token, minted, now', ttl, table2, r2)
    ensures r1 == Err(AccountDisabled) && table1 == table
    ensures r2 == (if table[id].expiresAt > now' then Ok(id) else Err(InvalidRefreshToken))
  {
    assert forall other :: Redeems(table, other, token, now) ==> other == id;
    if table[id].expiresAt > now' {
      assert Redeems(table1, id, token, now');
    }
    assert forall other :: Redeems(table1, other, token, now') ==> other == id;
  }
}
