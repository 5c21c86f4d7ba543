/**
 Device sessions with rotating refresh tokens, and the service that issues, rotates and
 revokes them.

 Every operation takes the clock readings it used: `at` is the application's, `dbNow` the
 one the database stamps on a new row. Nothing relates the two, so the results hold for
 skewed clocks as well; a row that a CHECK constraint rejects aborts its transaction.
 */
module AuthSessions {
  import opened Primitives
  import opened Transactions
  import opened Wrappers

  type Hash = nat

  datatype UserStatus = Active | Disabled | Pending

  datatype User = User(email: string, passwordHash: Hash, status: UserStatus)

  datatype AuthSession = AuthSession(
    user: Uuid,
    tokenHash: Hash,
    family: Uuid,
    createdAt: Instant,
    lastUsedAt: Instant,
    expiresAt: Instant,
    rotatedAt: Option<Instant>,
    revokedAt: Option<Instant>,
    revokeReason: Option<string>,
    replacedBy: Option<Uuid>)
  {
    /** The table's CHECK constraints for the row stored under `id`. */
    predicate Stored(id: Uuid) {
      && expiresAt > createdAt
      && (rotatedAt.Some? ==> rotatedAt.value >= createdAt)
      && (revokedAt.Some? ==> revokedAt.value >= createdAt)
      && (replacedBy.Some? ==> rotatedAt.Some?)
      && replacedBy != Some(id)
      && (revokeReason.Some? ==> revokedAt.Some?)
    }

    predicate ActiveAt(now: Instant) {
      revokedAt.None? && rotatedAt.None? && expiresAt > now
    }
  }

  type SessionTable = map<Uuid, AuthSession>

  datatype Db = Db(users: map<Uuid, User>, sessions: SessionTable)

  datatype Error =
    | EmailAlreadyRegistered
    | InvalidCredentials
    | AccountNotActive
    | InvalidRefreshToken
    | RefreshTokenExpired
    | SessionRevoked
    | RefreshTokenReuse
    | InvalidAccessToken
    | ConstraintViolation

  /** The random values one issue of credentials draws. */
  datatype Draw = Draw(session: Uuid, tokenHash: Hash, family: Uuid)

  // ---------------------------------------------------------------- specification

  predicate HashUnused(sessions: SessionTable, hash: Hash) {
    forall id :: id in sessions ==> sessions[id].tokenHash != hash
  }

  /** `found` is the row a look-up by token hash returns. */
  predicate Found(sessions: SessionTable, hash: Hash, found: Option<Uuid>) {
    match found
    case Some(id) => id in sessions && sessions[id].tokenHash == hash
    case None => HashUnused(sessions, hash)
  }

  function Issued(user: Uuid, hash: Hash, family: Uuid, at: Instant, ttl: int, dbNow: Instant): AuthSession {
    AuthSession(user, hash, family, dbNow, dbNow, at + ttl, None, None, None, None)
  }

  function RevokedRow(s: AuthSession, at: Instant, reason: string): AuthSession {
    s.(revokedAt := Some(at), revokeReason := Some(reason))
  }

  predicate InFamily(sessions: SessionTable, family: Uuid, id: Uuid) {
    id in sessions && sessions[id].family == family
  }

  /** The rows `revoke_token_family` selects. */
  function Unrevoked(sessions: SessionTable, family: Uuid): set<Uuid> {
    set id | id in sessions && sessions[id].family == family && sessions[id].revokedAt.None?
  }

  function FamilyRevoked(sessions: SessionTable, family: Uuid, at: Instant, reason: string): SessionTable {
    map id | id in sessions ::
      if id in Unrevoked(sessions, family) then RevokedRow(sessions[id], Later(at, sessions[id].createdAt), reason)
      else sessions[id]
  }

  /** The rows `revoke_all_by_user` selects. */
  function ActiveOf(sessions: SessionTable, user: Uuid, now: Instant): set<Uuid> {
    set id | id in sessions && sessions[id].user == user && sessions[id].ActiveAt(now)
  }

  function UserRevoked(sessions: SessionTable, user: Uuid, at: Instant, reason: string): SessionTable {
    map id | id in sessions ::
      if id in ActiveOf(sessions, user, at) then RevokedRow(sessions[id], at, reason) else sessions[id]
  }

  function RotatedRow(s: AuthSession, replacement: Uuid, at: Instant): AuthSession {
    s.(rotatedAt := Some(at), replacedBy := Some(replacement), lastUsedAt := at)
  }

  function WithSessions(db: Db, sessions: SessionTable): Db {
    db.(sessions := sessions)
  }

  predicate UserActive(db: Db, user: Uuid) {
    user in db.users && db.users[user].status.Active?
  }

  function WithUser(db: Db, user: Uuid, email: string, passwordHash: Hash): Db {
    db.(users := db.users[user := User(email, passwordHash, Active)])
  }

  /** The user's password hash brought up to date, when verification asks for it. */
  function Rehashed(db: Db, user: Uuid, rehash: Option<Hash>): Db {
    if rehash.None? || user !in db.users then db
    else db.(users := db.users[user := db.users[user].(passwordHash := rehash.value)])
  }

  /** Issue a session of its own family, as registration and login do. */
  function Open(db: Db, user: Uuid, draw: Draw, at: Instant, ttl: int, dbNow: Instant): (Result<Uuid, Error>, Db) {
    var row := Issued(user, draw.tokenHash, draw.family, at, ttl, dbNow);
    if row.Stored(draw.session) && HashUnused(db.sessions, draw.tokenHash) then
      (Success(draw.session), WithSessions(db, db.sessions[draw.session := row]))
    else
      (Failure(ConstraintViolation), db)
  }

  /** Exchange the refresh token of session `id`. */
  function Refresh(db: Db, id: Uuid, draw: Draw, at: Instant, ttl: int, dbNow: Instant): (Result<Uuid, Error>, Db)
    requires id in db.sessions
  {
    var current := db.sessions[id];
    if current.rotatedAt.Some? then
      (Failure(RefreshTokenReuse),
       WithSessions(db, FamilyRevoked(db.sessions, current.family, at, "refresh_token_reuse")))
    else if current.revokedAt.Some? then (Failure(SessionRevoked), db)
    else if current.expiresAt <= at then (Failure(RefreshTokenExpired), db)
    else if !UserActive(db, current.user) then
      (Failure(AccountNotActive),
       WithSessions(db, FamilyRevoked(db.sessions, current.family, at, "account_not_active")))
    else
      var replacement := Issued(current.user, draw.tokenHash, current.family, at, ttl, dbNow);
      var rotated := RotatedRow(current, draw.session, at);
      if replacement.Stored(draw.session) && HashUnused(db.sessions, draw.tokenHash) && rotated.Stored(id) then
        (Success(draw.session), WithSessions(db, db.sessions[draw.session := replacement][id := rotated]))
      else
        (Failure(ConstraintViolation), db)
  }

  function Logout(db: Db, user: Uuid, id: Uuid, at: Instant): (Result<bool, Error>, Db) {
    if id !in db.sessions || db.sessions[id].user != user || db.sessions[id].revokedAt.Some? then (Success(false), db)
    else
      var row := RevokedRow(db.sessions[id], at, "user_logout");
      if row.Stored(id) then (Success(true), WithSessions(db, db.sessions[id := row]))
      else (Failure(ConstraintViolation), db)
  }

  function LogoutAll(db: Db, user: Uuid, at: Instant): (Result<nat, Error>, Db) {
    var selected := ActiveOf(db.sessions, user, at);
    var revoked := UserRevoked(db.sessions, user, at, "user_logout_all");
    if forall id :: id in selected ==> revoked[id].Stored(id) then (Success(|selected|), WithSessions(db, revoked))
    else (Failure(ConstraintViolation), db)
  }

  /** What the session check behind an access token answers. */
  function Authenticate(db: Db, user: Uuid, id: Uuid, now: Instant): Result<Uuid, Error> {
    if id !in db.sessions || db.sessions[id].user != user then Failure(InvalidAccessToken)
    else if !db.sessions[id].ActiveAt(now) then Failure(SessionRevoked)
    else if user !in db.users then Failure(InvalidAccessToken)
    else if !db.users[user].status.Active? then Failure(AccountNotActive)
    else Success(id)
  }

  // ---------------------------------------------------------------- what each answer means on the rows

  /** A session can be opened exactly for an unused token hash and a lifetime not yet over on the database's clock. */
  lemma OpenAnswer(db: Db, user: Uuid, draw: Draw, at: Instant, ttl: int, dbNow: Instant)
    ensures var (r, db') := Open(db, user, draw, at, ttl, dbNow);
            && (r.Success? <==>
                at + ttl > dbNow && forall id :: id in db.sessions ==> db.sessions[id].tokenHash != draw.tokenHash)
            && (r.Success? ==>
                  && r.value == draw.session && db'.users == db.users
                  && db'.sessions == db.sessions[draw.session := AuthSession(
                       user, draw.tokenHash, draw.family, dbNow, dbNow, at + ttl, None, None, None, None)])
            && (r.Failure? ==> r.error == ConstraintViolation && db' == db)
  {
  }

  /**
   When a refresh succeeds, and when it fails for which reason: reuse before revocation, revocation
   before expiry, expiry before the account, and the row checks last.
   */
  lemma RefreshAnswer(db: Db, id: Uuid, draw: Draw, at: Instant, ttl: int, dbNow: Instant)
    requires id in db.sessions && db.sessions[id].Stored(id) && draw.session !in db.sessions
    ensures var r := Refresh(db, id, draw, at, ttl, dbNow).0;
            var s := db.sessions[id];
            var usable := s.rotatedAt.None? && s.revokedAt.None? && at < s.expiresAt;
            var active := s.user in db.users && db.users[s.user].status == Active;
            var storable :=
              && at + ttl > dbNow && s.createdAt <= at
              && forall other :: other in db.sessions ==> db.sessions[other].tokenHash != draw.tokenHash;
            && (r == Success(draw.session) <==> usable && active && storable)
            && (r.Success? ==> r.value == draw.session)
            && (r == Failure(RefreshTokenReuse) <==> s.rotatedAt.Some?)
            && (r == Failure(SessionRevoked) <==> s.rotatedAt.None? && s.revokedAt.Some?)
            && (r == Failure(RefreshTokenExpired) <==>
                s.rotatedAt.None? && s.revokedAt.None? && s.expiresAt <= at)
            && (r == Failure(AccountNotActive) <==> usable && !active)
            && (r == Failure(ConstraintViolation) <==> usable && active && !storable)
  {
  }

  /**
   What a refresh stores. Success adds the replacement, of the same user and family, and marks the
   old session; reuse and an inactive account revoke what is left of the family; nothing else
   stores anything.
   */
  lemma RefreshEffect(db: Db, id: Uuid, draw: Draw, at: Instant, ttl: int, dbNow: Instant)
    requires id in db.sessions && draw.session !in db.sessions
    ensures var (r, db') := Refresh(db, id, draw, at, ttl, dbNow);
            var s := db.sessions[id];
            var revokes := r == Failure(RefreshTokenReuse) || r == Failure(AccountNotActive);
            && db'.users == db.users
            && (r.Success? ==>
                  db'.sessions == db.sessions[
                    draw.session := AuthSession(
                      s.user, draw.tokenHash, s.family, dbNow, dbNow, at + ttl, None, None, None, None)][
                    id := s.(rotatedAt := Some(at), lastUsedAt := at, replacedBy := Some(draw.session))])
            && (r.Failure? && !revokes ==> db' == db)
            && (revokes ==>
                  && db'.sessions.Keys == db.sessions.Keys
                  && forall other :: other in db.sessions ==>
                       var row := db.sessions[other];
                       db'.sessions[other] ==
                       if row.family == s.family && row.revokedAt.None? then
                         row.(revokedAt := Some(if at < row.createdAt then row.createdAt else at),
                              revokeReason := Some(if r == Failure(RefreshTokenReuse) then "refresh_token_reuse"
                                                   else "account_not_active"))
                       else row)
  {
  }

  /** Logging out ends this session of this user, once, and no other. */
  lemma LogoutAnswer(db: Db, user: Uuid, id: Uuid, at: Instant)
    requires id in db.sessions ==> db.sessions[id].Stored(id)
    ensures var (r, db') := Logout(db, user, id, at);
            var ends := id in db.sessions && db.sessions[id].user == user && db.sessions[id].revokedAt.None?;
            && (r == Success(true) <==> ends && db.sessions[id].createdAt <= at)
            && (r == Success(false) <==> !ends)
            && (r == Failure(ConstraintViolation) <==> ends && at < db.sessions[id].createdAt)
            && (r == Success(true) ==>
                  db' == db.(sessions := db.sessions[id := db.sessions[id].(
                                revokedAt := Some(at), revokeReason := Some("user_logout"))]))
            && (r != Success(true) ==> db' == db)
  {
  }

  /** Logging out everywhere ends and counts exactly the user's sessions that are neither over nor replaced. */
  lemma LogoutAllEffect(db: Db, user: Uuid, at: Instant)
    requires LogoutAll(db, user, at).0.Success?
    ensures var (r, db') := LogoutAll(db, user, at);
            var ended := set id |
              && id in db.sessions && db.sessions[id].user == user && db.sessions[id].expiresAt > at
              && db.sessions[id].revokedAt.None? && db.sessions[id].rotatedAt.None?;
            && r.value == |ended| && db'.users == db.users && db'.sessions.Keys == db.sessions.Keys
            && forall id :: id in db.sessions ==>
                 db'.sessions[id] ==
                 if id in ended then
                   db.sessions[id].(revokedAt := Some(at), revokeReason := Some("user_logout_all"))
                 else db.sessions[id]
  {
    assert ActiveOf(db.sessions, user, at) == set id |
        && id in db.sessions && db.sessions[id].user == user && db.sessions[id].expiresAt > at
        && db.sessions[id].revokedAt.None? && db.sessions[id].rotatedAt.None?;
  }

  /** An access token gives access exactly while its own session is live and its account active. */
  lemma AccessIff(db: Db, user: Uuid, id: Uuid, now: Instant)
    ensures Authenticate(db, user, id, now).Success? <==>
            && id in db.sessions && db.sessions[id].user == user
            && db.sessions[id].revokedAt.None? && db.sessions[id].rotatedAt.None? && now < db.sessions[id].expiresAt
            && user in db.users && db.users[user].status == Active
    ensures Authenticate(db, user, id, now).Success? ==> Authenticate(db, user, id, now).value == id
  {
  }

  /**
   Registration stores an active account, and login its refreshed password hash and nothing else of
   it; either way the new session gives access for its lifetime, and every other one as before.
   */
  lemma SignInGivesAccess(db: Db, user: Uuid, email: string, hash: Hash, rehash: Option<Hash>, draw: Draw, at: Instant,
                          ttl: int, dbNow: Instant, now: Instant)
    requires draw.session !in db.sessions && (user in db.users ==> db.users[user].status.Active?)
    requires forall id :: id in db.sessions ==> db.sessions[id].user in db.users
    ensures var account := if user in db.users then Rehashed(db, user, rehash) else WithUser(db, user, email, hash);
            var (r, db') := Open(account, user, draw, at, ttl, dbNow);
            r.Success? ==>
              && db'.users == db.users[user :=
                   if user !in db.users then User(email, hash, Active)
                   else db.users[user].(passwordHash := if rehash.Some? then rehash.value
                                                        else db.users[user].passwordHash)]
              && (Authenticate(db', user, draw.session, now).Success? <==> now < at + ttl)
              && (forall u, other :: other != draw.session ==>
                    Authenticate(db', u, other, now) == Authenticate(db, u, other, now))
  {
  }

  /** After a refresh the new session gives access for its lifetime, the old one never again, every other as before. */
  lemma RefreshMovesAccess(db: Db, id: Uuid, draw: Draw, at: Instant, ttl: int, dbNow: Instant, now: Instant)
    requires id in db.sessions && draw.session !in db.sessions && Refresh(db, id, draw, at, ttl, dbNow).0.Success?
    ensures var db' := Refresh(db, id, draw, at, ttl, dbNow).1;
            var user := db.sessions[id].user;
            && (Authenticate(db', user, draw.session, now).Success? <==> now < at + ttl)
            && Authenticate(db', user, id, now) == Failure(SessionRevoked)
            && (forall u, other :: other != id && other != draw.session ==>
                  Authenticate(db', u, other, now) == Authenticate(db, u, other, now))
  {
  }

  // ---------------------------------------------------------------- the program

  class AuthSessionRepository {
    const session: Session<Db>

    constructor (session: Session<Db>)
      ensures this.session == session
    {
      this.session := session;
    }

    method GetByRefreshTokenHash(hash: Hash) returns (r: Option<Uuid>)
      ensures Found(session.staged.sessions, hash, r)
    {
      var sessions := session.staged.sessions;
      if id :| id in sessions && sessions[id].tokenHash == hash {
        return Some(id);
      }
      return None;
    }

    /** Flush one row; the database rejects it when a constraint fails. */
    method Flush(id: Uuid, row: AuthSession) returns (ok: bool)
      modifies session`staged
      ensures ok <==> row.Stored(id)
      ensures session.staged == if ok then WithSessions(old(session.staged), old(session.staged).sessions[id := row])
                                else old(session.staged)
    {
      ok := row.Stored(id);
      if ok {
        session.staged := session.staged.(sessions := session.staged.sessions[id := row]);
      }
    }

    method Create(user: Uuid, id: Uuid, hash: Hash, family: Uuid, expiresAt: Instant, dbNow: Instant) returns (ok: bool)
      modifies session`staged
      ensures var row := AuthSession(user, hash, family, dbNow, dbNow, expiresAt, None, None, None, None);
              && (ok <==> row.Stored(id) && HashUnused(old(session.staged).sessions, hash))
              && session.staged == if ok then WithSessions(old(session.staged), old(session.staged).sessions[id := row])
                                   else old(session.staged)
    {
      var holder := GetByRefreshTokenHash(hash);
      if holder.Some? {
        return false;
      }
      ok := Flush(id, AuthSession(user, hash, family, dbNow, dbNow, expiresAt, None, None, None, None));
    }

    /** One session ends now, unless it ended before. */
    method Revoke(id: Uuid, at: Instant, reason: string) returns (r: Result<bool, Error>)
      requires id in session.staged.sessions
      modifies session`staged
      ensures var s := old(session.staged).sessions[id];
              var row := RevokedRow(s, at, reason);
              && (s.revokedAt.Some? ==> r == Success(false) && session.staged == old(session.staged))
              && (s.revokedAt.None? && row.Stored(id) ==>
                    && r == Success(true)
                    && session.staged == WithSessions(old(session.staged), old(session.staged).sessions[id := row]))
              && (s.revokedAt.None? && !row.Stored(id) ==>
                    r == Failure(ConstraintViolation) && session.staged == old(session.staged))
    {
      var s := session.staged.sessions[id];
      if s.revokedAt.Some? {
        return Success(false);
      }
      var ok := Flush(id, s.(revokedAt := Some(at), revokeReason := Some(reason)));
      return if ok then Success(true) else Failure(ConstraintViolation);
    }

    /** Rotation hands a session over to its replacement; false when it was rotated or revoked before. */
    method MarkRotated(id: Uuid, replacement: Uuid, at: Instant) returns (r: Result<bool, Error>)
      requires id in session.staged.sessions
      modifies session`staged
      ensures var s := old(session.staged).sessions[id];
              var row := RotatedRow(s, replacement, at);
              && (r == Success(false) <==> s.rotatedAt.Some? || s.revokedAt.Some?)
              && (r == Success(true) ==>
                    session.staged == WithSessions(old(session.staged), old(session.staged).sessions[id := row]))
              && (r == Success(true) <==> s.rotatedAt.None? && s.revokedAt.None? && row.Stored(id))
              && (r.Failure? ==> r.error == ConstraintViolation)
              && (r != Success(true) ==> session.staged == old(session.staged))
    {
      var s := session.staged.sessions[id];
      if s.rotatedAt.Some? || s.revokedAt.Some? {
        return Success(false);
      }
      var ok := Flush(id, s.(rotatedAt := Some(at), replacedBy := Some(replacement), lastUsedAt := at));
      return if ok then Success(true) else Failure(ConstraintViolation);
    }

    /** Revoke every unrevoked session of a family, never earlier than the session's creation. */
    method RevokeTokenFamily(family: Uuid, at: Instant, reason: string) returns (count: nat)
      modifies session`staged
      ensures session.staged ==
              WithSessions(old(session.staged), FamilyRevoked(old(session.staged).sessions, family, at, reason))
      ensures count == |Unrevoked(old(session.staged).sessions, family)|
    {
      ghost var before := session.staged.sessions;
      var sessions := session.staged.sessions;
      var selected := set id | id in sessions && sessions[id].family == family && sessions[id].revokedAt.None?;
      assert selected == Unrevoked(before, family);
      count := |selected|;
      var remaining := selected;
      while remaining != {}
        invariant remaining <= selected
        invariant sessions.Keys == before.Keys
        invariant forall id :: id in before && id !in selected - remaining ==> sessions[id] == before[id]
        invariant forall id :: id in selected - remaining ==>
                    sessions[id] == RevokedRow(before[id], Later(at, before[id].createdAt), reason)
        decreases remaining
      {
        var id :| id in remaining;
        var s := sessions[id];
        var effective := if at < s.createdAt then s.createdAt else at;
        sessions := sessions[id := s.(revokedAt := Some(effective), revokeReason := Some(reason))];
        remaining := remaining - {id};
      }
      assert sessions == FamilyRevoked(before, family, at, reason);
      session.staged := session.staged.(sessions := sessions);
    }

    /** Revoke every active session of a user; unlike the family case the time is stored as given. */
    method RevokeAllByUser(user: Uuid, at: Instant, reason: string) returns (r: Result<nat, Error>)
      modifies session`staged
      ensures var selected := ActiveOf(old(session.staged).sessions, user, at);
              var revoked := UserRevoked(old(session.staged).sessions, user, at, reason);
              && (r.Success? <==> forall id :: id in selected ==> revoked[id].Stored(id))
              && (r.Success? ==>
                    && r.value == |selected|
                    && session.staged == WithSessions(old(session.staged), revoked))
              && (r.Failure? ==> r.error == ConstraintViolation && session.staged == old(session.staged))
    {
      ghost var before := session.staged.sessions;
      var sessions := session.staged.sessions;
      var selected := set id | id in sessions && sessions[id].user == user && sessions[id].ActiveAt(at);
      assert selected == ActiveOf(before, user, at);
      ghost var revoked := UserRevoked(before, user, at, reason);
      var remaining := selected;
      while remaining != {}
        invariant remaining <= selected
        invariant sessions.Keys == before.Keys
        invariant forall id :: id in before && id !in selected - remaining ==> sessions[id] == before[id]
        invariant forall id :: id in selected - remaining ==> sessions[id] == revoked[id] && revoked[id].Stored(id)
        decreases remaining
      {
        var id :| id in remaining;
        var row := sessions[id].(revokedAt := Some(at), revokeReason := Some(reason));
        assert row == revoked[id];
        if !row.Stored(id) {
          return Failure(ConstraintViolation);
        }
        sessions := sessions[id := row];
        remaining := remaining - {id};
      }
      assert sessions == revoked;
      session.staged := session.staged.(sessions := sessions);
      return Success(|selected|);
    }
  }

  /** Each method is one transaction over the committed rows. */
  class AuthService {
    const session: Session<Db>
    const sessions: AuthSessionRepository
    const refreshTtl: int

    ghost predicate Valid() {
      sessions.session == session
    }

    constructor (session: Session<Db>, refreshTtl: int)
      ensures Valid() && this.session == session && this.refreshTtl == refreshTtl
    {
      this.session := session;
      this.sessions := new AuthSessionRepository(session);
      this.refreshTtl := refreshTtl;
    }

    /** A new account and its first session, stored together. */
    method Register(email: string, passwordHash: Hash, userId: Uuid, draw: Draw, at: Instant, dbNow: Instant)
      returns (r: Result<Uuid, Error>)
      requires Valid() && session.staged == session.committed && userId !in session.committed.users
      modifies session
      ensures session.staged == session.committed
      ensures r.Failure? ==> session.committed == old(session.committed)
      ensures (exists u :: u in old(session.committed).users && old(session.committed).users[u].email == email) ==>
                r == Failure(EmailAlreadyRegistered)
      ensures !(exists u :: u in old(session.committed).users && old(session.committed).users[u].email == email) ==>
                var added := WithUser(old(session.committed), userId, email, passwordHash);
                var outcome := Open(added, userId, draw, at, refreshTtl, dbNow);
                r == outcome.0 && (r.Success? ==> session.committed == outcome.1)
    {
      var users := session.staged.users;
      if u :| u in users && users[u].email == email {
        return Failure(EmailAlreadyRegistered);
      }
      session.staged := session.staged.(users := users[userId := User(email, passwordHash, Active)]);
      var ok := sessions.Create(userId, draw.session, draw.tokenHash, draw.family, at + refreshTtl, dbNow);
      if !ok {
        session.Rollback();
        return Failure(ConstraintViolation);
      }
      session.Commit();
      return Success(draw.session);
    }

    /** Open a session for valid credentials; an outdated password hash is replaced in the same transaction. */
    method Login(user: Option<Uuid>, passwordValid: bool, rehash: Option<Hash>, draw: Draw, at: Instant, dbNow: Instant)
      returns (r: Result<Uuid, Error>)
      requires Valid() && session.staged == session.committed
      requires user.Some? ==> user.value in session.committed.users
      modifies session
      ensures session.staged == session.committed
      ensures r.Failure? ==> session.committed == old(session.committed)
      ensures user.None? || !passwordValid ==> r == Failure(InvalidCredentials)
      ensures user.Some? && passwordValid && !UserActive(old(session.committed), user.value) ==>
                r == Failure(AccountNotActive)
      ensures user.Some? && passwordValid && UserActive(old(session.committed), user.value) ==>
                var outcome := Open(Rehashed(old(session.committed), user.value, rehash), user.value, draw, at,
                                    refreshTtl, dbNow);
                r == outcome.0 && (r.Success? ==> session.committed == outcome.1)
    {
      if user.None? || !passwordValid {
        return Failure(InvalidCredentials);
      }
      if session.staged.users[user.value].status != Active {
        return Failure(AccountNotActive);
      }
      if rehash.Some? {
        var users := session.staged.users;
        var updated := users[user.value].(passwordHash := rehash.value);
        session.staged := session.staged.(users := users[user.value := updated]);
      }
      var ok := sessions.Create(user.value, draw.session, draw.tokenHash, draw.family, at + refreshTtl, dbNow);
      if !ok {
        session.Rollback();
        return Failure(ConstraintViolation);
      }
      session.Commit();
      return Success(draw.session);
    }

    /** Rotate a valid refresh token; a rotated one revokes its family before the error is raised. */
    method RefreshSession(hash: Hash, draw: Draw, at: Instant, dbNow: Instant)
      returns (r: Result<Uuid, Error>, ghost found: Option<Uuid>)
      requires Valid() && session.staged == session.committed && draw.session !in session.committed.sessions
      modifies session
      ensures session.staged == session.committed
      ensures Found(old(session.committed).sessions, hash, found)
      ensures found.None? ==> r == Failure(InvalidRefreshToken) && session.committed == old(session.committed)
      ensures found.Some? ==>
                (r, session.committed) == Refresh(old(session.committed), found.value, draw, at, refreshTtl, dbNow)
    {
      var holder := sessions.GetByRefreshTokenHash(hash);
      found := holder;
      if holder.None? {
        session.Rollback();
        return Failure(InvalidRefreshToken), found;
      }
      var id := holder.value;
      var current := session.staged.sessions[id];
      if current.rotatedAt.Some? {
        var _ := sessions.RevokeTokenFamily(current.family, at, "refresh_token_reuse");
        session.Commit();
        return Failure(RefreshTokenReuse), found;
      }
      if current.revokedAt.Some? {
        session.Rollback();
        return Failure(SessionRevoked), found;
      }
      if current.expiresAt <= at {
        session.Rollback();
        return Failure(RefreshTokenExpired), found;
      }
      if current.user !in session.staged.users || session.staged.users[current.user].status != Active {
        var _ := sessions.RevokeTokenFamily(current.family, at, "account_not_active");
        session.Commit();
        return Failure(AccountNotActive), found;
      }
      var created := sessions.Create(current.user, draw.session, draw.tokenHash, current.family, at + refreshTtl,
                                     dbNow);
      if !created {
        session.Rollback();
        return Failure(ConstraintViolation), found;
      }
      var rotated := sessions.MarkRotated(id, draw.session, at);
      if rotated.Failure? {
        session.Rollback();
        return Failure(rotated.error), found;
      }
      if !rotated.value {
        // "Locked refresh session could not be rotated" is never raised.
        assert false;
      }
      session.Commit();
      return Success(draw.session), found;
    }

    method LogoutSession(user: Uuid, id: Uuid, at: Instant) returns (r: Result<bool, Error>)
      requires Valid() && session.staged == session.committed
      modifies session
      ensures session.staged == session.committed
      ensures (r, session.committed) == Logout(old(session.committed), user, id, at)
    {
      if id !in session.staged.sessions || session.staged.sessions[id].user != user {
        return Success(false);
      }
      r := sessions.Revoke(id, at, "user_logout");
      if r.Failure? {
        session.Rollback();
      } else {
        session.Commit();
      }
    }

    method LogoutEverywhere(user: Uuid, at: Instant) returns (r: Result<nat, Error>)
      requires Valid() && session.staged == session.committed
      modifies session
      ensures session.staged == session.committed
      ensures (r, session.committed) == LogoutAll(old(session.committed), user, at)
    {
      r := sessions.RevokeAllByUser(user, at, "user_logout_all");
      if r.Failure? {
        session.Rollback();
      } else {
        session.Commit();
      }
    }
  }
}
