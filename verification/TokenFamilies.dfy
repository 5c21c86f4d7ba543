/**
 Refresh-token families over whole runs of the authentication service: every family is one
 chain of replacements, no token is exchanged twice, and reuse ends its family for good.
 */
module TokenFamilies {
  import opened Collections
  import opened Primitives
  import opened AuthSessions
  import opened Wrappers

  /** One successful refresh, as seen by the client. */
  datatype Exchange = Exchange(hash: Hash, session: Uuid, family: Uuid)

  /** `chains` and `exchanges` are history: the sessions of a family in order of issue, and every success. */
  datatype World = World(db: Db, chains: map<Uuid, seq<Uuid>>, exchanges: seq<Exchange>)

  datatype Step =
    | RegisterUser(user: Uuid, email: string, passwordHash: Hash, draw: Draw, at: Instant, dbNow: Instant)
    | LoginUser(user: Uuid, rehash: Option<Hash>, draw: Draw, at: Instant, dbNow: Instant)
    | RefreshToken(hash: Hash, session: Uuid, draw: Draw, at: Instant, dbNow: Instant)
    | LogoutOne(user: Uuid, session: Uuid, at: Instant)
    | LogoutUser(user: Uuid, at: Instant)
    | SetStatus(user: Uuid, status: UserStatus)

  function Init(): World {
    World(Db(map[], map[]), map[], [])
  }

  predicate Fresh(s: World, draw: Draw) {
    draw.session !in s.db.sessions && draw.family !in s.chains
  }

  predicate Enabled(s: World, step: Step) {
    match step
    case RegisterUser(user, email, _, draw, _, _) =>
      user !in s.db.users && Fresh(s, draw) && forall u :: u in s.db.users ==> s.db.users[u].email != email
    case LoginUser(user, _, draw, _, _) => UserActive(s.db, user) && Fresh(s, draw)
    // An unknown token changes nothing; a known one is found under its unique hash.
    case RefreshToken(hash, session, draw, _, _) => Found(s.db.sessions, hash, Some(session)) && Fresh(s, draw)
    case LogoutOne(_, _, _) => true
    case LogoutUser(_, _) => true
    case SetStatus(user, _) => user in s.db.users
  }

  function AfterOpen(s: World, outcome: (Result<Uuid, Error>, Db), draw: Draw): World {
    if outcome.0.Success? then s.(db := outcome.1, chains := s.chains[draw.family := [draw.session]]) else s
  }

  function AfterRefresh(s: World, id: Uuid, hash: Hash, draw: Draw, at: Instant, ttl: int, dbNow: Instant): World
    requires id in s.db.sessions
  {
    var family := s.db.sessions[id].family;
    var (r, db) := Refresh(s.db, id, draw, at, ttl, dbNow);
    if r.Success? && family in s.chains then
      World(db, s.chains[family := s.chains[family] + [draw.session]], s.exchanges + [Exchange(hash, id, family)])
    else
      s.(db := db)
  }

  function Next(ttl: int, s: World, step: Step): World
    requires Enabled(s, step)
  {
    match step
    case RegisterUser(user, email, passwordHash, draw, at, dbNow) =>
      AfterOpen(s, Open(WithUser(s.db, user, email, passwordHash), user, draw, at, ttl, dbNow), draw)
    case LoginUser(user, rehash, draw, at, dbNow) =>
      AfterOpen(s, Open(Rehashed(s.db, user, rehash), user, draw, at, ttl, dbNow), draw)
    case RefreshToken(hash, session, draw, at, dbNow) => AfterRefresh(s, session, hash, draw, at, ttl, dbNow)
    case LogoutOne(user, session, at) => s.(db := Logout(s.db, user, session, at).1)
    case LogoutUser(user, at) => s.(db := LogoutAll(s.db, user, at).1)
    case SetStatus(user, status) => s.(db := s.db.(users := s.db.users[user := s.db.users[user].(status := status)]))
  }

  predicate Legal(ttl: int, s: World, steps: seq<Step>)
    decreases |steps|
  {
    steps == [] || (Enabled(s, steps[0]) && Legal(ttl, Next(ttl, s, steps[0]), steps[1..]))
  }

  function After(ttl: int, s: World, steps: seq<Step>): World
    requires Legal(ttl, s, steps)
    decreases |steps|
  {
    if steps == [] then s else After(ttl, Next(ttl, s, steps[0]), steps[1..])
  }

  // ---------------------------------------------------------------- one chain per family

  /** `chain` lists the family in order of replacement: all rotated into their successor but the last. */
  ghost predicate IsChain(sessions: SessionTable, family: Uuid, chain: seq<Uuid>) {
    && chain != []
    && (forall i, j :: 0 <= i < j < |chain| ==> chain[i] != chain[j])
    && (forall i :: 0 <= i < |chain| ==> InFamily(sessions, family, chain[i]))
    && (forall id :: InFamily(sessions, family, id) ==> id in chain)
    && (forall i :: 0 <= i < |chain| - 1 ==>
          && sessions[chain[i]].rotatedAt.Some?
          && sessions[chain[i]].replacedBy == Some(chain[i + 1]))
    && sessions[chain[|chain| - 1]].rotatedAt.None?
    && sessions[chain[|chain| - 1]].replacedBy.None?
  }

  function Exchanges(exchanges: seq<Exchange>, family: Uuid): nat {
    Count(exchanges, (e: Exchange) => e.family == family)
  }

  ghost predicate Chained(s: World, family: Uuid) {
    family in s.chains ==>
      && IsChain(s.db.sessions, family, s.chains[family])
      && |s.chains[family]| == 1 + Exchanges(s.exchanges, family)
  }

  ghost predicate RowsStored(s: World) {
    && (forall id :: id in s.db.sessions ==> s.db.sessions[id].Stored(id) && s.db.sessions[id].family in s.chains)
    && (forall a, b :: a in s.db.sessions && b in s.db.sessions && a != b ==>
          s.db.sessions[a].tokenHash != s.db.sessions[b].tokenHash)
  }

  /** Every exchanged token belongs to a session that is rotated by now, and none occurs twice. */
  predicate Spent(s: World) {
    && (forall k :: 0 <= k < |s.exchanges| ==>
          && s.exchanges[k].session in s.db.sessions
          && s.db.sessions[s.exchanges[k].session].tokenHash == s.exchanges[k].hash
          && s.db.sessions[s.exchanges[k].session].rotatedAt.Some?)
    && (forall j, k :: 0 <= j < k < |s.exchanges| ==> s.exchanges[j].hash != s.exchanges[k].hash)
  }

  ghost predicate Consistent(s: World) {
    && RowsStored(s)
    && (forall family: Uuid :: family !in s.chains ==> Exchanges(s.exchanges, family) == 0)
    && (forall family: Uuid :: Chained(s, family))
    && Spent(s)
  }

  lemma ExchangesAppend(exchanges: seq<Exchange>, e: Exchange, family: Uuid)
    ensures Exchanges(exchanges + [e], family) == Exchanges(exchanges, family) + if e.family == family then 1 else 0
  {
    CountAppend(exchanges, e, (other: Exchange) => other.family == family);
  }

  /** Rows keep everything but their revocation. */
  predicate OnlyRevoked(before: SessionTable, after: SessionTable) {
    && before.Keys == after.Keys
    && forall id :: id in before ==>
         after[id] == before[id].(revokedAt := after[id].revokedAt, revokeReason := after[id].revokeReason)
  }

  lemma RevocationKeepsConsistent(s: World, s': World)
    requires Consistent(s) && OnlyRevoked(s.db.sessions, s'.db.sessions)
    requires s'.chains == s.chains && s'.exchanges == s.exchanges
    requires forall id :: id in s'.db.sessions ==> s'.db.sessions[id].Stored(id)
    ensures Consistent(s')
  {
    forall family: Uuid ensures Chained(s', family) {
      assert Chained(s, family);
      assert forall id :: InFamily(s'.db.sessions, family, id) <==> InFamily(s.db.sessions, family, id);
    }
  }

  lemma OpenKeepsConsistent(s: World, outcome: (Result<Uuid, Error>, Db), draw: Draw, row: AuthSession)
    requires Consistent(s) && Fresh(s, draw) && row.Stored(draw.session) && HashUnused(s.db.sessions, draw.tokenHash)
    requires row.tokenHash == draw.tokenHash && row.family == draw.family && row.rotatedAt.None? && row.replacedBy.None?
    requires outcome.0.Success? ==> outcome.1.sessions == s.db.sessions[draw.session := row]
    ensures Consistent(AfterOpen(s, outcome, draw))
  {
    var s' := AfterOpen(s, outcome, draw);
    if outcome.0.Success? {
      forall family: Uuid ensures Chained(s', family) {
        assert Chained(s, family);
        assert forall id :: InFamily(s'.db.sessions, family, id) <==>
                 InFamily(s.db.sessions, family, id) || (id == draw.session && family == draw.family);
      }
    }
  }

  /** An unrotated session is the last one of its family's chain. */
  lemma UnrotatedIsLast(sessions: SessionTable, family: Uuid, chain: seq<Uuid>, id: Uuid)
    requires IsChain(sessions, family, chain) && InFamily(sessions, family, id)
    ensures sessions[id].rotatedAt.None? <==> id == chain[|chain| - 1]
  {
    var i :| 0 <= i < |chain| && chain[i] == id;
  }

  lemma RotationExtendsChain(
    before: SessionTable, after: SessionTable, family: Uuid, chain: seq<Uuid>, id: Uuid, replacement: Uuid)
    requires IsChain(before, family, chain) && InFamily(before, family, id) && before[id].rotatedAt.None?
    requires replacement !in before && InFamily(after, family, replacement)
    requires after[replacement].rotatedAt.None? && after[replacement].replacedBy.None?
    requires after.Keys == before.Keys + {replacement}
    requires after[id].family == family && after[id].rotatedAt.Some? && after[id].replacedBy == Some(replacement)
    requires forall other :: other in before && other != id ==> after[other] == before[other]
    ensures IsChain(after, family, chain + [replacement])
  {
    UnrotatedIsLast(before, family, chain, id);
    var chain' := chain + [replacement];
    assert chain'[|chain|] == replacement && forall i :: 0 <= i < |chain| ==> chain'[i] == chain[i];
    forall i | 0 <= i < |chain'| - 1
      ensures after[chain'[i]].rotatedAt.Some? && after[chain'[i]].replacedBy == Some(chain'[i + 1])
    {
      assert i < |chain| - 1 ==> chain[i] != id;
    }
    forall other | InFamily(after, family, other) ensures other in chain' {
      if other == replacement {
        assert chain'[|chain|] == replacement;
      } else {
        assert InFamily(before, family, other);
      }
    }
  }

  /** What a successful rotation does to the rows, in the terms the invariant is stated in. */
  ghost predicate Rotates(s: World, s': World, id: Uuid, hash: Hash, draw: Draw) {
    && id in s.db.sessions && s.db.sessions[id].rotatedAt.None? && s.db.sessions[id].tokenHash == hash
    && Fresh(s, draw) && HashUnused(s.db.sessions, draw.tokenHash)
    && s'.db.sessions.Keys == s.db.sessions.Keys + {draw.session}
    && (forall other :: other in s.db.sessions && other != id ==> s'.db.sessions[other] == s.db.sessions[other])
    && var family := s.db.sessions[id].family;
       var next, rotated := s'.db.sessions[draw.session], s'.db.sessions[id];
       && next.Stored(draw.session) && rotated.Stored(id)
       && next.family == rotated.family == family
       && next.rotatedAt.None? && next.replacedBy.None? && next.tokenHash == draw.tokenHash
       && rotated.rotatedAt.Some? && rotated.replacedBy == Some(draw.session) && rotated.tokenHash == hash
       && family in s.chains
       && s'.chains == s.chains[family := s.chains[family] + [draw.session]]
       && s'.exchanges == s.exchanges + [Exchange(hash, id, family)]
  }

  lemma RotationKeepsRows(s: World, s': World, id: Uuid, hash: Hash, draw: Draw)
    requires RowsStored(s) && Spent(s) && Rotates(s, s', id, hash, draw)
    ensures RowsStored(s') && Spent(s')
  {
  }

  lemma RotationKeepsChain(s: World, s': World, id: Uuid, hash: Hash, draw: Draw, family: Uuid)
    requires Rotates(s, s', id, hash, draw) && Chained(s, family)
    ensures Chained(s', family)
  {
    var before, after := s.db.sessions, s'.db.sessions;
    ExchangesAppend(s.exchanges, Exchange(hash, id, before[id].family), family);
    if family == before[id].family {
      assert InFamily(after, family, draw.session);
      RotationExtendsChain(before, after, family, s.chains[family], id, draw.session);
    } else {
      assert forall other :: InFamily(after, family, other) <==> InFamily(before, family, other);
    }
  }

  lemma RotationKeepsConsistent(s: World, s': World, id: Uuid, hash: Hash, draw: Draw)
    requires Consistent(s) && Rotates(s, s', id, hash, draw)
    ensures Consistent(s')
  {
    RotationKeepsRows(s, s', id, hash, draw);
    forall family: Uuid ensures Chained(s', family) {
      assert Chained(s, family);
      RotationKeepsChain(s, s', id, hash, draw, family);
    }
    forall family: Uuid | family !in s'.chains ensures Exchanges(s'.exchanges, family) == 0 {
      ExchangesAppend(s.exchanges, Exchange(hash, id, s.db.sessions[id].family), family);
    }
  }

  lemma RefreshRotates(ttl: int, s: World, id: Uuid, hash: Hash, draw: Draw, at: Instant, dbNow: Instant)
    requires Consistent(s) && Fresh(s, draw) && Found(s.db.sessions, hash, Some(id))
    requires Refresh(s.db, id, draw, at, ttl, dbNow).0.Success?
    ensures Rotates(s, AfterRefresh(s, id, hash, draw, at, ttl, dbNow), id, hash, draw)
  {
  }

  lemma RefreshKeepsConsistent(ttl: int, s: World, id: Uuid, hash: Hash, draw: Draw, at: Instant, dbNow: Instant)
    requires Consistent(s) && Fresh(s, draw) && Found(s.db.sessions, hash, Some(id))
    ensures Consistent(AfterRefresh(s, id, hash, draw, at, ttl, dbNow))
  {
    if Refresh(s.db, id, draw, at, ttl, dbNow).0.Success? {
      RefreshRotates(ttl, s, id, hash, draw, at, dbNow);
      RotationKeepsConsistent(s, AfterRefresh(s, id, hash, draw, at, ttl, dbNow), id, hash, draw);
    } else {
      FailedRefreshOnlyRevokes(ttl, s, id, hash, draw, at, dbNow);
      RevocationKeepsConsistent(s, AfterRefresh(s, id, hash, draw, at, ttl, dbNow));
    }
  }

  lemma FailedRefreshOnlyRevokes(ttl: int, s: World, id: Uuid, hash: Hash, draw: Draw, at: Instant, dbNow: Instant)
    requires Consistent(s) && id in s.db.sessions && Refresh(s.db, id, draw, at, ttl, dbNow).0.Failure?
    ensures var s' := AfterRefresh(s, id, hash, draw, at, ttl, dbNow);
            && OnlyRevoked(s.db.sessions, s'.db.sessions) && s'.chains == s.chains && s'.exchanges == s.exchanges
            && forall other :: other in s'.db.sessions ==> s'.db.sessions[other].Stored(other)
  {
    var db := Refresh(s.db, id, draw, at, ttl, dbNow).1;
    assert OnlyRevoked(s.db.sessions, db.sessions);
  }

  lemma StepKeepsConsistent(ttl: int, s: World, step: Step)
    requires Consistent(s) && Enabled(s, step)
    ensures Consistent(Next(ttl, s, step))
  {
    match step
    case RegisterUser(user, email, passwordHash, draw, at, dbNow) =>
      var row := Issued(user, draw.tokenHash, draw.family, at, ttl, dbNow);
      if row.Stored(draw.session) && HashUnused(s.db.sessions, draw.tokenHash) {
        var added := WithUser(s.db, user, email, passwordHash);
        OpenKeepsConsistent(s, Open(added, user, draw, at, ttl, dbNow), draw, row);
      }
    case LoginUser(user, rehash, draw, at, dbNow) =>
      var row := Issued(user, draw.tokenHash, draw.family, at, ttl, dbNow);
      if row.Stored(draw.session) && HashUnused(s.db.sessions, draw.tokenHash) {
        OpenKeepsConsistent(s, Open(Rehashed(s.db, user, rehash), user, draw, at, ttl, dbNow), draw, row);
      }
    case RefreshToken(hash, session, draw, at, dbNow) => RefreshKeepsConsistent(ttl, s, session, hash, draw, at, dbNow);
    case LogoutOne(user, session, at) => LogoutKeepsConsistent(s, user, session, at);
    case LogoutUser(user, at) => LogoutAllKeepsConsistent(s, user, at);
    case SetStatus(_, _) => RevocationKeepsConsistent(s, Next(ttl, s, step));
  }

  lemma LogoutKeepsConsistent(s: World, user: Uuid, session: Uuid, at: Instant)
    requires Consistent(s)
    ensures Consistent(s.(db := Logout(s.db, user, session, at).1))
  {
    RevocationKeepsConsistent(s, s.(db := Logout(s.db, user, session, at).1));
  }

  lemma LogoutAllKeepsConsistent(s: World, user: Uuid, at: Instant)
    requires Consistent(s)
    ensures Consistent(s.(db := LogoutAll(s.db, user, at).1))
  {
    RevocationKeepsConsistent(s, s.(db := LogoutAll(s.db, user, at).1));
  }

  lemma {:induction false} RunKeepsConsistent(ttl: int, s: World, steps: seq<Step>)
    requires Consistent(s) && Legal(ttl, s, steps)
    ensures Consistent(After(ttl, s, steps))
    decreases |steps|
  {
    if steps != [] {
      StepKeepsConsistent(ttl, s, steps[0]);
      RunKeepsConsistent(ttl, Next(ttl, s, steps[0]), steps[1..]);
    }
  }

  /**
   In every reachable state a family in use is one chain without repetition, from its first
   session through `replaced_by` to the only unrotated one, and it has one member more than
   it had successful refreshes.
   */
  lemma {:induction false} FamilyIsOneChain(ttl: int, steps: seq<Step>, id: Uuid)
    requires Legal(ttl, Init(), steps) && id in After(ttl, Init(), steps).db.sessions
    ensures var s := After(ttl, Init(), steps);
            var family := s.db.sessions[id].family;
            exists chain ::
              && IsChain(s.db.sessions, family, chain)
              && |chain| == 1 + Exchanges(s.exchanges, family)
              && forall other :: InFamily(s.db.sessions, family, other) ==>
                   (s.db.sessions[other].rotatedAt.None? <==> other == chain[|chain| - 1])
  {
    RunKeepsConsistent(ttl, Init(), steps);
    var s := After(ttl, Init(), steps);
    var family := s.db.sessions[id].family;
    assert Chained(s, family);
    var chain := s.chains[family];
    forall other | InFamily(s.db.sessions, family, other)
      ensures s.db.sessions[other].rotatedAt.None? <==> other == chain[|chain| - 1]
    {
      UnrotatedIsLast(s.db.sessions, family, chain, other);
    }
  }

  /** A link stays in its family, moves one place along the chain, and starts from a rotated session. */
  lemma LinkFollowsChain(sessions: SessionTable, family: Uuid, chain: seq<Uuid>, a: Uuid)
    requires IsChain(sessions, family, chain) && InFamily(sessions, family, a)
    ensures sessions[a].replacedBy.Some? <==> sessions[a].rotatedAt.Some?
    ensures sessions[a].replacedBy.Some? ==>
              exists i :: 0 <= i < |chain| - 1 && chain[i] == a && sessions[a].replacedBy == Some(chain[i + 1])
  {
    var i :| 0 <= i < |chain| && chain[i] == a;
    assert i < |chain| - 1 ==> sessions[chain[i]].replacedBy == Some(chain[i + 1]);
  }

  /** Replacement is injective over all sessions, and no session replaces a member of another family. */
  lemma {:induction false} ReplacementIsInjective(ttl: int, steps: seq<Step>, a: Uuid, b: Uuid)
    requires Legal(ttl, Init(), steps)
    requires var sessions := After(ttl, Init(), steps).db.sessions;
             a in sessions && b in sessions && sessions[a].replacedBy.Some?
               && sessions[a].replacedBy == sessions[b].replacedBy
    ensures a == b
  {
    RunKeepsConsistent(ttl, Init(), steps);
    var s := After(ttl, Init(), steps);
    var sessions := s.db.sessions;
    var f, g := sessions[a].family, sessions[b].family;
    assert Chained(s, f) && Chained(s, g);
    SameSuccessor(sessions, s.chains[f], s.chains[g], a, b);
  }

  lemma SameSuccessor(sessions: SessionTable, x: seq<Uuid>, y: seq<Uuid>, a: Uuid, b: Uuid)
    requires a in sessions && b in sessions && sessions[a].replacedBy.Some?
             && sessions[a].replacedBy == sessions[b].replacedBy
    requires IsChain(sessions, sessions[a].family, x) && IsChain(sessions, sessions[b].family, y)
    requires sessions[a].family == sessions[b].family ==> x == y
    ensures a == b
  {
    var f, g := sessions[a].family, sessions[b].family;
    LinkFollowsChain(sessions, f, x, a);
    LinkFollowsChain(sessions, g, y, b);
    var i :| 0 <= i < |x| - 1 && x[i] == a && sessions[a].replacedBy == Some(x[i + 1]);
    var j :| 0 <= j < |y| - 1 && y[j] == b && sessions[b].replacedBy == Some(y[j + 1]);
    assert InFamily(sessions, f, x[i + 1]) && InFamily(sessions, g, y[j + 1]);
  }

  /** No refresh token is ever exchanged a second time. */
  lemma NoTokenSucceedsTwice(ttl: int, steps: seq<Step>, j: nat, k: nat)
    requires Legal(ttl, Init(), steps) && j < k < |After(ttl, Init(), steps).exchanges|
    ensures After(ttl, Init(), steps).exchanges[j].hash != After(ttl, Init(), steps).exchanges[k].hash
  {
    RunKeepsConsistent(ttl, Init(), steps);
  }

  /** The state in which the step that made this exchange was taken: the token was live and its account active. */
  ghost predicate WasDue(s: World, step: Step, e: Exchange) {
    && step.RefreshToken? && step.hash == e.hash && step.session == e.session && e.session in s.db.sessions
    && var row := s.db.sessions[e.session];
       && row.tokenHash == e.hash && row.family == e.family
       && row.rotatedAt.None? && row.revokedAt.None? && row.createdAt <= step.at < row.expiresAt
       && row.user in s.db.users && s.db.users[row.user].status == Active
  }

  lemma {:induction false} PrefixIsLegal(ttl: int, s: World, steps: seq<Step>, n: nat)
    requires Legal(ttl, s, steps) && n < |steps|
    ensures Legal(ttl, s, steps[..n]) && Enabled(After(ttl, s, steps[..n]), steps[n])
    ensures Legal(ttl, s, steps[..n + 1])
    ensures After(ttl, s, steps[..n + 1]) == Next(ttl, After(ttl, s, steps[..n]), steps[n])
    decreases n
  {
    if n == 0 {
      assert steps[..1][1..] == [];
    } else {
      PrefixIsLegal(ttl, Next(ttl, s, steps[0]), steps[1..], n - 1);
      assert steps[..n][1..] == steps[1..][..n - 1] && steps[..n + 1][1..] == steps[1..][..n];
    }
  }

  /** One step adds at most one exchange, and only for a token that is due. */
  lemma ExchangeIsDue(ttl: int, s: World, step: Step)
    requires Consistent(s) && Enabled(s, step)
    ensures var more := Next(ttl, s, step).exchanges;
            more == s.exchanges
            || (|more| == |s.exchanges| + 1 && more[..|s.exchanges|] == s.exchanges
                && WasDue(s, step, more[|s.exchanges|]))
  {
    if step.RefreshToken? {
      RefreshAnswer(s.db, step.session, step.draw, step.at, ttl, step.dbNow);
    }
  }

  /** The `n`-th step made this exchange, in a state where it was due. */
  ghost predicate DueAt(ttl: int, steps: seq<Step>, n: nat, e: Exchange) {
    n < |steps| && Legal(ttl, Init(), steps[..n]) && WasDue(After(ttl, Init(), steps[..n]), steps[n], e)
  }

  lemma {:induction false} LastStepIsDue(ttl: int, steps: seq<Step>)
    requires steps != [] && Legal(ttl, Init(), steps)
    ensures var n := |steps| - 1;
            && Legal(ttl, Init(), steps[..n])
            && var before, after := After(ttl, Init(), steps[..n]).exchanges, After(ttl, Init(), steps).exchanges;
               || after == before
               || (|after| == |before| + 1 && after[..|before|] == before && DueAt(ttl, steps, n, after[|before|]))
  {
    var n := |steps| - 1;
    PrefixIsLegal(ttl, Init(), steps, n);
    assert steps[..n + 1] == steps;
    RunKeepsConsistent(ttl, Init(), steps[..n]);
    ExchangeIsDue(ttl, After(ttl, Init(), steps[..n]), steps[n]);
  }

  /** Every token that was ever exchanged was unexpired, unrevoked and of an active account at that moment. */
  lemma {:induction false} EveryExchangeWasDue(ttl: int, steps: seq<Step>, k: nat) returns (n: nat)
    requires Legal(ttl, Init(), steps) && k < |After(ttl, Init(), steps).exchanges|
    ensures DueAt(ttl, steps, n, After(ttl, Init(), steps).exchanges[k])
    decreases |steps|
  {
    n := |steps| - 1;
    LastStepIsDue(ttl, steps);
    var front := steps[..n];
    var before, after := After(ttl, Init(), front).exchanges, After(ttl, Init(), steps).exchanges;
    if k < |before| {
      assert after[k] == before[k];
      n := EveryExchangeWasDue(ttl, front, k);
      assert front[..n] == steps[..n] && front[n] == steps[n];
    }
  }

  // ---------------------------------------------------------------- reuse ends a family

  /** A family in use whose sessions are all revoked. */
  ghost predicate Dead(s: World, family: Uuid) {
    && family in s.chains
    && forall id :: InFamily(s.db.sessions, family, id) ==> s.db.sessions[id].revokedAt.Some?
  }

  /** `later` still has every revocation of `earlier`, with its time and its reason. */
  ghost predicate RevocationsKept(earlier: World, later: World) {
    forall id :: id in earlier.db.sessions && earlier.db.sessions[id].revokedAt.Some? ==>
      && id in later.db.sessions
      && later.db.sessions[id].family == earlier.db.sessions[id].family
      && later.db.sessions[id].revokedAt == earlier.db.sessions[id].revokedAt
      && later.db.sessions[id].revokeReason == earlier.db.sessions[id].revokeReason
  }

  lemma StepKeepsRevocations(ttl: int, s: World, step: Step)
    requires Consistent(s) && Enabled(s, step)
    ensures RevocationsKept(s, Next(ttl, s, step))
  {
    match step
    case RefreshToken(hash, session, draw, at, dbNow) => RefreshKeepsRevocations(ttl, s, session, hash, draw, at,
        dbNow);
    case _ =>
  }

  lemma RefreshKeepsRevocations(ttl: int, s: World, id: Uuid, hash: Hash, draw: Draw, at: Instant, dbNow: Instant)
    requires Consistent(s) && Fresh(s, draw) && Found(s.db.sessions, hash, Some(id))
    ensures RevocationsKept(s, AfterRefresh(s, id, hash, draw, at, ttl, dbNow))
  {
  }

  lemma StepKeepsDead(ttl: int, s: World, step: Step, family: Uuid)
    requires Consistent(s) && Enabled(s, step) && Dead(s, family)
    ensures Dead(Next(ttl, s, step), family)
  {
    var s' := Next(ttl, s, step);
    StepKeepsRevocations(ttl, s, step);
    forall id | InFamily(s'.db.sessions, family, id) ensures s'.db.sessions[id].revokedAt.Some? {
      assert InFamily(s.db.sessions, family, id);
    }
  }

  lemma {:induction false} RunKeepsDead(ttl: int, s: World, steps: seq<Step>, family: Uuid)
    requires Consistent(s) && Legal(ttl, s, steps) && Dead(s, family)
    ensures Dead(After(ttl, s, steps), family) && RevocationsKept(s, After(ttl, s, steps))
    decreases |steps|
  {
    if steps != [] {
      StepKeepsDead(ttl, s, steps[0], family);
      StepKeepsRevocations(ttl, s, steps[0]);
      StepKeepsConsistent(ttl, s, steps[0]);
      RunKeepsDead(ttl, Next(ttl, s, steps[0]), steps[1..], family);
    }
  }

  /** The family's sessions give nobody access any more, and none was revoked before it was created. */
  ghost predicate Barred(ttl: int, s: World, family: Uuid) {
    forall id :: InFamily(s.db.sessions, family, id) ==>
      && s.db.sessions[id].revokedAt.Some?
      && s.db.sessions[id].revokedAt.value >= s.db.sessions[id].createdAt
      && (forall draw, at, dbNow :: Refresh(s.db, id, draw, at, ttl, dbNow).0.Failure?)
      && (forall user: Uuid, now :: Authenticate(s.db, user, id, now).Failure?)
  }

  lemma DeadIsBarred(ttl: int, s: World, family: Uuid)
    requires Consistent(s) && Dead(s, family)
    ensures Barred(ttl, s, family)
  {
    forall id | InFamily(s.db.sessions, family, id) ensures s.db.sessions[id].Stored(id) {}
  }

  lemma ReuseKillsFamily(ttl: int, s: World, reuse: Step)
    requires Consistent(s) && Enabled(s, reuse) && reuse.RefreshToken?
    requires s.db.sessions[reuse.session].rotatedAt.Some?
    ensures Dead(Next(ttl, s, reuse), s.db.sessions[reuse.session].family)
  {
  }

  /**
   Once a rotated token is presented again, every session of its family is revoked, not
   before it was created, without touching earlier revocations; and in every continuation
   no refresh and no access-token check in that family succeeds.
   */
  lemma {:induction false} ReuseEndsFamily(ttl: int, before: seq<Step>, reuse: Step, after: seq<Step>)
    requires Legal(ttl, Init(), before)
    requires Enabled(After(ttl, Init(), before), reuse) && reuse.RefreshToken?
    requires After(ttl, Init(), before).db.sessions[reuse.session].rotatedAt.Some?
    requires Legal(ttl, Next(ttl, After(ttl, Init(), before), reuse), after)
    ensures var s := After(ttl, Init(), before);
            var family := s.db.sessions[reuse.session].family;
            var detected := Next(ttl, s, reuse);
            var s' := After(ttl, detected, after);
            && Barred(ttl, detected, family) && RevocationsKept(s, detected)
            && Barred(ttl, s', family) && RevocationsKept(detected, s')
  {
    RunKeepsConsistent(ttl, Init(), before);
    var s := After(ttl, Init(), before);
    var family := s.db.sessions[reuse.session].family;
    var detected := Next(ttl, s, reuse);
    StepKeepsRevocations(ttl, s, reuse);
    StepKeepsConsistent(ttl, s, reuse);
    ReuseKillsFamily(ttl, s, reuse);
    DeadIsBarred(ttl, detected, family);
    RunKeepsConsistent(ttl, detected, after);
    RunKeepsDead(ttl, detected, after, family);
    DeadIsBarred(ttl, After(ttl, detected, after), family);
  }

  // ---------------------------------------------------------------- what the row locks do not cover

  /**
   Family revocation by a statement that read `before`, waited for a lock, and then wrote over
   `after`: rows that changed meanwhile are looked at again, rows inserted meanwhile are not.
   */
  function LateRevoked(before: SessionTable, after: SessionTable, family: Uuid, at: Instant,
                       reason: string): SessionTable {
    map id | id in after ::
      if id in before && id in Unrevoked(after, family)
        then RevokedRow(after[id], Later(at, after[id].createdAt), reason)
      else after[id]
  }

  /** Such a statement revokes the whole family exactly when no unrevoked session was inserted meanwhile. */
  lemma LateRevocationIsCompleteIff(before: SessionTable, after: SessionTable, family: Uuid, at: Instant,
                                    reason: string)
    ensures (forall id :: InFamily(LateRevoked(before, after, family, at, reason), family, id) ==>
               LateRevoked(before, after, family, at, reason)[id].revokedAt.Some?)
            <==> Unrevoked(after, family) <= before.Keys
  {
    var late := LateRevoked(before, after, family, at, reason);
    forall id | InFamily(after, family, id)
      ensures late[id].revokedAt.None? <==> id in Unrevoked(after, family) && id !in before
    {
    }
    if !(Unrevoked(after, family) <= before.Keys) {
      var id :| id in Unrevoked(after, family) && id !in before;
      assert InFamily(late, family, id) && late[id].revokedAt.None?;
    }
  }

  /** A refresh it had to wait for leaves its new session alive, and that one only. */
  lemma RacingRefreshEscapes(ttl: int, s: World, id: Uuid, draw: Draw, at: Instant, dbNow: Instant, later: Instant)
    requires Consistent(s) && id in s.db.sessions && draw.session !in s.db.sessions && ttl > 0
    requires Refresh(s.db, id, draw, at, ttl, dbNow).0.Success?
    ensures var family := s.db.sessions[id].family;
            var late := LateRevoked(s.db.sessions, Refresh(s.db, id, draw, at, ttl, dbNow).1.sessions, family, later,
                                    "refresh_token_reuse");
            && draw.session in late && late[draw.session].family == family && late[draw.session].ActiveAt(at)
            && forall other :: InFamily(late, family, other) && other != draw.session ==> late[other].revokedAt.Some?
  {
  }

  // ---------------------------------------------------------------- logging out

  /**
   Revocation by family never violates a constraint, because it takes the later of the two
   times. Revocation by user stores the time as read, so it goes through exactly when no
   selected session is newer than that reading; it then leaves the user no session active.
   */
  lemma LogoutAllSucceedsIffNoneNewer(s: World, user: Uuid, at: Instant)
    requires Consistent(s)
    ensures LogoutAll(s.db, user, at).0.Success? <==>
            forall id :: id in ActiveOf(s.db.sessions, user, at) ==> s.db.sessions[id].createdAt <= at
    ensures LogoutAll(s.db, user, at).0.Success? ==>
            forall id, now :: id in s.db.sessions && s.db.sessions[id].user == user && now >= at ==>
              !LogoutAll(s.db, user, at).1.sessions[id].ActiveAt(now)
    ensures LogoutAll(s.db, user, at).0.Failure? ==> LogoutAll(s.db, user, at).1 == s.db
    ensures forall id :: id in s.db.sessions ==>
              forall family, reason :: FamilyRevoked(s.db.sessions, family, at, reason)[id].Stored(id)
  {
    var selected := ActiveOf(s.db.sessions, user, at);
    var revoked := UserRevoked(s.db.sessions, user, at, "user_logout_all");
    forall id | id in selected ensures revoked[id].Stored(id) <==> s.db.sessions[id].createdAt <= at {
      assert s.db.sessions[id].Stored(id);
    }
    assert (forall id :: id in selected ==> revoked[id].Stored(id)) <==>
           (forall id :: id in selected ==> s.db.sessions[id].createdAt <= at);
  }

  /** The sessions of a user that a statement locks: active when it read `before`, and still active in `after`. */
  function LateActive(before: SessionTable, after: SessionTable, user: Uuid, at: Instant): set<Uuid> {
    ActiveOf(before, user, at) * ActiveOf(after, user, at)
  }

  /** Logging out everywhere by such a statement. */
  function LateLogoutAll(before: SessionTable, after: SessionTable, user: Uuid, at: Instant): SessionTable {
    map id | id in after ::
      if id in LateActive(before, after, user, at) then RevokedRow(after[id], at, "user_logout_all") else after[id]
  }

  /** It leaves the user no active session exactly when none became active while it waited. */
  lemma LateLogoutIsCompleteIff(before: SessionTable, after: SessionTable, user: Uuid, at: Instant)
    ensures ActiveOf(LateLogoutAll(before, after, user, at), user, at) == {}
            <==> ActiveOf(after, user, at) <= ActiveOf(before, user, at)
  {
    var late := LateLogoutAll(before, after, user, at);
    forall id
      ensures id in ActiveOf(late, user, at) <==>
              id in ActiveOf(after, user, at) && id !in ActiveOf(before, user, at)
    {
    }
    if ActiveOf(late, user, at) != {} {
      var id :| id in ActiveOf(late, user, at);
      assert id in ActiveOf(after, user, at) && id !in ActiveOf(before, user, at);
    }
  }

  /**
   A refresh it had to wait for rotates the awaited session out of its reach and leaves the new
   one active, and that one only; the statement succeeds all the same when the rows it does
   revoke are no newer than its time.
   */
  lemma RacingRefreshEscapesLogout(
    ttl: int, s: World, id: Uuid, draw: Draw, at: Instant, dbNow: Instant, later: Instant)
    requires Consistent(s) && id in s.db.sessions && draw.session !in s.db.sessions
    requires Refresh(s.db, id, draw, at, ttl, dbNow).0.Success? && later < at + ttl
    ensures var user := s.db.sessions[id].user;
            var after := Refresh(s.db, id, draw, at, ttl, dbNow).1.sessions;
            var late := LateLogoutAll(s.db.sessions, after, user, later);
            var selected := LateActive(s.db.sessions, after, user, later);
            && ActiveOf(late, user, later) == {draw.session} && id !in selected
            && ((forall other :: other in selected ==> late[other].Stored(other)) <==>
                (forall other :: other in selected ==> after[other].createdAt <= later))
  {
    var user := s.db.sessions[id].user;
    var after := Refresh(s.db, id, draw, at, ttl, dbNow).1.sessions;
    var late := LateLogoutAll(s.db.sessions, after, user, later);
    forall other ensures other in ActiveOf(late, user, later) <==> other == draw.session {
    }
    forall other | other in LateActive(s.db.sessions, after, user, later)
      ensures late[other].Stored(other) <==> after[other].createdAt <= later
    {
      assert other in s.db.sessions && after[other] == s.db.sessions[other] && after[other].Stored(other);
    }
  }

  /** A session stamped by a database clock one tick ahead makes "log out everywhere" fail. */
  lemma LogoutAllCanFail() returns (ttl: int, steps: seq<Step>)
    ensures Legal(ttl, Init(), steps)
    ensures LogoutAll(After(ttl, Init(), steps).db, 0, 0).0 == Failure(ConstraintViolation)
  {
    var step := RegisterUser(0, "a", 0, Draw(0, 0, 0), 0, 1);
    ttl, steps := 10, [step];
    assert steps[1..] == [];
    var s := Next(ttl, Init(), step);
    assert After(ttl, Init(), steps) == s;
    var revoked := UserRevoked(s.db.sessions, 0, 0, "user_logout_all");
    assert 0 in ActiveOf(s.db.sessions, 0, 0) && !revoked[0].Stored(0);
  }
}
