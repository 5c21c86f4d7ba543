/**
 Any number of workers answering user messages over one shared database.

 A worker looks for a cached reply, claims the message's run, enters the model section
 under a deadline, and leaves it by saving a reply or by unwinding and failing the run.
 Workers interleave at every transaction, may crash anywhere, and lease expiry is just the
 clock moving on. Fresh identifiers stand for uuid4 values.
 */
module ReplyProtocol {
  import opened Collections
  import opened Primitives
  import opened Wrappers
  import opened AssistantRuns

  /** Durations in microseconds. `setup` and `cleanup` bound how late a worker enters and leaves its section. */
  datatype Settings = Settings(lease: int, timeout: int, margin: int, maxAttempts: int, setup: int, cleanup: int) {
    /** What the configuration validators enforce. */
    predicate Valid() {
      timeout > 0 && margin > 0 && maxAttempts >= 1 && lease > timeout + margin
    }

    predicate Durations() {
      0 <= setup && 0 <= cleanup && timeout > 0 && lease > 0 && maxAttempts >= 1
    }

    /** The part of the run outside the response deadline fits in the completion margin. */
    predicate MarginSuffices() {
      Durations() && setup + cleanup <= margin
    }
  }

  datatype Worker =
    | Prepared(user: Uuid, message: Uuid)
    | Holding(user: Uuid, message: Uuid, token: Uuid, observedAt: Instant)
    | InSection(user: Uuid, message: Uuid, token: Uuid, observedAt: Instant, deadline: Instant,
                seen: Option<Option<Reply>>)
    | Unwinding(user: Uuid, message: Uuid, token: Uuid)
    | Answered(user: Uuid, message: Uuid, result: SavedReply)
    | TurnedAway(message: Uuid, decision: Decision)
    | Stopped

  datatype Granted = Granted(message: Uuid, token: Uuid)

  datatype World = World(
    clock: Instant,
    db: Db,
    issued: set<Uuid>,
    workers: map<nat, Worker>,
    grants: seq<Granted>,
    accepted: seq<Granted>)

  datatype Step =
    | Prepare(worker: nat, user: Uuid, message: Uuid)
    | ClaimRun(worker: nat, now: Instant, token: Uuid)
    | Enter(worker: nat)
    | LookUp(worker: nat)
    | SaveReply(worker: nat, replyId: Uuid, content: string)
    | Leave(worker: nat)
    | FailRun(worker: nat, code: string)
    | Crash(worker: nat)
    | Tick(now: Instant)

  function Init(owner: map<Uuid, Uuid>): World {
    World(0, Db(map[], map[], owner), {}, map[], [], [])
  }

  // ---------------------------------------------------------------- one step

  predicate Is(s: World, w: nat, phase: Worker -> bool) {
    w in s.workers && phase(s.workers[w])
  }

  predicate Enabled(cfg: Settings, s: World, step: Step) {
    match step
    case Prepare(w, _, _) => w !in s.workers
    // The statement time is fixed when the transaction starts, so it may lag the clock.
    case ClaimRun(w, now, token) => Is(s, w, (x: Worker) => x.Prepared?) && now <= s.clock && token !in s.issued
    case Enter(w) => Is(s, w, (x: Worker) => x.Holding?)
    case LookUp(w) => Is(s, w, (x: Worker) => x.InSection?)
    case SaveReply(w, id, content) =>
      && Is(s, w, (x: Worker) => x.InSection? && x.seen.Some?)
      && id !in s.issued && content != ""
    case Leave(w) => Is(s, w, (x: Worker) => x.Holding? || x.InSection?)
    case FailRun(w, code) => Is(s, w, (x: Worker) => x.Unwinding?) && 1 <= |code| <= 64
    case Crash(w) => w in s.workers
    case Tick(now) => s.clock <= now
  }

  /** Event-loop punctuality: sections are entered soon after the claim and left soon after the deadline. */
  predicate OnTime(cfg: Settings, s: World, step: Step) {
    match step
    case Enter(w) => w in s.workers && s.workers[w].Holding? && s.clock <= s.workers[w].observedAt + cfg.setup
    case Tick(now) =>
      forall w :: w in s.workers && s.workers[w].InSection? ==> now <= s.workers[w].deadline + cfg.cleanup
    case _ => true
  }

  function With(s: World, w: nat, worker: Worker): World {
    s.(workers := s.workers[w := worker])
  }

  function AfterPrepare(s: World, w: nat, user: Uuid, message: Uuid): World {
    With(s, w, if VisibleReply(s.db, user, message).Some? then TurnedAway(message, Cached) else Prepared(user, message))
  }

  function AfterClaim(cfg: Settings, s: World, w: nat, now: Instant, token: Uuid): World
    requires w in s.workers && s.workers[w].Prepared?
  {
    var Prepared(user, message) := s.workers[w];
    var (claim, db) := Acquire(s.db, message, cfg.lease, cfg.maxAttempts, now, token);
    var s' := s.(db := db, issued := s.issued + {token});
    if claim.acquired then
      With(s'.(grants := s.grants + [Granted(message, token)]), w, Holding(user, message, token, now))
    else
      With(s', w, TurnedAway(message, Decide(ProcessingStart(None, Some(claim)), cfg.maxAttempts)))
  }

  function AfterSave(s: World, w: nat, replyId: Uuid, content: string): World
    requires w in s.workers && s.workers[w].InSection? && s.workers[w].seen.Some?
  {
    var x := s.workers[w];
    var (r, db) := Save(s.db, x.user, x.message, x.seen.value, x.token, Reply(replyId, content));
    var s' := s.(db := db, issued := s.issued + {replyId});
    match r
    case Success(saved) =>
      With(s'.(accepted := s.accepted + [Granted(x.message, x.token)]), w, Answered(x.user, x.message, saved))
    case Failure(_) => With(s', w, Unwinding(x.user, x.message, x.token))
  }

  function Next(cfg: Settings, s: World, step: Step): World
    requires Enabled(cfg, s, step)
  {
    match step
    case Prepare(w, user, message) => AfterPrepare(s, w, user, message)
    case ClaimRun(w, now, token) => AfterClaim(cfg, s, w, now, token)
    case Enter(w) =>
      var x := s.workers[w];
      With(s, w, InSection(x.user, x.message, x.token, x.observedAt, s.clock + cfg.timeout, None))
    case LookUp(w) =>
      var x := s.workers[w];
      With(s, w, x.(seen := Some(VisibleReply(s.db, x.user, x.message))))
    case SaveReply(w, id, content) => AfterSave(s, w, id, content)
    case Leave(w) =>
      var x := s.workers[w];
      With(s, w, Unwinding(x.user, x.message, x.token))
    case FailRun(w, code) =>
      var x := s.workers[w];
      With(s.(db := Fail(s.db, x.message, x.token, code).1), w, Stopped)
    case Crash(w) => With(s, w, Stopped)
    case Tick(now) => s.(clock := now)
  }

  // ---------------------------------------------------------------- runs

  /** `steps` can be taken one after the other from `s`, punctually when `timed`. */
  predicate Legal(cfg: Settings, timed: bool, s: World, steps: seq<Step>)
    decreases |steps|
  {
    steps == [] ||
    (&& Enabled(cfg, s, steps[0])
     && (timed ==> OnTime(cfg, s, steps[0]))
     && Legal(cfg, timed, Next(cfg, s, steps[0]), steps[1..]))
  }

  function After(cfg: Settings, timed: bool, s: World, steps: seq<Step>): World
    requires Legal(cfg, timed, s, steps)
    decreases |steps|
  {
    if steps == [] then s else After(cfg, timed, Next(cfg, s, steps[0]), steps[1..])
  }

  function OnMessage(entries: seq<Granted>, message: Uuid): nat {
    Count(entries, (g: Granted) => g.message == message)
  }

  // ---------------------------------------------------------------- safety

  predicate CurrentToken(db: Db, message: Uuid, token: Uuid) {
    message in db.runs && db.runs[message].claimToken == Some(token)
  }

  predicate IsCompleted(db: Db, message: Uuid) {
    message in db.runs && db.runs[message].status.Completed?
  }

  /** One message's row and reply agree with each other and with the whole history. */
  predicate MessageSafe(cfg: Settings, s: World, m: Uuid) {
    && (m in s.db.runs ==> s.db.runs[m].Stored())
    && (m in s.db.replies <==> IsCompleted(s.db, m))
    && (m in s.db.replies ==> s.db.runs[m].assistantMessageId == Some(s.db.replies[m].id))
    && Attempts(s.db, m) == OnMessage(s.grants, m) <= cfg.maxAttempts
    && OnMessage(s.accepted, m) == (if m in s.db.replies then 1 else 0)
    && (m in s.db.runs && s.db.runs[m].claimToken.Some? ==> s.db.runs[m].claimToken.value in s.issued)
  }

  predicate WorkerSafe(s: World, x: Worker) {
    && (x.Holding? || x.InSection? || x.Unwinding? ==> x.token in s.issued)
    && (x.InSection? && x.seen.Some? && x.seen.value.Some? ==> x.message in s.db.replies)
    && (x.Answered? ==>
          && !x.result.isDuplicate
          && x.message in s.db.replies
          && s.db.replies[x.message] == x.result.message)
  }

  ghost predicate Safe(cfg: Settings, s: World) {
    && (forall m: Uuid :: MessageSafe(cfg, s, m))
    && (forall w :: w in s.workers ==> WorkerSafe(s, s.workers[w]))
  }

  lemma OnMessageAppend(entries: seq<Granted>, e: Granted, m: Uuid)
    ensures OnMessage(entries + [e], m) == OnMessage(entries, m) + if e.message == m then 1 else 0
  {
    CountAppend(entries, e, (g: Granted) => g.message == m);
  }

  lemma InitSafe(cfg: Settings, owner: map<Uuid, Uuid>)
    requires cfg.maxAttempts >= 1
    ensures Safe(cfg, Init(owner))
  {
  }

  lemma ClaimKeepsMessage(cfg: Settings, s: World, w: nat, now: Instant, token: Uuid, m: Uuid)
    requires cfg.maxAttempts >= 1 && Enabled(cfg, s, ClaimRun(w, now, token))
    requires MessageSafe(cfg, s, m) && MessageSafe(cfg, s, s.workers[w].message)
    ensures MessageSafe(cfg, AfterClaim(cfg, s, w, now, token), m)
  {
    OnMessageAppend(s.grants, Granted(s.workers[w].message, token), m);
  }

  lemma SaveKeepsMessage(cfg: Settings, s: World, w: nat, id: Uuid, content: string, m: Uuid)
    requires Enabled(cfg, s, SaveReply(w, id, content)) && WorkerSafe(s, s.workers[w])
    requires MessageSafe(cfg, s, m) && MessageSafe(cfg, s, s.workers[w].message)
    ensures MessageSafe(cfg, AfterSave(s, w, id, content), m)
  {
    OnMessageAppend(s.accepted, Granted(s.workers[w].message, s.workers[w].token), m);
  }

  /** What a save can answer: a new reply on a message without one, or a lost claim. */
  lemma SaveOutcome(cfg: Settings, s: World, x: Worker, reply: Reply)
    requires x.InSection? && x.seen.Some?
    requires MessageSafe(cfg, s, x.message) && WorkerSafe(s, x)
    ensures var (r, db) := Save(s.db, x.user, x.message, x.seen.value, x.token, reply);
            && (r.Success? <==> Owns(s.db, x.message, x.token))
            && (r.Success? ==>
                  && r.value == SavedReply(reply, false)
                  && x.message !in s.db.replies
                  && db.replies == s.db.replies[x.message := reply])
            && (r.Failure? ==> db == s.db)
  {
  }

  lemma ClaimKeepsSafe(cfg: Settings, s: World, w: nat, now: Instant, token: Uuid)
    requires cfg.maxAttempts >= 1 && Safe(cfg, s) && Enabled(cfg, s, ClaimRun(w, now, token))
    ensures Safe(cfg, AfterClaim(cfg, s, w, now, token))
  {
    var s' := AfterClaim(cfg, s, w, now, token);
    forall m: Uuid ensures MessageSafe(cfg, s', m) {
      ClaimKeepsMessage(cfg, s, w, now, token, m);
    }
    assert s'.db.replies == s.db.replies;
    forall v | v in s'.workers ensures WorkerSafe(s', s'.workers[v]) {
      assert v == w || WorkerSafe(s, s.workers[v]);
    }
  }

  lemma SaveKeepsSafe(cfg: Settings, s: World, w: nat, id: Uuid, content: string)
    requires Safe(cfg, s) && Enabled(cfg, s, SaveReply(w, id, content))
    ensures Safe(cfg, AfterSave(s, w, id, content))
  {
    var s' := AfterSave(s, w, id, content);
    var x := s.workers[w];
    forall m: Uuid ensures MessageSafe(cfg, s', m) {
      SaveKeepsMessage(cfg, s, w, id, content, m);
    }
    SaveOutcome(cfg, s, x, Reply(id, content));
    forall v | v in s'.workers ensures WorkerSafe(s', s'.workers[v]) {
      assert v == w || WorkerSafe(s, s.workers[v]);
    }
  }

  lemma StepKeepsSafe(cfg: Settings, s: World, step: Step)
    requires cfg.maxAttempts >= 1 && Safe(cfg, s) && Enabled(cfg, s, step)
    ensures Safe(cfg, Next(cfg, s, step))
  {
    match step
    case ClaimRun(w, now, token) => ClaimKeepsSafe(cfg, s, w, now, token);
    case SaveReply(w, id, content) => SaveKeepsSafe(cfg, s, w, id, content);
    case _ =>
      var s' := Next(cfg, s, step);
      forall m: Uuid ensures MessageSafe(cfg, s', m) {
        assert MessageSafe(cfg, s, m);
      }
  }

  lemma {:induction false} RunKeepsSafe(cfg: Settings, timed: bool, s: World, steps: seq<Step>)
    requires cfg.maxAttempts >= 1 && Safe(cfg, s) && Legal(cfg, timed, s, steps)
    ensures Safe(cfg, After(cfg, timed, s, steps))
    decreases |steps|
  {
    if steps != [] {
      StepKeepsSafe(cfg, s, steps[0]);
      RunKeepsSafe(cfg, timed, Next(cfg, s, steps[0]), steps[1..]);
    }
  }

  /**
   Exactly-once replies, whatever the interleaving and however late the workers are: a
   message has a reply exactly when its run is completed naming it, at most one token was
   ever accepted for it, the attempts used are the claims granted and stay within the
   limit, and no save ever answered that it found a duplicate.
   */
  lemma {:induction false} ExactlyOnce(cfg: Settings, owner: map<Uuid, Uuid>, steps: seq<Step>, m: Uuid)
    requires cfg.maxAttempts >= 1 && Legal(cfg, false, Init(owner), steps)
    ensures var s := After(cfg, false, Init(owner), steps);
            && (m in s.db.replies <==> m in s.db.runs && s.db.runs[m].status.Completed?)
            && (m in s.db.replies ==> s.db.runs[m].assistantMessageId == Some(s.db.replies[m].id))
            && OnMessage(s.accepted, m) == (if m in s.db.replies then 1 else 0)
            && Attempts(s.db, m) == OnMessage(s.grants, m) <= cfg.maxAttempts
            && (forall w :: w in s.workers && s.workers[w].Answered? ==> !s.workers[w].result.isDuplicate)
  {
    InitSafe(cfg, owner);
    RunKeepsSafe(cfg, false, Init(owner), steps);
    assert MessageSafe(cfg, After(cfg, false, Init(owner), steps), m);
  }

  // ---------------------------------------------------------------- fencing

  /** No save and no failure report under this token is accepted or changes a row. */
  ghost predicate Powerless(db: Db, m: Uuid, token: Uuid) {
    && (forall user: Uuid, seen, reply ::
          Save(db, user, m, seen, token, reply).0.Failure? && Save(db, user, m, seen, token, reply).1 == db)
    && (forall code :: Fail(db, m, token, code) == (Failure(ClaimNoLongerOwned), db))
  }

  /** A token has no power exactly when it is not the current one of a processing run. */
  lemma StaleTokenIsPowerless(db: Db, m: Uuid, token: Uuid)
    ensures Powerless(db, m, token) <==> !Owns(db, m, token)
  {
    if Owns(db, m, token) {
      assert Fail(db, m, token, "x").0.Success?;
    }
  }

  lemma StepKeepsStale(cfg: Settings, s: World, step: Step, m: Uuid, token: Uuid)
    requires Enabled(cfg, s, step) && token in s.issued && !CurrentToken(s.db, m, token)
    ensures var s' := Next(cfg, s, step);
            && token in s'.issued && !CurrentToken(s'.db, m, token)
            && multiset(s'.accepted)[Granted(m, token)] == multiset(s.accepted)[Granted(m, token)]
  {
  }

  /**
   Fencing: once a token has been superseded on its message it never becomes current
   again, so in every continuation it is accepted no more often than it already was and
   every further save or fail under it leaves the database as it is.
   */
  lemma {:induction false} SupersededForever(cfg: Settings, timed: bool, s: World, steps: seq<Step>, m: Uuid,
                                             token: Uuid)
    requires Legal(cfg, timed, s, steps) && token in s.issued && !CurrentToken(s.db, m, token)
    ensures var s' := After(cfg, timed, s, steps);
            && !CurrentToken(s'.db, m, token)
            && multiset(s'.accepted)[Granted(m, token)] == multiset(s.accepted)[Granted(m, token)]
            && Powerless(s'.db, m, token)
    decreases |steps|
  {
    if steps == [] {
      StaleTokenIsPowerless(s.db, m, token);
    } else {
      StepKeepsStale(cfg, s, steps[0], m, token);
      SupersededForever(cfg, timed, Next(cfg, s, steps[0]), steps[1..], m, token);
    }
  }

  /** A reclaim supersedes whichever token held the run before. */
  lemma ReclaimSupersedes(cfg: Settings, s: World, w: nat, now: Instant, token: Uuid, former: Uuid)
    requires Enabled(cfg, s, ClaimRun(w, now, token)) && former in s.issued
    requires Grantable(s.db, s.workers[w].message, cfg.maxAttempts, now)
    ensures var s' := Next(cfg, s, ClaimRun(w, now, token));
            CurrentToken(s'.db, s.workers[w].message, token) && !CurrentToken(s'.db, s.workers[w].message, former)
  {
  }

  /** Fencing at work: after a takeover no earlier token of the run is accepted in any continuation. */
  lemma ReclaimFences(
    cfg: Settings, timed: bool, s: World, w: nat, now: Instant, token: Uuid, former: Uuid, steps: seq<Step>)
    requires Enabled(cfg, s, ClaimRun(w, now, token)) && former in s.issued
    requires Grantable(s.db, s.workers[w].message, cfg.maxAttempts, now)
    requires Legal(cfg, timed, Next(cfg, s, ClaimRun(w, now, token)), steps)
    ensures var m := s.workers[w].message;
            var s' := After(cfg, timed, Next(cfg, s, ClaimRun(w, now, token)), steps);
            && Powerless(s'.db, m, former)
            && multiset(s'.accepted)[Granted(m, former)] == multiset(s.accepted)[Granted(m, former)]
  {
    ReclaimSupersedes(cfg, s, w, now, token, former);
    SupersededForever(cfg, timed, Next(cfg, s, ClaimRun(w, now, token)), steps, s.workers[w].message, former);
  }

  // ---------------------------------------------------------------- absorbing rows

  /** A completed run, and a failed one whose attempts are used up. */
  predicate Settled(cfg: Settings, db: Db, m: Uuid) {
    && m in db.runs
    && (db.runs[m].status.Completed? || (db.runs[m].status.Failed? && db.runs[m].attemptCount >= cfg.maxAttempts))
  }

  lemma StepKeepsSettled(cfg: Settings, s: World, step: Step, m: Uuid)
    requires Safe(cfg, s) && Enabled(cfg, s, step) && Settled(cfg, s.db, m)
    ensures var s' := Next(cfg, s, step);
            && m in s'.db.runs && s'.db.runs[m] == s.db.runs[m]
            && (m in s'.db.replies <==> m in s.db.replies)
            && (m in s.db.replies ==> s'.db.replies[m] == s.db.replies[m])
            && OnMessage(s'.grants, m) == OnMessage(s.grants, m)
  {
    match step
    case ClaimRun(w, now, token) => ClaimKeepsSettled(cfg, s, w, now, token, m);
    case SaveReply(w, id, content) => SaveKeepsSettled(cfg, s, w, id, content, m);
    case _ =>
  }

  lemma ClaimKeepsSettled(cfg: Settings, s: World, w: nat, now: Instant, token: Uuid, m: Uuid)
    requires w in s.workers && s.workers[w].Prepared? && Settled(cfg, s.db, m)
    ensures var s' := AfterClaim(cfg, s, w, now, token);
            m in s'.db.runs && s'.db.runs[m] == s.db.runs[m] && s'.db.replies == s.db.replies
              && OnMessage(s'.grants, m) == OnMessage(s.grants, m)
  {
    OnMessageAppend(s.grants, Granted(s.workers[w].message, token), m);
  }

  lemma SaveKeepsSettled(cfg: Settings, s: World, w: nat, id: Uuid, content: string, m: Uuid)
    requires w in s.workers && s.workers[w].InSection? && s.workers[w].seen.Some?
    requires WorkerSafe(s, s.workers[w]) && MessageSafe(cfg, s, m) && Settled(cfg, s.db, m)
    ensures var s' := AfterSave(s, w, id, content);
            && m in s'.db.runs && s'.db.runs[m] == s.db.runs[m] && s'.grants == s.grants
            && (m in s'.db.replies <==> m in s.db.replies)
            && (m in s.db.replies ==> s'.db.replies[m] == s.db.replies[m])
  {
  }

  /** Settled rows, and their replies, are the same in every continuation and are never claimed again. */
  lemma {:induction false} SettledForever(cfg: Settings, timed: bool, s: World, steps: seq<Step>, m: Uuid)
    requires cfg.maxAttempts >= 1 && Safe(cfg, s) && Legal(cfg, timed, s, steps) && Settled(cfg, s.db, m)
    ensures var s' := After(cfg, timed, s, steps);
            && m in s'.db.runs && s'.db.runs[m] == s.db.runs[m]
            && (m in s'.db.replies <==> m in s.db.replies)
            && (m in s.db.replies ==> s'.db.replies[m] == s.db.replies[m])
            && OnMessage(s'.grants, m) == OnMessage(s.grants, m)
    decreases |steps|
  {
    if steps != [] {
      StepKeepsSettled(cfg, s, steps[0], m);
      StepKeepsSafe(cfg, s, steps[0]);
      SettledForever(cfg, timed, Next(cfg, s, steps[0]), steps[1..], m);
    }
  }

  /** Nobody's message changes hands. */
  lemma {:induction false} OwnersStay(cfg: Settings, timed: bool, s: World, steps: seq<Step>)
    requires Legal(cfg, timed, s, steps)
    ensures After(cfg, timed, s, steps).db.owner == s.db.owner
    decreases |steps|
  {
    if steps != [] {
      OwnersStay(cfg, timed, Next(cfg, s, steps[0]), steps[1..]);
    }
  }

  /**
   Once a message has its reply, in every continuation every worker that prepares it for its
   owner is turned away with that very reply, and for nobody else is it ever answered.
   */
  lemma {:induction false} AnsweredStaysAnswered(
    cfg: Settings, owner: map<Uuid, Uuid>, before: seq<Step>, after: seq<Step>, m: Uuid, w: nat, user: Uuid)
    requires cfg.maxAttempts >= 1 && Legal(cfg, false, Init(owner), before)
    requires m in After(cfg, false, Init(owner), before).db.replies
    requires Legal(cfg, false, After(cfg, false, Init(owner), before), after)
    requires w !in After(cfg, false, After(cfg, false, Init(owner), before), after).workers
    ensures var s := After(cfg, false, Init(owner), before);
            var s' := After(cfg, false, s, after);
            var worker := Next(cfg, s', Prepare(w, user, m)).workers[w];
            && m in s'.db.replies && s'.db.replies[m] == s.db.replies[m]
            && worker == (if m in owner && owner[m] == user then TurnedAway(m, Cached) else Prepared(user, m))
            && (forall lease, now, token ::
                  Start(s'.db, user, m, lease, cfg.maxAttempts, now, token).cachedReply
                  == if m in owner && owner[m] == user then Some(s.db.replies[m]) else None)
  {
    var s := After(cfg, false, Init(owner), before);
    InitSafe(cfg, owner);
    RunKeepsSafe(cfg, false, Init(owner), before);
    OwnersStay(cfg, false, Init(owner), before);
    OwnersStay(cfg, false, s, after);
    assert MessageSafe(cfg, s, m);
    SettledForever(cfg, false, s, after, m);
  }

  /**
   A failure reported by the worker that holds the run frees it at once: whoever claims next gets
   it, whatever the lease was, exactly when an attempt is left.
   */
  lemma FailureFreesRun(cfg: Settings, s: World, w: nat, code: string, v: nat, now: Instant, token: Uuid)
    requires Safe(cfg, s) && Enabled(cfg, s, FailRun(w, code)) && Owns(s.db, s.workers[w].message, s.workers[w].token)
    requires Enabled(cfg, Next(cfg, s, FailRun(w, code)), ClaimRun(v, now, token))
    requires s.workers[w].message == Next(cfg, s, FailRun(w, code)).workers[v].message
    ensures var m := s.workers[w].message;
            var s' := Next(cfg, s, FailRun(w, code));
            var claimed := Next(cfg, s', ClaimRun(v, now, token));
            && s'.db.runs[m].lastErrorCode == Some(code) && s'.db.replies == s.db.replies
            && (claimed.workers[v].Holding? <==> OnMessage(s.grants, m) < cfg.maxAttempts)
            && (claimed.workers[v].TurnedAway? ==> claimed.workers[v].decision == Exhausted)
  {
    assert MessageSafe(cfg, s, s.workers[w].message);
  }

  // ---------------------------------------------------------------- mutual exclusion by time

  predicate Active(x: Worker) {
    x.Holding? || x.InSection?
  }

  /** The worker owns its claim until the lease it was granted runs out. */
  predicate HoldsLease(cfg: Settings, s: World, x: Worker)
    requires Active(x)
  {
    || (&& Owns(s.db, x.message, x.token)
        && s.db.runs[x.message].leaseExpiresAt == Some(x.observedAt + cfg.lease))
    || x.observedAt + cfg.lease <= s.clock
  }

  predicate WorkerTimely(cfg: Settings, s: World, x: Worker) {
    && (x.Holding? || x.InSection? || x.Unwinding? ==> x.token in s.issued)
    && (Active(x) ==> HoldsLease(cfg, s, x))
    && (x.InSection? ==>
          && x.deadline <= x.observedAt + cfg.setup + cfg.timeout
          && s.clock <= x.deadline + cfg.cleanup)
  }

  function TokenOf(x: Worker): Option<Uuid> {
    if x.Holding? || x.InSection? || x.Unwinding? then Some(x.token) else None
  }

  ghost predicate Timely(cfg: Settings, s: World) {
    && (forall w :: w in s.workers ==> WorkerTimely(cfg, s, s.workers[w]))
    && (forall v, w :: v in s.workers && w in s.workers && v != w && TokenOf(s.workers[v]).Some? ==>
          TokenOf(s.workers[v]) != TokenOf(s.workers[w]))
  }

  lemma StepKeepsTimely(cfg: Settings, s: World, step: Step)
    requires cfg.Durations() && Timely(cfg, s) && Enabled(cfg, s, step) && OnTime(cfg, s, step)
    ensures Timely(cfg, Next(cfg, s, step))
  {
    var s' := Next(cfg, s, step);
    forall w | w in s'.workers ensures WorkerTimely(cfg, s', s'.workers[w]) {
      StepKeepsWorkerTimely(cfg, s, step, w);
    }
    forall v, w | v in s'.workers && w in s'.workers && v != w && TokenOf(s'.workers[v]).Some?
      ensures TokenOf(s'.workers[v]) != TokenOf(s'.workers[w])
    {
      StepKeepsTokensApart(cfg, s, step, v, w);
    }
  }

  lemma StepKeepsWorkerTimely(cfg: Settings, s: World, step: Step, w: nat)
    requires cfg.Durations() && Timely(cfg, s) && Enabled(cfg, s, step) && OnTime(cfg, s, step)
    requires w in Next(cfg, s, step).workers
    ensures WorkerTimely(cfg, Next(cfg, s, step), Next(cfg, s, step).workers[w])
  {
    assert w in s.workers ==> WorkerTimely(cfg, s, s.workers[w]);
    match step
    case ClaimRun(v, now, token) => ClaimKeepsWorkerTimely(cfg, s, v, now, token, w);
    case SaveReply(v, id, content) => SaveKeepsWorkerTimely(cfg, s, v, id, content, w);
    case FailRun(v, code) => FailKeepsWorkerTimely(cfg, s, v, code, w);
    case _ =>
  }

  lemma ClaimKeepsWorkerTimely(cfg: Settings, s: World, v: nat, now: Instant, token: Uuid, w: nat)
    requires cfg.Durations() && Timely(cfg, s) && Enabled(cfg, s, ClaimRun(v, now, token))
    requires w in AfterClaim(cfg, s, v, now, token).workers
    ensures var s' := AfterClaim(cfg, s, v, now, token); WorkerTimely(cfg, s', s'.workers[w])
  {
    assert w in s.workers && WorkerTimely(cfg, s, s.workers[w]);
  }

  lemma SaveKeepsWorkerTimely(cfg: Settings, s: World, v: nat, id: Uuid, content: string, w: nat)
    requires Timely(cfg, s) && Enabled(cfg, s, SaveReply(v, id, content)) && w in AfterSave(s, v, id, content).workers
    ensures var s' := AfterSave(s, v, id, content); WorkerTimely(cfg, s', s'.workers[w])
  {
    assert w in s.workers && WorkerTimely(cfg, s, s.workers[w]);
  }

  lemma FailKeepsWorkerTimely(cfg: Settings, s: World, v: nat, code: string, w: nat)
    requires Timely(cfg, s) && Enabled(cfg, s, FailRun(v, code)) && w in s.workers
    ensures var s' := Next(cfg, s, FailRun(v, code)); WorkerTimely(cfg, s', s'.workers[w])
  {
    assert WorkerTimely(cfg, s, s.workers[w]);
  }

  lemma StepKeepsTokensApart(cfg: Settings, s: World, step: Step, v: nat, w: nat)
    requires cfg.Durations() && Timely(cfg, s) && Enabled(cfg, s, step)
    requires var workers := Next(cfg, s, step).workers;
             v in workers && w in workers && v != w && TokenOf(workers[v]).Some?
    ensures var workers := Next(cfg, s, step).workers; TokenOf(workers[v]) != TokenOf(workers[w])
  {
    assert v in s.workers ==> WorkerTimely(cfg, s, s.workers[v]);
    assert w in s.workers ==> WorkerTimely(cfg, s, s.workers[w]);
  }

  lemma {:induction false} RunKeepsTimely(cfg: Settings, s: World, steps: seq<Step>)
    requires cfg.Durations() && Timely(cfg, s) && Legal(cfg, true, s, steps)
    ensures Timely(cfg, After(cfg, true, s, steps))
    decreases |steps|
  {
    if steps != [] {
      StepKeepsTimely(cfg, s, steps[0]);
      RunKeepsTimely(cfg, Next(cfg, s, steps[0]), steps[1..]);
    }
  }

  predicate Collision(s: World, v: nat, w: nat) {
    && v != w && v in s.workers && w in s.workers
    && s.workers[v].InSection? && s.workers[w].InSection?
    && s.workers[v].message == s.workers[w].message
  }

  /**
   With the lease longer than set-up, response timeout and clean-up together, no two
   workers are ever inside the model section for one message at once, and a worker inside
   it still owns its claim.
   */
  lemma {:induction false} SectionIsExclusive(cfg: Settings, owner: map<Uuid, Uuid>, steps: seq<Step>, v: nat, w: nat)
    requires cfg.Durations() && cfg.lease > cfg.setup + cfg.timeout + cfg.cleanup
    requires Legal(cfg, true, Init(owner), steps)
    ensures var s := After(cfg, true, Init(owner), steps);
            && !Collision(s, v, w)
            && (v in s.workers && s.workers[v].InSection? ==> Owns(s.db, s.workers[v].message, s.workers[v].token))
  {
    RunKeepsTimely(cfg, Init(owner), steps);
    var s := After(cfg, true, Init(owner), steps);
    assert v in s.workers ==> WorkerTimely(cfg, s, s.workers[v]);
    assert w in s.workers ==> WorkerTimely(cfg, s, s.workers[w]);
  }

  /** The configuration check on the lease is what makes the section exclusive. */
  lemma ValidSettingsAreExclusive(cfg: Settings, owner: map<Uuid, Uuid>, steps: seq<Step>, v: nat, w: nat)
    requires cfg.Valid() && cfg.MarginSuffices() && Legal(cfg, true, Init(owner), steps)
    ensures !Collision(After(cfg, true, Init(owner), steps), v, w)
  {
    SectionIsExclusive(cfg, owner, steps, v, w);
  }

  /** A worker that reaches its save inside the section always commits its own, new reply. */
  lemma {:induction false} SaveInSectionSucceeds(
    cfg: Settings, owner: map<Uuid, Uuid>, steps: seq<Step>, w: nat, id: Uuid, content: string)
    requires cfg.Valid() && cfg.MarginSuffices() && Legal(cfg, true, Init(owner), steps)
    requires Enabled(cfg, After(cfg, true, Init(owner), steps), SaveReply(w, id, content))
    ensures var s := After(cfg, true, Init(owner), steps);
            var x := s.workers[w];
            var s' := Next(cfg, s, SaveReply(w, id, content));
            && s'.workers[w] == Answered(x.user, x.message, SavedReply(Reply(id, content), false))
            && s'.db.replies == s.db.replies[x.message := Reply(id, content)]
            && IsCompleted(s'.db, x.message)
  {
    InitSafe(cfg, owner);
    RunKeepsSafe(cfg, true, Init(owner), steps);
    SectionIsExclusive(cfg, owner, steps, w, w);
    var s := After(cfg, true, Init(owner), steps);
    assert WorkerSafe(s, s.workers[w]) && MessageSafe(cfg, s, s.workers[w].message);
  }

  // ---------------------------------------------------------------- the bound is tight

  lemma Prepend(cfg: Settings, s: World, step: Step, rest: seq<Step>, s': World)
    requires Enabled(cfg, s, step) && OnTime(cfg, s, step) && Next(cfg, s, step) == s'
    requires Legal(cfg, true, s', rest)
    ensures Legal(cfg, true, s, [step] + rest)
    ensures After(cfg, true, s, [step] + rest) == After(cfg, true, s', rest)
  {
    assert ([step] + rest)[1..] == rest;
  }

  /** The first worker is still inside its section when its lease has run out. */
  function Overdue(cfg: Settings, owner: map<Uuid, Uuid>): World {
    World(
      cfg.setup + cfg.timeout + cfg.cleanup,
      Db(map[0 := Run(Processing, None, Some(1), Some(cfg.lease), 1, None)], map[], owner),
      {1},
      map[0 := InSection(0, 0, 1, 0, cfg.setup + cfg.timeout, None)],
      [Granted(0, 1)],
      [])
  }

  lemma SecondWorkerEnters(cfg: Settings, owner: map<Uuid, Uuid>) returns (steps: seq<Step>)
    requires cfg.Durations() && cfg.maxAttempts >= 2 && cfg.lease <= cfg.setup + cfg.timeout + cfg.cleanup
    ensures Legal(cfg, true, Overdue(cfg, owner), steps)
    ensures Collision(After(cfg, true, Overdue(cfg, owner), steps), 0, 1)
  {
    var s0 := Overdue(cfg, owner);
    var s1 := Next(cfg, s0, Prepare(1, 0, 0));
    var s2 := Next(cfg, s1, ClaimRun(1, s0.clock, 2));
    var s3 := Next(cfg, s2, Enter(1));
    steps := [];
    Prepend(cfg, s2, Enter(1), steps, s3);
    steps := [Enter(1)] + steps;
    Prepend(cfg, s1, ClaimRun(1, s0.clock, 2), steps, s2);
    steps := [ClaimRun(1, s0.clock, 2)] + steps;
    Prepend(cfg, s0, Prepare(1, 0, 0), steps, s1);
    steps := [Prepare(1, 0, 0)] + steps;
  }

  lemma FirstWorkerOverruns(cfg: Settings, owner: map<Uuid, Uuid>) returns (steps: seq<Step>)
    requires cfg.Durations() && cfg.maxAttempts >= 2 && cfg.lease <= cfg.setup + cfg.timeout + cfg.cleanup
    ensures Legal(cfg, true, Init(owner), steps)
    ensures Collision(After(cfg, true, Init(owner), steps), 0, 1)
  {
    var s0 := Init(owner);
    var s1 := Next(cfg, s0, Prepare(0, 0, 0));
    var s2 := Next(cfg, s1, ClaimRun(0, 0, 1));
    var s3 := Next(cfg, s2, Tick(cfg.setup));
    var s4 := Next(cfg, s3, Enter(0));
    var last := Tick(cfg.setup + cfg.timeout + cfg.cleanup);
    assert Next(cfg, s4, last) == Overdue(cfg, owner);
    steps := SecondWorkerEnters(cfg, owner);
    Prepend(cfg, s4, last, steps, Overdue(cfg, owner));
    steps := [last] + steps;
    Prepend(cfg, s3, Enter(0), steps, s4);
    steps := [Enter(0)] + steps;
    Prepend(cfg, s2, Tick(cfg.setup), steps, s3);
    steps := [Tick(cfg.setup)] + steps;
    Prepend(cfg, s1, ClaimRun(0, 0, 1), steps, s2);
    steps := [ClaimRun(0, 0, 1)] + steps;
    Prepend(cfg, s0, Prepare(0, 0, 0), steps, s1);
    steps := [Prepare(0, 0, 0)] + steps;
  }

  ghost predicate SectionExclusive(cfg: Settings, owner: map<Uuid, Uuid>) {
    forall steps, v, w :: Legal(cfg, true, Init(owner), steps) ==>
      !Collision(After(cfg, true, Init(owner), steps), v, w)
  }

  /** When a second attempt is allowed, the section is exclusive exactly when the lease exceeds the worst case. */
  lemma ExclusiveIffLeaseOutlastsWorker(cfg: Settings, owner: map<Uuid, Uuid>)
    requires cfg.Durations() && cfg.maxAttempts >= 2
    ensures SectionExclusive(cfg, owner) <==> cfg.lease > cfg.setup + cfg.timeout + cfg.cleanup
  {
    if cfg.lease > cfg.setup + cfg.timeout + cfg.cleanup {
      forall steps, v, w | Legal(cfg, true, Init(owner), steps)
        ensures !Collision(After(cfg, true, Init(owner), steps), v, w)
      {
        SectionIsExclusive(cfg, owner, steps, v, w);
      }
    } else {
      var steps := FirstWorkerOverruns(cfg, owner);
      assert Legal(cfg, true, Init(owner), steps);
      assert Collision(After(cfg, true, Init(owner), steps), 0, 1);
    }
  }
}
