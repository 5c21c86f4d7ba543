/**
 The `assistant_runs` table and the service that claims, completes and fails a run.

 A row is addressed by its user message: the table's unique key on `user_message_id`
 makes that the same as addressing it by its own id.
 */
module AssistantRuns {
  import opened Primitives
  import opened Transactions
  import opened Wrappers

  datatype Status = Processing | Completed | Failed

  datatype Run = Run(
    status: Status,
    assistantMessageId: Option<Uuid>,
    claimToken: Option<Uuid>,
    leaseExpiresAt: Option<Instant>,
    attemptCount: int,
    lastErrorCode: Option<string>)
  {
    /** The table's CHECK constraints on attempts, error code and state shape. */
    predicate Stored() {
      && attemptCount >= 1
      && (lastErrorCode.Some? ==> 1 <= |lastErrorCode.value| <= 64)
      && match status
         case Processing => claimToken.Some? && leaseExpiresAt.Some? && assistantMessageId.None? && lastErrorCode.None?
         case Completed => claimToken.None? && leaseExpiresAt.None? && assistantMessageId.Some? && lastErrorCode.None?
         case Failed => claimToken.None? && leaseExpiresAt.None? && assistantMessageId.None? && lastErrorCode.Some?
    }
  }

  /** An assistant message; the table allows one per answered user message. */
  datatype Reply = Reply(id: Uuid, content: string)

  /** The rows this protocol reads and writes. `owner` is the user whose conversation holds a message. */
  datatype Db = Db(runs: map<Uuid, Run>, replies: map<Uuid, Reply>, owner: map<Uuid, Uuid>)

  datatype Claim = Claim(message: Uuid, run: Run, acquired: bool, token: Option<Uuid>, observedAt: Instant)

  datatype Error =
    | LeaseNotPositive
    | AttemptLimitNotPositive
    | ClaimNotAcquired
    | BlankContent
    | BlankErrorCode
    | ErrorCodeTooLong
    | ReplyConflict
    | ClaimNoLongerOwned

  datatype SavedReply = SavedReply(message: Reply, isDuplicate: bool)

  // ---------------------------------------------------------------- specification

  predicate Reclaimable(run: Run, maxAttempts: int, now: Instant) {
    && run.attemptCount < maxAttempts
    && (run.status.Failed? || (run.status.Processing? && run.leaseExpiresAt.Some? && run.leaseExpiresAt.value <= now))
  }

  /** A claim is granted on a message without a run, or by taking over a failed or expired one. */
  predicate Grantable(db: Db, message: Uuid, maxAttempts: int, now: Instant) {
    message in db.runs ==> Reclaimable(db.runs[message], maxAttempts, now)
  }

  function Attempts(db: Db, message: Uuid): int {
    if message in db.runs then db.runs[message].attemptCount else 0
  }

  function WithRun(db: Db, message: Uuid, run: Run): Db {
    db.(runs := db.runs[message := run])
  }

  function GrantedRun(db: Db, message: Uuid, lease: int, now: Instant, token: Uuid): Run {
    Run(Processing, None, Some(token), Some(now + lease), Attempts(db, message) + 1, None)
  }

  function Acquire(db: Db, message: Uuid, lease: int, maxAttempts: int, now: Instant, token: Uuid): (Claim, Db) {
    if Grantable(db, message, maxAttempts, now) then
      var run := GrantedRun(db, message, lease, now, token);
      (Claim(message, run, true, Some(token), now), WithRun(db, message, run))
    else
      (Claim(message, db.runs[message], false, None, now), db)
  }

  /** The guard of both conditional updates: the row is processing under this very token. */
  predicate Owns(db: Db, message: Uuid, token: Uuid) {
    && message in db.runs
    && db.runs[message].status.Processing?
    && db.runs[message].claimToken == Some(token)
  }

  function CompletedRun(run: Run, reply: Uuid): Run {
    Run(Completed, Some(reply), None, None, run.attemptCount, None)
  }

  function FailedRun(run: Run, code: string): Run {
    Run(Failed, None, None, None, run.attemptCount, Some(code))
  }

  /** The reply a user can see: replies are found through the conversation of their message. */
  function VisibleReply(db: Db, user: Uuid, message: Uuid): Option<Reply> {
    if message in db.replies && message in db.owner && db.owner[message] == user
    then Some(db.replies[message]) else None
  }

  /**
   Saving a reply after an earlier look-up answered `seen`. Between look-up and insert
   another worker may have committed a reply; the unique key then rejects the insert.
   */
  function Save(db: Db, user: Uuid, message: Uuid, seen: Option<Reply>, token: Uuid, reply: Reply)
    : (Result<SavedReply, Error>, Db)
  {
    if seen.Some? then
      CompleteWith(db, db, message, seen.value, true, token)
    else if message !in db.replies then
      CompleteWith(db, db.(replies := db.replies[message := reply]), message, reply, false, token)
    else match VisibleReply(db, user, message)
      case None => (Failure(ReplyConflict), db)
      case Some(found) => CompleteWith(db, db, message, found, true, token)
  }

  /** Complete the run on the staged rows, or give back the committed ones untouched. */
  function CompleteWith(committed: Db, staged: Db, message: Uuid, reply: Reply, isDuplicate: bool, token: Uuid)
    : (Result<SavedReply, Error>, Db)
  {
    if Owns(staged, message, token) then
      (Success(SavedReply(reply, isDuplicate)),
       WithRun(staged, message, CompletedRun(staged.runs[message], reply.id)))
    else
      (Failure(ClaimNoLongerOwned), committed)
  }

  function Fail(db: Db, message: Uuid, token: Uuid, code: string): (Result<Run, Error>, Db) {
    if Owns(db, message, token) then
      var run := FailedRun(db.runs[message], code);
      (Success(run), WithRun(db, message, run))
    else
      (Failure(ClaimNoLongerOwned), db)
  }

  // ---------------------------------------------------------------- classification of a start

  datatype ProcessingStart = ProcessingStart(cachedReply: Option<Reply>, claim: Option<Claim>) {
    predicate ShouldInvokeModel() {
      cachedReply.None? && claim.Some? && claim.value.acquired
    }

    predicate AttemptsExhausted(maxAttempts: int) {
      if cachedReply.Some? || claim.None? then
        false
      else
        var run := claim.value.run;
        && !claim.value.acquired
        && (|| run.status.Failed?
            || (&& run.status.Processing?
                && run.leaseExpiresAt.Some?
                && run.leaseExpiresAt.value <= claim.value.observedAt))
        && run.attemptCount >= maxAttempts
    }
  }

  datatype Decision = Cached | MayInvoke | Exhausted | StillProcessing

  /** The order in which the response service asks its questions. */
  function Decide(start: ProcessingStart, maxAttempts: int): Decision {
    if start.cachedReply.Some? then Cached
    else if start.AttemptsExhausted(maxAttempts) then Exhausted
    else if !start.ShouldInvokeModel() then StillProcessing
    else MayInvoke
  }

  function Start(db: Db, user: Uuid, message: Uuid, lease: int, maxAttempts: int, now: Instant,
                 token: Uuid): ProcessingStart {
    var cached := VisibleReply(db, user, message);
    if cached.Some? then ProcessingStart(cached, None)
    else ProcessingStart(None, Some(Acquire(db, message, lease, maxAttempts, now, token).0))
  }

  /** A start answers with a stored reply exactly when this message has it and lies in the user's own conversation. */
  lemma StartAnswersReplyIff(db: Db, user: Uuid, message: Uuid, lease: int, maxAttempts: int, now: Instant,
                             token: Uuid, reply: Reply)
    ensures Start(db, user, message, lease, maxAttempts, now, token).cachedReply == Some(reply)
            <==>
            && message in db.replies && db.replies[message] == reply
            && message in db.owner && db.owner[message] == user
  {
  }

  /**
   Which of the four answers a start gives, read off the stored rows. In particular
   "exhausted" is answered exactly when only the attempt limit kept the claim from being
   granted, so a worker is never turned away from a run it could have taken over.
   */
  lemma StartDecision(db: Db, user: Uuid, message: Uuid, lease: int, maxAttempts: int, now: Instant, token: Uuid)
    requires forall m :: m in db.runs ==> db.runs[m].Stored()
    ensures var decision := Decide(Start(db, user, message, lease, maxAttempts, now, token), maxAttempts);
            var answered := message in db.replies && message in db.owner && db.owner[message] == user;
            var known := message in db.runs;
            var free := known && (db.runs[message].status.Failed?
              || (&& db.runs[message].status.Processing? && db.runs[message].leaseExpiresAt.Some?
                  && db.runs[message].leaseExpiresAt.value <= now));
            && (decision == Cached <==> answered)
            && (decision == MayInvoke <==>
                !answered && (!known || (free && db.runs[message].attemptCount < maxAttempts)))
            && (decision == Exhausted <==> !answered && free && db.runs[message].attemptCount >= maxAttempts)
            && (decision == StillProcessing <==> !answered && known && !free)
  {
    if message in db.runs {
      assert db.runs[message].Stored();
    }
  }

  /** A granted claim is a processing run under the new token and lease with one more attempt; nothing else moves. */
  lemma ClaimEffect(db: Db, message: Uuid, lease: int, maxAttempts: int, now: Instant, token: Uuid)
    ensures var (claim, db') := Acquire(db, message, lease, maxAttempts, now, token);
            && claim.message == message && claim.observedAt == now
            && (claim.token == if claim.acquired then Some(token) else None)
            && db'.replies == db.replies && db'.owner == db.owner
            && message in db'.runs && db'.runs[message] == claim.run && db'.runs - {message} == db.runs - {message}
            && (!claim.acquired ==> db' == db)
            && (claim.acquired ==>
                  && claim.run.status.Processing? && claim.run.claimToken == Some(token)
                  && claim.run.leaseExpiresAt == Some(now + lease)
                  && claim.run.assistantMessageId.None? && claim.run.lastErrorCode.None?
                  && claim.run.attemptCount == (if message in db.runs then db.runs[message].attemptCount + 1 else 1))
  {
  }

  /**
   A save succeeds exactly while the run is processing under the very token drawn for it, unless
   the message turns out to have a reply its user cannot see. It stores at most the one new reply,
   and the run is completed naming the reply that is returned.
   */
  lemma SaveAnswer(db: Db, user: Uuid, message: Uuid, seen: Option<Reply>, token: Uuid, reply: Reply)
    ensures var (r, db') := Save(db, user, message, seen, token, reply);
            var hidden := message in db.replies && !(message in db.owner && db.owner[message] == user);
            var stores := seen.None? && message !in db.replies;
            && (r.Success? <==>
                && message in db.runs && db.runs[message].status.Processing?
                && db.runs[message].claimToken == Some(token)
                && (seen.None? ==> !hidden))
            && (r.Success? ==>
                  && r.value.isDuplicate == !stores
                  && r.value.message ==
                     (if seen.Some? then seen.value else if stores then reply else db.replies[message])
                  && db'.replies == (if stores then db.replies[message := reply] else db.replies)
                  && db'.owner == db.owner
                  && db'.runs == db.runs[message := Run(Completed, Some(r.value.message.id), None, None,
                                                        db.runs[message].attemptCount, None)])
            && (r.Failure? ==> db' == db)
  {
  }

  /** A failure is recorded exactly while the run is processing under its token, and costs no further attempt. */
  lemma FailAnswer(db: Db, message: Uuid, token: Uuid, code: string)
    ensures var (r, db') := Fail(db, message, token, code);
            && (r.Success? <==>
                && message in db.runs && db.runs[message].status.Processing?
                && db.runs[message].claimToken == Some(token))
            && (r.Success? ==>
                  db' == db.(runs := db.runs[message := Run(Failed, None, None, None,
                                                            db.runs[message].attemptCount, Some(code))]))
            && (r.Failure? ==> r.error == ClaimNoLongerOwned && db' == db)
  {
  }

  // ---------------------------------------------------------------- the program

  class AssistantRunRepository {
    const session: Session<Db>

    constructor (session: Session<Db>)
      ensures this.session == session
    {
      this.session := session;
    }

    /** Insert a first claim, else reclaim conditionally, else report the existing run. */
    method AcquireClaim(message: Uuid, leaseDuration: int, maxAttempts: int, now: Instant, token: Uuid)
      returns (r: Result<Claim, Error>)
      modifies session`staged
      ensures leaseDuration <= 0 ==> r == Failure(LeaseNotPositive)
      ensures leaseDuration > 0 && maxAttempts < 1 ==> r == Failure(AttemptLimitNotPositive)
      ensures r.Failure? ==> session.staged == old(session.staged) && (leaseDuration <= 0 || maxAttempts < 1)
      ensures r.Success? ==>
                && leaseDuration > 0 && maxAttempts >= 1
                && (r.value, session.staged)
                   == Acquire(old(session.staged), message, leaseDuration, maxAttempts, now, token)
    {
      if leaseDuration <= 0 {
        return Failure(LeaseNotPositive);
      }
      if maxAttempts < 1 {
        return Failure(AttemptLimitNotPositive);
      }
      var leaseExpiresAt := now + leaseDuration;
      var db := session.staged;

      if message !in db.runs {
        var run := Run(Processing, None, Some(token), Some(leaseExpiresAt), 1, None);
        session.staged := db.(runs := db.runs[message := run]);
        return Success(Claim(message, run, true, Some(token), now));
      }

      var existing := db.runs[message];
      var expired := existing.leaseExpiresAt.Some? && existing.leaseExpiresAt.value <= now;
      if existing.attemptCount < maxAttempts && (existing.status.Failed? || (existing.status.Processing? && expired)) {
        var run := existing.(
          status := Processing,
          claimToken := Some(token),
          leaseExpiresAt := Some(leaseExpiresAt),
          assistantMessageId := None,
          lastErrorCode := None,
          attemptCount := existing.attemptCount + 1);
        session.staged := db.(runs := db.runs[message := run]);
        return Success(Claim(message, run, true, Some(token), now));
      }
      return Success(Claim(message, existing, false, None, now));
    }

    /** The run ends as completed under its current token; under any other nothing happens. */
    method CompleteRun(message: Uuid, token: Uuid, reply: Uuid) returns (r: Option<Run>)
      modifies session`staged
      ensures r.Some? <==> Owns(old(session.staged), message, token)
      ensures r.None? ==> session.staged == old(session.staged)
      ensures r.Some? ==>
                && r.value == CompletedRun(old(session.staged).runs[message], reply)
                && session.staged == WithRun(old(session.staged), message, r.value)
    {
      var db := session.staged;
      if message in db.runs && db.runs[message].status == Processing && db.runs[message].claimToken == Some(token) {
        var run := db.runs[message].(
          status := Completed,
          assistantMessageId := Some(reply),
          claimToken := None,
          leaseExpiresAt := None,
          lastErrorCode := None);
        session.staged := db.(runs := db.runs[message := run]);
        return Some(run);
      }
      return None;
    }

    /** The run ends as failed under its current token; under any other nothing happens. `code` is already stripped. */
    method FailRun(message: Uuid, token: Uuid, code: string) returns (r: Result<Option<Run>, Error>)
      modifies session`staged
      ensures code == "" ==> r == Failure(BlankErrorCode)
      ensures |code| > 64 ==> r == Failure(ErrorCodeTooLong)
      ensures 1 <= |code| <= 64 ==>
                && r.Success?
                && (r.value.Some? <==> Owns(old(session.staged), message, token))
                && (r.value.Some? ==>
                      && r.value.value == FailedRun(old(session.staged).runs[message], code)
                      && session.staged == WithRun(old(session.staged), message, r.value.value))
      ensures r.Failure? || r.value.None? ==> session.staged == old(session.staged)
    {
      if code == "" {
        return Failure(BlankErrorCode);
      }
      if |code| > 64 {
        return Failure(ErrorCodeTooLong);
      }
      var db := session.staged;
      if message in db.runs && db.runs[message].status == Processing && db.runs[message].claimToken == Some(token) {
        var run := db.runs[message].(
          status := Failed,
          assistantMessageId := None,
          claimToken := None,
          leaseExpiresAt := None,
          lastErrorCode := Some(code));
        session.staged := db.(runs := db.runs[message := run]);
        return Success(Some(run));
      }
      return Success(None);
    }
  }

  /** Each method is one transaction: it leaves nothing staged, and nothing changed when it raises. */
  class ConversationProcessingService {
    const session: Session<Db>
    const runs: AssistantRunRepository

    ghost predicate Valid() {
      runs.session == session
    }

    constructor (session: Session<Db>)
      ensures Valid() && this.session == session
    {
      this.session := session;
      this.runs := new AssistantRunRepository(session);
    }

    /** Load a cached reply, or claim the run and commit the claim at once. */
    method StartProcessing(user: Uuid, message: Uuid, lease: int, maxAttempts: int, now: Instant, token: Uuid)
      returns (r: Result<ProcessingStart, Error>)
      requires Valid() && session.staged == session.committed
      modifies session
      ensures session.staged == session.committed
      ensures r.Failure? ==>
                && session.committed == old(session.committed)
                && (lease <= 0 || maxAttempts < 1)
                && VisibleReply(old(session.committed), user, message).None?
      ensures r.Success? ==> r.value == Start(old(session.committed), user, message, lease, maxAttempts, now, token)
      ensures r.Success? && r.value.claim.None? ==> session.committed == old(session.committed)
      ensures r.Success? && r.value.claim.Some? ==>
                session.committed == Acquire(old(session.committed), message, lease, maxAttempts, now, token).1
    {
      var cached := VisibleReply(session.staged, user, message);
      if cached.Some? {
        return Success(ProcessingStart(cached, None));
      }
      var claim := runs.AcquireClaim(message, lease, maxAttempts, now, token);
      if claim.Failure? {
        session.Rollback();
        return Failure(claim.error);
      }
      session.Commit();
      return Success(ProcessingStart(None, Some(claim.value)));
    }

    /**
     Persist a reply and complete its owned run atomically. `content` is already stripped.
     `existing` is what the transaction's first look-up answered; rows committed by other
     sessions since then are already part of `session`.
     */
    method SaveReply(user: Uuid, claim: Claim, content: string, replyId: Uuid, existing: Option<Reply>)
      returns (r: Result<SavedReply, Error>)
      requires Valid() && session.staged == session.committed
      modifies session
      ensures session.staged == session.committed
      ensures !claim.acquired || claim.token.None? ==> r == Failure(ClaimNotAcquired)
      ensures claim.acquired && claim.token.Some? && content == "" ==> r == Failure(BlankContent)
      ensures r.Failure? ==> session.committed == old(session.committed)
      ensures claim.acquired && claim.token.Some? && content != "" ==>
                (r, session.committed) ==
                Save(old(session.committed), user, claim.message, existing, claim.token.value, Reply(replyId, content))
    {
      if !claim.acquired || claim.token.None? {
        return Failure(ClaimNotAcquired);
      }
      if content == "" {
        return Failure(BlankContent);
      }
      var isDuplicate := existing.Some?;
      var message := Reply(replyId, content);
      if existing.None? {
        if claim.message in session.staged.replies {
          // The unique key on the answered message rejects the insert.
          session.Rollback();
          var found := VisibleReply(session.staged, user, claim.message);
          if found.None? {
            session.Rollback();
            return Failure(ReplyConflict);
          }
          message, isDuplicate := found.value, true;
        } else {
          session.staged := session.staged.(replies := session.staged.replies[claim.message := message]);
        }
      } else {
        message := existing.value;
      }
      var completed := runs.CompleteRun(claim.message, claim.token.value, message.id);
      if completed.None? {
        session.Rollback();
        return Failure(ClaimNoLongerOwned);
      }
      session.Commit();
      return Success(SavedReply(message, isDuplicate));
    }

    /** Mark an owned claim as failed, discarding whatever was staged since it was acquired. */
    method FailProcessing(claim: Claim, code: string) returns (r: Result<Run, Error>)
      requires Valid()
      modifies session
      ensures !claim.acquired || claim.token.None? ==>
                r == Failure(ClaimNotAcquired) && session.staged == old(session.staged)
      ensures r.Failure? ==> session.committed == old(session.committed)
      ensures claim.acquired && claim.token.Some? ==> session.staged == session.committed
      ensures claim.acquired && claim.token.Some? && 1 <= |code| <= 64 ==>
                (r, session.committed) == Fail(old(session.committed), claim.message, claim.token.value, code)
    {
      if !claim.acquired || claim.token.None? {
        return Failure(ClaimNotAcquired);
      }
      session.Rollback();
      var failed := runs.FailRun(claim.message, claim.token.value, code);
      if failed.Failure? {
        session.Rollback();
        return Failure(failed.error);
      }
      if failed.value.None? {
        session.Rollback();
        return Failure(ClaimNoLongerOwned);
      }
      session.Commit();
      return Success(failed.value.value);
    }
  }
}
