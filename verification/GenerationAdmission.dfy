/**
 Admission of generation work across workers: expiring leases bound how much runs at once,
 and a usage row per user and day bounds how much runs in a day.
 */
module GenerationAdmission {
  import opened Primitives
  import opened Collections
  import opened Wrappers

  const SECOND := 1_000_000
  const RESERVED := 5 * SECOND
  const USAGE_RETENTION_DAYS := 7

  datatype Limits = Limits(globalConcurrency: nat, userConcurrency: nat, dailyRequests: nat, runLease: nat) {
    /** The ranges the configuration accepts. */
    predicate Valid() {
      globalConcurrency >= 1 && userConcurrency >= 1 && dailyRequests >= 1 && runLease >= 30 * SECOND
    }

    function Lease(): nat {
      2 * runLease
    }
  }

  datatype Lease = Lease(user: Uuid, message: Uuid, expiresAt: Instant)

  datatype Store = Store(leases: map<Uuid, Lease>, usage: map<(Uuid, int), nat>)

  datatype Refusal = AlreadyInProgress | CapacityExceeded | DailyLimitExceeded

  // ---------------------------------------------------------------- specification

  /** The UTC day of an instant: 86,400 seconds each. */
  function DayOf(now: Instant): int {
    now / 86_400_000_000
  }

  function Unexpired(leases: map<Uuid, Lease>, now: Instant): map<Uuid, Lease> {
    map t | t in leases && now < leases[t].expiresAt :: leases[t]
  }

  function OfUser(leases: map<Uuid, Lease>, user: Uuid): set<Uuid> {
    set t | t in leases && leases[t].user == user
  }

  function OfMessage(leases: map<Uuid, Lease>, user: Uuid, message: Uuid): set<Uuid> {
    set t | t in leases && leases[t].user == user && leases[t].message == message
  }

  function Used(store: Store, user: Uuid, day: int): nat {
    if (user, day) in store.usage then store.usage[(user, day)] else 0
  }

  /** The first reason, in the order the transaction checks them, to refuse a reservation. */
  function Refused(limits: Limits, store: Store, user: Uuid, message: Uuid, now: Instant): Option<Refusal> {
    var live := Unexpired(store.leases, now);
    if OfMessage(live, user, message) != {} then Some(AlreadyInProgress)
    else if |live| >= limits.globalConcurrency || |OfUser(live, user)| >= limits.userConcurrency
      then Some(CapacityExceeded)
    else if (user, DayOf(now)) in store.usage && Used(store, user, DayOf(now)) >= limits.dailyRequests then
      Some(DailyLimitExceeded)
    else None
  }

  /** Only this user's usage rows more than a week old are dropped. */
  function Retained(usage: map<(Uuid, int), nat>, user: Uuid, today: int): map<(Uuid, int), nat> {
    map k | k in usage && !(k.0 == user && k.1 < today - USAGE_RETENTION_DAYS) :: usage[k]
  }

  function Granted(limits: Limits, store: Store, user: Uuid, message: Uuid, now: Instant, token: Uuid): Store {
    var today := DayOf(now);
    Store(
      Unexpired(store.leases, now)[token := Lease(user, message, now + limits.Lease())],
      Retained(store.usage, user, today)[(user, today) := Used(store, user, today) + 1])
  }

  function Released(store: Store, token: Uuid, user: Uuid): Store {
    store.(leases := map t | t in store.leases && !(t == token && store.leases[t].user == user) :: store.leases[t])
  }

  /** The rows that still count at `now`, of everybody or of one user. */
  ghost function Counting(store: Store, now: Instant): set<Uuid> {
    set t | t in store.leases && store.leases[t].expiresAt > now
  }

  ghost function CountingFor(store: Store, user: Uuid, now: Instant): set<Uuid> {
    set t | t in Counting(store, now) && store.leases[t].user == user
  }

  /** An unexpired row has this user and this message. */
  ghost predicate InProgress(store: Store, user: Uuid, message: Uuid, now: Instant) {
    exists t :: t in CountingFor(store, user, now) && store.leases[t].message == message
  }

  /** Counting the unexpired rows is counting what the deletion of the expired ones leaves. */
  lemma CountsAgree(store: Store, user: Uuid, message: Uuid, now: Instant)
    ensures var live := Unexpired(store.leases, now);
            && |live| == |Counting(store, now)| && OfUser(live, user) == CountingFor(store, user, now)
            && (OfMessage(live, user, message) != {} <==> InProgress(store, user, message, now))
  {
    var live := Unexpired(store.leases, now);
    assert live.Keys == Counting(store, now);
    if t :| t in OfMessage(live, user, message) {
      assert t in CountingFor(store, user, now);
    }
    if t :| t in CountingFor(store, user, now) && store.leases[t].message == message {
      assert t in OfMessage(live, user, message);
    }
  }

  /**
   Exactly when a reservation is granted, and what a refusal means, on the stored rows: nothing of
   this user's message in progress, a free place in both limits, a request left in the UTC day.
   */
  lemma ReservationAnswer(limits: Limits, store: Store, user: Uuid, message: Uuid, now: Instant)
    ensures var answer := Refused(limits, store, user, message, now);
            var doubled := InProgress(store, user, message, now);
            var room := && |Counting(store, now)| < limits.globalConcurrency
                        && |CountingFor(store, user, now)| < limits.userConcurrency;
            var today := now / 86_400_000_000;
            var left := (user, today) in store.usage ==> store.usage[(user, today)] < limits.dailyRequests;
            && (answer.None? <==> !doubled && room && left)
            && (answer == Some(AlreadyInProgress) <==> doubled)
            && (answer == Some(CapacityExceeded) <==> !doubled && !room)
            && (answer == Some(DailyLimitExceeded) <==> !doubled && room && !left)
  {
    CountsAgree(store, user, message, now);
  }

  /**
   What a grant stores: the unexpired rows and one that runs out after twice the run lease; one
   more request of today; of this user's older counts only those of the last seven days.
   */
  lemma GrantEffect(limits: Limits, store: Store, user: Uuid, message: Uuid, now: Instant, token: Uuid)
    requires token !in store.leases
    ensures var after := Granted(limits, store, user, message, now, token);
            var today := now / 86_400_000_000;
            && after.leases.Keys == Counting(store, now) + {token}
            && (forall t :: t in Counting(store, now) ==> after.leases[t] == store.leases[t])
            && after.leases[token] == Lease(user, message, now + 2 * limits.runLease)
            && (forall u, d :: u != user ==> ((u, d) in after.usage <==> (u, d) in store.usage))
            && (forall d :: (user, d) in after.usage <==> d == today || ((user, d) in store.usage && d >= today - 7))
            && (forall k :: k in after.usage && k != (user, today) ==> after.usage[k] == store.usage[k])
            && after.usage[(user, today)] ==
               1 + if (user, today) in store.usage then store.usage[(user, today)] else 0
  {
  }

  /** Releasing a reservation gives back the rows there would be without it; a stranger's release does nothing. */
  lemma ReleaseUndoesGrant(
    limits: Limits, store: Store, user: Uuid, message: Uuid, now: Instant, token: Uuid, caller: Uuid)
    requires token !in store.leases
    ensures var granted := Granted(limits, store, user, message, now, token);
            var released := Released(granted, token, caller);
            && released.usage == granted.usage
            && (caller != user ==> released == granted)
            && (caller == user ==>
                  && released.leases.Keys == Counting(store, now)
                  && forall t :: t in released.leases ==> released.leases[t] == store.leases[t])
  {
    var granted := Granted(limits, store, user, message, now, token);
    if caller != user {
      assert Released(granted, token, caller).leases == granted.leases;
    }
  }

  // ---------------------------------------------------------------- the program

  class GenerationAdmission {
    const limits: Limits
    var leases: map<Uuid, Lease>
    var usage: map<(Uuid, int), nat>

    ghost function Value(): Store
      reads this
    {
      Store(leases, usage)
    }

    constructor (limits: Limits)
      ensures this.limits == limits && Value() == Store(map[], map[])
    {
      this.limits := limits;
      leases, usage := map[], map[];
    }

    /**
     The reservation transaction under the advisory lock: expired rows are deleted first,
     and every refusal raises, which rolls that deletion back too.
     */
    method Reserve(user: Uuid, message: Uuid, now: Instant, token: Uuid) returns (r: Result<Lease, Refusal>)
      requires token !in leases
      modifies this
      ensures r.Failure? <==> Refused(limits, old(Value()), user, message, now).Some?
      ensures r.Failure? ==>
                && Some(r.error) == Refused(limits, old(Value()), user, message, now)
                && Value() == old(Value())
      ensures r.Success? ==>
                && Value() == Granted(limits, old(Value()), user, message, now, token)
                && r.value == leases[token]
    {
      var committed := leases;
      var today := now / 86_400_000_000;
      leases := map t | t in leases && !(leases[t].expiresAt <= now) :: leases[t];
      assert leases == Unexpired(committed, now);

      var own := OfUser(leases, user);
      if OfMessage(leases, user, message) != {} {
        leases := committed;
        return Failure(AlreadyInProgress);
      }
      if |leases| >= limits.globalConcurrency || |own| >= limits.userConcurrency {
        leases := committed;
        return Failure(CapacityExceeded);
      }
      var row := if (user, today) in usage then Some(usage[(user, today)]) else None;
      if row.Some? && row.value >= limits.dailyRequests {
        leases := committed;
        return Failure(DailyLimitExceeded);
      }
      usage := map k | k in usage && !(k.0 == user && k.1 < today - USAGE_RETENTION_DAYS) :: usage[k];
      assert usage == Retained(old(usage), user, today);
      if row.None? {
        usage := usage[(user, today) := 1];
      } else {
        usage := usage[(user, today) := row.value + 1];
      }
      var lease := Lease(user, message, now + limits.Lease());
      leases := leases[token := lease];
      return Success(lease);
    }

    /** Clean-up after the body: capacity comes back before the row expires. */
    method Release(token: Uuid, user: Uuid)
      modifies this
      ensures Value() == Released(old(Value()), token, user)
    {
      if token in leases && leases[token].user == user {
        leases := leases - {token};
      }
    }
  }

  // ---------------------------------------------------------------- bodies over time

  /**
   A running generation body. Its timeout was set from the loop clock before admission; a
   timeout already past when the body starts cancels it there and then.
   */
  datatype Body = Body(user: Uuid, message: Uuid, deadline: Instant)

  datatype Grant = Grant(user: Uuid, day: int)

  datatype World = World(clock: Instant, store: Store, bodies: map<Uuid, Body>, grants: seq<Grant>)

  datatype Step =
    | Reserve(token: Uuid, user: Uuid, message: Uuid, calledAt: Instant)
    | Finish(token: Uuid)
    | Release(token: Uuid, user: Uuid)
    | Tick(now: Instant)

  function Init(): World {
    World(0, Store(map[], map[]), map[], [])
  }

  predicate Enabled(s: World, step: Step) {
    match step
    case Reserve(token, _, _, calledAt) => calledAt <= s.clock && token !in s.store.leases && token !in s.bodies
    case Finish(token) => token in s.bodies
    // The clean-up of a reservation runs only once its body is over; it may also never run.
    case Release(token, _) => token !in s.bodies
    case Tick(now) => s.clock <= now
  }

  /** A cancelled body is over `cleanup` after its deadline at the latest. */
  predicate OnTime(s: World, step: Step, cleanup: nat) {
    step.Tick? ==> forall t :: t in s.bodies ==> step.now <= s.bodies[t].deadline + cleanup
  }

  function Next(limits: Limits, s: World, step: Step): World
    requires Enabled(s, step)
  {
    match step
    case Reserve(token, user, message, calledAt) =>
      if Refused(limits, s.store, user, message, s.clock).Some? then s
      else World(
        s.clock,
        Granted(limits, s.store, user, message, s.clock, token),
        s.bodies[token := Body(user, message, Later(calledAt + limits.Lease() - RESERVED, s.clock))],
        s.grants + [Grant(user, DayOf(s.clock))])
    case Finish(token) => s.(bodies := s.bodies - {token})
    case Release(token, user) => s.(store := Released(s.store, token, user))
    case Tick(now) => s.(clock := now)
  }

  predicate Legal(limits: Limits, cleanup: nat, s: World, steps: seq<Step>)
    decreases |steps|
  {
    steps == [] ||
    (&& Enabled(s, steps[0]) && OnTime(s, steps[0], cleanup)
     && Legal(limits, cleanup, Next(limits, s, steps[0]), steps[1..]))
  }

  function After(limits: Limits, cleanup: nat, s: World, steps: seq<Step>): World
    requires Legal(limits, cleanup, s, steps)
    decreases |steps|
  {
    if steps == [] then s else After(limits, cleanup, Next(limits, s, steps[0]), steps[1..])
  }

  // ---------------------------------------------------------------- what is running is bounded

  predicate SameMessage(a: Lease, b: Lease) {
    a.user == b.user && a.message == b.message
  }

  /** Rows respect every limit by themselves. */
  ghost predicate RowsBounded(limits: Limits, leases: map<Uuid, Lease>) {
    && |leases| <= limits.globalConcurrency
    && (forall user :: |OfUser(leases, user)| <= limits.userConcurrency)
    && OnePerMessage(leases)
  }

  ghost predicate OnePerMessage(leases: map<Uuid, Lease>) {
    forall t, u :: t in leases && u in leases && t != u ==> !SameMessage(leases[t], leases[u])
  }

  /** Every running body is backed by its own row, which outlives it. */
  predicate Backed(s: World, cleanup: nat, token: Uuid, body: Body) {
    && token in s.store.leases
    && s.store.leases[token].user == body.user
    && s.store.leases[token].message == body.message
    && s.clock <= body.deadline + cleanup
    && body.deadline + RESERVED <= s.store.leases[token].expiresAt
  }

  ghost predicate Admissible(limits: Limits, cleanup: nat, s: World) {
    && RowsBounded(limits, s.store.leases)
    && (forall t :: t in s.bodies ==> Backed(s, cleanup, t, s.bodies[t]))
  }

  lemma FewerRowsBounded(limits: Limits, leases: map<Uuid, Lease>, fewer: map<Uuid, Lease>)
    requires RowsBounded(limits, leases)
    requires forall t :: t in fewer ==> t in leases && fewer[t] == leases[t]
    ensures RowsBounded(limits, fewer)
  {
    SubsetSize(fewer.Keys, leases.Keys);
    forall user ensures |OfUser(fewer, user)| <= limits.userConcurrency {
      SubsetSize(OfUser(fewer, user), OfUser(leases, user));
    }
  }

  lemma NewRowBounded(limits: Limits, leases: map<Uuid, Lease>, token: Uuid, row: Lease)
    requires RowsBounded(limits, leases) && token !in leases
    requires |leases| < limits.globalConcurrency && |OfUser(leases, row.user)| < limits.userConcurrency
    requires OfMessage(leases, row.user, row.message) == {}
    ensures RowsBounded(limits, leases[token := row])
  {
    var more := leases[token := row];
    forall user ensures |OfUser(more, user)| <= limits.userConcurrency {
      NewRowOfUser(leases, token, row, user);
    }
    NewRowApart(leases, token, row);
  }

  lemma NewRowOfUser(leases: map<Uuid, Lease>, token: Uuid, row: Lease, user: Uuid)
    requires token !in leases
    ensures |OfUser(leases[token := row], user)| == |OfUser(leases, user)| + if row.user == user then 1 else 0
  {
    assert OfUser(leases[token := row], user) == OfUser(leases, user) + if row.user == user then {token} else {};
  }

  lemma NewRowApart(leases: map<Uuid, Lease>, token: Uuid, row: Lease)
    requires OnePerMessage(leases) && token !in leases && OfMessage(leases, row.user, row.message) == {}
    ensures OnePerMessage(leases[token := row])
  {
    forall t | t in leases ensures !SameMessage(leases[t], row) {
      assert t !in OfMessage(leases, row.user, row.message);
    }
  }

  lemma GrantKeepsRows(limits: Limits, store: Store, user: Uuid, message: Uuid, now: Instant, token: Uuid)
    requires RowsBounded(limits, store.leases) && token !in store.leases
    requires Refused(limits, store, user, message, now).None?
    ensures RowsBounded(limits, Granted(limits, store, user, message, now, token).leases)
  {
    var live := Unexpired(store.leases, now);
    assert RowsBounded(limits, live) by { FewerRowsBounded(limits, store.leases, live); }
    assert token !in live && |live| < limits.globalConcurrency && |OfUser(live, user)| < limits.userConcurrency;
    NewRowBounded(limits, live, token, Lease(user, message, now + limits.Lease()));
  }

  lemma StepKeepsAdmissible(limits: Limits, cleanup: nat, s: World, step: Step)
    requires limits.Valid() && cleanup < RESERVED
    requires Admissible(limits, cleanup, s) && Enabled(s, step) && OnTime(s, step, cleanup)
    ensures Admissible(limits, cleanup, Next(limits, s, step))
  {
    var s' := Next(limits, s, step);
    match step
    case Reserve(token, user, message, calledAt) =>
      if Refused(limits, s.store, user, message, s.clock).None? {
        GrantKeepsRows(limits, s.store, user, message, s.clock, token);
        forall t | t in s'.bodies ensures Backed(s', cleanup, t, s'.bodies[t]) {
          assert t == token || Backed(s, cleanup, t, s.bodies[t]);
        }
      }
    case Release(token, user) =>
      FewerRowsBounded(limits, s.store.leases, s'.store.leases);
      forall t | t in s'.bodies ensures Backed(s', cleanup, t, s'.bodies[t]) {
        assert Backed(s, cleanup, t, s.bodies[t]);
      }
    case _ =>
      forall t | t in s'.bodies ensures Backed(s', cleanup, t, s'.bodies[t]) {
        assert Backed(s, cleanup, t, s.bodies[t]);
      }
  }

  lemma {:induction false} RunKeepsAdmissible(limits: Limits, cleanup: nat, s: World, steps: seq<Step>)
    requires limits.Valid() && cleanup < RESERVED
    requires Admissible(limits, cleanup, s) && Legal(limits, cleanup, s, steps)
    ensures Admissible(limits, cleanup, After(limits, cleanup, s, steps))
    decreases |steps|
  {
    if steps != [] {
      StepKeepsAdmissible(limits, cleanup, s, steps[0]);
      RunKeepsAdmissible(limits, cleanup, Next(limits, s, steps[0]), steps[1..]);
    }
  }

  function Running(s: World, user: Uuid): set<Uuid> {
    set t | t in s.bodies && s.bodies[t].user == user
  }

  /** Two bodies are running for one message of one user. */
  predicate Doubled(s: World, t: Uuid, u: Uuid) {
    && t != u && t in s.bodies && u in s.bodies
    && s.bodies[t].user == s.bodies[u].user
    && s.bodies[t].message == s.bodies[u].message
  }

  /**
   The guarantee about work rather than rows: at every instant of every run the bodies
   actually running are within the global limit and each user's limit, at most one of them
   per user and message, as long as a cancelled body ends less than five seconds after its
   deadline.
   */
  lemma {:induction false} RunningIsBounded(
    limits: Limits, cleanup: nat, steps: seq<Step>, user: Uuid, t: Uuid, u: Uuid)
    requires limits.Valid() && cleanup < RESERVED && Legal(limits, cleanup, Init(), steps)
    ensures var s := After(limits, cleanup, Init(), steps);
            && |s.bodies| <= limits.globalConcurrency
            && |Running(s, user)| <= limits.userConcurrency
            && !Doubled(s, t, u)
  {
    forall v ensures OfUser(Init().store.leases, v) == {} {}
    RunKeepsAdmissible(limits, cleanup, Init(), steps);
    var s := After(limits, cleanup, Init(), steps);
    forall b | b in s.bodies ensures Backed(s, cleanup, b, s.bodies[b]) {}
    SubsetSize(s.bodies.Keys, s.store.leases.Keys);
    SubsetSize(Running(s, user), OfUser(s.store.leases, user));
  }

  // ---------------------------------------------------------------- the five seconds are needed

  ghost predicate NeverDoubled(limits: Limits, cleanup: nat) {
    forall steps, t, u :: Legal(limits, cleanup, Init(), steps) ==>
      !Doubled(After(limits, cleanup, Init(), steps), t, u)
  }

  lemma Prepend(limits: Limits, cleanup: nat, s: World, step: Step, rest: seq<Step>, s': World)
    requires Enabled(s, step) && OnTime(s, step, cleanup) && Next(limits, s, step) == s'
    requires Legal(limits, cleanup, s', rest)
    ensures Legal(limits, cleanup, s, [step] + rest)
    ensures After(limits, cleanup, s, [step] + rest) == After(limits, cleanup, s', rest)
  {
    assert ([step] + rest)[1..] == rest;
  }

  /** A body that may linger five seconds is still running when its row expires and the message is admitted again. */
  lemma LingeringBodyDoubles(limits: Limits, cleanup: nat) returns (steps: seq<Step>)
    requires limits.Valid() && limits.dailyRequests >= 2 && cleanup >= RESERVED
    ensures Legal(limits, cleanup, Init(), steps)
    ensures Doubled(After(limits, cleanup, Init(), steps), 0, 1)
  {
    var first, second := Reserve(0, 0, 0, 0), Reserve(1, 0, 0, 0);
    var wait := Tick(limits.Lease());
    var s0 := Init();
    assert Unexpired(s0.store.leases, 0) == map[] && OfUser(map[], 0) == {} && OfMessage(map[], 0, 0) == {};
    var s1 := Next(limits, s0, first);
    var s2 := Next(limits, s1, wait);
    assert Unexpired(s2.store.leases, s2.clock) == map[];
    var s3 := Next(limits, s2, second);
    steps := [];
    Prepend(limits, cleanup, s2, second, steps, s3);
    steps := [second] + steps;
    Prepend(limits, cleanup, s1, wait, steps, s2);
    steps := [wait] + steps;
    Prepend(limits, cleanup, s0, first, steps, s1);
    steps := [first] + steps;
  }

  /**
   With a second request left in the day, one body per message is guaranteed exactly below five seconds of clean-up.
   */
  lemma NeverDoubledIffCleanupFits(limits: Limits, cleanup: nat)
    requires limits.Valid() && limits.dailyRequests >= 2
    ensures NeverDoubled(limits, cleanup) <==> cleanup < 5_000_000
  {
    if cleanup < RESERVED {
      forall steps, t, u | Legal(limits, cleanup, Init(), steps)
        ensures !Doubled(After(limits, cleanup, Init(), steps), t, u)
      {
        RunningIsBounded(limits, cleanup, steps, 0, t, u);
      }
    } else {
      var steps := LingeringBodyDoubles(limits, cleanup);
      assert Legal(limits, cleanup, Init(), steps);
      assert Doubled(After(limits, cleanup, Init(), steps), 0, 1);
    }
  }

  // ---------------------------------------------------------------- daily usage

  /** How many of the admissions were granted to `g`'s user on `g`'s day. */
  function Admissions(grants: seq<Grant>, g: Grant): nat {
    Count(grants, (other: Grant) => other == g)
  }

  /** A stored row, and every row of the last seven days stored or not, counts the admissions of its day. */
  predicate UsageExact(limits: Limits, s: World, g: Grant) {
    && Admissions(s.grants, g) <= limits.dailyRequests
    && (DayOf(s.clock) < g.day ==> Admissions(s.grants, g) == 0)
    && ((g.user, g.day) in s.store.usage || g.day >= DayOf(s.clock) - USAGE_RETENTION_DAYS ==>
          Used(s.store, g.user, g.day) == Admissions(s.grants, g))
  }

  lemma AdmissionsAppend(grants: seq<Grant>, e: Grant, g: Grant)
    ensures Admissions(grants + [e], g) == Admissions(grants, g) + if e == g then 1 else 0
  {
    CountAppend(grants, e, (other: Grant) => other == g);
  }

  lemma {:induction false} RunKeepsUsage(limits: Limits, cleanup: nat, s: World, steps: seq<Step>, g: Grant)
    requires limits.Valid() && UsageExact(limits, s, g) && Legal(limits, cleanup, s, steps)
    ensures UsageExact(limits, After(limits, cleanup, s, steps), g)
    decreases |steps|
  {
    if steps != [] {
      if steps[0].Reserve? {
        AdmissionsAppend(s.grants, Grant(steps[0].user, DayOf(s.clock)), g);
      }
      assert UsageExact(limits, Next(limits, s, steps[0]), g);
      RunKeepsUsage(limits, cleanup, Next(limits, s, steps[0]), steps[1..], g);
    }
  }

  /**
   Whatever mix of releases, expiries, refusals and deletions of old rows happens, the usage
   stored for any user and any of the last seven days is the number of admissions granted
   that day, and no day ever saw more admissions than the daily limit.
   */
  lemma UsageCountsAdmissions(limits: Limits, cleanup: nat, steps: seq<Step>, user: Uuid, day: int)
    requires limits.Valid() && Legal(limits, cleanup, Init(), steps)
    ensures var s := After(limits, cleanup, Init(), steps);
            && Admissions(s.grants, Grant(user, day)) <= limits.dailyRequests
            && (day >= DayOf(s.clock) - USAGE_RETENTION_DAYS ==>
                  Used(s.store, user, day) == Admissions(s.grants, Grant(user, day)))
  {
    RunKeepsUsage(limits, cleanup, Init(), steps, Grant(user, day));
  }

  /**
   The converse of the bounds: in every reachable state a body starts exactly when no unexpired
   row has its user and message, unexpired rows leave room for everybody and for this user, and
   fewer admissions were granted to this user today than a day allows.
   */
  lemma AdmittedIffRoom(limits: Limits, cleanup: nat, steps: seq<Step>, step: Step)
    requires limits.Valid() && Legal(limits, cleanup, Init(), steps)
    requires Enabled(After(limits, cleanup, Init(), steps), step) && step.Reserve?
    ensures var s := After(limits, cleanup, Init(), steps);
            var s' := Next(limits, s, step);
            var admitted :=
              && !InProgress(s.store, step.user, step.message, s.clock)
              && |Counting(s.store, s.clock)| < limits.globalConcurrency
              && |CountingFor(s.store, step.user, s.clock)| < limits.userConcurrency
              && Admissions(s.grants, Grant(step.user, s.clock / 86_400_000_000)) < limits.dailyRequests;
            && (step.token in s'.bodies <==> admitted)
            && (!admitted ==> s' == s)
            && (admitted ==> s'.grants == s.grants + [Grant(step.user, s.clock / 86_400_000_000)])
  {
    var s := After(limits, cleanup, Init(), steps);
    UsageCountsAdmissions(limits, cleanup, steps, step.user, DayOf(s.clock));
    ReservationAnswer(limits, s.store, step.user, step.message, s.clock);
  }
}
