/**
 * The transaction runner as it is coded: nested retry loops over a driver session, a permit held
 * from admission to the last line, and counters updated on the way. The driver picks its answers
 * freely among those TransactionCall.Legal allows; the runner is proved to follow TransactionCall.Step.
 */
module UnitOfWork {
  import opened Prelude
  import opened TransactionCall
  import opened TransactionRetries
  import Metrics = TransactionMetrics
  import opened TransactionSemaphore
  import FifoLock

  // A number as the configuration may hold it.
  datatype Number = NotANumber | PlusInfinity | MinusInfinity | Finite(value: real)

  datatype TransactionConfig = TransactionConfig(
    maxAttempts: Option<Number>, maxBodyAttempts: Option<Number>, maxCommitAttempts: Option<Number>,
    semaphoreWaitTimeoutMs: Option<Number>, baseDelayMs: Option<Number>, maxDelayMs: Option<Number>)

  datatype Resolved = Resolved(limits: Config, waitTimeoutMs: real, baseDelayMs: Number, maxDelayMs: Number)

  const DEFAULT_LIMIT: nat := 8
  const DEFAULT_WAIT_MS := 30000.0
  const DEFAULT_BASE_MS := 50.0
  const DEFAULT_MAX_MS := 5000.0

  function ResolveAttemptLimit(value: Option<Number>, fallback: nat): (limit: nat)
    requires fallback >= 1
    ensures limit >= 1
    ensures value.Some? && value.value.Finite? ==>
              if value.value.value < 2.0 then limit == 1
              else limit as real <= value.value.value < limit as real + 1.0
    ensures !(value.Some? && value.value.Finite?) ==> limit == fallback
  {
    if value.None? || !value.value.Finite? then fallback else Max(1, value.value.value.Floor)
  }

  function OrElse(value: Option<Number>, other: Option<Number>): Option<Number> {
    if value.None? then other else value
  }

  // What the caller may count on for one limit, given its own option and the older one.
  predicate LimitFor(limit: nat, own: Option<Number>, older: Option<Number>) {
    limit == ResolveAttemptLimit(if own.Some? then own else older, DEFAULT_LIMIT)
  }

  function ResolveConfig(config: TransactionConfig): (cfg: Resolved)
    ensures Usable(cfg.limits)
    ensures LimitFor(cfg.limits.maxBody, config.maxBodyAttempts, config.maxAttempts)
    ensures LimitFor(cfg.limits.maxCommit, config.maxCommitAttempts, config.maxAttempts)
    ensures cfg.waitTimeoutMs >= 0.0
    ensures match config.semaphoreWaitTimeoutMs
            case Some(Finite(ms)) => if ms > 0.0 then cfg.waitTimeoutMs == ms else cfg.waitTimeoutMs == 0.0
            case _ => cfg.waitTimeoutMs == DEFAULT_WAIT_MS
    ensures cfg.baseDelayMs == config.baseDelayMs.GetOr(Finite(DEFAULT_BASE_MS))
    ensures cfg.maxDelayMs == config.maxDelayMs.GetOr(Finite(DEFAULT_MAX_MS))
  {
    var wait := config.semaphoreWaitTimeoutMs;
    Resolved(
      Config(ResolveAttemptLimit(OrElse(config.maxBodyAttempts, config.maxAttempts), DEFAULT_LIMIT),
             ResolveAttemptLimit(OrElse(config.maxCommitAttempts, config.maxAttempts), DEFAULT_LIMIT)),
      if wait.None? || !wait.value.Finite? then DEFAULT_WAIT_MS
      else if wait.value.value > 0.0 then wait.value.value else 0.0,
      config.baseDelayMs.GetOr(Finite(DEFAULT_BASE_MS)),
      config.maxDelayMs.GetOr(Finite(DEFAULT_MAX_MS)))
  }

  lemma DefaultConfig()
    ensures ResolveConfig(TransactionConfig(None, None, None, None, None, None)) ==
            Resolved(Config(8, 8), 30000.0, Finite(50.0), Finite(5000.0))
  {
  }

  // ---- backoff, in the arithmetic of the numbers a configuration may hold ----

  function Power2(n: nat): (p: nat)
    ensures p >= 1
  {
    if n == 0 then 1 else 2 * Power2(n - 1)
  }

  function Doubled(x: Number, times: nat): Number {
    if x.Finite? then Finite(x.value * Power2(times) as real) else x
  }

  function Smaller(x: Number, y: Number): (z: Number)
    ensures x.NotANumber? || y.NotANumber? ==> z.NotANumber?
    ensures x.Finite? && y.Finite? ==> z.Finite? && z.value <= x.value && z.value <= y.value && (z == x || z == y)
  {
    if x.NotANumber? || y.NotANumber? then NotANumber
    else if x.MinusInfinity? || y.PlusInfinity? then x
    else if y.MinusInfinity? || x.PlusInfinity? then y
    else Finite(if x.value <= y.value then x.value else y.value)
  }

  function Part(x: real, factor: real): (part: real)
    requires 0.0 <= factor < 1.0
    ensures x > 0.0 ==> part < x
    ensures x <= 0.0 ==> part <= 0.0
  {
    x * factor
  }

  // Whole milliseconds, but at least 10.
  predicate Rounded(delay: Number, part: real) {
    if part < 11.0 then delay == Finite(10.0)
    else delay.Finite? && delay.value.Floor as real == delay.value && delay.value <= part < delay.value + 1.0
  }

  function Floored(part: real): (delay: Number)
    ensures Rounded(delay, part) && delay.Finite? && delay.value == delay.value.Floor as real
    ensures delay.value == 10.0 || 10.0 < delay.value <= part
  {
    Finite(Max(part.Floor, 10) as real)
  }

  // A random part of the delay, floored, and never below 10 ms.
  function Jittered(x: Number, random: real): (delay: Number)
    requires 0.0 <= random < 1.0
    ensures x.NotANumber? ==> delay.NotANumber?
    ensures delay.Finite? ==> delay.value >= 10.0
    ensures x.Finite? ==>
              && delay.Finite? && delay.value == delay.value.Floor as real
              && (delay.value == 10.0 || 10.0 < delay.value < x.value)
  {
    match x
    case Finite(v) => Floored(Part(v, random))
    case NotANumber => NotANumber
    case MinusInfinity => if random == 0.0 then NotANumber else Finite(10.0)
    case PlusInfinity => if random == 0.0 then NotANumber else PlusInfinity
  }

  /**
   * A finite base and maximum, of either sign, give a whole number of milliseconds: 10, or more
   * than 10 and then below the doubled base and below the maximum.
   */
  function BackoffDelay(attempt: nat, baseMs: Number, maxMs: Number, random: real): (delay: Number)
    requires attempt >= 1 && 0.0 <= random < 1.0
    ensures baseMs.Finite? && maxMs.Finite? ==>
              && delay.Finite? && delay.value == delay.value.Floor as real
              && (delay.value == 10.0
                  || (10.0 < delay.value < maxMs.value && delay.value < baseMs.value * Power2(attempt - 1) as real))
    ensures baseMs.NotANumber? || maxMs.NotANumber? ==> delay.NotANumber?
    ensures delay.Finite? ==> delay.value >= 10.0
  {
    Jittered(Smaller(Doubled(baseMs, attempt - 1), maxMs), random)
  }

  lemma PowersDouble(n: nat)
    ensures Power2(0) == 1 && Power2(n + 1) == Power2(n) + Power2(n)
  {
  }

  predicate IsCap(attempt: nat, baseMs: Number, maxMs: Number, cap: real)
    requires attempt >= 1
  {
    match (baseMs, maxMs)
    case (Finite(base), Finite(max)) =>
      var doubled := base * Power2(attempt - 1) as real;
      cap <= doubled && cap <= max && (cap == doubled || cap == max)
    case (Finite(base), PlusInfinity) => cap == base * Power2(attempt - 1) as real
    case (PlusInfinity, Finite(max)) => cap == max
    case _ => false
  }

  /**
   * The delay is a random part of a cap, in whole milliseconds and at least 10. The cap is the
   * maximum or, when that is less, the base doubled for every attempt before.
   */
  lemma DelayMeans(attempt: nat, baseMs: Number, maxMs: Number, random: real, cap: real)
    requires attempt >= 1 && 0.0 <= random < 1.0
    requires IsCap(attempt, baseMs, maxMs, cap)
    ensures Rounded(BackoffDelay(attempt, baseMs, maxMs, random), cap * random)
  {
    CapIs(attempt, baseMs, maxMs, cap);
    hide Rounded, Smaller, Doubled, Power2, Floored;
    assert BackoffDelay(attempt, baseMs, maxMs, random) == Floored(Part(cap, random));
  }

  lemma CapIs(attempt: nat, baseMs: Number, maxMs: Number, cap: real)
    requires attempt >= 1
    requires IsCap(attempt, baseMs, maxMs, cap)
    ensures Smaller(Doubled(baseMs, attempt - 1), maxMs) == Finite(cap)
  {
  }

  /** Without a finite cap there is a delay only if both ends are infinite in the right way. */
  lemma InfiniteDelay(attempt: nat, baseMs: Number, maxMs: Number, random: real)
    requires attempt >= 1 && 0.0 <= random < 1.0
    requires !baseMs.NotANumber? && !maxMs.NotANumber?
    ensures baseMs.MinusInfinity? || maxMs.MinusInfinity? ==>
              BackoffDelay(attempt, baseMs, maxMs, random) == if random == 0.0 then NotANumber else Finite(10.0)
    ensures baseMs.PlusInfinity? && maxMs.PlusInfinity? ==>
              BackoffDelay(attempt, baseMs, maxMs, random) == if random == 0.0 then NotANumber else PlusInfinity
  {
  }

  /** A driver session and the server behind it, answering as an adversary would. */
  class Driver {
    const cfg: Config
    ghost const base: Metrics.Counters
    var active: bool
    // Where the call stands, and what led there.
    var call: Call
    ghost var past: seq<Call>
    ghost var answers: seq<Answer>

    constructor (cfg: Config, base: Metrics.Counters)
      requires Usable(cfg)
      ensures this.cfg == cfg && this.base == base && !active && Valid() && call == Start(cfg, base)
    {
      this.cfg, this.base, active, call, past, answers := cfg, base, false, Start(cfg, base), [], [];
    }

    ghost predicate Valid()
      reads this
    {
      Usable(cfg) && History(cfg, base, past, answers, call)
    }

    // The call took the step of answer a; what the server knows is left to Valid.
    ghost predicate Moved(before: Call, a: Answer)
      reads this
    {
      && call.cfg == before.cfg
      && call.ctl == StepControl(before.cfg, before.ctl, a)
      && call.books == StepBooks(before.books, before.ctl, call.ctl)
    }

    method Give(a: Answer)
      requires Valid() && Legal(call, a)
      modifies this`past, this`answers, this`call
      ensures Valid() && Moved(old(call), a) && answers == old(answers) + [a]
    {
      HistoryGrows(cfg, base, past, answers, call, a);
      past, answers := past + [call], answers + [a];
      call := Step(call, a);
    }

    method StartSession() returns (a: Answer)
      requires Valid() && call.ctl.pc.Opening?
      modifies this`past, this`answers, this`call
      ensures Valid() && (a.Opened? || a.OpenFailed?) && Moved(old(call), a) && answers == old(answers) + [a]
    {
      a := *;
      if !Legal(call, a) {
        a := Opened;
      }
      Give(a);
    }

    // Starts a transaction and runs the callback in it.
    method RunBody() returns (a: Answer)
      requires Valid() && call.ctl.pc.InBody?
      modifies this
      ensures Valid() && (a.BodyReturned? || a.BodyThrew?) && active == a.active
      ensures Moved(old(call), a) && answers == old(answers) + [a]
    {
      a := *;
      if !Legal(call, a) {
        a := BodyReturned(true, false);
      }
      Give(a);
      active := a.active;
    }

    method AbortTransaction() returns (a: Answer)
      requires Valid() && (call.ctl.pc.AbortingBody? || call.ctl.pc.AbortingCommit?)
      modifies this
      ensures Valid() && a.Aborted? && Moved(old(call), a) && answers == old(answers) + [a]
    {
      var ok: bool := *;
      a := Aborted(ok);
      Give(a);
      active := false;
    }

    method CommitTransaction() returns (a: Answer)
      requires Valid() && call.ctl.pc.InCommit?
      modifies this
      ensures Valid() && Moved(old(call), a) && answers == old(answers) + [a]
      ensures a.CommitReturned? || (a.CommitThrew? && active == a.active)
    {
      a := *;
      if !Legal(call, a) {
        a := CommitReturned;
      }
      Give(a);
      if a.CommitThrew? {
        active := a.active;
      }
    }

    method EndSession() returns (a: Answer)
      requires Valid() && call.ctl.pc.Closing? && call.ctl.body > 0
      modifies this`past, this`answers, this`call
      ensures Valid() && a.SessionEnded? && Moved(old(call), a) && answers == old(answers) + [a]
    {
      var ok: bool := *;
      a := SessionEnded(ok);
      Give(a);
    }

    // Nothing is asked of the driver when there is no session to end.
    method SkipSession()
      requires Valid() && call.ctl.pc.Closing? && call.ctl.body == 0
      modifies this`past, this`answers, this`call
      ensures Valid() && Moved(old(call), SessionEnded(true)) && answers == old(answers) + [SessionEnded(true)]
    {
      HistoryGrows(cfg, base, past, answers, call, SessionEnded(true));
      past, answers := past + [call], answers + [SessionEnded(true)];
      call := Step(call, SessionEnded(true));
    }
  }

  // How a call ends: inside an enclosing transaction, rejected while waiting for a permit, or
  // after a transaction of its own.
  datatype Ending = Nested | RejectedWaiting | Ended(outcome: Outcome)

  // How one commit try, or one body attempt, leaves its loop body.
  datatype AttemptExit = Committed | CommitAgain | BodyAgain | ThrowOut(e: Failure)

  // The counters once the runner has also recorded what follows from an exit.
  function Settled(counters: Metrics.Counters, exit: AttemptExit): Metrics.Counters {
    match exit
    case Committed => counters
    case CommitAgain => counters.Bump(Metrics.CommitAttempts)
    case BodyAgain => counters.Bump(Metrics.Attempts)
    case ThrowOut(e) => counters.Bump(if e.isAmbiguous then Metrics.Ambiguous else Metrics.Failures)
  }

  // Where an exit leaves the call.
  predicate LeavesAt(k: Control, exit: AttemptExit, cfg: Config, body: nat, tries: nat) {
    match exit
    case Committed => k.pc == Closing(Returned) && k.body == body
    case CommitAgain => k == Control(InCommit, body, tries + 1) && tries < cfg.maxCommit
    case BodyAgain => k == Control(InBody, body + 1, 0) && body < cfg.maxBody
    case ThrowOut(e) => k.pc == Closing(Threw(e.isAmbiguous)) && k.body == body
  }

  // A caller that is not among the given ones.
  ghost function Unused(taken: set<Caller>): (c: Caller)
    ensures forall t :: t in taken ==> t < c
    decreases |taken|
  {
    if taken == {} then 0
    else
      var t :| t in taken;
      assert taken == {t} + (taken - {t});
      Max(t + 1, Unused(taken - {t}))
  }

  // How a commit try leaves, by the driver's answers from the n-th on.
  ghost predicate CommitLeaves(answers: seq<Answer>, n: nat, exit: AttemptExit, cfg: Config, body: nat, tries: nat) {
    n < |answers| && OfCommit(answers[n]) &&
    var a := answers[n];
    && (exit.Committed? <==> a.CommitReturned?)
    && (exit.CommitAgain? <==> InDoubt(a) && !a.e.maxTime && tries < cfg.maxCommit)
    && (exit.BodyAgain? <==> FailedAttempt(a) && a.e.transient && CleanAfter(answers, n) && body < cfg.maxBody)
  }

  // How a body attempt leaves when the body itself fails.
  ghost predicate FailedBodyLeaves(answers: seq<Answer>, n: nat, exit: AttemptExit, cfg: Config, body: nat) {
    n < |answers| && OfBody(answers[n]) &&
    var a := answers[n];
    a.BodyThrew? ==>
      && (exit.BodyAgain? <==> a.e.transient && !a.e.unknown && CleanAfter(answers, n) && body < cfg.maxBody)
      && (exit.BodyAgain? || exit == ThrowOut(a.e))
  }

  /**
   * The runner and its two shared objects. Other calls use both at every await of this one: they
   * record, acquire, time out and release. me tells this call apart from them.
   */
  class Runner {
    const semaphore: Semaphore
    const metrics: Metrics.Tracker

    constructor (maxConcurrent: nat)
      requires maxConcurrent > 0
      ensures fresh(semaphore) && fresh(metrics) && semaphore.Valid() && metrics.Valid()
      ensures semaphore.capacity == maxConcurrent && semaphore.held == {} && semaphore.waiting == []
      ensures metrics.log == Metrics.Empty
    {
      semaphore := new Semaphore(maxConcurrent);
      metrics := new Metrics.Tracker();
    }

    // Both objects are sound, and the call holds a permit.
    ghost predicate Admitted(me: Caller)
      reads semaphore, semaphore.known, metrics
    {
      semaphore.Valid() && metrics.Valid() && me in semaphore.held
    }

    // ---- the other calls ----

    // Another call records something.
    method OtherRecords(ghost me: Caller)
      requires metrics.Valid()
      modifies metrics`counters, metrics`log
      ensures metrics.Valid() && metrics.Share(me) == old(metrics.Share(me))
    {
      ghost var other: Caller := *;
      if other == me {
        other := me + 1;
      }
      var what: Metrics.Recording := *;
      match what
      case Success(attempt) => metrics.RecordSuccess(attempt, other);
      case One(kind) => metrics.Record(kind, other);
    }

    method OtherAcquires(ghost me: Caller) returns (ghost ops: seq<FifoLock.Op<Waiter>>)
      requires semaphore.Valid()
      modifies semaphore
      ensures semaphore.Valid() && fresh(semaphore.known - old(semaphore.known))
      ensures old(semaphore.waiting) <= semaphore.waiting && (semaphore.Waits(me) ==> old(semaphore.Waits(me)))
      ensures me in semaphore.held <==> me in old(semaphore.held)
      ensures old(semaphore.waiting) != [] ==>
                semaphore.waiting != old(semaphore.waiting) && semaphore.permits == 0
                && ops == [FifoLock.Acquiring(semaphore.waiting[|semaphore.waiting| - 1])]
                && semaphore.Abs() == FifoLock.Acquire(old(semaphore.Abs()), ops[0].x)
    {
      ghost var taken := (set w | w in semaphore.waiting :: w.owner) + semaphore.held + {me};
      ghost var other := Unused(taken);
      assert other !in taken;
      var w := semaphore.Acquire(true, other);
      ops := if w == null then [] else [FifoLock.Acquiring(w)];
    }

    // The timer of another waiter fires.
    method OtherTimesOut(mine: Waiter?) returns (ghost ops: seq<FifoLock.Op<Waiter>>)
      requires semaphore.Valid()
      modifies semaphore, semaphore.known
      ensures semaphore.Valid() && semaphore.held == old(semaphore.held) && semaphore.known == old(semaphore.known)
      ensures forall w :: w in semaphore.waiting ==> w in old(semaphore.waiting)
      ensures mine != null && mine in old(semaphore.waiting) ==> mine in semaphore.waiting
      ensures forall w: Waiter :: FifoLock.TimingOut(w) in ops ==> w != mine
      ensures |ops| <= 1 && semaphore.Abs() == FifoLock.Run(old(semaphore.Abs()), ops) && FifoLock.Releasing !in ops
    {
      ops := [];
      var i: int := *;
      if 0 <= i < |semaphore.waiting| && semaphore.waiting[i] != mine {
        var w := semaphore.waiting[i];
        FifoLock.WithoutIsRemoval(semaphore.waiting, w);
        ops := [FifoLock.TimingOut(w)];
        semaphore.FireTimeout(w);
      }
    }

    // Another call gives its permit back, if any other holds one.
    method OtherReleases(ghost me: Caller, holding: bool) returns (ghost ops: seq<FifoLock.Op<Waiter>>)
      requires semaphore.Valid() && (holding <==> me in semaphore.held)
      modifies semaphore, semaphore.known
      ensures semaphore.Valid() && semaphore.known == old(semaphore.known)
      ensures forall w :: w in semaphore.waiting ==> w in old(semaphore.waiting)
      ensures ops == [] || ops == [FifoLock.Releasing]
      ensures semaphore.Abs() == FifoLock.Run(old(semaphore.Abs()), ops)
      ensures ops == [] ==> semaphore.held == old(semaphore.held)
      ensures ops != [] ==>
                (me in semaphore.held <==>
                   holding || (old(semaphore.waiting) != [] && old(semaphore.waiting)[0].owner == me))
      ensures ops != [] && old(semaphore.waiting) != [] ==>
                old(semaphore.waiting)[0].settled && old(semaphore.waiting)[0].outcome == Granted
    {
      ops := [];
      if semaphore.permits + (if holding then 1 else 0) < semaphore.capacity {
        assert |semaphore.held - {me}| == |semaphore.held| - if holding then 1 else 0;
        ghost var other :| other in semaphore.held - {me};
        ops := [FifoLock.Releasing];
        semaphore.Release(other);
      }
    }

    // Another call makes a move. It never times this call's waiter out, and grants it only in its turn.
    method OtherMoves(ghost me: Caller, holding: bool, mine: Waiter?) returns (ghost ops: seq<FifoLock.Op<Waiter>>)
      requires semaphore.Valid() && (holding <==> me in semaphore.held)
      requires if mine == null then !semaphore.Waits(me) else mine in semaphore.waiting && mine.owner == me
      modifies semaphore, semaphore.known
      ensures semaphore.Valid() && fresh(semaphore.known - old(semaphore.known))
      ensures if mine != null && mine in semaphore.waiting then me !in semaphore.held else !semaphore.Waits(me)
      ensures mine == null ==> (me in semaphore.held <==> holding)
      ensures mine != null && mine !in semaphore.waiting ==>
                me in semaphore.held && mine.settled && mine.outcome == Granted && ops == [FifoLock.Releasing]
      ensures forall w: Waiter :: FifoLock.TimingOut(w) in ops ==> w != mine
      ensures mine != null ==>
                && semaphore.Abs() == FifoLock.Run(old(semaphore.Abs()), ops)
                && (mine in FifoLock.Grants(old(semaphore.Abs()), ops) <==> mine !in semaphore.waiting)
    {
      var choice: int := *;
      if choice == 0 {
        ops := OtherAcquires(me);
      } else if choice == 1 {
        ops := OtherTimesOut(mine);
      } else {
        ops := OtherReleases(me, holding);
      }
    }

    // What the others record while this call awaits something, and during a backoff before it.
    method OthersRecord(ghost me: Caller)
      requires metrics.Valid()
      modifies metrics`counters, metrics`log
      ensures metrics.Valid() && metrics.Share(me) == old(metrics.Share(me))
    {
      var records: int := *;
      while records > 0
        invariant metrics.Valid() && metrics.Share(me) == old(metrics.Share(me))
      {
        OtherRecords(me);
        records := records - 1;
      }
    }

    // What the others do to the semaphore while this call does not wait for it.
    method OthersMove(ghost me: Caller, holding: bool)
      requires semaphore.Valid() && (holding <==> me in semaphore.held) && !semaphore.Waits(me)
      modifies semaphore, semaphore.known
      ensures semaphore.Valid() && fresh(semaphore.known - old(semaphore.known))
      ensures (me in semaphore.held <==> holding) && !semaphore.Waits(me)
    {
      var moves: int := *;
      while moves > 0
        invariant semaphore.Valid() && fresh(semaphore.known - old(semaphore.known))
        invariant (me in semaphore.held <==> holding) && !semaphore.Waits(me)
      {
        ghost var ops := OtherMoves(me, holding, null);
        moves := moves - 1;
      }
    }

    // ---- this call ----

    method AbortIfActive(driver: Driver, ghost me: Caller) returns (aborted: bool)
      requires metrics.Valid() && driver.Valid()
      requires driver.active ==> driver.call.ctl.pc.AbortingBody? || driver.call.ctl.pc.AbortingCommit?
      modifies driver, metrics`counters, metrics`log
      ensures metrics.Valid() && metrics.Share(me) == old(metrics.Share(me)) && driver.Valid()
      ensures old(driver.active) ==>
                && driver.Moved(old(driver.call), Aborted(aborted))
                && driver.answers == old(driver.answers) + [Aborted(aborted)]
      ensures !old(driver.active) ==>
                aborted && driver.call == old(driver.call) && driver.answers == old(driver.answers)
    {
      if !driver.active {
        return true;
      }
      OthersRecord(me);
      var a := driver.AbortTransaction();
      return a.ok;
    }

    // The commit, with what the others record before it answers.
    method AwaitCommit(driver: Driver, ghost me: Caller) returns (a: Answer)
      requires metrics.Valid() && driver.Valid() && driver.call.ctl.pc.InCommit?
      modifies driver, metrics`counters, metrics`log
      ensures metrics.Valid() && metrics.Share(me) == old(metrics.Share(me))
      ensures driver.Valid() && driver.Moved(old(driver.call), a) && driver.answers == old(driver.answers) + [a]
      ensures a.CommitReturned? || (a.CommitThrew? && driver.active == a.active)
    {
      OthersRecord(me);
      a := driver.CommitTransaction();
    }

    // One try of the commit loop.
    method TryCommit(cfg: Config, driver: Driver, bodyAttempt: nat, commitAttempt: nat, ghost me: Caller)
      returns (exit: AttemptExit)
      requires metrics.Valid() && driver.Valid() && driver.cfg == driver.call.cfg == cfg
      requires driver.call.ctl == Control(InCommit, bodyAttempt, commitAttempt)
      requires metrics.Share(me).Bump(Metrics.CommitAttempts) == driver.call.books.counters
      modifies driver, metrics`counters, metrics`log
      ensures metrics.Valid() && driver.Valid() && driver.call.cfg == cfg
      ensures old(driver.answers) <= driver.answers
      ensures CommitLeaves(driver.answers, |old(driver.answers)|, exit, cfg, bodyAttempt, commitAttempt)
      ensures LeavesAt(driver.call.ctl, exit, cfg, bodyAttempt, commitAttempt)
      ensures Settled(metrics.Share(me), exit) == driver.call.books.counters
    {
      hide History, Metrics.ShareOf, Metrics.Total;
      metrics.Record(Metrics.CommitAttempts, me);
      var commit := AwaitCommit(driver, me);
      if commit.CommitReturned? {
        metrics.RecordSuccess(bodyAttempt, me);
        return Committed;
      }
      if commit.e.unknown {
        if !commit.e.maxTime && commitAttempt < cfg.maxCommit {
          metrics.Record(Metrics.CommitRetries, me);
          return CommitAgain;
        }
        return ThrowOut(commit.e.(isAmbiguous := true));
      }
      var aborted := AbortIfActive(driver, me);
      if aborted && commit.e.transient && bodyAttempt < cfg.maxBody {
        metrics.Record(Metrics.BodyRetries, me);
        return BodyAgain;
      }
      return ThrowOut(commit.e);
    }

    // The commit loop of one body attempt.
    method AttemptCommits(cfg: Config, driver: Driver, bodyAttempt: nat, ghost me: Caller)
      returns (exit: AttemptExit)
      requires metrics.Valid() && driver.Valid() && driver.cfg == driver.call.cfg == cfg
      requires driver.call.ctl == Control(InCommit, bodyAttempt, 1)
      requires metrics.Share(me).Bump(Metrics.CommitAttempts) == driver.call.books.counters
      modifies driver, metrics`counters, metrics`log
      ensures metrics.Valid() && driver.Valid() && driver.call.cfg == cfg
      ensures old(driver.answers) <= driver.answers
      ensures !exit.CommitAgain? && LeavesAt(driver.call.ctl, exit, cfg, bodyAttempt, cfg.maxCommit)
      ensures Settled(metrics.Share(me), exit) == driver.call.books.counters
    {
      exit := CommitAgain;
      var commitAttempt := 1;
      while commitAttempt <= cfg.maxCommit
        invariant metrics.Valid() && driver.Valid() && driver.cfg == driver.call.cfg == cfg
        invariant old(driver.answers) <= driver.answers
        invariant driver.call.ctl == Control(InCommit, bodyAttempt, commitAttempt) && commitAttempt <= cfg.maxCommit
        invariant Settled(metrics.Share(me), CommitAgain) == driver.call.books.counters
        decreases cfg.maxCommit - commitAttempt
      {
        exit := TryCommit(cfg, driver, bodyAttempt, commitAttempt, me);
        if !exit.CommitAgain? {
          return;
        }
        commitAttempt := commitAttempt + 1;
      }
      assert false;
    }

    // One attempt of the body loop.
    method TryBody(cfg: Config, driver: Driver, bodyAttempt: nat, ghost me: Caller)
      returns (exit: AttemptExit)
      requires metrics.Valid() && driver.Valid() && driver.cfg == driver.call.cfg == cfg
      requires driver.call.ctl == Control(InBody, bodyAttempt, 0)
      requires metrics.Share(me).Bump(Metrics.Attempts) == driver.call.books.counters
      modifies driver, metrics`counters, metrics`log
      ensures metrics.Valid() && driver.Valid() && driver.call.cfg == cfg
      ensures FailedBodyLeaves(driver.answers, |old(driver.answers)|, exit, cfg, bodyAttempt)
      ensures !exit.CommitAgain? && LeavesAt(driver.call.ctl, exit, cfg, bodyAttempt, 0)
      ensures Settled(metrics.Share(me), exit) == driver.call.books.counters
    {
      metrics.Record(Metrics.Attempts, me);
      OthersRecord(me);
      var body := driver.RunBody();
      if body.BodyThrew? {
        var aborted := AbortIfActive(driver, me);
        var retryable := Retryable(body.e);
        if aborted && retryable && bodyAttempt < cfg.maxBody {
          metrics.Record(Metrics.BodyRetries, me);
          return BodyAgain;
        }
        return ThrowOut(body.e);
      }
      if !driver.active {
        metrics.RecordSuccess(bodyAttempt, me);
        return Committed;
      }
      exit := AttemptCommits(cfg, driver, bodyAttempt, me);
    }

    // The body loop. Neither loop ends by its own bound, so the throw after it is never reached.
    method AttemptBodies(cfg: Config, driver: Driver, ghost me: Caller) returns (exit: AttemptExit, hasSession: bool)
      requires metrics.Valid() && driver.Valid() && driver.cfg == cfg && driver.call == Start(cfg, metrics.Share(me))
      modifies driver, metrics`counters, metrics`log
      ensures metrics.Valid() && driver.Valid() && driver.call.cfg == cfg
      ensures (exit.Committed? || exit.ThrowOut?) && (hasSession <==> driver.call.ctl.body > 0)
      ensures driver.call.ctl.pc == Closing(if exit.Committed? then Returned else Threw(exit.e.isAmbiguous))
      ensures Settled(metrics.Share(me), exit) == driver.call.books.counters
    {
      exit, hasSession := BodyAgain, true;
      OthersRecord(me);
      var opening := driver.StartSession();
      if opening.OpenFailed? {
        return ThrowOut(opening.e), false;
      }
      var bodyAttempt := 1;
      while bodyAttempt <= cfg.maxBody
        invariant metrics.Valid() && driver.Valid() && driver.cfg == driver.call.cfg == cfg
        invariant driver.call.ctl == Control(InBody, bodyAttempt, 0) && 0 < bodyAttempt <= cfg.maxBody
        invariant Settled(metrics.Share(me), BodyAgain) == driver.call.books.counters
        decreases cfg.maxBody - bodyAttempt
      {
        exit := TryBody(cfg, driver, bodyAttempt, me);
        if !exit.BodyAgain? {
          return;
        }
        bodyAttempt := bodyAttempt + 1;
      }
      assert false;
    }

    // The try block and its catch clause.
    method TryAndCatch(cfg: Config, driver: Driver, ghost me: Caller) returns (outcome: Outcome, hasSession: bool)
      requires metrics.Valid() && driver.Valid() && driver.cfg == cfg && driver.call == Start(cfg, metrics.Share(me))
      modifies driver, metrics`counters, metrics`log
      ensures metrics.Valid() && driver.Valid() && driver.call.ctl.pc == Closing(outcome)
      ensures hasSession <==> driver.call.ctl.body > 0
      ensures metrics.Share(me) == driver.call.books.counters
    {
      var exit;
      exit, hasSession := AttemptBodies(cfg, driver, me);
      outcome := Returned;
      if exit.ThrowOut? {
        outcome := Threw(exit.e.isAmbiguous);
        if exit.e.isAmbiguous {
          metrics.Record(Metrics.Ambiguous, me);
        } else {
          metrics.Record(Metrics.Failures, me);
        }
      }
    }

    // The release. The transaction itself never looks at the semaphore, so the moves that the others
    // made during it are gathered here.
    method GiveBack(ghost me: Caller)
      requires semaphore.Valid() && me in semaphore.held
      modifies semaphore, semaphore.known
      ensures semaphore.Valid() && fresh(semaphore.known - old(semaphore.known))
      ensures me !in semaphore.held && !semaphore.Waits(me)
    {
      OthersMove(me, true);
      semaphore.Release(me);
    }

    // Everything from admission to the end of the finally block: the permit is given back on every path.
    method ExecuteAdmitted(cfg: Config, driver: Driver, durationMs: real, queueWaitMs: real, ghost me: Caller)
      returns (outcome: Outcome)
      requires Admitted(me)
      requires driver.Valid() && driver.cfg == cfg && driver.call == Start(cfg, metrics.Share(me))
      modifies driver, metrics, semaphore, semaphore.known
      ensures semaphore.Valid() && me !in semaphore.held && !semaphore.Waits(me)
              && fresh(semaphore.known - old(semaphore.known))
      ensures metrics.Valid() && metrics.Share(me) == driver.call.books.counters
      ensures driver.Valid() && driver.call.ctl.pc == Closed(outcome)
    {
      var hasSession;
      outcome, hasSession := TryAndCatch(cfg, driver, me);
      if hasSession {
        OthersRecord(me);
        var cleanup := driver.EndSession();
      } else {
        driver.SkipSession();
      }
      GiveBack(me);
      metrics.RecordDuration(durationMs, queueWaitMs);
    }

    /**
     * Waiting for a permit. Others release, join and time out meanwhile; the timer of this waiter may
     * fire at any point and fires in the end. What happened is a run of the abstract lock, and the
     * call is granted exactly when that run grants its waiter.
     */
    method AwaitTurn(w: Waiter, ghost me: Caller) returns (granted: bool, ghost ops: seq<FifoLock.Op<Waiter>>)
      requires semaphore.Valid() && metrics.Valid() && w in semaphore.waiting && w.owner == me
      modifies metrics`counters, metrics`log, semaphore, semaphore.known
      ensures semaphore.Valid() && metrics.Valid() && fresh(semaphore.known - old(semaphore.known))
              && metrics.Share(me) == old(metrics.Share(me))
      ensures w.settled && w.outcome == (if granted then Granted else TimedOut)
      ensures (me in semaphore.held <==> granted) && !semaphore.Waits(me)
      ensures semaphore.Abs() == FifoLock.Run(old(semaphore.Abs()), ops)
      ensures granted <==> w in FifoLock.Grants(old(semaphore.Abs()), ops)
      ensures granted <==> FifoLock.TimingOut(w) !in ops
    {
      ghost var start := semaphore.Abs();
      var patience: int := *;
      ops := [];
      while !w.settled
        invariant semaphore.Valid() && metrics.Valid() && fresh(semaphore.known - old(semaphore.known))
        invariant metrics.Share(me) == old(metrics.Share(me))
        invariant semaphore.Abs() == FifoLock.Run(start, ops)
        invariant FifoLock.TimingOut(w) !in ops && (w.settled <==> w in FifoLock.Grants(start, ops))
        invariant w.settled ==> w.outcome == Granted && me in semaphore.held && !semaphore.Waits(me)
        invariant !w.settled ==> w in semaphore.waiting
        decreases patience
      {
        var fires: bool := *;
        if fires || patience <= 0 {
          FifoLock.RunAppends(start, ops, [FifoLock.TimingOut(w)]);
          FifoLock.WithoutIsRemoval(semaphore.waiting, w);
          ops := ops + [FifoLock.TimingOut(w)];
          semaphore.FireTimeout(w);
          return false, ops;
        }
        ghost var more := OtherMoves(me, false, w);
        FifoLock.RunAppends(start, ops, more);
        ops := ops + more;
        OtherRecords(me);
        patience := patience - 1;
      }
      return true, ops;
    }

    // Takes a free permit, or waits for one.
    method Admit(ghost me: Caller) returns (granted: bool)
      requires semaphore.Valid() && metrics.Valid() && me !in semaphore.held && !semaphore.Waits(me)
      modifies metrics`counters, metrics`log, semaphore, semaphore.known
      ensures semaphore.Valid() && metrics.Valid() && fresh(semaphore.known - old(semaphore.known))
      ensures (me in semaphore.held <==> granted) && !semaphore.Waits(me)
      ensures metrics.Share(me) == old(metrics.Share(me))
      ensures old(semaphore.permits) > 0 ==> granted
    {
      var queuedAs := semaphore.Acquire(true, me);
      if queuedAs == null {
        return true;
      }
      ghost var ops;
      granted, ops := AwaitTurn(queuedAs, me);
    }

    /**
     * The whole call. A call inside an active transaction only runs its work; a call that times out
     * waiting is counted as rejected and touches no session. However it ends and whatever the others
     * do, it holds no permit and waits for none afterwards, so no permit is lost or made.
     */
    method ExecuteInTransaction(insideTransaction: bool, config: TransactionConfig, driver: Driver,
                                durationMs: real, queueWaitMs: real, ghost me: Caller)
      returns (ending: Ending)
      requires semaphore.Valid() && metrics.Valid() && me !in semaphore.held && !semaphore.Waits(me)
      requires driver.Valid() && driver.cfg == ResolveConfig(config).limits && driver.base == metrics.Share(me)
      requires driver.call == Start(driver.cfg, driver.base)
      modifies driver, metrics, semaphore, semaphore.known
      ensures semaphore.Valid() && metrics.Valid() && me !in semaphore.held && !semaphore.Waits(me)
      ensures insideTransaction <==> ending.Nested?
      ensures ending.Nested? ==> unchanged(driver) && metrics.Share(me) == old(metrics.Share(me))
      ensures ending.RejectedWaiting? ==>
                && unchanged(driver) && old(semaphore.permits) == 0
                && metrics.Share(me) == old(metrics.Share(me)).Bump(Metrics.Rejected)
      ensures ending.Ended? ==>
                && driver.Valid() && driver.call.ctl.pc == Closed(ending.outcome)
                && metrics.Share(me) == driver.call.books.counters
                && ExactlyOnce(driver.call) && WithinLimits(driver.call) && RerunsJustified(driver.call.world.log)
                && DoneAsTold(driver.call, driver.answers) && ending.outcome == Verdict(driver.answers)
    {
      if insideTransaction {
        OthersRecord(me);
        OthersMove(me, false);
        return Nested;
      }
      var cfg := ResolveConfig(config);
      var granted := Admit(me);
      if !granted {
        metrics.Record(Metrics.Rejected, me);
        metrics.RecordDuration(durationMs, durationMs);
        return RejectedWaiting;
      }
      var outcome := ExecuteAdmitted(cfg.limits, driver, durationMs, queueWaitMs, me);
      HistoryGuarantees(cfg.limits, driver.base, driver.past, driver.answers, driver.call);
      HistoryIsDoneAsTold(cfg.limits, driver.base, driver.past, driver.answers, driver.call);
      return Ended(outcome);
    }
  }
}
