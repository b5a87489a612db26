/**
 * Any number of transaction calls interleaving over one semaphore and one set of counters.
 * An action is one caller's move between two suspensions: arriving, timing out, or taking the
 * next driver answer. The last answer of a call gives its permit to the head of the queue.
 */
module TransactionSystem {
  import opened Prelude
  import opened TransactionCall
  import FifoLock
  import Metrics = TransactionMetrics
  import Tally

  type Id = nat

  datatype Phase = Waiting(cfg: Config) | Running(call: Call) | Finished(call: Call) | Rejected

  datatype System = System(
    lock: FifoLock.Lock<Id>, callers: map<Id, Phase>, base: Metrics.Counters, counters: Metrics.Counters, releases: nat)

  datatype Action = Arrive(id: Id, cfg: Config) | TimeOut(id: Id) | Advance(id: Id, answer: Answer)

  // base: what the counters show when the run begins.
  function Init(capacity: nat, base: Metrics.Counters): System {
    System(FifoLock.Lock(capacity, []), map[], base, base, 0)
  }

  predicate Enabled(s: System, a: Action) {
    match a
    case Arrive(id, cfg) => id !in s.callers && Usable(cfg)
    case TimeOut(id) => id in s.callers && s.callers[id].Waiting?
    case Advance(id, answer) => id in s.callers && s.callers[id].Running? && Legal(s.callers[id].call, answer)
  }

  // What one step of a call added to the counters it shares.
  function Delta(before: Metrics.Counters, after: Metrics.Counters, total: Metrics.Counters): Metrics.Counters {
    Metrics.Counters(
      Metrics.Tries(total.bodies.attempts + Gain(before.bodies.attempts, after.bodies.attempts),
                    total.bodies.retries + Gain(before.bodies.retries, after.bodies.retries)),
      Metrics.Tries(total.commits.attempts + Gain(before.commits.attempts, after.commits.attempts),
                    total.commits.retries + Gain(before.commits.retries, after.commits.retries)),
      Metrics.Ends(total.ends.successes + Gain(before.ends.successes, after.ends.successes),
                   total.ends.failures + Gain(before.ends.failures, after.ends.failures)),
      Metrics.Doubts(total.doubts.ambiguous + Gain(before.doubts.ambiguous, after.doubts.ambiguous),
                     total.doubts.rejected + Gain(before.doubts.rejected, after.doubts.rejected)),
      Metrics.Reruns(total.reruns.retried + Gain(before.reruns.retried, after.reruns.retried),
                     total.reruns.totalRetries + Gain(before.reruns.totalRetries, after.reruns.totalRetries)))
  }

  function Gain(before: nat, after: nat): nat {
    if before <= after then after - before else 0
  }

  // The permit goes to the head of the queue, which starts running, or back to the pool.
  function ReleasePermit(s: System): System
    requires s.lock.queue != [] ==> s.lock.queue[0] in s.callers && s.callers[s.lock.queue[0]].Waiting?
  {
    var callers :=
      if s.lock.queue == [] then s.callers
      else s.callers[s.lock.queue[0] := Running(Start(s.callers[s.lock.queue[0]].cfg, s.counters))];
    s.(lock := FifoLock.Release(s.lock), callers := callers, releases := s.releases + 1)
  }

  function Next(s: System, a: Action): System
    requires Enabled(s, a) && QueueIsWaiting(s)
  {
    match a
    case Arrive(id, cfg) =>
      s.(lock := FifoLock.Acquire(s.lock, id),
         callers := s.callers[id := if s.lock.permits > 0 then Running(Start(cfg, s.counters)) else Waiting(cfg)])
    case TimeOut(id) =>
      s.(lock := FifoLock.Timeout(s.lock, id), callers := s.callers[id := Rejected],
         counters := s.counters.Bump(Metrics.Rejected))
    case Advance(id, answer) =>
      var c := s.callers[id].call;
      var c' := Step(c, answer);
      var t := s.(counters := Delta(c.books.counters, c'.books.counters, s.counters));
      if c'.ctl.pc.Closed? then ReleasePermit(t.(callers := s.callers[id := Finished(c')]))
      else t.(callers := s.callers[id := Running(c')])
  }

  // ---- sums over the callers ----

  function Holds(p: Phase): int { if p.Running? then 1 else 0 }

  function Done(p: Phase): int { if p.Finished? then 1 else 0 }

  // What one caller has added to a counter.
  function Share(k: Metrics.Kind): Phase -> int {
    (p: Phase) =>
      match p
      case Waiting(_) => 0
      case Running(c) => c.books.counters.Get(k) - c.books.base.Get(k)
      case Finished(c) => c.books.counters.Get(k) - c.books.base.Get(k)
      case Rejected => if k.Rejected? then 1 else 0
  }

  function BodyLoops(p: Phase): int {
    match p case Running(c) => c.books.bodyLoops case Finished(c) => c.books.bodyLoops case _ => 0
  }

  function CommitLoops(p: Phase): int {
    match p case Running(c) => c.books.commitLoops case Finished(c) => c.books.commitLoops case _ => 0
  }

  // Calls whose outcome is recorded already.
  function Ended(p: Phase): int {
    match p
    case Waiting(_) => 0
    case Running(c) => if c.ctl.pc.Over() then 1 else 0
    case Finished(_) => 1
    case Rejected => 1
  }

  // ---- the invariant ----

  // The queue holds exactly the waiting callers.
  ghost predicate QueueIsWaiting(s: System) {
    forall id :: id in s.lock.queue <==> id in s.callers && s.callers[id].Waiting?
  }

  ghost predicate PhaseOk(p: Phase) {
    && (p.Waiting? ==> Usable(p.cfg))
    && (p.Running? ==> !p.call.ctl.pc.Closed? && Inv(p.call))
    && (p.Finished? ==> p.call.ctl.pc.Closed? && Inv(p.call))
  }

  ghost predicate SystemInv(s: System, capacity: nat) {
    && FifoLock.WellFormed(s.lock)
    && QueueIsWaiting(s)
    && (forall id :: id in s.callers ==> PhaseOk(s.callers[id]))
    && s.lock.permits + Tally.Sum(s.callers, Holds) == capacity
    && s.releases == Tally.Sum(s.callers, Done)
    && forall k: Metrics.Kind :: s.counters.Get(k) == s.base.Get(k) + Tally.Sum(s.callers, Share(k))
  }

  // A step never takes anything off a counter.
  lemma StepOnlyAdds(c: Call, a: Answer, k: Metrics.Kind)
    ensures c.books.counters.Get(k) <= Step(c, a).books.counters.Get(k)
  {
  }

  lemma PutPhase(s: System, id: Id, p: Phase, f: Phase -> int)
    ensures Tally.Sum(s.callers[id := p], f) ==
            Tally.Sum(s.callers, f) - (if id in s.callers then f(s.callers[id]) else 0) + f(p)
  {
    Tally.SumPut(s.callers, id, p, f);
  }

  lemma ArriveKeepsQueue(s: System, id: Id, cfg: Config)
    requires FifoLock.WellFormed(s.lock) && QueueIsWaiting(s) && Enabled(s, Arrive(id, cfg))
    ensures FifoLock.WellFormed(Next(s, Arrive(id, cfg)).lock) && QueueIsWaiting(Next(s, Arrive(id, cfg)))
  {
    assert id !in s.lock.queue;
  }

  lemma StartIsOk(cfg: Config, base: Metrics.Counters)
    requires Usable(cfg)
    ensures PhaseOk(Running(Start(cfg, base)))
  {
    StartInv(cfg, base);
  }

  lemma ArriveKeepsInv(s: System, capacity: nat, id: Id, cfg: Config)
    requires SystemInv(s, capacity) && Enabled(s, Arrive(id, cfg))
    ensures SystemInv(Next(s, Arrive(id, cfg)), capacity)
  {
    var t := Next(s, Arrive(id, cfg));
    var p := t.callers[id];
    ArriveKeepsQueue(s, id, cfg);
    PutPhase(s, id, p, Holds);
    PutPhase(s, id, p, Done);
    StartIsOk(cfg, s.counters);
    forall k: Metrics.Kind ensures t.counters.Get(k) == t.base.Get(k) + Tally.Sum(t.callers, Share(k)) {
      PutPhase(s, id, p, Share(k));
    }
  }

  lemma TimeOutKeepsInv(s: System, capacity: nat, id: Id)
    requires SystemInv(s, capacity) && Enabled(s, TimeOut(id))
    ensures SystemInv(Next(s, TimeOut(id)), capacity)
  {
    var t := Next(s, TimeOut(id));
    FifoLock.WithoutIsRemoval(s.lock.queue, id);
    PutPhase(s, id, Rejected, Holds);
    PutPhase(s, id, Rejected, Done);
    forall k: Metrics.Kind ensures t.counters.Get(k) == t.base.Get(k) + Tally.Sum(t.callers, Share(k)) {
      PutPhase(s, id, Rejected, Share(k));
    }
  }

  // Moving the permit of a finished call keeps the books straight.
  lemma ReleaseKeepsInv(s: System, capacity: nat)
    requires FifoLock.WellFormed(s.lock) && QueueIsWaiting(s)
    requires forall id :: id in s.callers ==> PhaseOk(s.callers[id])
    requires s.lock.permits + Tally.Sum(s.callers, Holds) + 1 == capacity
    requires s.releases + 1 == Tally.Sum(s.callers, Done)
    requires forall k: Metrics.Kind :: s.counters.Get(k) == s.base.Get(k) + Tally.Sum(s.callers, Share(k))
    ensures SystemInv(ReleasePermit(s), capacity)
  {
    var t := ReleasePermit(s);
    if s.lock.queue != [] {
      var head := s.lock.queue[0];
      var p := t.callers[head];
      StartIsOk(s.callers[head].cfg, s.counters);
      PutPhase(s, head, p, Holds);
      PutPhase(s, head, p, Done);
      forall k: Metrics.Kind ensures t.counters.Get(k) == t.base.Get(k) + Tally.Sum(t.callers, Share(k)) {
        PutPhase(s, head, p, Share(k));
      }
    }
  }

  // Replacing a running call's phase by its next one keeps the shared counters in step.
  lemma AdvanceCounters(s: System, id: Id, c': Call, p: Phase, k: Metrics.Kind)
    requires id in s.callers && s.callers[id].Running? && (p == Running(c') || p == Finished(c'))
    requires s.callers[id].call.books.base == c'.books.base
    requires s.callers[id].call.books.counters.Get(k) <= c'.books.counters.Get(k)
    requires s.counters.Get(k) == s.base.Get(k) + Tally.Sum(s.callers, Share(k))
    ensures Delta(s.callers[id].call.books.counters, c'.books.counters, s.counters).Get(k)
            == s.base.Get(k) + Tally.Sum(s.callers[id := p], Share(k))
  {
    PutPhase(s, id, p, Share(k));
  }

  lemma StepKeepsPhase(c: Call, a: Answer)
    requires Inv(c) && Legal(c, a)
    ensures var c' := Step(c, a); PhaseOk(if c'.ctl.pc.Closed? then Finished(c') else Running(c'))
    ensures Step(c, a).books.base == c.books.base
  {
    StepKeepsInv(c, a);
  }

  lemma AdvanceKeepsInv(s: System, capacity: nat, id: Id, a: Answer)
    requires SystemInv(s, capacity) && Enabled(s, Advance(id, a))
    ensures SystemInv(Next(s, Advance(id, a)), capacity)
  {
    var c := s.callers[id].call;
    var c' := Step(c, a);
    assert PhaseOk(s.callers[id]);
    StepKeepsPhase(c, a);
    var p := if c'.ctl.pc.Closed? then Finished(c') else Running(c');
    var t := s.(counters := Delta(c.books.counters, c'.books.counters, s.counters), callers := s.callers[id := p]);
    PutPhase(s, id, p, Holds);
    PutPhase(s, id, p, Done);
    forall k: Metrics.Kind ensures t.counters.Get(k) == t.base.Get(k) + Tally.Sum(t.callers, Share(k)) {
      StepOnlyAdds(c, a, k);
      AdvanceCounters(s, id, c', p, k);
    }
    if p.Finished? {
      ReleaseKeepsInv(t, capacity);
    }
  }

  // ---- runs ----

  ghost predicate Execution(s: System, actions: seq<Action>, t: System)
    decreases |actions|
  {
    if actions == [] then s == t
    else
      var rest := actions[..|actions| - 1];
      exists u :: Execution(s, rest, u) && QueueIsWaiting(u) && Enabled(u, actions[|actions| - 1])
                  && t == Next(u, actions[|actions| - 1])
  }

  lemma {:induction false} ExecutionKeepsInv(capacity: nat, base: Metrics.Counters, actions: seq<Action>, t: System)
    requires Execution(Init(capacity, base), actions, t)
    ensures SystemInv(t, capacity)
    decreases |actions|
  {
    if actions != [] {
      var rest := actions[..|actions| - 1];
      var u :| Execution(Init(capacity, base), rest, u) && QueueIsWaiting(u) && Enabled(u, actions[|actions| - 1])
               && t == Next(u, actions[|actions| - 1]);
      ExecutionKeepsInv(capacity, base, rest, u);
      match actions[|actions| - 1] {
        case Arrive(id, cfg) => ArriveKeepsInv(u, capacity, id, cfg);
        case TimeOut(id) => TimeOutKeepsInv(u, capacity, id);
        case Advance(id, a) => AdvanceKeepsInv(u, capacity, id, a);
      }
    }
  }

  // ---- main results, for every interleaving ----

  // Free permits plus open transactions are the capacity, waiters exist only when no permit is
  // free, and every finished call has released once while rejected and waiting ones released none.
  lemma PermitsAreConserved(capacity: nat, base: Metrics.Counters, actions: seq<Action>, t: System)
    requires Execution(Init(capacity, base), actions, t)
    ensures t.lock.permits + Tally.Sum(t.callers, Holds) == capacity
    ensures t.lock.permits > 0 ==> forall id :: id in t.callers ==> !t.callers[id].Waiting?
    ensures t.releases == Tally.Sum(t.callers, Done)
  {
    ExecutionKeepsInv(capacity, base, actions, t);
  }

  ghost predicate Booked(p: Phase) {
    match p
    case Running(c) => Accounted(c.ctl, c.books)
    case Finished(c) => Accounted(c.ctl, c.books) && c.ctl.pc.Over()
    case _ => true
  }

  // The first of two counters, and the second of them, together.
  function Both(j: Metrics.Kind, k: Metrics.Kind): Phase -> int {
    (p: Phase) => Share(j)(p) + Share(k)(p)
  }

  lemma OutcomeShares(m: map<Id, Phase>)
    requires forall id :: id in m ==> Booked(m[id])
    ensures Tally.Sum(m, Ended) == Tally.Sum(m, Share(Metrics.Successes)) + Tally.Sum(m, Share(Metrics.Failures))
                                   + Tally.Sum(m, Share(Metrics.Ambiguous)) + Tally.Sum(m, Share(Metrics.Rejected))
  {
    Tally.SumAdds(m, Both(Metrics.Successes, Metrics.Failures), Share(Metrics.Successes), Share(Metrics.Failures));
    Tally.SumAdds(m, Both(Metrics.Ambiguous, Metrics.Rejected), Share(Metrics.Ambiguous), Share(Metrics.Rejected));
    Tally.SumAdds(m, Ended, Both(Metrics.Successes, Metrics.Failures), Both(Metrics.Ambiguous, Metrics.Rejected));
  }

  lemma AttemptShares(m: map<Id, Phase>)
    requires forall id :: id in m ==> Booked(m[id])
    ensures Tally.Sum(m, Share(Metrics.Attempts)) == Tally.Sum(m, Share(Metrics.BodyRetries)) + Tally.Sum(m, BodyLoops)
    ensures Tally.Sum(m, Share(Metrics.CommitAttempts)) ==
            Tally.Sum(m, Share(Metrics.CommitRetries)) + Tally.Sum(m, CommitLoops)
  {
    Tally.SumAdds(m, Share(Metrics.Attempts), Share(Metrics.BodyRetries), BodyLoops);
    Tally.SumAdds(m, Share(Metrics.CommitAttempts), Share(Metrics.CommitRetries), CommitLoops);
  }

  lemma InvIsBooked(s: System, capacity: nat)
    requires SystemInv(s, capacity)
    ensures forall id :: id in s.callers ==> Booked(s.callers[id])
  {
    forall id | id in s.callers ensures Booked(s.callers[id]) {
      assert PhaseOk(s.callers[id]);
    }
  }

  // How far a counter has moved since the run began.
  function Moved(s: System, k: Metrics.Kind): int { s.counters.Get(k) - s.base.Get(k) }

  // The counters are consistent with one another and with what the callers went through.
  ghost predicate CountersBalance(s: System) {
    // Each recorded call is counted under exactly one of success, failure, ambiguous and rejected.
    && Moved(s, Metrics.Successes) + Moved(s, Metrics.Failures) + Moved(s, Metrics.Ambiguous)
       + Moved(s, Metrics.Rejected)
       == Tally.Sum(s.callers, Ended)
    // Attempts are retries plus loops entered, for bodies and for commits.
    && Moved(s, Metrics.Attempts) == Moved(s, Metrics.BodyRetries) + Tally.Sum(s.callers, BodyLoops)
    && Moved(s, Metrics.CommitAttempts) == Moved(s, Metrics.CommitRetries) + Tally.Sum(s.callers, CommitLoops)
  }

  lemma InvBalances(s: System, capacity: nat)
    requires SystemInv(s, capacity)
    ensures CountersBalance(s)
  {
    InvIsBooked(s, capacity);
    OutcomeShares(s.callers);
    AttemptShares(s.callers);
  }

  lemma CountersAreAccounted(capacity: nat, base: Metrics.Counters, actions: seq<Action>, t: System)
    requires Execution(Init(capacity, base), actions, t)
    ensures CountersBalance(t)
  {
    ExecutionKeepsInv(capacity, base, actions, t);
    InvBalances(t, capacity);
  }

  // Interleaving costs no call its own guarantees.
  lemma EveryCallIsExactlyOnce(capacity: nat, base: Metrics.Counters, actions: seq<Action>, t: System, id: Id)
    requires Execution(Init(capacity, base), actions, t)
    requires id in t.callers && (t.callers[id].Running? || t.callers[id].Finished?)
    ensures ExactlyOnce(t.callers[id].call) && WithinLimits(t.callers[id].call)
  {
    ExecutionKeepsInv(capacity, base, actions, t);
    InvGivesExactlyOnce(t.callers[id].call);
    InvGivesLimits(t.callers[id].call);
  }
}
