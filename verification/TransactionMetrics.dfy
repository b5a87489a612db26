/** The counters of the transaction runner. */
module TransactionMetrics {
  import opened Prelude

  datatype Kind =
    | Attempts | Successes | Failures | Ambiguous | Rejected
    | BodyRetries | CommitAttempts | CommitRetries | RetriedSuccesses | RetriesOfSuccesses

  datatype Tries = Tries(attempts: nat, retries: nat)
  datatype Ends = Ends(successes: nat, failures: nat)
  datatype Doubts = Doubts(ambiguous: nat, rejected: nat)
  datatype Reruns = Reruns(retried: nat, totalRetries: nat)

  // The counters, in the groups they are updated in.
  datatype Counters = Counters(bodies: Tries, commits: Tries, ends: Ends, doubts: Doubts, reruns: Reruns) {
    function Get(k: Kind): nat {
      match k
      case Attempts => bodies.attempts
      case Successes => ends.successes
      case Failures => ends.failures
      case Ambiguous => doubts.ambiguous
      case Rejected => doubts.rejected
      case BodyRetries => bodies.retries
      case CommitAttempts => commits.attempts
      case CommitRetries => commits.retries
      case RetriedSuccesses => reruns.retried
      case RetriesOfSuccesses => reruns.totalRetries
    }

    function Bump(k: Kind): Counters {
      match k
      case Attempts => this.(bodies := bodies.(attempts := bodies.attempts + 1))
      case Successes => this.(ends := ends.(successes := ends.successes + 1))
      case Failures => this.(ends := ends.(failures := ends.failures + 1))
      case Ambiguous => this.(doubts := doubts.(ambiguous := doubts.ambiguous + 1))
      case Rejected => this.(doubts := doubts.(rejected := doubts.rejected + 1))
      case BodyRetries => this.(bodies := bodies.(retries := bodies.retries + 1))
      case CommitAttempts => this.(commits := commits.(attempts := commits.attempts + 1))
      case CommitRetries => this.(commits := commits.(retries := commits.retries + 1))
      case RetriedSuccesses => this.(reruns := reruns.(retried := reruns.retried + 1))
      case RetriesOfSuccesses => this.(reruns := reruns.(totalRetries := reruns.totalRetries + 1))
    }

    // A success on the given body attempt.
    function Succeed(attempt: nat): Counters {
      var c := Bump(Successes);
      if attempt > 1 then c.(reruns := Reruns(reruns.retried + 1, reruns.totalRetries + attempt - 1)) else c
    }
  }

  const ZERO := Counters(Tries(0, 0), Tries(0, 0), Ends(0, 0), Doubts(0, 0), Reruns(0, 0))

  // ---- what a list of recordings adds up to ----

  predicate CountsByOne(k: Kind) { !k.Successes? && !k.RetriedSuccesses? && !k.RetriesOfSuccesses? }

  type PlainKind = k: Kind | CountsByOne(k) witness Attempts

  // What a call may record: one event of a kind that is counted by one, or a success on a body attempt.
  datatype Recording = One(kind: PlainKind) | Success(attempt: nat)

  // A recording, and the call that made it.
  datatype Entry = Entry(who: Caller, what: Recording)

  datatype Log = Empty | Then(before: Log, entry: Entry)

  function Recorded(c: Counters, r: Recording): Counters {
    match r
    case One(k) => c.Bump(k)
    case Success(attempt) => c.Succeed(attempt)
  }

  function Total(log: Log): Counters {
    if log.Empty? then ZERO else Recorded(Total(log.before), log.entry.what)
  }

  // What the call itself recorded.
  function ShareOf(log: Log, who: Caller): Counters {
    if log.Empty? then ZERO
    else if log.entry.who == who then Recorded(ShareOf(log.before, who), log.entry.what)
    else ShareOf(log.before, who)
  }

  // What a counter is named after.
  predicate CountedBy(k: Kind, r: Recording) {
    match k
    case Successes => r.Success?
    case RetriedSuccesses => r.Success? && r.attempt > 1
    case _ => r.One? && r.kind == k
  }

  function Count(log: Log, k: Kind): nat {
    if log.Empty? then 0 else Count(log.before, k) + if CountedBy(k, log.entry.what) then 1 else 0
  }

  // The body attempts that successes needed beyond their first.
  function ExtraAttempts(log: Log): nat {
    if log.Empty? then 0
    else
      var r := log.entry.what;
      ExtraAttempts(log.before) + if r.Success? && r.attempt > 1 then r.attempt - 1 else 0
  }

  /** Each counter is the number of recordings it is named after; the last one adds up extra attempts. */
  lemma {:induction false} CountersCount(log: Log, k: Kind)
    ensures Total(log).Get(k) == if k.RetriesOfSuccesses? then ExtraAttempts(log) else Count(log, k)
  {
    if log.Then? {
      CountersCount(log.before, k);
    }
  }

  function SumOfShares(log: Log, callers: seq<Caller>, k: Kind): nat {
    if callers == [] then 0 else ShareOf(log, callers[0]).Get(k) + SumOfShares(log, callers[1..], k)
  }

  ghost predicate RecordedBy(log: Log, callers: seq<Caller>) {
    log.Then? ==> log.entry.who in callers && RecordedBy(log.before, callers)
  }

  // A recording adds the same to a counter wherever the counters stand.
  lemma RecordedAdds(c: Counters, d: Counters, r: Recording, k: Kind)
    ensures Recorded(c, r).Get(k) - c.Get(k) == Recorded(d, r).Get(k) - d.Get(k) >= 0
  {
  }

  lemma {:induction false} SharesGrow(log: Log, e: Entry, callers: seq<Caller>, k: Kind)
    requires forall i, j :: 0 <= i < j < |callers| ==> callers[i] != callers[j]
    ensures var added := Recorded(ShareOf(log, e.who), e.what).Get(k) - ShareOf(log, e.who).Get(k);
            SumOfShares(Then(log, e), callers, k) ==
            SumOfShares(log, callers, k) + if e.who in callers then added else 0
  {
    if callers != [] {
      SharesGrow(log, e, callers[1..], k);
      assert callers == [callers[0]] + callers[1..];
    }
  }

  lemma {:induction false} NoShares(callers: seq<Caller>, k: Kind)
    ensures SumOfShares(Empty, callers, k) == 0
  {
    if callers != [] {
      NoShares(callers[1..], k);
    }
  }

  /** Nothing is lost or counted twice: each counter is the sum of what the callers recorded. */
  lemma {:induction false} SharesAddUp(log: Log, callers: seq<Caller>, k: Kind)
    requires (forall i, j :: 0 <= i < j < |callers| ==> callers[i] != callers[j]) && RecordedBy(log, callers)
    ensures Total(log).Get(k) == SumOfShares(log, callers, k)
  {
    match log
    case Empty => NoShares(callers, k);
    case Then(before, e) =>
      SharesAddUp(before, callers, k);
      SharesGrow(before, e, callers, k);
      RecordedAdds(Total(before), ShareOf(before, e.who), e.what, k);
  }

  // The mean number of retries of the retried calls, rounded to two decimals.
  function AvgRetryCount(c: Counters): real {
    if c.reruns.retried > 0 then
      (c.reruns.totalRetries as real / c.reruns.retried as real * 100.0 + 0.5).Floor as real / 100.0
    else 0.0
  }

  lemma {:induction false} RetriedCallsRetry(log: Log)
    ensures var c := Total(log).reruns; c.totalRetries >= c.retried && (c.retried == 0 ==> c.totalRetries == 0)
  {
    if log.Then? {
      RetriedCallsRetry(log.before);
    }
  }

  /** The reported mean is 0 exactly when no call was retried, else at least 1 and within 0.005 of the mean. */
  lemma AverageIsSound(log: Log)
    ensures var c := Total(log);
            && (AvgRetryCount(c) == 0.0 <==> c.reruns.retried == 0)
            && (c.reruns.retried > 0 ==>
                  var mean := c.reruns.totalRetries as real / c.reruns.retried as real;
                  && AvgRetryCount(c) >= 1.0
                  && mean - 0.005 <= AvgRetryCount(c) <= mean + 0.005)
  {
    RetriedCallsRetry(log);
    var c := Total(log).reruns;
    if c.retried > 0 {
      MeanAtLeastOne(c.totalRetries, c.retried);
    }
  }

  lemma MeanAtLeastOne(sum: nat, n: nat)
    requires sum >= n > 0
    ensures sum as real / n as real >= 1.0
  {
    var mean := sum as real / n as real;
    assert mean * n as real == sum as real;
    if mean < 1.0 {
      ProductIsPositive(1.0 - mean, n as real);
      assert false;
    }
  }

  lemma ProductIsPositive(x: real, y: real)
    requires x > 0.0 && y > 0.0
    ensures x * y > 0.0
  {
  }

  class Tracker {
    var counters: Counters
    var durationSeconds: real
    var queueWaitSeconds: real
    // Who recorded what since the counters were last cleared.
    ghost var log: Log

    // The counters are what the recordings add up to.
    ghost predicate Valid()
      reads this
    {
      counters == Total(log)
    }

    ghost function Share(who: Caller): Counters
      reads this`log
    {
      ShareOf(log, who)
    }

    constructor ()
      ensures Valid() && counters == ZERO && log == Empty && durationSeconds == 0.0 && queueWaitSeconds == 0.0
    {
      counters, durationSeconds, queueWaitSeconds, log := ZERO, 0.0, 0.0, Empty;
    }

    method Record(k: PlainKind, ghost who: Caller)
      requires Valid()
      modifies this`counters, this`log
      ensures Valid() && log == Then(old(log), Entry(who, One(k)))
      ensures Share(who) == old(Share(who)).Bump(k)
    {
      counters := counters.Bump(k);
      log := Then(log, Entry(who, One(k)));
    }

    method RecordSuccess(attempt: nat, ghost who: Caller)
      requires Valid()
      modifies this`counters, this`log
      ensures Valid() && log == Then(old(log), Entry(who, Success(attempt)))
      ensures Share(who) == old(Share(who)).Succeed(attempt)
    {
      counters := counters.Bump(Successes);
      if attempt > 1 {
        var r := counters.reruns;
        counters := counters.(reruns := Reruns(r.retried + 1, r.totalRetries + attempt - 1));
      }
      log := Then(log, Entry(who, Success(attempt)));
    }

    method RecordDuration(durationMs: real, queueWaitMs: real)
      modifies this`durationSeconds, this`queueWaitSeconds
      ensures durationSeconds == old(durationSeconds) + (if durationMs > 0.0 then durationMs / 1000.0 else 0.0)
      ensures queueWaitSeconds == old(queueWaitSeconds) + (if queueWaitMs > 0.0 then queueWaitMs / 1000.0 else 0.0)
    {
      durationSeconds := durationSeconds + (if durationMs > 0.0 then durationMs else 0.0) / 1000.0;
      queueWaitSeconds := queueWaitSeconds + (if queueWaitMs > 0.0 then queueWaitMs else 0.0) / 1000.0;
    }

    method Reset()
      modifies this
      ensures Valid() && log == Empty && counters == ZERO && durationSeconds == 0.0 && queueWaitSeconds == 0.0
    {
      counters, durationSeconds, queueWaitSeconds, log := ZERO, 0.0, 0.0, Empty;
    }
  }
}
