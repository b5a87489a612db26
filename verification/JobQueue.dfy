/**
 * Runs of the priority job queue: four lists, jobs pushed at the left end and popped at the right,
 * a retried job going back to the end it was popped from. Any number of processing loops may hold
 * one job each, as an old loop finishing its job overlaps with a newly started one.
 */
module JobQueue {
  import opened Prelude

  datatype Priority = Critical | High | Normal | Low

  // One value per priority.
  datatype Four<T> = Four(critical: T, high: T, normal: T, low: T) {
    function Get(p: Priority): T {
      match p case Critical => critical case High => high case Normal => normal case Low => low
    }

    function Put(p: Priority, x: T): (f: Four<T>)
      ensures forall q :: f.Get(q) == if q == p then x else Get(q)
    {
      match p
      case Critical => this.(critical := x)
      case High => this.(high := x)
      case Normal => this.(normal := x)
      case Low => this.(low := x)
    }
  }

  // ran counts the handler runs of the job, for the proofs; the other fields are the stored ones.
  datatype Job = Job(id: nat, name: string, priority: Priority, attempts: nat, maxAttempts: int, ran: nat) {
    // A job is tried at least once.
    function Limit(): nat { if maxAttempts < 1 then 1 else maxAttempts }
  }

  datatype Taken = Taken(from: Priority, job: Job)

  // How a job left the queue, after how many handler runs.
  datatype Left = Left(id: nat, ran: nat, maxAttempts: int, how: Finish)

  datatype State = State(lists: Four<seq<Job>>, taken: seq<Taken>, entered: Four<seq<nat>>, left: Four<seq<Left>>)

  datatype Finish = NoHandler | Succeeded | Threw

  datatype Action = Enqueue(job: Job) | Take(from: Priority) | End(slot: nat, how: Finish)

  predicate Higher(p: Priority, q: Priority) {
    match q
    case Critical => false
    case High => p.Critical?
    case Normal => p.Critical? || p.High?
    case Low => !p.Low?
  }

  predicate Legal(s: State, a: Action) {
    match a
    case Enqueue(job) => job.attempts == 0 && job.ran == 0
    case Take(p) => s.lists.Get(p) != [] && forall q :: Higher(q, p) ==> s.lists.Get(q) == []
    case End(i, _) => i < |s.taken|
  }

  // The first list in the order of the keys that is not empty, or else the last.
  function FirstPriority<T>(lists: Four<seq<T>>): (p: Priority)
    ensures forall q :: Higher(q, p) || lists.Get(p) == [] ==> lists.Get(q) == []
  {
    if lists.critical != [] then Critical else if lists.high != [] then High
    else if lists.normal != [] then Normal else Low
  }

  function Last<T>(s: seq<T>): T requires s != [] { s[|s| - 1] }

  function Init<T>(s: seq<T>): seq<T> requires s != [] { s[..|s| - 1] }

  function RemoveAt<T>(s: seq<T>, i: nat): seq<T> requires i < |s| { s[..i] + s[i + 1..] }

  function Started(job: Job): Job { job.(attempts := job.attempts + 1) }

  predicate Retries(t: Taken, how: Finish) { how.Threw? && t.job.attempts < t.job.maxAttempts }

  // The job of a slot after its turn.
  function Ran(t: Taken, how: Finish): Job {
    if how.NoHandler? then t.job else t.job.(ran := t.job.ran + 1)
  }

  function Gone(t: Taken, how: Finish): Left {
    Left(t.job.id, Ran(t, how).ran, t.job.maxAttempts, how)
  }

  function Apply(s: State, a: Action): State
    requires Legal(s, a)
  {
    match a
    case Enqueue(job) =>
      var p := job.priority;
      s.(lists := s.lists.Put(p, [job] + s.lists.Get(p)), entered := s.entered.Put(p, s.entered.Get(p) + [job.id]))
    case Take(p) =>
      s.(lists := s.lists.Put(p, Init(s.lists.Get(p))), taken := s.taken + [Taken(p, Started(Last(s.lists.Get(p))))])
    case End(i, how) =>
      var t := s.taken[i];
      var rest := s.(taken := RemoveAt(s.taken, i));
      if Retries(t, how)
      then rest.(lists := s.lists.Put(t.from, s.lists.Get(t.from) + [Ran(t, how)]))
      else rest.(left := s.left.Put(t.from, s.left.Get(t.from) + [Gone(t, how)]))
  }

  function Run(s: State, actions: seq<Action>): State
    requires LegalRun(s, actions)
    decreases |actions|
  {
    if actions == [] then s else Run(Apply(s, actions[0]), actions[1..])
  }

  predicate LegalRun(s: State, actions: seq<Action>)
    decreases |actions|
  {
    actions == [] || (Legal(s, actions[0]) && LegalRun(Apply(s, actions[0]), actions[1..]))
  }

  // ---- conservation ----

  function JobIds(s: seq<Job>): multiset<nat> {
    if s == [] then multiset{} else multiset{s[0].id} + JobIds(s[1..])
  }

  function TakenIds(s: seq<Taken>, p: Priority): multiset<nat> {
    if s == [] then multiset{}
    else (if s[0].from == p then multiset{s[0].job.id} else multiset{}) + TakenIds(s[1..], p)
  }

  function LeftIds(s: seq<Left>): multiset<nat> {
    if s == [] then multiset{} else multiset{s[0].id} + LeftIds(s[1..])
  }

  lemma {:induction false} JobIdsOfSum(a: seq<Job>, b: seq<Job>)
    ensures JobIds(a + b) == JobIds(a) + JobIds(b)
  {
    if a == [] {
      assert a + b == b;
    } else {
      assert (a + b)[1..] == a[1..] + b;
      JobIdsOfSum(a[1..], b);
    }
  }

  lemma {:induction false} TakenIdsOfSum(a: seq<Taken>, b: seq<Taken>, p: Priority)
    ensures TakenIds(a + b, p) == TakenIds(a, p) + TakenIds(b, p)
  {
    if a == [] {
      assert a + b == b;
    } else {
      assert (a + b)[1..] == a[1..] + b;
      TakenIdsOfSum(a[1..], b, p);
    }
  }

  lemma {:induction false} LeftIdsOfSum(a: seq<Left>, b: seq<Left>)
    ensures LeftIds(a + b) == LeftIds(a) + LeftIds(b)
  {
    if a == [] {
      assert a + b == b;
    } else {
      assert (a + b)[1..] == a[1..] + b;
      LeftIdsOfSum(a[1..], b);
    }
  }

  // Every job that entered at a priority is queued there, in flight from there, or has left.
  ghost predicate Balanced(s: State, p: Priority) {
    multiset(s.entered.Get(p)) == LeftIds(s.left.Get(p)) + TakenIds(s.taken, p) + JobIds(s.lists.Get(p))
  }

  // A job that failed has used up its tries, max(1, maxAttempts); no job had more.
  predicate RightlyLeft(l: Left) {
    var limit := if l.maxAttempts < 1 then 1 else l.maxAttempts;
    match l.how
    case Threw => l.ran == limit
    case Succeeded => 1 <= l.ran <= limit
    case NoHandler => l.ran < limit
  }

  // A queued job has run once for each attempt, and one in flight is in its last.
  ghost predicate WithinLimits(s: State) {
    && (forall p, i :: 0 <= i < |s.lists.Get(p)| ==>
          var j := s.lists.Get(p)[i]; j.ran == j.attempts < j.Limit())
    && (forall i :: 0 <= i < |s.taken| ==>
          var j := s.taken[i].job; j.ran + 1 == j.attempts <= j.Limit())
    && (forall p, i :: 0 <= i < |s.left.Get(p)| ==> RightlyLeft(s.left.Get(p)[i]))
  }

  // One element more, or one fewer.
  lemma JobIdsPush(l: seq<Job>, j: Job)
    ensures JobIds(l + [j]) == JobIds(l) + multiset{j.id}
  {
    JobIdsOfSum(l, [j]);
  }

  lemma JobIdsPop(l: seq<Job>)
    requires l != []
    ensures JobIds(l) == JobIds(Init(l)) + multiset{Last(l).id}
  {
    assert l == Init(l) + [Last(l)];
    JobIdsPush(Init(l), Last(l));
  }

  lemma JobIdsUnshift(l: seq<Job>, j: Job)
    ensures JobIds([j] + l) == multiset{j.id} + JobIds(l)
  {
    assert ([j] + l)[1..] == l;
  }

  lemma LeftIdsPush(l: seq<Left>, x: Left)
    ensures LeftIds(l + [x]) == LeftIds(l) + multiset{x.id}
  {
    LeftIdsOfSum(l, [x]);
  }

  lemma TakenIdsRemove(s: seq<Taken>, i: nat, p: Priority)
    requires i < |s|
    ensures TakenIds(s, p) == TakenIds(RemoveAt(s, i), p)
            + (if s[i].from == p then multiset{s[i].job.id} else multiset{})
  {
    assert s == s[..i] + ([s[i]] + s[i + 1..]);
    TakenIdsOfSum(s[..i], [s[i]] + s[i + 1..], p);
    TakenIdsOfSum([s[i]], s[i + 1..], p);
    TakenIdsOfSum(s[..i], s[i + 1..], p);
  }

  lemma TakenIdsPush(s: seq<Taken>, t: Taken, p: Priority)
    ensures TakenIds(s + [t], p) == TakenIds(s, p) + (if t.from == p then multiset{t.job.id} else multiset{})
  {
    TakenIdsOfSum(s, [t], p);
  }

  lemma EnqueueKeepsBalance(s: State, job: Job, p: Priority)
    requires Balanced(s, p) && Legal(s, Enqueue(job))
    ensures Balanced(Apply(s, Enqueue(job)), p)
  {
    JobIdsUnshift(s.lists.Get(job.priority), job);
  }

  lemma TakeKeepsBalance(s: State, from: Priority, p: Priority)
    requires Balanced(s, p) && Legal(s, Take(from))
    ensures Balanced(Apply(s, Take(from)), p)
  {
    var l, t := s.lists.Get(from), Apply(s, Take(from));
    var slot := Taken(from, Started(Last(l)));
    assert t.left == s.left && t.entered == s.entered && t.taken == s.taken + [slot];
    TakenIdsPush(s.taken, slot, p);
    if p == from {
      JobIdsPop(l);
      assert t.lists.Get(p) == Init(l);
    } else {
      assert t.lists.Get(p) == s.lists.Get(p);
    }
  }

  lemma RetryKeepsBalance(s: State, i: nat, how: Finish, p: Priority)
    requires Balanced(s, p) && Legal(s, End(i, how)) && Retries(s.taken[i], how)
    ensures Balanced(Apply(s, End(i, how)), p)
  {
    var t := s.taken[i];
    TakenIdsRemove(s.taken, i, p);
    JobIdsPush(s.lists.Get(t.from), Ran(t, how));
    assert Apply(s, End(i, how)).left == s.left;
  }

  lemma LeavingKeepsBalance(s: State, i: nat, how: Finish, p: Priority)
    requires Balanced(s, p) && Legal(s, End(i, how)) && !Retries(s.taken[i], how)
    ensures Balanced(Apply(s, End(i, how)), p)
  {
    var t := s.taken[i];
    TakenIdsRemove(s.taken, i, p);
    LeftIdsPush(s.left.Get(t.from), Gone(t, how));
    assert Apply(s, End(i, how)).lists == s.lists;
  }

  lemma ApplyKeepsLimits(s: State, a: Action)
    requires WithinLimits(s) && Legal(s, a)
    ensures WithinLimits(Apply(s, a))
  {
  }

  lemma ApplyKeepsBalance(s: State, a: Action, p: Priority)
    requires Balanced(s, p) && Legal(s, a)
    ensures Balanced(Apply(s, a), p)
  {
    match a
    case Enqueue(job) => EnqueueKeepsBalance(s, job, p);
    case Take(from) => TakeKeepsBalance(s, from, p);
    case End(i, how) =>
      if Retries(s.taken[i], how) { RetryKeepsBalance(s, i, how, p); } else { LeavingKeepsBalance(s, i, how, p); }
  }

  // Over every run, with any number of loops: nothing is lost or duplicated, and no handler runs
  // more than max(1, maxAttempts) times for a job.
  lemma {:induction false} RunConserves(s: State, actions: seq<Action>)
    requires (forall p :: Balanced(s, p)) && WithinLimits(s) && LegalRun(s, actions)
    ensures (forall p :: Balanced(Run(s, actions), p)) && WithinLimits(Run(s, actions))
    decreases |actions|
  {
    if actions != [] {
      ApplyKeepsLimits(s, actions[0]);
      forall p ensures Balanced(Apply(s, actions[0]), p) {
        ApplyKeepsBalance(s, actions[0], p);
      }
      RunConserves(Apply(s, actions[0]), actions[1..]);
    }
  }

  /**
   * Over every run of any number of loops a job that left because its handler threw has run exactly
   * max(1, maxAttempts) times: no try is lost. One that succeeded ran no more, one that missed its
   * handler less.
   */
  lemma NoTryIsLost(actions: seq<Action>, p: Priority, i: nat)
    requires LegalRun(EMPTY, actions) && i < |Run(EMPTY, actions).left.Get(p)|
    ensures var l := Run(EMPTY, actions).left.Get(p)[i];
            var limit := if l.maxAttempts < 1 then 1 else l.maxAttempts;
            && (l.how == Threw ==> l.ran == limit)
            && (l.how == Succeeded ==> 1 <= l.ran <= limit)
            && (l.how == NoHandler ==> l.ran < limit)
  {
    EmptyIsSound(EMPTY);
    RunConserves(EMPTY, actions);
    assert RightlyLeft(Run(EMPTY, actions).left.Get(p)[i]);
  }

  // A list may be popped exactly when every list of a higher priority is empty.
  lemma PriorityIsKept(s: State, p: Priority)
    requires s.lists.Get(p) != []
    ensures Legal(s, Take(p)) <==>
              match p
              case Critical => true
              case High => s.lists.critical == []
              case Normal => s.lists.critical == s.lists.high == []
              case Low => s.lists.critical == s.lists.high == s.lists.normal == []
  {
    assert s.lists.critical == s.lists.Get(Critical) && s.lists.high == s.lists.Get(High);
    assert s.lists.normal == s.lists.Get(Normal);
  }

  lemma EmptyIsSound(s: State)
    requires s.taken == [] && forall p :: s.lists.Get(p) == [] && s.entered.Get(p) == [] && s.left.Get(p) == []
    ensures WithinLimits(s) && forall p :: Balanced(s, p)
  {
  }

  // ---- how many jobs there are ----

  function Total<T>(f: Four<seq<T>>): nat { |f.critical| + |f.high| + |f.normal| + |f.low| }

  function TakenFrom(s: seq<Taken>, p: Priority): nat { |TakenIds(s, p)| }

  lemma {:induction false} IdsHaveLengths(jobs: seq<Job>, left: seq<Left>)
    ensures |JobIds(jobs)| == |jobs| && |LeftIds(left)| == |left|
    decreases |jobs| + |left|
  {
    if jobs != [] {
      IdsHaveLengths(jobs[1..], left);
    } else if left != [] {
      IdsHaveLengths(jobs, left[1..]);
    }
  }

  lemma {:induction false} TakenAddUp(s: seq<Taken>)
    ensures |s| == TakenFrom(s, Critical) + TakenFrom(s, High) + TakenFrom(s, Normal) + TakenFrom(s, Low)
  {
    if s != [] {
      TakenAddUp(s[1..]);
    }
  }

  lemma BalanceCounts(s: State, p: Priority)
    requires Balanced(s, p)
    ensures |s.entered.Get(p)| == |s.left.Get(p)| + TakenFrom(s.taken, p) + |s.lists.Get(p)|
  {
    IdsHaveLengths(s.lists.Get(p), s.left.Get(p));
    assert |multiset(s.entered.Get(p))| == |s.entered.Get(p)|;
  }

  /** Every job that entered has left, is in flight or is queued. */
  lemma JobsAddUp(s: State)
    requires forall p :: Balanced(s, p)
    ensures Total(s.entered) == Total(s.left) + |s.taken| + Total(s.lists)
  {
    BalanceCounts(s, Critical);
    BalanceCounts(s, High);
    BalanceCounts(s, Normal);
    BalanceCounts(s, Low);
    TakenAddUp(s.taken);
  }

  const EMPTY := State(Four([], [], [], []), [], Four([], [], [], []), Four([], [], [], []))

  // ---- draining ----

  function ListWork(s: seq<Job>): int {
    if s == [] then 0 else 2 * (s[0].Limit() - s[0].attempts) + ListWork(s[1..])
  }

  function TakenWork(s: seq<Taken>): int {
    if s == [] then 0 else 2 * (s[0].job.Limit() - s[0].job.attempts) + 1 + TakenWork(s[1..])
  }

  // Twice the tries left, plus one for each job in flight.
  function Work(s: State): int {
    ListWork(s.lists.critical) + ListWork(s.lists.high) + ListWork(s.lists.normal) + ListWork(s.lists.low)
    + TakenWork(s.taken)
  }

  lemma {:induction false} ListWorkOfSum(a: seq<Job>, b: seq<Job>)
    ensures ListWork(a + b) == ListWork(a) + ListWork(b)
  {
    if a == [] {
      assert a + b == b;
    } else {
      assert (a + b)[1..] == a[1..] + b;
      ListWorkOfSum(a[1..], b);
    }
  }

  lemma {:induction false} TakenWorkOfSum(a: seq<Taken>, b: seq<Taken>)
    ensures TakenWork(a + b) == TakenWork(a) + TakenWork(b)
  {
    if a == [] {
      assert a + b == b;
    } else {
      assert (a + b)[1..] == a[1..] + b;
      TakenWorkOfSum(a[1..], b);
    }
  }

  lemma {:induction false} ListWorkIsNat(s: seq<Job>)
    requires forall i :: 0 <= i < |s| ==> s[i].attempts < s[i].Limit()
    ensures ListWork(s) >= 2 * |s|
  {
    if s != [] {
      assert forall i :: 0 <= i < |s[1..]| ==> s[1..][i] == s[i + 1];
      ListWorkIsNat(s[1..]);
    }
  }

  lemma {:induction false} TakenWorkIsNat(s: seq<Taken>)
    requires forall i :: 0 <= i < |s| ==> s[i].job.attempts <= s[i].job.Limit()
    ensures TakenWork(s) >= |s|
  {
    if s != [] {
      assert forall i :: 0 <= i < |s[1..]| ==> s[1..][i] == s[i + 1];
      TakenWorkIsNat(s[1..]);
    }
  }

  lemma WorkIsNat(s: State)
    requires WithinLimits(s)
    ensures Work(s) >= 0
    ensures Work(s) == 0 ==> s.taken == [] && forall p :: s.lists.Get(p) == []
  {
    forall p ensures ListWork(s.lists.Get(p)) >= 2 * |s.lists.Get(p)| {
      ListWorkIsNat(s.lists.Get(p));
    }
    TakenWorkIsNat(s.taken);
    assert ListWork(s.lists.Get(Critical)) >= 0 && ListWork(s.lists.Get(High)) >= 0;
    assert ListWork(s.lists.Get(Normal)) >= 0 && ListWork(s.lists.Get(Low)) >= 0;
  }

  lemma TakeLowersWork(s: State, p: Priority)
    requires WithinLimits(s) && Legal(s, Take(p))
    ensures Work(Apply(s, Take(p))) == Work(s) - 1
  {
    var l := s.lists.Get(p);
    assert l == Init(l) + [Last(l)];
    ListWorkOfSum(Init(l), [Last(l)]);
    TakenWorkOfSum(s.taken, [Taken(p, Started(Last(l)))]);
  }

  lemma EndLowersWork(s: State, i: nat, how: Finish)
    requires WithinLimits(s) && Legal(s, End(i, how))
    ensures Work(Apply(s, End(i, how))) < Work(s)
  {
    var t := s.taken[i];
    assert s.taken == s.taken[..i] + ([t] + s.taken[i + 1..]);
    TakenWorkOfSum(s.taken[..i], [t] + s.taken[i + 1..]);
    TakenWorkOfSum([t], s.taken[i + 1..]);
    TakenWorkOfSum(s.taken[..i], s.taken[i + 1..]);
    ListWorkOfSum(s.lists.Get(t.from), [Ran(t, how)]);
  }

  // With no new jobs, a run is no longer than the work there was: the queue drains.
  lemma {:induction false} QueueDrains(s: State, actions: seq<Action>)
    requires WithinLimits(s) && LegalRun(s, actions) && forall a :: a in actions ==> !a.Enqueue?
    ensures |actions| + Work(Run(s, actions)) <= Work(s)
    decreases |actions|
  {
    if actions != [] {
      assert actions[0] in actions;
      ApplyKeepsLimits(s, actions[0]);
      match actions[0] {
        case Take(p) => TakeLowersWork(s, p);
        case End(i, how) => EndLowersWork(s, i, how);
      }
      QueueDrains(Apply(s, actions[0]), actions[1..]);
    }
  }

  ghost predicate Idle(s: State) { s.taken == [] && forall p :: s.lists.Get(p) == [] }

  /** While any job is queued or in flight some loop can go on. */
  lemma NeverStuck(s: State)
    requires !Idle(s)
    ensures exists a: Action :: Legal(s, a) && !a.Enqueue?
  {
    if s.taken != [] {
      assert Legal(s, End(0, Succeeded));
    } else {
      assert Legal(s, Take(FirstPriority(s.lists)));
    }
  }

  /**
   * A run without new jobs that cannot go on has emptied the queue: the jobs that left are exactly
   * the jobs that entered.
   */
  lemma DrainedQueueIsEmpty(s: State, actions: seq<Action>)
    requires (forall p :: Balanced(s, p)) && WithinLimits(s) && LegalRun(s, actions)
    requires forall a: Action :: Legal(Run(s, actions), a) ==> a.Enqueue?
    ensures Idle(Run(s, actions))
    ensures forall p :: multiset(Run(s, actions).entered.Get(p)) == LeftIds(Run(s, actions).left.Get(p))
  {
    var t := Run(s, actions);
    RunConserves(s, actions);
    if !Idle(t) {
      NeverStuck(t);
    }
    forall p ensures multiset(t.entered.Get(p)) == LeftIds(t.left.Get(p)) {
      assert Balanced(t, p) && t.lists.Get(p) == [];
    }
  }
}
