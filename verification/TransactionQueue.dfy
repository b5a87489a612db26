/**
 * The queue service as it is coded: Redis lists, a processing flag, the client the current
 * generation blocks on, and counters. Any number of launched loops may be at work: while one is
 * suspended the others pop, run handlers and settle jobs, and callers enqueue, stop and restart.
 * Every change to the lists is one action of JobQueue, and every change to the generation one of
 * QueueStartup.
 */
module TransactionQueue {
  import opened Prelude
  import opened JobQueue
  import opened JobOrder
  import Startup = QueueStartup

  type Client = Startup.Client

  // How processing loop turns end: the guard failed, an error escaped, or the loop is still going.
  datatype LoopExit = Stopped | Crashed | Running

  // The queue with its history, the priorities whose jobs have all ended in turn, and whether two
  // jobs were ever in flight at once.
  datatype Ledger = Ledger(s: State, ordered: set<Priority>, overlapped: bool)

  const ALL: set<Priority> := {Critical, High, Normal, Low}

  // An action that ends a job out of turn takes its priority out of order.
  function Next(l: Ledger, a: Action): Ledger
    requires Legal(l.s, a)
  {
    var inTurn := a.End? ==> InTurn(l.s.taken, a.slot, a.how);
    Ledger(Apply(l.s, a), if inTurn then l.ordered else l.ordered - {l.s.taken[a.slot].from},
           l.overlapped || (a.Take? && l.s.taken != []))
  }

  // What holds at every suspension of every loop.
  ghost predicate Lawful(l: Ledger) {
    && (forall p :: Balanced(l.s, p)) && WithinLimits(l.s)
    && (forall p :: p in l.ordered ==> InOrder(l.s, p))
    && (!l.overlapped ==> |l.s.taken| <= 1 && l.ordered == ALL)
  }

  lemma ActionKeepsLawful(l: Ledger, a: Action)
    requires Lawful(l) && Legal(l.s, a)
    ensures Lawful(Next(l, a))
  {
    var n := Next(l, a);
    ApplyKeepsLimits(l.s, a);
    forall p ensures Balanced(n.s, p) { ApplyKeepsBalance(l.s, a, p); }
    forall p | p in n.ordered ensures InOrder(n.s, p) {
      assert InOrder(l.s, p) && KeepsTurn(l.s, a, p);
      OrderKeptExactlyInTurn(l.s, a, p);
    }
    if |l.s.taken| <= 1 {
      OneSlotIsInTurn(l, a);
    }
  }

  lemma OneSlotIsInTurn(l: Ledger, a: Action)
    requires Legal(l.s, a) && |l.s.taken| <= 1
    ensures !Next(l, a).overlapped ==> |Next(l, a).s.taken| <= 1
    ensures Next(l, a).ordered == l.ordered
  {
    assert a.End? ==> a.slot == 0 && |RemoveAt(l.s.taken, 0)| == 0;
  }

  lemma LawfulIsInOrder(l: Ledger)
    requires Lawful(l)
    ensures forall p :: p in l.ordered ==> FinishedInOrder(l.s, p)
    ensures !l.overlapped ==> forall p :: FinishedInOrder(l.s, p)
  {
    forall p | p in l.ordered ensures FinishedInOrder(l.s, p) { assert InOrder(l.s, p); }
    forall p: Priority ensures p in ALL {
      assert p == Critical || p == High || p == Normal || p == Low;
    }
  }

  // ---- the counters ----

  function CountSucceeded(s: seq<Left>): nat {
    if s == [] then 0 else CountSucceeded(Init(s)) + (if Last(s).how.Succeeded? then 1 else 0)
  }

  function AllSucceeded(f: Four<seq<Left>>): nat {
    CountSucceeded(f.critical) + CountSucceeded(f.high) + CountSucceeded(f.normal) + CountSucceeded(f.low)
  }

  datatype Counts = Counts(enqueued: nat, processed: nat, failed: nat)

  // The service's counters are what its history says.
  ghost predicate Counted(s: State, c: Counts) {
    && c.enqueued == Total(s.entered) && c.processed == AllSucceeded(s.left)
    && c.processed + c.failed == Total(s.left)
  }

  function CountsAfter(s: State, c: Counts, a: Action): Counts
    requires Legal(s, a)
  {
    match a
    case Enqueue(_) => c.(enqueued := c.enqueued + 1)
    case Take(_) => c
    case End(i, how) =>
      if how.Succeeded? then c.(processed := c.processed + 1)
      else if Retries(s.taken[i], how) then c
      else c.(failed := c.failed + 1)
  }

  lemma SucceededPush(s: seq<Left>, x: Left)
    ensures CountSucceeded(s + [x]) == CountSucceeded(s) + (if x.how.Succeeded? then 1 else 0)
  {
    assert Init(s + [x]) == s;
  }

  // One more entry at one of the four priorities.
  lemma TotalPush<T>(f: Four<seq<T>>, p: Priority, x: T)
    ensures Total(f.Put(p, f.Get(p) + [x])) == Total(f) + 1
  {
  }

  lemma LeftPush(f: Four<seq<Left>>, p: Priority, x: Left)
    ensures AllSucceeded(f.Put(p, f.Get(p) + [x])) == AllSucceeded(f) + (if x.how.Succeeded? then 1 else 0)
  {
    SucceededPush(f.Get(p), x);
  }

  lemma ActionCounts(s: State, c: Counts, a: Action)
    requires Counted(s, c) && Legal(s, a)
    ensures Counted(Apply(s, a), CountsAfter(s, c, a))
  {
    hide Total, AllSucceeded;
    match a
    case Enqueue(job) => TotalPush(s.entered, job.priority, job.id);
    case Take(_) =>
    case End(i, how) =>
      TotalPush(s.left, s.taken[i].from, Gone(s.taken[i], how));
      LeftPush(s.left, s.taken[i].from, Gone(s.taken[i], how));
  }

  // The counters once the pushes that Redis holds, but whose callers still await the reply, are
  // counted too.
  function Tallied(c: Counts, unanswered: nat): Counts { c.(enqueued := c.enqueued + unanswered) }

  // Enqueued is processed plus failed plus queued plus in flight.
  predicate AddsUp(s: State, c: Counts) { c.enqueued == c.processed + c.failed + Total(s.lists) + |s.taken| }

  /** The counters add up once the unanswered pushes are added, and by themselves exactly if there are none. */
  lemma AddsUpExactlyIfAnswered(s: State, c: Counts, unanswered: nat)
    requires (forall p :: Balanced(s, p)) && Counted(s, Tallied(c, unanswered))
    ensures AddsUp(s, Tallied(c, unanswered))
    ensures AddsUp(s, c) <==> unanswered == 0
  {
    JobsAddUp(s);
  }

  lemma IdleQueueIsEmpty(s: State)
    requires Idle(s)
    ensures Total(s.lists) == 0
  {
    assert s.lists.critical == s.lists.Get(Critical) && s.lists.high == s.lists.Get(High);
    assert s.lists.normal == s.lists.Get(Normal) && s.lists.low == s.lists.Get(Low);
  }

  /**
   * A push is counted after its reply, and a loop may have popped and failed the job before: from
   * every idle queue with all pushes answered, more jobs can have ended than were enqueued.
   */
  lemma JobCanEndBeforeItIsCounted(s: State, c: Counts, job: Job)
    requires Idle(s) && (forall p :: Balanced(s, p)) && Counted(s, c) && Legal(s, Enqueue(job))
    ensures var actions := [Enqueue(job), Take(job.priority), End(0, NoHandler)];
            var after := c.(failed := c.failed + 1);
            && LegalRun(s, actions) && Idle(Run(s, actions)) && Counted(Run(s, actions), Tallied(after, 1))
            && after.processed + after.failed == after.enqueued + 1
  {
    hide Counted, Total;
    var p := job.priority;
    IdleQueueIsEmpty(s);
    AddsUpExactlyIfAnswered(s, c, 0);
    var a := Apply(s, Enqueue(job));
    assert a.lists.Get(p) == [job] && Init([job]) == [];
    ActionCounts(s, c, Enqueue(job));
    var b := Apply(a, Take(p));
    assert b.lists.Get(p) == [] && b.taken == [Taken(p, Started(job))];
    ActionCounts(a, Tallied(c, 1), Take(p));
    var d := Apply(b, End(0, NoHandler));
    assert d.lists == b.lists && d.taken == [];
    ActionCounts(b, Tallied(c, 1), End(0, NoHandler));
    RunOfThree(s, Enqueue(job), Take(p), End(0, NoHandler));
  }

  lemma RunOfThree(s: State, a: Action, b: Action, c: Action)
    requires Legal(s, a) && Legal(Apply(s, a), b) && Legal(Apply(Apply(s, a), b), c)
    ensures LegalRun(s, [a, b, c]) && Run(s, [a, b, c]) == Apply(Apply(Apply(s, a), b), c)
  {
    RunOfTwo(Apply(s, a), b, c);
    assert [a, b, c][1..] == [b, c];
  }

  // Without a loop nothing is popped.
  lemma {:induction false} QueuedStays(s: State, actions: seq<Action>, job: Job)
    requires LegalRun(s, actions) && forall a :: a in actions ==> a.Enqueue?
    ensures job in s.lists.Get(job.priority) ==> job in Run(s, actions).lists.Get(job.priority)
    decreases |actions|
  {
    if actions != [] {
      var a := actions[0];
      assert a in actions;
      var t := Apply(s, a);
      assert t.lists.Get(job.priority) ==
             (if a.job.priority == job.priority then [a.job] else []) + s.lists.Get(job.priority);
      QueuedStays(t, actions[1..], job);
    }
  }

  /**
   * An enqueue after a stop, while the stopped startup is pending, is rejected although its job was
   * pushed: its start launches no loop, and for as long as none is launched the job stays queued.
   */
  lemma RejectedEnqueueLeavesItsJob(s: State, g: Startup.Generation, job: Job, later: seq<Action>, created: bool,
                                    connected: bool)
    requires Legal(s, Enqueue(job)) && LegalRun(Apply(s, Enqueue(job)), later) && forall a :: a in later ==> a.Enqueue?
    requires Startup.Inv(g) && g.startup.Connecting?
    ensures job in Run(Apply(s, Enqueue(job)), later).lists.Get(job.priority)
    ensures var h := Startup.Apply(Startup.Apply(g, Startup.Stop), Startup.Start(created));
            && !Startup.Launches(h, Startup.Answer(connected))
            && Startup.Apply(h, Startup.Answer(connected)).startup == Startup.Ending(true)
  {
    QueuedStays(Apply(s, Enqueue(job)), later, job);
    Startup.StartAfterStopIsRejected(g, created, connected);
  }

  // Where a slot is after another one was taken out.
  lemma SlotMoves(s: seq<Taken>, k: nat, i: nat)
    requires k < |s| && i < |s| && i != k
    ensures var j := if k < i then i - 1 else i; j < |RemoveAt(s, k)| && RemoveAt(s, k)[j] == s[i]
  {
  }

  // A queue that nothing was ever put into.
  predicate Untouched(s: State) {
    s.taken == [] && forall p :: s.lists.Get(p) == [] && s.entered.Get(p) == [] && s.left.Get(p) == []
  }

  lemma UntouchedIsLawful(s: State, c: Counts)
    requires Untouched(s) && c.enqueued == c.processed == c.failed == 0
    ensures Lawful(Ledger(s, ALL, false)) && Counted(s, c)
  {
    assert forall p :: Balanced(s, p) && InOrder(s, p);
    assert s.entered.critical == s.entered.Get(Critical) && s.left.critical == s.left.Get(Critical);
    assert s.entered.high == s.entered.Get(High) && s.left.high == s.left.Get(High);
    assert s.entered.normal == s.entered.Get(Normal) && s.left.normal == s.left.Get(Normal);
    assert s.entered.low == s.entered.Get(Low) && s.left.low == s.left.Get(Low);
  }

  // What the end of a job does to the lists and counters: a job whose handler threw goes back to the
  // popping end of its list while it has tries left, and is failed otherwise.
  ghost predicate Concluded(t: Taken, how: Finish, before: Four<seq<Job>>, after: Four<seq<Job>>,
                            c: Counts, d: Counts) {
    && (how == Succeeded ==> after == before && d == Counts(c.enqueued, c.processed + 1, c.failed))
    && (how == Threw && t.job.attempts < t.job.maxAttempts ==>
          && after.Get(t.from) == before.Get(t.from) + [t.job.(ran := t.job.ran + 1)]
          && (forall q :: q != t.from ==> after.Get(q) == before.Get(q))
          && d == c)
    && (how == NoHandler || (how == Threw && t.job.attempts >= t.job.maxAttempts) ==>
          after == before && d == Counts(c.enqueued, c.processed, c.failed + 1))
  }

  class Service {
    var handlers: set<string>
    var lists: Four<seq<Job>>
    var isProcessing: bool
    var blockingClient: Option<Client>
    var startup: Startup.Startup
    var nextClient: Client
    var counts: Counts
    // The pushes that Redis holds and whose callers still await the reply.
    var unanswered: nat
    // The launched loops that have not ended, and the jobs they hold.
    var loops: nat
    var inFlight: seq<Taken>
    ghost var ledger: Ledger

    ghost predicate Valid()
      reads this
    {
      && ledger.s.lists == lists && ledger.s.taken == inFlight && Lawful(ledger)
      && Counted(ledger.s, Tallied(counts, unanswered)) && |inFlight| <= loops && Startup.Inv(Current())
    }

    ghost function Current(): Startup.Generation
      reads this
    {
      Startup.Generation(isProcessing, blockingClient, startup, nextClient)
    }

    constructor ()
      ensures Valid() && handlers == {} && ledger == Ledger(EMPTY, ALL, false) && !isProcessing && loops == 0
      ensures unanswered == 0
    {
      hide Lawful, Counted;
      UntouchedIsLawful(EMPTY, Tallied(Counts(0, 0, 0), 0));
      handlers, lists, inFlight, loops, unanswered := {}, EMPTY.lists, [], 0, 0;
      isProcessing, blockingClient, startup, nextClient := false, None, Startup.NoStartup, 0;
      counts, ledger := Counts(0, 0, 0), Ledger(EMPTY, ALL, false);
    }

    /**
     * At every suspension enqueued plus the unanswered pushes is processed plus failed plus queued
     * plus in flight; enqueued alone is so exactly when no push is unanswered.
     */
    lemma CountersAddUp()
      requires Valid()
      ensures counts.enqueued + unanswered == counts.processed + counts.failed + Total(lists) + |inFlight|
      ensures counts.enqueued == counts.processed + counts.failed + Total(lists) + |inFlight| <==> unanswered == 0
    {
      AddsUpExactlyIfAnswered(ledger.s, counts, unanswered);
    }

    method RegisterHandler(name: string)
      requires Valid()
      modifies this`handlers
      ensures Valid() && handlers == old(handlers) + {name}
    {
      handlers := handlers + {name};
    }

    // What the history gains from an action.
    ghost method Note(a: Action)
      requires Lawful(ledger) && Counted(ledger.s, Tallied(counts, unanswered)) && Legal(ledger.s, a)
      modifies this`ledger
      ensures ledger == Next(old(ledger), a) && Lawful(ledger)
      ensures Counted(ledger.s, CountsAfter(old(ledger.s), Tallied(counts, unanswered), a))
    {
      ActionKeepsLawful(ledger, a);
      ActionCounts(ledger.s, Tallied(counts, unanswered), a);
      ledger := Next(ledger, a);
    }

    // The push of enqueue, as Redis executes it; the caller still awaits the reply.
    method Push(id: nat, name: string, priority: Priority, maxAttempts: int)
      requires Valid()
      modifies this`lists, this`unanswered, this`ledger
      ensures Valid() && ledger == Next(old(ledger), Enqueue(Job(id, name, priority, 0, maxAttempts, 0)))
      ensures unanswered == old(unanswered) + 1
      ensures lists.Get(priority) == [Job(id, name, priority, 0, maxAttempts, 0)] + old(lists).Get(priority)
      ensures forall q :: q != priority ==> lists.Get(q) == old(lists).Get(q)
    {
      hide Lawful, Counted;
      var job := Job(id, name, priority, 0, maxAttempts, 0);
      Note(Enqueue(job));
      lists := lists.Put(priority, [job] + lists.Get(priority));
      unanswered := unanswered + 1;
    }

    // The rest of enqueue after that reply, up to its next suspension: count, then start.
    method PushAnswered(created: bool) returns (begun: bool)
      requires Valid() && unanswered > 0
      modifies this`counts, this`unanswered, this`blockingClient, this`startup, this`nextClient
      ensures Valid() && unanswered == old(unanswered) - 1
      ensures counts == old(counts).(enqueued := old(counts).enqueued + 1)
      ensures begun == (created && Startup.Begins(old(Current())))
      ensures Current() == Startup.Apply(old(Current()), Startup.Start(created))
    {
      hide Lawful, Counted;
      counts := counts.(enqueued := counts.enqueued + 1);
      unanswered := unanswered - 1;
      begun := StartProcessing(created);
    }

    // startProcessing up to its first suspension: join a pending startup, find the loop running, or
    // begin a generation, for which a client is created.
    method StartProcessing(created: bool) returns (begun: bool)
      requires Valid()
      modifies this`blockingClient, this`startup, this`nextClient
      ensures Valid() && begun == (created && Startup.Begins(old(Current())))
      ensures Current() == Startup.Apply(old(Current()), Startup.Start(created))
    {
      hide Lawful, Counted;
      if !startup.NoStartup? || isProcessing {
        return false;
      }
      if !created {
        startup := Startup.Ending(true);
        return false;
      }
      blockingClient, startup := Some(nextClient), Startup.Connecting(nextClient);
      nextClient := nextClient + 1;
      return true;
    }

    // The connection has succeeded or failed. A loop is launched only when the generation was not
    // stopped meanwhile; a failed startup still has to disconnect its client.
    method ConnectionAnswered(connected: bool) returns (launched: Option<Client>)
      requires Valid() && startup.Connecting?
      modifies this`isProcessing, this`blockingClient, this`startup, this`loops
      ensures Valid() && Current() == Startup.Apply(old(Current()), Startup.Answer(connected))
      ensures launched ==
              if Startup.Launches(old(Current()), Startup.Answer(connected)) then Some(old(startup).client) else None
      ensures loops == old(loops) + if launched.Some? then 1 else 0
    {
      hide Lawful, Counted;
      var client := startup.client;
      if connected && blockingClient == Some(client) {
        isProcessing := true;
        startup := Startup.Ending(false);
        loops := loops + 1;
        return Some(client);
      }
      if blockingClient == Some(client) {
        blockingClient := None;
        isProcessing := false;
      }
      startup := Startup.Ending(true);
      return None;
    }

    // The startup promise settles, and no caller can join it any more.
    method StartupSettles()
      requires Valid() && startup.Ending?
      modifies this`startup
      ensures Valid() && Current() == Startup.Apply(old(Current()), Startup.Settle)
    {
      hide Lawful, Counted;
      startup := Startup.NoStartup;
    }

    method StopProcessing()
      requires Valid()
      modifies this`isProcessing, this`blockingClient
      ensures Valid() && Current() == Startup.Apply(old(Current()), Startup.Stop)
    {
      hide Lawful, Counted;
      isProcessing := false;
      blockingClient := None;
    }

    // The lists and the jobs in hand once the last job of a list was popped.
    method Pop(p: Priority, ghost before: State)
      requires before.lists == lists && before.taken == inFlight && Legal(before, Take(p))
      modifies this`lists, this`inFlight
      ensures lists == Apply(before, Take(p)).lists && inFlight == Apply(before, Take(p)).taken
    {
      inFlight := inFlight + [Taken(p, Started(Last(lists.Get(p))))];
      lists := lists.Put(p, Init(lists.Get(p)));
    }

    // BRPOP over the four keys: the right end of the first list that is not empty.
    method BrPop() returns (popped: Option<(Priority, Job)>)
      requires Valid() && |inFlight| < loops
      modifies this`lists, this`inFlight, this`ledger
      ensures Valid()
      ensures popped.None? ==> unchanged(this) && forall p :: lists.Get(p) == []
      ensures popped.Some? ==>
                && Legal(old(ledger.s), Take(popped.value.0)) && ledger == Next(old(ledger), Take(popped.value.0))
                && popped.value.1 == Last(old(lists).Get(popped.value.0))
      // The list's last job is in flight with one attempt more; every higher list was empty.
      ensures popped.Some? ==>
                var (p, job) := popped.value;
                && old(lists).Get(p) == lists.Get(p) + [job]
                && (forall q :: q != p ==> lists.Get(q) == old(lists).Get(q))
                && inFlight == old(inFlight) + [Taken(p, job.(attempts := job.attempts + 1))]
                && (p != Critical ==> lists.critical == [])
                && (p == Normal || p == Low ==> lists.high == [])
                && (p == Low ==> lists.normal == [])
    {
      hide Lawful, Counted;
      var p := FirstPriority(lists);
      if lists.Get(p) == [] {
        return None;
      }
      var job := Last(lists.Get(p));
      ghost var before := ledger.s;
      PriorityIsKept(before, p);
      Note(Take(p));
      Pop(p, before);
      return Some((p, job));
    }

    // A job whose outcome is known is counted, or put back at the popping end of its list.
    method Conclude(slot: nat, how: Finish, ghost before: State)
      requires before.lists == lists && before.taken == inFlight && slot < |inFlight|
      modifies this`lists, this`inFlight, this`counts
      ensures lists == Apply(before, End(slot, how)).lists && inFlight == Apply(before, End(slot, how)).taken
      ensures counts == CountsAfter(before, old(counts), End(slot, how))
      ensures Concluded(old(inFlight)[slot], how, old(lists), lists, old(counts), counts)
    {
      var t := inFlight[slot];
      inFlight := RemoveAt(inFlight, slot);
      if how.Succeeded? {
        counts := counts.(processed := counts.processed + 1);
      } else if how.Threw? && t.job.attempts < t.job.maxAttempts {
        lists := lists.Put(t.from, lists.Get(t.from) + [t.job.(ran := t.job.ran + 1)]);
      } else {
        counts := counts.(failed := counts.failed + 1);
      }
    }

    // What a turn does with the job of a slot.
    method Settle(slot: nat, how: Finish)
      requires Valid() && slot < |inFlight|
      modifies this`lists, this`inFlight, this`counts, this`ledger
      ensures Valid() && ledger == Next(old(ledger), End(slot, how)) && inFlight == RemoveAt(old(inFlight), slot)
      ensures counts == CountsAfter(old(ledger.s), old(counts), End(slot, how))
      ensures Concluded(old(inFlight)[slot], how, old(lists), lists, old(counts), counts)
    {
      hide Lawful, Counted;
      ghost var before := ledger.s;
      Note(End(slot, how));
      Conclude(slot, how, before);
    }

    // This loop holds the job of a slot, or none and is one of the loops that do not.
    ghost predicate Holds(mine: Option<nat>)
      reads this
    {
      Valid() && if mine.Some? then mine.value < |inFlight| else |inFlight| < loops
    }

    // A caller enqueues, stops, starts, registers a handler, or gets the reply it awaits: to its push,
    // or to its startup, which may launch a loop.
    method OtherCaller()
      requires Valid()
      modifies this
      ensures Valid() && inFlight == old(inFlight) && loops >= old(loops)
    {
      hide Lawful, Counted;
      var choice: int, ok: bool, name: string := *, *, *;
      if choice == 0 {
        StopProcessing();
      } else if choice == 1 {
        var begun := StartProcessing(ok);
      } else if choice == 2 && startup.Connecting? {
        var launched := ConnectionAnswered(ok);
      } else if choice == 3 && startup.Ending? {
        StartupSettles();
      } else if choice == 4 && unanswered > 0 {
        var begun := PushAnswered(ok);
      } else if choice == 5 {
        RegisterHandler(name);
      } else {
        var id: int, priority: Priority, maxAttempts: int := *, *, *;
        Push(if id < 0 then -id else id, name, priority, maxAttempts);
      }
    }

    // Another loop settles the job of a slot that is not this loop's.
    method OtherSettles(k: nat, mine: Option<nat>) returns (slot: Option<nat>)
      requires Holds(mine) && k < |inFlight| && mine != Some(k)
      modifies this
      ensures Holds(slot) && slot.Some? == mine.Some?
      ensures mine.Some? ==> inFlight[slot.value] == old(inFlight)[mine.value]
    {
      hide Lawful, Counted;
      var threw: bool := *;
      if mine.Some? {
        SlotMoves(inFlight, k, mine.value);
      }
      Settle(k, if inFlight[k].job.name !in handlers then NoHandler else if threw then Threw else Succeeded);
      slot := if mine.Some? && k < mine.value then Some(mine.value - 1) else mine;
    }

    // Another loop that holds no job pops one, or ends.
    method OtherPopsOrEnds(mine: Option<nat>)
      requires Holds(mine) && |inFlight| + (if mine.Some? then 0 else 1) < loops
      modifies this
      ensures Holds(mine) && old(inFlight) <= inFlight
    {
      var pops: bool, crashes: bool, client: Client := *, *, *;
      if pops {
        var popped := BrPop();
      } else {
        LeaveLoop(client, if crashes then Crashed else Stopped);
      }
    }

    /**
     * What happens while a loop is suspended: callers enqueue, stop and restart, a restart launches
     * a loop, and the other loops pop jobs, settle theirs and end. The slot of the job this loop
     * holds, if it holds one, is told again.
     */
    method OthersRun(mine: Option<nat>) returns (slot: Option<nat>)
      requires Holds(mine)
      modifies this
      ensures Holds(slot) && slot.Some? == mine.Some?
      ensures mine.Some? ==> inFlight[slot.value] == old(inFlight)[mine.value]
    {
      slot := mine;
      var turns: int := *;
      while turns > 0
        invariant Holds(slot) && slot.Some? == mine.Some?
        invariant mine.Some? ==> inFlight[slot.value] == old(inFlight)[mine.value]
        decreases turns
      {
        turns := turns - 1;
        var k: int := *;
        if 0 <= k < |inFlight| && slot != Some(k) {
          slot := OtherSettles(k, slot);
        } else if k == -1 && |inFlight| + (if slot.Some? then 0 else 1) < loops {
          OtherPopsOrEnds(slot);
        } else {
          OtherCaller();
        }
      }
    }

    /**
     * After a pop: run the handler, if there is one, then requeue or count the job. While the handler
     * runs the others go on; before is the queue they leave, in which the job has the slot at.
     */
    method HandleJob(slot: nat)
      returns (how: Finish, ghost before: Ledger, ghost at: nat, ghost counted: Counts)
      requires Valid() && slot < |inFlight|
      modifies this
      ensures Valid() && |inFlight| < loops
      ensures how.NoHandler? == (old(inFlight)[slot].job.name !in old(handlers))
      ensures how.NoHandler? ==> before == old(ledger) && at == slot
      ensures at < |before.s.taken| && before.s.taken[at] == old(inFlight)[slot]
      ensures ledger == Next(before, End(at, how))
      ensures Concluded(old(inFlight)[slot], how, before.s.lists, lists, counted, counts)
    {
      if inFlight[slot].job.name !in handlers {
        before, at, how, counted := ledger, slot, NoHandler, counts;
        Settle(slot, how);
      } else {
        var now := OthersRun(Some(slot));
        before, at, counted := ledger, now.value, counts;
        var threw: bool := *;
        how := if threw then Threw else Succeeded;
        Settle(now.value, how);
      }
    }

    // One turn of the while loop: nothing, unless a job was popped; more is whether to go on.
    method Turn(client: Client) returns (more: bool, crashed: bool)
      requires Holds(None)
      modifies this
      ensures Holds(None) && (crashed ==> !more)
      ensures !more && !crashed ==> !isProcessing || blockingClient != Some(client)
    {
      var overloaded: bool, readFailed: bool, retryable: bool := *, *, *;
      var none := OthersRun(None);
      if overloaded {
        return true, false;
      }
      if readFailed {
        if !isProcessing || blockingClient != Some(client) {
          return false, false;
        }
        if !retryable {
          return false, true;
        }
        none := OthersRun(None);
        return true, false;
      }
      var popped := BrPop();
      if popped.Some? {
        // Redis has taken the job out of its list; the reply arrives later.
        var slot := OthersRun(Some(|inFlight| - 1));
        var how;
        ghost var before, at, counted;
        how, before, at, counted := HandleJob(slot.value);
      }
      return true, false;
    }

    /**
     * The processing loop of one client, over the given number of turns of its while loop, among any
     * number of other loops. Balance, the limit on handler runs and the counters hold throughout. A
     * priority all of whose jobs ended in turn has finished them in enqueue order; when no two jobs
     * were ever in flight at once, that is every priority.
     */
    method ProcessLoop(client: Client, turns: nat) returns (exit: LoopExit)
      requires Holds(None)
      modifies this
      ensures Valid() && (exit.Running? ==> Holds(None))
      ensures exit.Stopped? ==> !isProcessing || blockingClient != Some(client)
      ensures counts.enqueued + unanswered == counts.processed + counts.failed + Total(lists) + |inFlight|
      ensures forall p :: p in ledger.ordered ==> FinishedInOrder(ledger.s, p)
      ensures !ledger.overlapped ==> forall p :: FinishedInOrder(ledger.s, p)
    {
      var turn, more, crashed := 0, true, false;
      while turn < turns && more && isProcessing && blockingClient == Some(client)
        invariant Holds(None) && (crashed ==> !more)
        invariant !more && !crashed ==> !isProcessing || blockingClient != Some(client)
        decreases turns - turn
      {
        turn := turn + 1;
        more, crashed := Turn(client);
      }
      exit := if crashed then Crashed else if !isProcessing || blockingClient != Some(client) then Stopped else Running;
      LeaveLoop(client, exit);
      CountersAddUp();
      LawfulIsInOrder(ledger);
    }

    // The end of a loop; one that crashed takes its generation with it, if that is still current.
    method LeaveLoop(client: Client, exit: LoopExit)
      requires Valid() && |inFlight| < loops
      modifies this`loops, this`isProcessing, this`blockingClient
      ensures Valid() && loops == old(loops) - if exit.Running? then 0 else 1
      ensures Current() ==
              if exit.Crashed? && old(blockingClient) == Some(client) then Startup.Off(old(Current()))
              else old(Current())
    {
      hide Lawful, Counted;
      if exit.Crashed? && blockingClient == Some(client) {
        blockingClient := None;
        isProcessing := false;
      }
      if !exit.Running? {
        loops := loops - 1;
      }
    }
  }
}
