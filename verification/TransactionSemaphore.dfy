/**
 * The transaction semaphore as it is coded: a permit counter and an array of waiter
 * objects with a settled flag each. Every method is proved against FifoLock.
 */
module TransactionSemaphore {
  import opened Prelude
  import FifoLock

  // What became of the promise behind a waiter.
  datatype WaitOutcome = Pending | Granted | TimedOut

  class Waiter {
    ghost const owner: Caller
    var settled: bool
    var armed: bool
    var outcome: WaitOutcome

    constructor (timed: bool, ghost owner: Caller)
      ensures !settled && armed == timed && outcome == Pending && this.owner == owner
    {
      this.owner, settled, armed, outcome := owner, false, timed, Pending;
    }
  }

  // Every permit is free or held by one caller, and who waits holds none and waits once.
  ghost predicate Booked(capacity: nat, permits: nat, held: set<Caller>, waiting: seq<Waiter>) {
    && permits + |held| == capacity
    && (forall w :: w in waiting ==> w.owner !in held)
    && (forall v, w :: v in waiting && w in waiting && v != w ==> v.owner != w.owner)
  }

  // Taking a free permit, and giving one back.
  lemma TakingKeepsBooked(capacity: nat, permits: nat, held: set<Caller>, who: Caller)
    requires Booked(capacity, permits, held, []) && permits > 0 && who !in held
    ensures Booked(capacity, permits - 1, held + {who}, [])
  {
  }

  lemma JoiningKeepsBooked(capacity: nat, permits: nat, held: set<Caller>, waiting: seq<Waiter>, w: Waiter)
    requires Booked(capacity, permits, held, waiting) && w.owner !in held
    requires forall v :: v in waiting ==> v.owner != w.owner
    ensures Booked(capacity, permits, held, waiting + [w])
  {
  }

  lemma LeavingKeepsBooked(capacity: nat, permits: nat, held: set<Caller>, waiting: seq<Waiter>, rest: seq<Waiter>)
    requires Booked(capacity, permits, held, waiting) && forall w :: w in rest ==> w in waiting
    ensures Booked(capacity, permits, held, rest)
  {
  }

  lemma FreeingKeepsBooked(capacity: nat, permits: nat, held: set<Caller>, who: Caller)
    requires Booked(capacity, permits, held, []) && who in held
    ensures Booked(capacity, permits + 1, held - {who}, [])
  {
  }

  // The permit of who goes to the first waiter.
  lemma HandingKeepsBooked(capacity: nat, permits: nat, held: set<Caller>, waiting: seq<Waiter>, who: Caller)
    requires Booked(capacity, permits, held, waiting) && who in held && waiting != [] && FifoLock.Distinct(waiting)
    ensures Booked(capacity, permits, held - {who} + {waiting[0].owner}, waiting[1..])
  {
    var next := waiting[0];
    assert next in waiting && next.owner !in held;
    assert |held - {who} + {next.owner}| == |held|;
    forall w | w in waiting[1..] ensures w in waiting && w.owner != next.owner {
      var i :| 0 <= i < |waiting[1..]| && waiting[1..][i] == w;
      assert waiting[i + 1] == w && waiting[0] != waiting[i + 1];
    }
  }

  function IndexOf(s: seq<Waiter>, w: Waiter): (i: int)
    ensures i == -1 <==> w !in s
    ensures i != -1 ==> 0 <= i < |s| && s[i] == w && w !in s[..i]
  {
    if s == [] then -1
    else if s[0] == w then 0
    else
      var i := IndexOf(s[1..], w);
      if i == -1 then -1 else assert s[..i + 1] == [s[0]] + s[1..][..i]; i + 1
  }

  lemma {:induction false} SpliceIsRemoval(s: seq<Waiter>, i: nat)
    requires i < |s| && s[i] !in s[..i]
    ensures FifoLock.Without(s, s[i]) == s[..i] + s[i + 1..]
  {
    if i > 0 {
      assert s[0] in s[..i];
      assert s[1..][..i - 1] == s[1..i];
      SpliceIsRemoval(s[1..], i - 1);
      assert s[..i] + s[i + 1..] == [s[0]] + (s[1..][..i - 1] + s[1..][i..]);
    } else {
      assert s[..0] + s[1..] == s[1..];
    }
  }

  lemma NotWaiting(s: seq<Waiter>, w: Waiter)
    requires FifoLock.Distinct(s)
    ensures w !in s ==> FifoLock.Without(s, w) == s
  {
    FifoLock.WithoutIsRemoval(s, w);
  }

  lemma SpliceKeeps(s: seq<Waiter>, i: nat)
    requires FifoLock.Distinct(s) && i < |s|
    ensures var rest := s[..i] + s[i + 1..];
            && rest == FifoLock.Without(s, s[i]) && FifoLock.Distinct(rest)
            && forall v :: v in rest ==> v in s && v != s[i]
  {
    SpliceIsRemoval(s, i);
    FifoLock.WithoutIsRemoval(s, s[i]);
  }

  class Semaphore {
    const capacity: nat
    var permits: nat
    var waiting: seq<Waiter>
    // Who holds a permit, and every waiter that was ever queued.
    ghost var held: set<Caller>
    ghost var known: set<Waiter>

    ghost function Abs(): FifoLock.Lock<Waiter>
      reads this
    {
      FifoLock.Lock(permits, waiting)
    }

    ghost predicate Waits(who: Caller)
      reads this
    {
      exists w :: w in waiting && w.owner == who
    }

    // The array holds exactly unsettled waiters, once each, and none while a permit is free.
    ghost predicate Valid()
      reads this, known
    {
      && (forall w :: w in waiting ==> w in known)
      && FifoLock.WellFormed(Abs()) && Booked(capacity, permits, held, waiting)
      && forall w :: w in waiting ==> !w.settled && w.outcome == Pending
    }

    constructor (permits: nat)
      ensures Valid() && this.permits == permits == capacity && waiting == [] && held == {} && known == {}
    {
      capacity, this.permits, waiting, held, known := permits, permits, [], {}, {};
    }

    // Returns null when a permit was free, else the waiter that was queued.
    method Acquire(timed: bool, ghost who: Caller) returns (w: Waiter?)
      requires Valid() && who !in held && !Waits(who)
      modifies this
      ensures Valid()
      ensures w == null <==> old(permits) > 0
      ensures known == old(known) + if w == null then {} else {w}
      ensures w == null ==> permits == old(permits) - 1 && waiting == old(waiting) && held == old(held) + {who}
      ensures w != null ==> fresh(w) && Abs() == FifoLock.Acquire(old(Abs()), w) && held == old(held)
      ensures w != null ==> !w.settled && w.armed == timed && w.owner == who
    {
      if permits > 0 {
        TakingKeepsBooked(capacity, permits, held, who);
        permits := permits - 1;
        held := held + {who};
        return null;
      }
      var waiter := new Waiter(timed, who);
      JoiningKeepsBooked(capacity, permits, held, waiting, waiter);
      waiting, known := waiting + [waiter], known + {waiter};
      return waiter;
    }

    // The callback of a waiter's timer.
    method FireTimeout(w: Waiter)
      requires Valid()
      modifies this, w
      ensures Valid() && held == old(held) && known == old(known)
      ensures Abs() == FifoLock.Timeout(old(Abs()), w)
      ensures w in old(waiting) ==> w.settled && w.outcome == TimedOut
      ensures w !in old(waiting) ==> w.settled == old(w.settled) && w.outcome == old(w.outcome)
    {
      hide IndexOf, FifoLock.Without, Booked;
      NotWaiting(waiting, w);
      if w.settled {
        return;
      }
      var index := IndexOf(waiting, w);
      if index == -1 {
        return;
      }
      SpliceKeeps(waiting, index);
      LeavingKeepsBooked(capacity, permits, held, waiting, waiting[..index] + waiting[index + 1..]);
      waiting := waiting[..index] + waiting[index + 1..];
      w.settled := true;
      w.outcome := TimedOut;
    }

    // Who holds a permit after the caller gave one back.
    ghost function HeldAfter(who: Caller): set<Caller>
      reads this
    {
      held - {who} + if waiting == [] then {} else {waiting[0].owner}
    }

    // The loop of a release: hands the permit to the first unsettled waiter, which is the k-th, or
    // counts it as free again when there is none.
    method HandOver() returns (ghost k: nat)
      requires FifoLock.Distinct(waiting)
      modifies this`permits, this`waiting, waiting
      ensures k <= |old(waiting)| && forall i :: 0 <= i < k ==> old(waiting[i].settled)
      ensures k == |old(waiting)| ==> waiting == [] && permits == old(permits) + 1
      ensures k < |old(waiting)| ==>
                var next := old(waiting)[k];
                && !old(waiting[k].settled) && next.settled && next.outcome == Granted && !next.armed
                && waiting == old(waiting)[k + 1..] && permits == old(permits)
      ensures forall i :: 0 <= i < |old(waiting)| && i != k ==> unchanged(old(waiting)[i])
    {
      k := 0;
      while |waiting| > 0
        invariant 0 <= k <= |old(waiting)| && waiting == old(waiting)[k..]
        invariant permits == old(permits)
        invariant forall i :: 0 <= i < k ==> old(waiting[i].settled)
        invariant forall w :: w in old(waiting) ==> unchanged(w)
        decreases |waiting|
      {
        var next := waiting[0];
        assert next == old(waiting)[k] && next in old(waiting);
        waiting := waiting[1..];
        if next.settled {
          k := k + 1;
          continue;
        }
        next.settled := true;
        next.armed := false;
        next.outcome := Granted;
        forall i | 0 <= i < |old(waiting)| && i != k ensures unchanged(old(waiting)[i]) {
          assert old(waiting)[i] in old(waiting) && old(waiting)[i] != next;
        }
        return;
      }
      forall i | 0 <= i < |old(waiting)| ensures unchanged(old(waiting)[i]) {
        assert old(waiting)[i] in old(waiting);
      }
      permits := permits + 1;
    }

    // Gives back the permit of the caller.
    method Release(ghost who: Caller)
      requires Valid() && who in held
      modifies this, waiting
      ensures Valid() && Abs() == FifoLock.Release(old(Abs()))
      ensures held == old(HeldAfter(who)) && known == old(known)
      ensures old(waiting) != [] ==>
                var next := old(waiting)[0];
                && next.settled && next.outcome == Granted && !next.armed
                && forall i :: 1 <= i < |old(waiting)| ==> unchanged(old(waiting)[i])
    {
      if waiting == [] {
        FreeingKeepsBooked(capacity, permits, held, who);
      } else {
        HandingKeepsBooked(capacity, permits, held, waiting, who);
      }
      held := HeldAfter(who);
      ghost var k := HandOver();
      assert old(waiting) != [] ==> old(waiting)[0] in old(waiting);
      assert k == 0;
      forall w | w in waiting ensures w in known && !w.settled && w.outcome == Pending {
        var i :| 0 <= i < |waiting| && waiting[i] == w;
        assert w == old(waiting)[i + 1] && w in old(waiting);
      }
    }
  }
}
