/**
 * The abstract lock behind the transaction semaphore: free permits and a queue of
 * waiters served first come, first served. Everything here is about whole runs.
 */
module FifoLock {
  import opened Prelude

  datatype Lock<T> = Lock(permits: nat, queue: seq<T>)

  ghost predicate Distinct<T>(s: seq<T>) {
    forall i, j :: 0 <= i < j < |s| ==> s[i] != s[j]
  }

  // A free permit means nobody waits, and nobody waits twice.
  ghost predicate WellFormed<T>(l: Lock<T>) {
    && (l.permits > 0 ==> l.queue == [])
    && Distinct(l.queue)
  }

  function Without<T(==)>(s: seq<T>, x: T): (r: seq<T>)
  {
    if s == [] then [] else if s[0] == x then s[1..] else [s[0]] + Without(s[1..], x)
  }

  // Takes a permit, or joins the end of the queue.
  function Acquire<T>(l: Lock<T>, x: T): Lock<T> {
    if l.permits > 0 then l.(permits := l.permits - 1) else l.(queue := l.queue + [x])
  }

  // The timer of x fires: x leaves the queue if it still waits.
  function Timeout<T(==)>(l: Lock<T>, x: T): Lock<T> {
    l.(queue := Without(l.queue, x))
  }

  function Release<T>(l: Lock<T>): Lock<T> {
    if l.queue == [] then l.(permits := l.permits + 1) else l.(queue := l.queue[1..])
  }

  lemma {:induction false} WithoutIsRemoval<T>(s: seq<T>, x: T)
    requires Distinct(s)
    ensures Distinct(Without(s, x))
    ensures forall y :: y in Without(s, x) ==> y in s && y != x
    ensures forall y :: y in s && y != x ==> y in Without(s, x)
    ensures x in s ==> |Without(s, x)| == |s| - 1
    ensures x !in s ==> Without(s, x) == s
  {
    if s != [] {
      assert s == [s[0]] + s[1..];
      if s[0] == x {
        assert x !in s[1..];
      } else {
        WithoutIsRemoval(s[1..], x);
        var r := Without(s[1..], x);
        forall i, j | 0 <= i < j < |[s[0]] + r| ensures ([s[0]] + r)[i] != ([s[0]] + r)[j] {
          assert ([s[0]] + r)[j] in r;
          if i > 0 { assert ([s[0]] + r)[i] == r[i - 1]; }
        }
      }
    }
  }

  // Removing another waiter leaves a waiter's position, or moves it one ahead.
  lemma {:induction false} WithoutMoves<T>(s: seq<T>, x: T, k: nat)
    requires Distinct(s) && k < |s| && s[k] != x
    ensures var r := Without(s, x);
            var j := if x in s[..k] then k - 1 else k;
            && 0 <= j < |r| && r[j] == s[k]
            && (forall y :: y in r[..j] ==> y in s[..k] && y != x)
  {
    var r := Without(s, x);
    if s[0] == x {
      assert forall y :: y in r[..k - 1] ==> y in s[1..k];
    } else if k > 0 {
      WithoutMoves(s[1..], x, k - 1);
      var q := Without(s[1..], x);
      assert s[1..][..k - 1] == s[1..k];
      assert x in s[..k] <==> x in s[1..k];
      var j := if x in s[..k] then k - 1 else k;
      forall y | y in r[..j] ensures y in s[..k] && y != x {
        var i :| 0 <= i < j && r[i] == y;
        if i > 0 {
          assert r[i] == q[i - 1];
          assert q[..j - 1][i - 1] in q[..j - 1];
          assert y in s[1..][..k - 1];
        }
      }
    }
  }

  lemma {:induction false} WithoutLast<T>(s: seq<T>, x: T)
    requires x !in s
    ensures Without(s + [x], x) == s
  {
    if s != [] {
      assert (s + [x])[1..] == s[1..] + [x];
      WithoutLast(s[1..], x);
    }
  }

  // ---- runs ----

  datatype Op<T> = Acquiring(x: T) | TimingOut(x: T) | Releasing

  function Step<T(==)>(l: Lock<T>, op: Op<T>): Lock<T> {
    match op
    case Acquiring(x) => Acquire(l, x)
    case TimingOut(x) => Timeout(l, x)
    case Releasing => Release(l)
  }

  function Run<T(==)>(l: Lock<T>, ops: seq<Op<T>>): Lock<T>
    decreases |ops|
  {
    if ops == [] then l else Run(Step(l, ops[0]), ops[1..])
  }

  // The waiters that received a permit from a release, in order.
  function Grants<T(==)>(l: Lock<T>, ops: seq<Op<T>>): seq<T>
    decreases |ops|
  {
    if ops == [] then []
    else
      (if ops[0].Releasing? && l.queue != [] then [l.queue[0]] else []) + Grants(Step(l, ops[0]), ops[1..])
  }

  lemma {:induction false} RunAppends<T>(l: Lock<T>, ops: seq<Op<T>>, more: seq<Op<T>>)
    ensures Run(l, ops + more) == Run(Run(l, ops), more)
    ensures Grants(l, ops + more) == Grants(l, ops) + Grants(Run(l, ops), more)
    decreases |ops|
  {
    if ops == [] {
      assert ops + more == more;
    } else {
      assert (ops + more)[1..] == ops[1..] + more;
      RunAppends(Step(l, ops[0]), ops[1..], more);
    }
  }

  function Releases<T>(ops: seq<Op<T>>): nat {
    if ops == [] then 0 else (if ops[0].Releasing? then 1 else 0) + Releases(ops[1..])
  }

  // Every call to acquire makes a new waiter.
  ghost predicate Fresh<T>(ops: seq<Op<T>>, used: set<T>) {
    ops == [] ||
    (match ops[0]
     case Acquiring(x) => x !in used && Fresh(ops[1..], used + {x})
     case _ => Fresh(ops[1..], used))
  }

  lemma StepKeepsWellFormed<T>(l: Lock<T>, op: Op<T>)
    requires WellFormed(l) && (op.Acquiring? ==> op.x !in l.queue)
    ensures WellFormed(Step(l, op))
  {
    if op.TimingOut? {
      WithoutIsRemoval(l.queue, op.x);
    }
  }

  lemma StepQueue<T>(l: Lock<T>, op: Op<T>)
    requires WellFormed(l)
    ensures forall y :: y in Step(l, op).queue ==> y in l.queue || op == Acquiring(y)
  {
    if op.TimingOut? {
      WithoutIsRemoval(l.queue, op.x);
    }
  }

  lemma {:induction false} RunKeepsWellFormed<T>(l: Lock<T>, ops: seq<Op<T>>, used: set<T>)
    requires WellFormed(l) && Fresh(ops, used) && (forall y :: y in l.queue ==> y in used)
    ensures WellFormed(Run(l, ops))
    decreases |ops|
  {
    if ops != [] {
      StepKeepsWellFormed(l, ops[0]);
      StepQueue(l, ops[0]);
      RunKeepsWellFormed(Step(l, ops[0]), ops[1..], if ops[0].Acquiring? then used + {ops[0].x} else used);
    }
  }

  // Who no longer waits (served, or timed out) never receives a permit from a later release.
  lemma {:induction false} GoneStaysGone<T>(l: Lock<T>, ops: seq<Op<T>>, used: set<T>, x: T)
    requires WellFormed(l) && Fresh(ops, used) && (forall y :: y in l.queue ==> y in used)
    requires x in used && x !in l.queue
    ensures x !in Grants(l, ops) && x !in Run(l, ops).queue
    decreases |ops|
  {
    if ops != [] {
      StepKeepsWellFormed(l, ops[0]);
      StepQueue(l, ops[0]);
      GoneStaysGone(Step(l, ops[0]), ops[1..], if ops[0].Acquiring? then used + {ops[0].x} else used, x);
    }
  }

  // A waiter whose timer fired never receives a permit.
  lemma TimedOutIsNeverServed<T>(l: Lock<T>, x: T, ops: seq<Op<T>>, used: set<T>)
    requires WellFormed(l) && x in l.queue && Fresh(ops, used) && (forall y :: y in l.queue ==> y in used)
    ensures x !in Grants(Timeout(l, x), ops)
  {
    StepKeepsWellFormed(l, TimingOut(x));
    WithoutIsRemoval(l.queue, x);
    StepQueue(l, TimingOut(x));
    GoneStaysGone(Timeout(l, x), ops, used, x);
  }

  // Nobody receives two permits for one wait.
  lemma {:induction false} ServedOnce<T>(l: Lock<T>, ops: seq<Op<T>>, used: set<T>)
    requires WellFormed(l) && Fresh(ops, used) && (forall y :: y in l.queue ==> y in used)
    ensures Distinct(Grants(l, ops))
    decreases |ops|
  {
    if ops != [] {
      var next := Step(l, ops[0]);
      var used' := if ops[0].Acquiring? then used + {ops[0].x} else used;
      StepKeepsWellFormed(l, ops[0]);
      StepQueue(l, ops[0]);
      ServedOnce(next, ops[1..], used');
      if ops[0].Releasing? && l.queue != [] {
        GoneStaysGone(next, ops[1..], used', l.queue[0]);
      }
    }
  }

  // The waiter at position k is served by the (k+1)-th release, unless it times out first.
  lemma {:induction false} ServedInTurn<T>(l: Lock<T>, ops: seq<Op<T>>, used: set<T>, k: nat)
    requires WellFormed(l) && Fresh(ops, used) && (forall y :: y in l.queue ==> y in used)
    requires k < |l.queue| && k < Releases(ops)
    requires TimingOut(l.queue[k]) !in ops
    ensures l.queue[k] in Grants(l, ops)
    decreases |ops|
  {
    var x := l.queue[k];
    var op := ops[0];
    var next := Step(l, op);
    assert op in ops;
    StepKeepsWellFormed(l, op);
    StepQueue(l, op);
    var used' := if op.Acquiring? then used + {op.x} else used;
    match op {
      case Acquiring(y) =>
        ServedInTurn(next, ops[1..], used', k);
      case Releasing =>
        if k > 0 {
          ServedInTurn(next, ops[1..], used', k - 1);
        }
      case TimingOut(y) =>
        WithoutMoves(l.queue, y, k);
        ServedInTurn(next, ops[1..], used', if y in l.queue[..k] then k - 1 else k);
    }
  }

  // While x still waits, only those ahead of it are served: newcomers never overtake.
  lemma {:induction false} NoOvertaking<T>(l: Lock<T>, ops: seq<Op<T>>, used: set<T>, k: nat)
    requires WellFormed(l) && Fresh(ops, used) && (forall y :: y in l.queue ==> y in used)
    requires k < |l.queue| && l.queue[k] in Run(l, ops).queue
    ensures forall g :: g in Grants(l, ops) ==> g in l.queue[..k]
    decreases |ops|
  {
    if ops != [] {
      var x := l.queue[k];
      var op := ops[0];
      var next := Step(l, op);
      StepKeepsWellFormed(l, op);
      StepQueue(l, op);
      var used' := if op.Acquiring? then used + {op.x} else used;
      match op {
        case Acquiring(y) =>
          assert next.queue[..k] == l.queue[..k];
          NoOvertaking(next, ops[1..], used', k);
        case Releasing =>
          if k == 0 {
            GoneStaysGone(next, ops[1..], used', x);
          } else {
            assert next.queue[..k - 1] == l.queue[1..k];
            assert l.queue[0] in l.queue[..k];
            NoOvertaking(next, ops[1..], used', k - 1);
          }
        case TimingOut(y) =>
          if y == x {
            WithoutIsRemoval(l.queue, x);
            GoneStaysGone(next, ops[1..], used', x);
          } else {
            WithoutMoves(l.queue, y, k);
            NoOvertaking(next, ops[1..], used', if y in l.queue[..k] then k - 1 else k);
          }
      }
    }
  }
}
