/**
 * The order in which the jobs of one priority finish. Any number of loops may hold jobs; the order
 * they were enqueued in survives exactly as long as every job ends in its turn.
 */
module JobOrder {
  import opened Prelude
  import opened JobQueue

  // The ids of a list, first to be popped first.
  function InPopOrder(s: seq<Job>): seq<nat> {
    if s == [] then [] else [Last(s).id] + InPopOrder(Init(s))
  }

  function LeftOrder(s: seq<Left>): seq<nat> {
    if s == [] then [] else LeftOrder(Init(s)) + [Last(s).id]
  }

  // The ids in flight from a priority, first taken first.
  function TakenOrder(s: seq<Taken>, p: Priority): seq<nat> {
    if s == [] then [] else (if s[0].from == p then [s[0].job.id] else []) + TakenOrder(s[1..], p)
  }

  // What left, what is in flight and what is queued, in this order, is what entered.
  ghost predicate InOrder(s: State, p: Priority) {
    s.entered.Get(p) == LeftOrder(s.left.Get(p)) + TakenOrder(s.taken, p) + InPopOrder(s.lists.Get(p))
  }

  // A job that leaves for good has nothing of its priority in flight before it, and one that goes
  // back to be tried again nothing after it.
  predicate InTurn(taken: seq<Taken>, i: nat, how: Finish)
    requires i < |taken|
  {
    var p := taken[i].from;
    if Retries(taken[i], how) then forall j :: i < j < |taken| ==> taken[j].from != p
    else forall j :: 0 <= j < i ==> taken[j].from != p
  }

  // Only the end of a job of the priority can be out of turn.
  predicate KeepsTurn(s: State, a: Action, p: Priority)
    requires Legal(s, a)
  {
    a.End? && s.taken[a.slot].from == p ==> InTurn(s.taken, a.slot, a.how)
  }

  ghost predicate Distinct(ids: seq<nat>) { forall i, j :: 0 <= i < j < |ids| ==> ids[i] != ids[j] }

  // ---- the three orders under the actions ----

  lemma {:induction false} PushedIsLast(job: Job, s: seq<Job>)
    ensures InPopOrder([job] + s) == InPopOrder(s) + [job.id]
  {
    var t := [job] + s;
    if s == [] {
      assert Init(t) == [];
    } else {
      assert Init(t) == [job] + Init(s);
      PushedIsLast(job, Init(s));
    }
  }

  lemma ReturnedIsFirst(l: seq<Job>, j: Job)
    ensures InPopOrder(l + [j]) == [j.id] + InPopOrder(l)
  {
    assert Init(l + [j]) == l;
  }

  lemma LeftIsLast(l: seq<Left>, x: Left)
    ensures LeftOrder(l + [x]) == LeftOrder(l) + [x.id]
  {
    assert Init(l + [x]) == l;
  }

  lemma Regroup(a: seq<nat>, b: seq<nat>, c: seq<nat>)
    ensures a + b + c == a + (b + c)
  {
  }

  lemma FirstSlot(t: Taken, rest: seq<Taken>, p: Priority)
    ensures TakenOrder([t] + rest, p) == (if t.from == p then [t.job.id] else []) + TakenOrder(rest, p)
  {
    assert ([t] + rest)[1..] == rest;
  }

  lemma {:induction false} TakenOrderOfSum(a: seq<Taken>, b: seq<Taken>, p: Priority)
    ensures TakenOrder(a + b, p) == TakenOrder(a, p) + TakenOrder(b, p)
  {
    if a == [] {
      assert a + b == b;
    } else {
      TakenOrderOfSum(a[1..], b, p);
      FirstSlot(a[0], a[1..] + b, p);
      assert a + b == [a[0]] + (a[1..] + b);
      Regroup(if a[0].from == p then [a[0].job.id] else [], TakenOrder(a[1..], p), TakenOrder(b, p));
    }
  }

  lemma {:induction false} NoneTaken(s: seq<Taken>, p: Priority)
    ensures TakenOrder(s, p) == [] <==> forall j :: 0 <= j < |s| ==> s[j].from != p
  {
    if s != [] {
      NoneTaken(s[1..], p);
      assert forall j :: 0 < j < |s| ==> s[j] == s[1..][j - 1];
      if TakenOrder(s, p) == [] {
        forall j | 0 <= j < |s| ensures s[j].from != p {
          assert j > 0 ==> s[1..][j - 1] == s[j];
        }
      } else if s[0].from != p {
        ghost var j :| 0 <= j < |s[1..]| && s[1..][j].from == p;
        assert s[j + 1].from == p;
      }
    }
  }

  lemma SlotMiddle(a: seq<Taken>, x: Taken, b: seq<Taken>, p: Priority)
    ensures TakenOrder(a + [x] + b, p) ==
            TakenOrder(a, p) + (if x.from == p then [x.job.id] else []) + TakenOrder(b, p)
  {
    TakenOrderOfSum(a + [x], b, p);
    TakenOrderOfSum(a, [x], p);
    assert [x][1..] == [];
  }

  // A slot's id stands between the ids before it and those after it.
  lemma SlotSplits(s: seq<Taken>, i: nat, p: Priority)
    requires i < |s|
    ensures TakenOrder(s, p) ==
            TakenOrder(s[..i], p) + (if s[i].from == p then [s[i].job.id] else []) + TakenOrder(s[i + 1..], p)
    ensures TakenOrder(RemoveAt(s, i), p) == TakenOrder(s[..i], p) + TakenOrder(s[i + 1..], p)
  {
    assert s == s[..i] + [s[i]] + s[i + 1..];
    SlotMiddle(s[..i], s[i], s[i + 1..], p);
    TakenOrderOfSum(s[..i], s[i + 1..], p);
  }

  lemma OtherSlot(s: seq<Taken>, i: nat, p: Priority)
    requires i < |s| && s[i].from != p
    ensures TakenOrder(RemoveAt(s, i), p) == TakenOrder(s, p)
  {
    SlotSplits(s, i, p);
    assert TakenOrder(s[..i], p) + [] == TakenOrder(s[..i], p);
  }

  // Slot i is first, or last, of its priority.
  lemma FirstOrLast(s: seq<Taken>, i: nat)
    requires i < |s|
    ensures TakenOrder(s[..i], s[i].from) == [] <==> forall j :: 0 <= j < i ==> s[j].from != s[i].from
    ensures TakenOrder(s[i + 1..], s[i].from) == [] <==> forall j :: i < j < |s| ==> s[j].from != s[i].from
  {
    NoneTaken(s[..i], s[i].from);
    NoneTaken(s[i + 1..], s[i].from);
    assert forall j :: 0 <= j < i ==> s[..i][j] == s[j];
    var later := s[i + 1..];
    assert forall j :: i < j < |s| ==> later[j - i - 1] == s[j];
    forall j | 0 <= j < |later| ensures later[j] == s[j + i + 1] {}
  }

  // The two places x can go to, and when they are the place it has.
  lemma MovesForward(done: seq<nat>, before: seq<nat>, x: nat, after: seq<nat>, rest: seq<nat>)
    ensures var all, moved := done + (before + [x] + after) + rest, (done + [x]) + (before + after) + rest;
            (before == [] ==> all == moved) && (Distinct(all) && all == moved ==> before == [])
  {
    var all, moved := done + (before + [x] + after) + rest, (done + [x]) + (before + after) + rest;
    if before == [] {
      assert before + [x] + after == [x] + after && before + after == after;
      assert all == moved;
    } else {
      assert all[|done|] == before[0] && all[|done| + |before|] == x && moved[|done|] == x;
    }
  }

  lemma MovesBackward(done: seq<nat>, before: seq<nat>, x: nat, after: seq<nat>, rest: seq<nat>)
    ensures var all, moved := done + (before + [x] + after) + rest, done + (before + after) + ([x] + rest);
            (after == [] ==> all == moved) && (Distinct(all) && all == moved ==> after == [])
  {
    var all, moved := done + (before + [x] + after) + rest, done + (before + after) + ([x] + rest);
    if after == [] {
      assert before + [x] + after == before + [x] && before + after == before;
      assert all == moved;
    } else {
      var k := |done| + |before|;
      assert all[k] == x && all[k + 1] == after[0] && moved[k] == after[0];
    }
  }

  // ---- each action, exactly ----

  lemma EnqueueKeepsOrder(s: State, job: Job, p: Priority)
    requires InOrder(s, p) && Legal(s, Enqueue(job))
    ensures InOrder(Apply(s, Enqueue(job)), p)
  {
    var t := Apply(s, Enqueue(job));
    assert t.left == s.left && t.taken == s.taken;
    if p == job.priority {
      assert t.lists.Get(p) == [job] + s.lists.Get(p) && t.entered.Get(p) == s.entered.Get(p) + [job.id];
      PushedIsLast(job, s.lists.Get(p));
    } else {
      assert t.lists.Get(p) == s.lists.Get(p) && t.entered.Get(p) == s.entered.Get(p);
    }
  }

  lemma MoveOne(done: seq<nat>, taken: seq<nat>, x: nat, rest: seq<nat>)
    ensures done + taken + ([x] + rest) == done + (taken + [x]) + rest
  {
  }

  // One more slot at the end.
  lemma SlotJoins(s: seq<Taken>, t: Taken, p: Priority)
    ensures TakenOrder(s + [t], p) == if t.from == p then TakenOrder(s, p) + [t.job.id] else TakenOrder(s, p)
  {
    TakenOrderOfSum(s, [t], p);
    assert [t][1..] == [];
  }

  lemma TakeKeepsOrder(s: State, from: Priority, p: Priority)
    requires InOrder(s, p) && Legal(s, Take(from))
    ensures InOrder(Apply(s, Take(from)), p)
  {
    var t, l := Apply(s, Take(from)), s.lists.Get(from);
    var slot := Taken(from, Started(Last(l)));
    assert t.left == s.left && t.entered == s.entered && t.taken == s.taken + [slot];
    SlotJoins(s.taken, slot, p);
    if p == from {
      assert t.lists.Get(p) == Init(l);
      MoveOne(LeftOrder(s.left.Get(p)), TakenOrder(s.taken, p), Last(l).id, InPopOrder(Init(l)));
    } else {
      assert t.lists.Get(p) == s.lists.Get(p);
    }
  }

  // The parts the order of a slot's priority is made of.
  ghost predicate Parts(s: State, i: nat, done: seq<nat>, before: seq<nat>, after: seq<nat>, rest: seq<nat>)
    requires i < |s.taken|
  {
    var p := s.taken[i].from;
    && done == LeftOrder(s.left.Get(p)) && rest == InPopOrder(s.lists.Get(p))
    && before == TakenOrder(s.taken[..i], p) && after == TakenOrder(s.taken[i + 1..], p)
  }

  lemma PartsMakeUp(s: State, i: nat, done: seq<nat>, before: seq<nat>, after: seq<nat>, rest: seq<nat>)
    requires i < |s.taken| && Parts(s, i, done, before, after, rest)
    ensures var p := s.taken[i].from;
            InOrder(s, p) <==> s.entered.Get(p) == done + (before + [s.taken[i].job.id] + after) + rest
  {
    SlotSplits(s.taken, i, s.taken[i].from);
  }

  lemma LeavingMakesUp(s: State, i: nat, how: Finish, done: seq<nat>, before: seq<nat>, after: seq<nat>, rest: seq<nat>)
    requires i < |s.taken| && !Retries(s.taken[i], how) && Parts(s, i, done, before, after, rest)
    ensures var p := s.taken[i].from;
            InOrder(Apply(s, End(i, how)), p) <==>
            s.entered.Get(p) == (done + [s.taken[i].job.id]) + (before + after) + rest
  {
    var p, t := s.taken[i].from, Apply(s, End(i, how));
    assert t.lists == s.lists && t.entered == s.entered && t.taken == RemoveAt(s.taken, i);
    assert t.left.Get(p) == s.left.Get(p) + [Gone(s.taken[i], how)];
    LeftIsLast(s.left.Get(p), Gone(s.taken[i], how));
    SlotSplits(s.taken, i, p);
  }

  lemma RetryMakesUp(s: State, i: nat, how: Finish, done: seq<nat>, before: seq<nat>, after: seq<nat>, rest: seq<nat>)
    requires i < |s.taken| && Retries(s.taken[i], how) && Parts(s, i, done, before, after, rest)
    ensures var p := s.taken[i].from;
            InOrder(Apply(s, End(i, how)), p) <==>
            s.entered.Get(p) == done + (before + after) + ([s.taken[i].job.id] + rest)
  {
    var p, t := s.taken[i].from, Apply(s, End(i, how));
    assert t.left == s.left && t.entered == s.entered && t.taken == RemoveAt(s.taken, i);
    assert t.lists.Get(p) == s.lists.Get(p) + [Ran(s.taken[i], how)];
    ReturnedIsFirst(s.lists.Get(p), Ran(s.taken[i], how));
    SlotSplits(s.taken, i, p);
  }

  // The end of a job keeps the order of its priority when it is in turn, and with distinct ids only then.
  lemma EndKeepsOrder(s: State, i: nat, how: Finish)
    requires i < |s.taken| && InOrder(s, s.taken[i].from)
    ensures InTurn(s.taken, i, how) ==> InOrder(Apply(s, End(i, how)), s.taken[i].from)
    ensures Distinct(s.entered.Get(s.taken[i].from)) && InOrder(Apply(s, End(i, how)), s.taken[i].from) ==>
              InTurn(s.taken, i, how)
  {
    var p, x := s.taken[i].from, s.taken[i].job.id;
    var done, rest := LeftOrder(s.left.Get(p)), InPopOrder(s.lists.Get(p));
    var before, after := TakenOrder(s.taken[..i], p), TakenOrder(s.taken[i + 1..], p);
    FirstOrLast(s.taken, i);
    PartsMakeUp(s, i, done, before, after, rest);
    if Retries(s.taken[i], how) {
      RetryMakesUp(s, i, how, done, before, after, rest);
      MovesBackward(done, before, x, after, rest);
    } else {
      LeavingMakesUp(s, i, how, done, before, after, rest);
      MovesForward(done, before, x, after, rest);
    }
  }

  lemma OtherEndKeepsOrder(s: State, i: nat, how: Finish, p: Priority)
    requires i < |s.taken| && s.taken[i].from != p && InOrder(s, p)
    ensures InOrder(Apply(s, End(i, how)), p)
  {
    var t := Apply(s, End(i, how));
    OtherSlot(s.taken, i, p);
    assert t.taken == RemoveAt(s.taken, i) && t.entered == s.entered;
    assert t.left.Get(p) == s.left.Get(p) && t.lists.Get(p) == s.lists.Get(p);
  }

  /**
   * Any action of any loop keeps the order of a priority when it keeps turns there, and with
   * distinct job ids only then.
   */
  lemma OrderKeptExactlyInTurn(s: State, a: Action, p: Priority)
    requires InOrder(s, p) && Legal(s, a)
    ensures KeepsTurn(s, a, p) ==> InOrder(Apply(s, a), p)
    ensures Distinct(s.entered.Get(p)) && InOrder(Apply(s, a), p) ==> KeepsTurn(s, a, p)
  {
    match a
    case Enqueue(job) => EnqueueKeepsOrder(s, job, p);
    case Take(from) => TakeKeepsOrder(s, from, p);
    case End(i, how) =>
      if s.taken[i].from == p {
        EndKeepsOrder(s, i, how);
      } else {
        OtherEndKeepsOrder(s, i, how, p);
      }
  }

  // ---- runs of any number of loops ----

  predicate TurnsKept(s: State, actions: seq<Action>, p: Priority)
    requires LegalRun(s, actions)
    decreases |actions|
  {
    actions == [] || (KeepsTurn(s, actions[0], p) && TurnsKept(Apply(s, actions[0]), actions[1..], p))
  }

  // The order holds at every moment of the run.
  ghost predicate AlwaysInOrder(s: State, actions: seq<Action>, p: Priority)
    requires LegalRun(s, actions)
    decreases |actions|
  {
    InOrder(s, p) && (actions == [] || AlwaysInOrder(Apply(s, actions[0]), actions[1..], p))
  }

  lemma PrefixIsDistinct(a: seq<nat>, b: seq<nat>)
    requires a <= b
    ensures Distinct(b) ==> Distinct(a)
  {
    assert forall i :: 0 <= i < |a| ==> a[i] == b[i];
  }

  lemma {:induction false} EnteredOnlyGrows(s: State, actions: seq<Action>, p: Priority)
    requires LegalRun(s, actions)
    ensures s.entered.Get(p) <= Run(s, actions).entered.Get(p)
    decreases |actions|
  {
    if actions != [] {
      EnteredOnlyGrows(Apply(s, actions[0]), actions[1..], p);
    }
  }

  /**
   * Over every run of any number of loops a priority stays in enqueue order at every moment if each
   * of its jobs ends in its turn, and with distinct job ids only if.
   */
  lemma {:induction false} OrderHoldsExactlyInTurn(s: State, actions: seq<Action>, p: Priority)
    requires InOrder(s, p) && LegalRun(s, actions)
    ensures TurnsKept(s, actions, p) ==> AlwaysInOrder(s, actions, p)
    ensures Distinct(Run(s, actions).entered.Get(p)) && AlwaysInOrder(s, actions, p) ==> TurnsKept(s, actions, p)
    decreases |actions|
  {
    if actions != [] {
      var t := Apply(s, actions[0]);
      EnteredOnlyGrows(s, actions, p);
      PrefixIsDistinct(s.entered.Get(p), Run(s, actions).entered.Get(p));
      OrderKeptExactlyInTurn(s, actions[0], p);
      assert AlwaysInOrder(t, actions[1..], p) ==> InOrder(t, p);
      assert Run(s, actions) == Run(t, actions[1..]);
      if InOrder(t, p) {
        OrderHoldsExactlyInTurn(t, actions[1..], p);
      }
    }
  }

  // The jobs that have left are the first ones that entered, in that order.
  ghost predicate FinishedInOrder(s: State, p: Priority) { LeftOrder(s.left.Get(p)) <= s.entered.Get(p) }

  lemma {:induction false} AlwaysMeansAtTheEnd(s: State, actions: seq<Action>, p: Priority)
    requires LegalRun(s, actions) && AlwaysInOrder(s, actions, p)
    ensures InOrder(Run(s, actions), p) && FinishedInOrder(Run(s, actions), p)
    decreases |actions|
  {
    if actions != [] {
      AlwaysMeansAtTheEnd(Apply(s, actions[0]), actions[1..], p);
    }
  }

  /** A job that leaves out of turn breaks the order of finished jobs, and no later run repairs it. */
  lemma OutOfTurnIsForGood(s: State, i: nat, how: Finish, actions: seq<Action>)
    requires i < |s.taken| && !Retries(s.taken[i], how) && !InTurn(s.taken, i, how)
    requires LegalRun(Apply(s, End(i, how)), actions)
    requires var p := s.taken[i].from; InOrder(s, p) && Distinct(s.entered.Get(p))
    ensures !FinishedInOrder(Run(Apply(s, End(i, how)), actions), s.taken[i].from)
  {
    var p, x, t := s.taken[i].from, s.taken[i].job.id, Apply(s, End(i, how));
    var done, rest := LeftOrder(s.left.Get(p)), InPopOrder(s.lists.Get(p));
    var before, after := TakenOrder(s.taken[..i], p), TakenOrder(s.taken[i + 1..], p);
    FirstOrLast(s.taken, i);
    PartsMakeUp(s, i, done, before, after, rest);
    LeftIsLast(s.left.Get(p), Gone(s.taken[i], how));
    assert t.entered == s.entered && t.left.Get(p) == s.left.Get(p) + [Gone(s.taken[i], how)];
    var all := done + (before + [x] + after) + rest;
    assert all[|done|] == before[0] && all[|done| + |before|] == x;
    assert LeftOrder(t.left.Get(p))[|done|] == x;
    WrongStaysWrong(t, actions, p, |done|);
  }

  lemma {:induction false} WrongStaysWrong(s: State, actions: seq<Action>, p: Priority, k: nat)
    requires LegalRun(s, actions) && k < |LeftOrder(s.left.Get(p))| && k < |s.entered.Get(p)|
    requires LeftOrder(s.left.Get(p))[k] != s.entered.Get(p)[k]
    ensures !FinishedInOrder(Run(s, actions), p)
    decreases |actions|
  {
    if actions != [] {
      var a, t := actions[0], Apply(s, actions[0]);
      if a.End? && !Retries(s.taken[a.slot], a.how) {
        LeftIsLast(s.left.Get(s.taken[a.slot].from), Gone(s.taken[a.slot], a.how));
      }
      assert LeftOrder(s.left.Get(p)) <= LeftOrder(t.left.Get(p)) && s.entered.Get(p) <= t.entered.Get(p);
      WrongStaysWrong(t, actions[1..], p, k);
    }
  }

  // ---- when finished jobs are in order, whatever else is ----

  // The job was enqueued and has not left.
  predicate Present(s: State, p: Priority, id: nat) {
    id in TakenIds(s.taken, p) || id in JobIds(s.lists.Get(p))
  }

  ghost predicate EnteredBefore(entered: seq<nat>, x: nat, y: nat) {
    exists j, k :: 0 <= j < k < |entered| && entered[j] == x && entered[k] == y
  }

  // A job of the priority that leaves overtakes none: no job that entered before it is still there.
  ghost predicate OvertakesNone(s: State, a: Action, p: Priority)
    requires Legal(s, a)
  {
    a.End? && s.taken[a.slot].from == p && !Retries(s.taken[a.slot], a.how) ==>
      forall y :: Present(s, p, y) ==> !EnteredBefore(s.entered.Get(p), y, s.taken[a.slot].job.id)
  }

  ghost predicate NoneOvertaken(s: State, actions: seq<Action>, p: Priority)
    requires LegalRun(s, actions)
    decreases |actions|
  {
    actions == [] || (OvertakesNone(s, actions[0], p) && NoneOvertaken(Apply(s, actions[0]), actions[1..], p))
  }

  lemma {:induction false} LeftOrderHasIds(l: seq<Left>)
    ensures multiset(LeftOrder(l)) == LeftIds(l) && |LeftOrder(l)| == |l|
  {
    if l != [] {
      LeftOrderHasIds(Init(l));
      assert l == Init(l) + [Last(l)];
      LeftIdsPush(Init(l), Last(l));
    }
  }

  lemma {:induction false} DistinctOnce(ids: seq<nat>, x: nat)
    requires Distinct(ids)
    ensures multiset(ids)[x] <= 1
  {
    if ids != [] {
      assert ids == [ids[0]] + ids[1..];
      DistinctOnce(ids[1..], x);
      if x == ids[0] {
        assert x !in ids[1..];
        assert x !in multiset(ids[1..]);
      }
    }
  }

  lemma {:induction false} SlotIsTaken(s: seq<Taken>, i: nat)
    requires i < |s|
    ensures s[i].job.id in TakenIds(s, s[i].from)
  {
    if i > 0 {
      SlotIsTaken(s[1..], i - 1);
    }
  }

  // With distinct ids a job that entered has left or is still there, but not both.
  lemma LeftOrPresent(s: State, p: Priority, id: nat)
    requires Balanced(s, p) && Distinct(s.entered.Get(p))
    ensures Present(s, p, id) ==> id in s.entered.Get(p) && id !in LeftOrder(s.left.Get(p))
    ensures id in s.entered.Get(p) && id !in LeftOrder(s.left.Get(p)) ==> Present(s, p, id)
  {
    var entered, left := s.entered.Get(p), LeftOrder(s.left.Get(p));
    LeftOrderHasIds(s.left.Get(p));
    DistinctOnce(entered, id);
    var all: multiset<nat>, gone: multiset<nat> := multiset(entered), multiset(left);
    assert all[id] == gone[id] + TakenIds(s.taken, p)[id] + JobIds(s.lists.Get(p))[id];
    assert (id in left <==> id in gone) && (id in entered <==> id in all);
  }

  // One more id after the first n of a list of distinct ids.
  lemma NextInOrder(entered: seq<nat>, left: seq<nat>, x: nat)
    requires Distinct(entered) && left <= entered && x in entered && x !in left
    ensures left + [x] <= entered <==> forall j :: 0 <= j < |entered| && entered[j] !in left ==>
                                         !EnteredBefore(entered, entered[j], x)
  {
    var n := |left|;
    assert forall i :: 0 <= i < n ==> entered[i] == left[i] && entered[i] in left;
    ghost var k :| 0 <= k < |entered| && entered[k] == x;
    assert n <= k;
    if k == n {
      forall j | 0 <= j < |entered| && entered[j] !in left ensures !EnteredBefore(entered, entered[j], x) {
        assert n <= j;
      }
    } else {
      assert entered[n] !in left by {
        forall i | 0 <= i < n ensures left[i] != entered[n] { assert left[i] == entered[i]; }
      }
      assert EnteredBefore(entered, entered[n], x);
      assert (left + [x])[n] == x;
    }
  }

  // A step keeps the finished jobs in order exactly when it lets no job overtake another.
  lemma FinishedStep(s: State, a: Action, p: Priority)
    requires Balanced(s, p) && Distinct(s.entered.Get(p)) && Legal(s, a) && FinishedInOrder(s, p)
    ensures FinishedInOrder(Apply(s, a), p) <==> OvertakesNone(s, a, p)
  {
    hide LeftOrder, TakenIds, JobIds, Balanced;
    var entered, left, t := s.entered.Get(p), LeftOrder(s.left.Get(p)), Apply(s, a);
    if a.End? && s.taken[a.slot].from == p && !Retries(s.taken[a.slot], a.how) {
      var x := s.taken[a.slot].job.id;
      LeftIsLast(s.left.Get(p), Gone(s.taken[a.slot], a.how));
      assert t.entered == s.entered && LeftOrder(t.left.Get(p)) == left + [x];
      SlotIsTaken(s.taken, a.slot);
      LeftOrPresent(s, p, x);
      NextInOrder(entered, left, x);
      forall y ensures Present(s, p, y) <==> y in entered && y !in left { LeftOrPresent(s, p, y); }
    } else {
      assert t.left.Get(p) == s.left.Get(p) && s.entered.Get(p) <= t.entered.Get(p);
    }
  }

  lemma OutOfOrderStays(s: State, actions: seq<Action>, p: Priority)
    requires Balanced(s, p) && LegalRun(s, actions) && !FinishedInOrder(s, p)
    ensures !FinishedInOrder(Run(s, actions), p)
  {
    var entered, left := s.entered.Get(p), LeftOrder(s.left.Get(p));
    BalanceCounts(s, p);
    LeftOrderHasIds(s.left.Get(p));
    ghost var k :| 0 <= k < |left| && left[k] != entered[k];
    WrongStaysWrong(s, actions, p, k);
  }

  /**
   * Over every run of any number of loops, and with distinct job ids, the jobs of a priority have
   * finished in enqueue order exactly when none left while an earlier one was queued or in flight.
   */
  lemma {:induction false} FinishedInOrderExactlyIfNoneOvertaken(s: State, actions: seq<Action>, p: Priority)
    requires Balanced(s, p) && FinishedInOrder(s, p) && LegalRun(s, actions)
    requires Distinct(Run(s, actions).entered.Get(p))
    ensures FinishedInOrder(Run(s, actions), p) <==> NoneOvertaken(s, actions, p)
    decreases |actions|
  {
    if actions != [] {
      var t := Apply(s, actions[0]);
      EnteredOnlyGrows(s, actions, p);
      PrefixIsDistinct(s.entered.Get(p), Run(s, actions).entered.Get(p));
      ApplyKeepsBalance(s, actions[0], p);
      FinishedStep(s, actions[0], p);
      assert Run(s, actions) == Run(t, actions[1..]);
      if FinishedInOrder(t, p) {
        FinishedInOrderExactlyIfNoneOvertaken(t, actions[1..], p);
      } else {
        OutOfOrderStays(t, actions[1..], p);
      }
    }
  }

  // ---- one loop ----

  // A single loop takes a job only when it has finished the one before.
  predicate OneLoop(s: State, a: Action) { a.Take? ==> s.taken == [] }

  predicate OneLoopRun(s: State, actions: seq<Action>)
    requires LegalRun(s, actions)
    decreases |actions|
  {
    actions == [] || (OneLoop(s, actions[0]) && OneLoopRun(Apply(s, actions[0]), actions[1..]))
  }

  // A job alone in flight is always in turn.
  lemma {:induction false} OneLoopKeepsTurns(s: State, actions: seq<Action>, p: Priority)
    requires |s.taken| <= 1 && LegalRun(s, actions) && OneLoopRun(s, actions)
    ensures TurnsKept(s, actions, p)
    decreases |actions|
  {
    if actions != [] {
      OneLoopKeepsTurns(Apply(s, actions[0]), actions[1..], p);
    }
  }

  /** One loop finishes the jobs of each priority in the order they were enqueued, retries included. */
  lemma FinishedInEnqueueOrder(s: State, actions: seq<Action>, p: Priority)
    requires InOrder(s, p) && |s.taken| <= 1 && LegalRun(s, actions) && OneLoopRun(s, actions)
    ensures InOrder(Run(s, actions), p) && FinishedInOrder(Run(s, actions), p)
  {
    OneLoopKeepsTurns(s, actions, p);
    OrderHoldsExactlyInTurn(s, actions, p);
    AlwaysMeansAtTheEnd(s, actions, p);
  }

  /**
   * Two overlapping loops can finish two jobs of one priority in reverse, whatever was done before:
   * both are taken, and the one taken last succeeds first.
   */
  lemma OverlappingLoopsReorder(s: State, first: Job, second: Job)
    requires first.priority == second.priority == Normal && first.id != second.id
    requires first.attempts == first.ran == second.attempts == second.ran == 0
    requires Idle(s) && InOrder(s, Normal)
    ensures var actions := [Enqueue(first), Enqueue(second), Take(Normal), Take(Normal), End(1, Succeeded)];
            LegalRun(s, actions) && !FinishedInOrder(Run(s, actions), Normal)
  {
    BothTaken(s, first, second);
    var e := s.(taken := [Taken(Normal, Started(first)), Taken(Normal, Started(second))],
                entered := s.entered.Put(Normal, s.entered.Get(Normal) + [first.id] + [second.id]));
    var last := [End(1, Succeeded)];
    var f := Apply(e, last[0]);
    LeftIsLast(s.left.Get(Normal), Gone(e.taken[1], Succeeded));
    var n := |s.entered.Get(Normal)|;
    assert LeftOrder(s.left.Get(Normal)) == s.entered.Get(Normal);
    assert LeftOrder(f.left.Get(Normal))[n] == second.id && f.entered.Get(Normal)[n] == first.id;
    assert last[1..] == [] && LegalRun(e, last) && Run(e, last) == f;
    var actions := [Enqueue(first), Enqueue(second), Take(Normal), Take(Normal)];
    RunOfSum(s, actions, last);
    assert actions + last == [Enqueue(first), Enqueue(second), Take(Normal), Take(Normal), End(1, Succeeded)];
  }

  lemma {:induction false} RunOfSum(s: State, a: seq<Action>, b: seq<Action>)
    requires LegalRun(s, a) && LegalRun(Run(s, a), b)
    ensures LegalRun(s, a + b) && Run(s, a + b) == Run(Run(s, a), b)
    decreases |a|
  {
    if a == [] {
      assert a + b == b;
    } else {
      assert (a + b)[1..] == a[1..] + b;
      RunOfSum(Apply(s, a[0]), a[1..], b);
    }
  }

  // Two jobs are enqueued and taken.
  lemma BothTaken(s: State, first: Job, second: Job)
    requires first.priority == second.priority == Normal && Idle(s)
    requires first.attempts == first.ran == second.attempts == second.ran == 0
    ensures var actions := [Enqueue(first), Enqueue(second), Take(Normal), Take(Normal)];
            && LegalRun(s, actions)
            && Run(s, actions) ==
               s.(taken := [Taken(Normal, Started(first)), Taken(Normal, Started(second))],
                  entered := s.entered.Put(Normal, s.entered.Get(Normal) + [first.id] + [second.id]))
  {
    var enqueues, takes := [Enqueue(first), Enqueue(second)], [Take(Normal), Take(Normal)];
    var c := BothEnqueued(s, first, second);
    RunOfTwo(s, Enqueue(first), Enqueue(second));
    assert c.lists.Get(Normal) == [second, first] && Init([second, first]) == [second];
    var d := Apply(c, Take(Normal));
    assert d.lists.Get(Normal) == [second] && Init([second]) == [];
    var e := Apply(d, Take(Normal));
    assert e.lists == s.lists && e.taken == [Taken(Normal, Started(first)), Taken(Normal, Started(second))];
    RunOfTwo(c, Take(Normal), Take(Normal));
    RunOfSum(s, enqueues, takes);
    assert enqueues + takes == [Enqueue(first), Enqueue(second), Take(Normal), Take(Normal)];
  }

  lemma RunOfTwo(s: State, a: Action, b: Action)
    requires Legal(s, a) && Legal(Apply(s, a), b)
    ensures LegalRun(s, [a, b]) && Run(s, [a, b]) == Apply(Apply(s, a), b)
  {
    RunOfOne(Apply(s, a), b);
    assert [a, b][1..] == [b];
  }

  lemma RunOfOne(s: State, a: Action)
    requires Legal(s, a)
    ensures LegalRun(s, [a]) && Run(s, [a]) == Apply(s, a)
  {
    var none := [a][1..];
    assert none == [];
    assert LegalRun(Apply(s, a), none) && Run(Apply(s, a), none) == Apply(s, a);
  }

  lemma BothEnqueued(s: State, first: Job, second: Job) returns (c: State)
    requires first.priority == second.priority == Normal && Idle(s)
    requires first.attempts == first.ran == second.attempts == second.ran == 0
    ensures c == Apply(Apply(s, Enqueue(first)), Enqueue(second))
    ensures c == s.(lists := s.lists.Put(Normal, [second, first]),
                    entered := s.entered.Put(Normal, s.entered.Get(Normal) + [first.id] + [second.id]))
  {
    var b := Apply(s, Enqueue(first));
    assert b.lists.Get(Normal) == [first];
    c := Apply(b, Enqueue(second));
    assert [second] + b.lists.Get(Normal) == [second, first];
  }
}
