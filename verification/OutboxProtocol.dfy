/**
 * Runs of the outbox protocol: any number of workers, each taking repository calls in any order,
 * crashing (taking no more of them) and resuming, over one clock that never goes backwards.
 * Worker ids are never empty; every claim call brings its own stale window.
 */
module OutboxProtocol {
  import opened Prelude
  import opened Outbox

  datatype State = State(docs: Store, now: Millis)

  datatype Setup = Setup(max: nat)

  // Claim is one turn of a claim loop whose two clock readings were taken earlier.
  datatype Action =
    | Tick(passed: nat)
    | Save(id: Id, payload: string)
    | Claim(id: Id, worker: string, staleReadAt: Millis, nowRead: Millis, window: int)
    | Renew(id: Id, worker: string)
    | Complete(id: Id, worker: string)
    | Checkpoint(id: Id, key: string, worker: string)
    | Fail(id: Id, message: string, worker: string, failure: Failure)
    | Requeue(id: Id)
  {
    // An owned update of the event by the worker: the calls a takeover must fence off.
    predicate UpdatesAs(event: Id, w: string) {
      (Renew? || Complete? || Checkpoint? || Fail?) && id == event && worker == w
    }

    // The owner gives the event up.
    predicate ReleasesAs(event: Id, w: string) {
      (Complete? || Fail?) && id == event && worker == w
    }
  }

  ghost predicate Legal(c: Setup, s: State, a: Action) {
    match a
    case Tick(_) => true
    case Save(id, _) => id !in s.docs
    case Claim(id, worker, staleReadAt, nowRead, window) =>
      && worker != "" && staleReadAt <= nowRead <= s.now
      && Oldest(s.docs, Eligible(s.docs, c.max, nowRead, staleReadAt - window), id)
    case Requeue(_) => true
    case _ => a.worker != ""
  }

  // Whether the call reports that it took effect.
  predicate Succeeds(c: Setup, s: State, a: Action) {
    match a
    case Tick(_) => true
    case Save(_, _) => true
    case Claim(id, _, _, _, _) => id in s.docs
    case Renew(id, worker) => id in s.docs && Renewable(s.docs[id], worker)
    case Complete(id, worker) => id in s.docs && OwnedBy(s.docs[id], Some(worker))
    case Checkpoint(id, key, worker) => id in s.docs && OwnedBy(s.docs[id], Some(worker)) && key !in s.docs[id].handlers
    case Fail(id, _, worker, _) => id in s.docs && OwnedBy(s.docs[id], Some(worker))
    case Requeue(id) => id in s.docs && Requeueable(s.docs[id], c.max)
  }

  function Updated(s: State, a: Action): Event
    requires !a.Tick? && !a.Save? && a.id in s.docs
  {
    var e := s.docs[a.id];
    match a
    case Claim(_, worker, _, _, _) => Claimed(e, worker, s.now)
    case Renew(_, _) => Renewed(e, s.now)
    case Complete(_, _) => Processed(e, s.now)
    case Checkpoint(_, key, _) => HandlerDone(e, key)
    case Fail(_, message, _, failure) => Failed(e, message, failure)
    case Requeue(_) => Requeued(e)
  }

  function Apply(c: Setup, s: State, a: Action): State {
    if a.Tick? then s.(now := s.now + a.passed)
    else if a.Save? then s.(docs := s.docs[a.id := Saved(a.payload, s.now)])
    else if Succeeds(c, s, a) then s.(docs := s.docs[a.id := Updated(s, a)])
    else s
  }

  function Run(c: Setup, s: State, actions: seq<Action>): State
    decreases |actions|
  {
    if actions == [] then s else Run(c, Apply(c, s, actions[0]), actions[1..])
  }

  ghost predicate LegalRun(c: Setup, s: State, actions: seq<Action>)
    decreases |actions|
  {
    actions == [] || (Legal(c, s, actions[0]) && LegalRun(c, Apply(c, s, actions[0]), actions[1..]))
  }

  // ---- the invariant ----

  ghost predicate EventInv(c: Setup, e: Event, now: Millis) {
    && (e.owner.Some? <==> e.processing)
    && (e.owner.Some? ==>
          && e.owner.value != "" && !e.processed && e.retries < c.max && e.exhaustedAt.Missing?
          && e.startedAt.At? && e.startedAt.ms <= now)
    && e.retries <= c.max
    && !e.exhaustedAt.Null? && !e.nextAttemptAt.Null?
    && !(e.exhaustedAt.At? && e.nextAttemptAt.At?)
    && (e.processed ==> e.exhaustedAt.Missing? && e.nextAttemptAt.Missing?)
  }

  ghost predicate Inv(c: Setup, s: State) {
    c.max > 0 && forall id :: id in s.docs ==> EventInv(c, s.docs[id], s.now)
  }

  lemma ApplyKeepsInv(c: Setup, s: State, a: Action)
    requires Inv(c, s) && Legal(c, s, a)
    ensures Inv(c, Apply(c, s, a))
  {
    if !a.Tick? && !a.Save? && a.id in s.docs {
      assert EventInv(c, s.docs[a.id], s.now);
    }
  }

  lemma {:induction false} RunKeepsInv(c: Setup, s: State, actions: seq<Action>)
    requires Inv(c, s) && LegalRun(c, s, actions)
    ensures Inv(c, Run(c, s, actions))
    decreases |actions|
  {
    if actions != [] {
      ApplyKeepsInv(c, s, actions[0]);
      RunKeepsInv(c, Apply(c, s, actions[0]), actions[1..]);
    }
  }

  lemma {:induction false} ClockNeverGoesBack(c: Setup, s: State, actions: seq<Action>)
    ensures s.now <= Run(c, s, actions).now
    decreases |actions|
  {
    if actions != [] {
      ClockNeverGoesBack(c, Apply(c, s, actions[0]), actions[1..]);
    }
  }

  // ---- leases ----

  // An owned event is claimed only once its window has passed.
  lemma TakeoverNeedsExpiry(c: Setup, s: State, a: Action)
    requires Inv(c, s) && Legal(c, s, a)
    ensures a.Claim? && s.docs[a.id].owner.Some? ==> s.docs[a.id].startedAt.ms + a.window < s.now
  {
    if a.Claim? {
      assert EventInv(c, s.docs[a.id], s.now);
    }
  }

  // A lease taken or renewed at startedAt holds for the smallest window any other worker's claim of
  // the event uses, unless its owner gives it up: until then the owner is still the owner.
  lemma {:induction false} LeaseHolds(c: Setup, s: State, actions: seq<Action>, id: Id, w: string, lease: int)
    requires Inv(c, s) && LegalRun(c, s, actions)
    requires id in s.docs && s.docs[id].owner == Some(w) && w != ""
    requires forall a :: a in actions && a.Claim? && a.id == id && a.worker != w ==> lease <= a.window
    requires Run(c, s, actions).now <= s.docs[id].startedAt.ms + lease
    requires forall a :: a in actions ==> !a.ReleasesAs(id, w)
    ensures id in Run(c, s, actions).docs && Run(c, s, actions).docs[id].owner == Some(w)
    decreases |actions|
  {
    if actions != [] {
      var a := actions[0];
      var t := Apply(c, s, a);
      assert a in actions && EventInv(c, s.docs[id], s.now);
      ApplyKeepsInv(c, s, a);
      ClockNeverGoesBack(c, s, actions);
      ClockNeverGoesBack(c, t, actions[1..]);
      assert !a.ReleasesAs(id, w);
      TakeoverNeedsExpiry(c, s, a);
      LeaseHolds(c, t, actions[1..], id, w, lease);
    }
  }

  // The bound is exact: one claim with a window that has passed takes a lone event over.
  lemma PassedWindowIsTakenOver(c: Setup, e: Event, id: Id, now: Millis, worker: string, window: int)
    requires EventInv(c, e, now) && e.owner.Some? && worker != "" && e.nextAttemptAt.Missing?
    requires e.startedAt.ms + window < now
    ensures var s, a := State(map[id := e], now), Claim(id, worker, now, now, window);
            Legal(c, s, a) && Apply(c, s, a).docs[id].owner == Some(worker)
  {
    var docs: Store := map[id := e];
    assert Oldest(docs, Eligible(docs, c.max, now, now - window), id);
  }

  /** A successful renewal at a time t holds the event until t plus that window. */
  lemma RenewalExtendsLease(c: Setup, s: State, id: Id, w: string, later: seq<Action>, lease: int)
    requires Inv(c, s) && w != "" && Succeeds(c, s, Renew(id, w)) && LegalRun(c, Apply(c, s, Renew(id, w)), later)
    requires forall a :: a in later && a.Claim? && a.id == id && a.worker != w ==> lease <= a.window
    requires forall a :: a in later ==> !a.ReleasesAs(id, w)
    requires Run(c, Apply(c, s, Renew(id, w)), later).now <= s.now + lease
    ensures var t := Run(c, Apply(c, s, Renew(id, w)), later); id in t.docs && t.docs[id].owner == Some(w)
  {
    var t := Apply(c, s, Renew(id, w));
    ApplyKeepsInv(c, s, Renew(id, w));
    assert t.docs[id].startedAt == At(s.now) && t.docs[id].owner == Some(w);
    LeaseHolds(c, t, later, id, w, lease);
  }

  /** So does a claim, which makes the worker the owner. */
  lemma ClaimTakesLease(c: Setup, s: State, a: Action, later: seq<Action>, lease: int)
    requires Inv(c, s) && a.Claim? && Legal(c, s, a) && LegalRun(c, Apply(c, s, a), later)
    requires forall b :: b in later && b.Claim? && b.id == a.id && b.worker != a.worker ==> lease <= b.window
    requires forall b :: b in later ==> !b.ReleasesAs(a.id, a.worker)
    requires Run(c, Apply(c, s, a), later).now <= s.now + lease
    ensures var t := Run(c, Apply(c, s, a), later); a.id in t.docs && t.docs[a.id].owner == Some(a.worker)
  {
    var t := Apply(c, s, a);
    ApplyKeepsInv(c, s, a);
    assert t.docs[a.id].startedAt == At(s.now) && t.docs[a.id].owner == Some(a.worker);
    LeaseHolds(c, t, later, a.id, a.worker, lease);
  }

  // ---- what the owner's updates do ----

  /** While it owns the event, a worker's updates take effect, and completing or failing gives it up. */
  lemma OwnerIsServed(c: Setup, s: State, id: Id, w: string, key: string, message: string, failure: Failure)
    requires Inv(c, s) && id in s.docs && w != "" && s.docs[id].owner == Some(w)
    ensures Succeeds(c, s, Renew(id, w))
    ensures Succeeds(c, s, Checkpoint(id, key, w)) <==> key !in s.docs[id].handlers
    ensures key in Apply(c, s, Checkpoint(id, key, w)).docs[id].handlers
    ensures Succeeds(c, s, Complete(id, w))
    ensures var e := Apply(c, s, Complete(id, w)).docs[id]; e.processed && e.owner == None
    ensures Succeeds(c, s, Fail(id, message, w, failure))
    ensures var e := Apply(c, s, Fail(id, message, w, failure)).docs[id];
            e.retries == s.docs[id].retries + 1 && e.owner == None && !e.processed
  {
    assert EventInv(c, s.docs[id], s.now);
  }

  // Nobody owns the event, and it is not to be claimed: before its next attempt, once exhausted, or
  // out of tries.
  ghost predicate Resting(c: Setup, s: State, id: Id, until: Millis) {
    id in s.docs && s.docs[id].owner == None && !s.docs[id].processed &&
    (|| s.docs[id].nextAttemptAt == At(until)
     || s.docs[id].exhaustedAt.At?
     || s.docs[id].retries >= c.max)
  }

  lemma {:induction false} RestIsKept(c: Setup, s: State, actions: seq<Action>, id: Id, until: Millis)
    requires Inv(c, s) && LegalRun(c, s, actions) && Resting(c, s, id, until)
    requires forall a :: a in actions ==> !(a.Requeue? && a.id == id)
    requires (s.docs[id].exhaustedAt.Missing? && s.docs[id].retries < c.max) ==> Run(c, s, actions).now < until
    ensures id in Run(c, s, actions).docs && Run(c, s, actions).docs[id] == s.docs[id]
    decreases |actions|
  {
    if actions != [] {
      assert actions[0] in actions && EventInv(c, s.docs[id], s.now);
      ApplyKeepsInv(c, s, actions[0]);
      ClockNeverGoesBack(c, s, actions);
      RestIsKept(c, Apply(c, s, actions[0]), actions[1..], id, until);
    }
  }

  /**
   * A failure that asks for a next attempt keeps the event untouched until then, and one that
   * exhausts it until it is requeued, whatever the workers do.
   */
  lemma FailureIsRespected(c: Setup, s: State, id: Id, w: string, message: string, failure: Failure, later: seq<Action>)
    requires Inv(c, s) && id in s.docs && w != "" && s.docs[id].owner == Some(w)
    requires LegalRun(c, Apply(c, s, Fail(id, message, w, failure)), later)
    requires failure.exhaustedAt.Some? || failure.nextAttemptAt.Some?
    requires forall a :: a in later ==> !(a.Requeue? && a.id == id)
    requires failure.exhaustedAt.None? ==>
               Run(c, Apply(c, s, Fail(id, message, w, failure)), later).now < failure.nextAttemptAt.value
    ensures var t := Apply(c, s, Fail(id, message, w, failure));
            id in Run(c, t, later).docs && Run(c, t, later).docs[id] == t.docs[id] && t.docs[id].owner == None
  {
    var t := Apply(c, s, Fail(id, message, w, failure));
    OwnerIsServed(c, s, id, w, "", message, failure);
    ApplyKeepsInv(c, s, Fail(id, message, w, failure));
    RestIsKept(c, t, later, id, if failure.exhaustedAt.Some? then 0 else failure.nextAttemptAt.value);
  }

  /** From its next attempt on the event may be claimed again, if tries are left. */
  lemma FailedIsClaimableWhenDue(c: Setup, s: State, id: Id, w: string, message: string, next: Millis)
    requires Inv(c, s) && id in s.docs && w != "" && s.docs[id].owner == Some(w) && s.docs[id].retries + 1 < c.max
    ensures var t := Apply(c, s, Fail(id, message, w, Failure(None, Some(next))));
            var u := Apply(c, s, Fail(id, message, w, Failure(Some(next), None)));
            && (forall now, staleBefore :: id !in Eligible(t.docs, c.max, now, staleBefore))
            && forall now, staleBefore :: id in Eligible(u.docs, c.max, now, staleBefore) <==> next <= now
  {
    assert EventInv(c, s.docs[id], s.now);
  }

  // Who does not own the event has every owned update rejected, and changes nothing.
  lemma StaleUpdateIsRejected(c: Setup, s: State, a: Action, id: Id, w: string)
    requires a.UpdatesAs(id, w) && w != "" && (id in s.docs ==> s.docs[id].owner != Some(w))
    ensures !Succeeds(c, s, a) && Apply(c, s, a) == s
  {
  }

  // The run with the worker's owned updates of the event left out.
  function WithoutUpdates(actions: seq<Action>, id: Id, w: string): seq<Action>
    decreases |actions|
  {
    if actions == [] then []
    else (if actions[0].UpdatesAs(id, w) then [] else [actions[0]]) + WithoutUpdates(actions[1..], id, w)
  }

  lemma OwnerOnlyByClaim(c: Setup, s: State, a: Action, id: Id, w: string)
    requires id in s.docs ==> s.docs[id].owner != Some(w)
    requires !(a.Claim? && a.id == id && a.worker == w)
    ensures id in Apply(c, s, a).docs ==> Apply(c, s, a).docs[id].owner != Some(w)
  {
  }

  // Every update that the worker sends for the event is turned down.
  ghost predicate AllRejected(c: Setup, s: State, actions: seq<Action>, id: Id, w: string)
    decreases |actions|
  {
    actions != [] ==>
      && (actions[0].UpdatesAs(id, w) ==> !Succeeds(c, s, actions[0]))
      && AllRejected(c, Apply(c, s, actions[0]), actions[1..], id, w)
  }

  // After a takeover the old worker is fenced off: until it claims the event again, all its updates
  // are turned down and the run goes exactly as if it had sent none of them.
  lemma {:induction false} FencedWorkerHasNoEffect(c: Setup, s: State, actions: seq<Action>, id: Id, w: string)
    requires LegalRun(c, s, actions) && w != "" && (id in s.docs ==> s.docs[id].owner != Some(w))
    requires forall a :: a in actions ==> !(a.Claim? && a.id == id && a.worker == w)
    ensures AllRejected(c, s, actions, id, w) && LegalRun(c, s, WithoutUpdates(actions, id, w))
    ensures Run(c, s, actions) == Run(c, s, WithoutUpdates(actions, id, w))
    decreases |actions|
  {
    if actions != [] {
      var a := actions[0];
      var t := Apply(c, s, a);
      var rest := WithoutUpdates(actions[1..], id, w);
      assert a in actions;
      OwnerOnlyByClaim(c, s, a, id, w);
      FencedWorkerHasNoEffect(c, t, actions[1..], id, w);
      if a.UpdatesAs(id, w) {
        StaleUpdateIsRejected(c, s, a, id, w);
        assert WithoutUpdates(actions, id, w) == rest;
      } else {
        var kept := WithoutUpdates(actions, id, w);
        assert kept == [a] + rest && kept[0] == a && kept[1..] == rest;
      }
    }
  }

  // The token is the worker id, not the claim: a worker that lost an event and claimed it again
  // is not protected from its own earlier updates.
  lemma SameWorkerIsNotFenced(c: Setup, e: Event, id: Id, at: Millis, now: Millis)
    ensures var s := State(map[id := Claimed(e, "w", at)], now);
            Succeeds(c, s, Complete(id, "w")) && Apply(c, s, Complete(id, "w")).docs[id].processed
  {
  }

  // Without a worker id, or with an empty one, the owner is not compared at all.
  lemma OwnerIsComparedIffIdIsGiven(e: Event, worker: Option<string>)
    requires e.owner != worker
    ensures OwnedBy(e, worker) <==> worker == None || worker == Some("")
  {
  }

  // A just claimed event is claimable again exactly when it was stamped before the stale limit,
  // so the claim loop needs a window that is not negative.
  lemma ReclaimableIffStampedBeforeLimit(e: Event, max: nat, now: Millis, staleBefore: Millis,
                                       worker: string, at: Millis)
    requires Claimable(e, max, now, staleBefore)
    ensures Claimable(Claimed(e, worker, at), max, now, staleBefore) <==> at < staleBefore
  {
  }

  // ---- what only moves forward ----

  lemma {:induction false} ProgressIsPermanent(c: Setup, s: State, actions: seq<Action>, id: Id)
    requires Inv(c, s) && LegalRun(c, s, actions) && id in s.docs
    ensures id in Run(c, s, actions).docs
    ensures var e, f := s.docs[id], Run(c, s, actions).docs[id];
            && f.payload == e.payload && f.createdAt == e.createdAt
            && (e.processed ==> f.processed) && e.handlers <= f.handlers
    decreases |actions|
  {
    if actions != [] {
      ApplyKeepsInv(c, s, actions[0]);
      assert EventInv(c, s.docs[id], s.now);
      ProgressIsPermanent(c, Apply(c, s, actions[0]), actions[1..], id);
    }
  }

  function Count(b: bool): nat { if b then 1 else 0 }

  ghost function Checkpoints(c: Setup, s: State, actions: seq<Action>, id: Id, key: string): nat
    decreases |actions|
  {
    if actions == [] then 0
    else
      var a := actions[0];
      Count(a.Checkpoint? && a.id == id && a.key == key && Succeeds(c, s, a))
      + Checkpoints(c, Apply(c, s, a), actions[1..], id, key)
  }

  // Over any run, one handler's checkpoint on one event is granted at most once, to all workers together.
  lemma {:induction false} CheckpointGrantedOnce(c: Setup, s: State, actions: seq<Action>, id: Id, key: string)
    requires LegalRun(c, s, actions) && id in s.docs
    ensures id in Run(c, s, actions).docs
    ensures Count(key in s.docs[id].handlers) + Checkpoints(c, s, actions, id, key)
            == Count(key in Run(c, s, actions).docs[id].handlers)
    decreases |actions|
  {
    if actions != [] {
      CheckpointGrantedOnce(c, Apply(c, s, actions[0]), actions[1..], id, key);
    }
  }

  ghost function Completions(c: Setup, s: State, actions: seq<Action>, id: Id): nat
    decreases |actions|
  {
    if actions == [] then 0
    else
      var a := actions[0];
      Count(a.Complete? && a.id == id && Succeeds(c, s, a)) + Completions(c, Apply(c, s, a), actions[1..], id)
  }

  // Likewise an event is completed at most once.
  lemma {:induction false} CompletedOnce(c: Setup, s: State, actions: seq<Action>, id: Id)
    requires Inv(c, s) && LegalRun(c, s, actions) && id in s.docs
    ensures id in Run(c, s, actions).docs
    ensures Count(s.docs[id].processed) + Completions(c, s, actions, id) == Count(Run(c, s, actions).docs[id].processed)
    decreases |actions|
  {
    if actions != [] {
      ApplyKeepsInv(c, s, actions[0]);
      assert EventInv(c, s.docs[id], s.now);
      CompletedOnce(c, Apply(c, s, actions[0]), actions[1..], id);
    }
  }

  ghost function Failures(c: Setup, s: State, actions: seq<Action>, id: Id): nat
    decreases |actions|
  {
    if actions == [] then 0
    else
      var a := actions[0];
      Count(a.Fail? && a.id == id && Succeeds(c, s, a)) + Failures(c, Apply(c, s, a), actions[1..], id)
  }

  // Between two operator requeues an event fails no more than max times.
  lemma {:induction false} FailuresAreBounded(c: Setup, s: State, actions: seq<Action>, id: Id)
    requires Inv(c, s) && LegalRun(c, s, actions) && id in s.docs
    requires forall a :: a in actions ==> !(a.Requeue? && a.id == id)
    ensures id in Run(c, s, actions).docs
    ensures s.docs[id].retries + Failures(c, s, actions, id) == Run(c, s, actions).docs[id].retries <= c.max
    decreases |actions|
  {
    assert EventInv(c, s.docs[id], s.now);
    if actions != [] {
      assert actions[0] in actions;
      ApplyKeepsInv(c, s, actions[0]);
      FailuresAreBounded(c, Apply(c, s, actions[0]), actions[1..], id);
    }
  }

  // ---- backlog and requeue ----

  // Pending and exhausted split the unprocessed events, in any collection.
  lemma BacklogPartitionsUnprocessed(docs: Store, max: nat)
    ensures PendingIds(docs, max) !! ExhaustedIds(docs, max)
    ensures PendingIds(docs, max) + ExhaustedIds(docs, max) == set id | id in docs && !docs[id].processed
    ensures |PendingIds(docs, max)| + |ExhaustedIds(docs, max)| == |set id | id in docs && !docs[id].processed|
  {
    var all := set id | id in docs && !docs[id].processed;
    assert PendingIds(docs, max) + ExhaustedIds(docs, max) == all;
  }

  // The two ways of counting pending events differ exactly on explicit nulls.
  lemma CountsDifferIffNull(e: Event, max: nat)
    ensures PendingByCount(e, max) != PendingInBacklog(e, max) <==>
            !e.processed && e.retries < max && e.exhaustedAt.Null?
  {
  }

  // An event with an explicit null is reported as pending, yet no claim ever takes it and an idle
  // one may be requeued.
  lemma NullExhaustionIsStuckPending(e: Event, max: nat, now: Millis, staleBefore: Millis)
    requires e.exhaustedAt.Null? && !e.processed && e.retries < max
    ensures PendingInBacklog(e, max) && !Claimable(e, max, now, staleBefore)
    ensures Requeueable(e, max) <==> !e.processing
  {
  }

  // No call ever writes an explicit null, so in every reachable state the two ways of counting agree.
  lemma PendingCountsAgree(c: Setup, start: State, actions: seq<Action>)
    requires c.max > 0 && start.docs == map[] && LegalRun(c, start, actions)
    ensures var docs := Run(c, start, actions).docs;
            && NullExhausted(docs, c.max) == {}
            && |set id | id in docs && PendingByCount(docs[id], c.max)| == |PendingIds(docs, c.max)|
  {
    RunKeepsInv(c, start, actions);
    var s := Run(c, start, actions);
    forall id | id in s.docs ensures !s.docs[id].exhaustedAt.Null? {
      assert EventInv(c, s.docs[id], s.now);
    }
    assert PendingIds(s.docs, c.max) == set id | id in s.docs && PendingByCount(s.docs[id], c.max);
  }

  // In every reachable state requeue succeeds on exactly the exhausted events, and leaves the event
  // pending, claimable at once, with its handler progress kept.
  lemma RequeueExactlyExhausted(c: Setup, start: State, actions: seq<Action>, id: Id)
    requires c.max > 0 && start.docs == map[] && LegalRun(c, start, actions)
    requires id in Run(c, start, actions).docs
    ensures var s := Run(c, start, actions);
            && (Succeeds(c, s, Requeue(id)) <==> id in ExhaustedIds(s.docs, c.max))
            && (Succeeds(c, s, Requeue(id)) ==>
                  var e, f := s.docs[id], Apply(c, s, Requeue(id)).docs[id];
                  && PendingInBacklog(f, c.max) && f.handlers == e.handlers && f.payload == e.payload
                  && forall now, staleBefore :: Claimable(f, c.max, now, staleBefore))
            && PendingByCount(s.docs[id], c.max) == PendingInBacklog(s.docs[id], c.max)
  {
    RunKeepsInv(c, start, actions);
    assert EventInv(c, Run(c, start, actions).docs[id], Run(c, start, actions).now);
  }
}
