/**
 * The outbox collection and its repository. Every repository call is one atomic update of one
 * document, except claiming, which is a loop of them. The functions say what each update does to a
 * document; the class methods are the repository's own, proved against those functions.
 */
module Outbox {
  import opened Prelude

  type Id = nat
  type Millis = int

  // A date field as MongoDB stores it: absent, explicitly null, or a date.
  datatype Stamp = Missing | Null | At(ms: Millis)

  datatype Event = Event(
    payload: string, createdAt: Millis,
    processed: bool, processedAt: Stamp,
    processing: bool, owner: Option<string>, startedAt: Stamp,
    retries: nat, nextAttemptAt: Stamp, exhaustedAt: Stamp,
    error: Option<string>, handlers: seq<string>)

  type Store = map<Id, Event>

  type Attempts = n: nat | n > 0 witness 1

  const DEFAULT_MAX_RETRIES: Attempts := 5

  // The configured number of attempts counts when it is a positive safe integer.
  function ResolveMaxRetries(configured: Option<int>): (max: Attempts)
    ensures configured.Some? && configured.value > 0 ==> max == configured.value
    ensures configured.None? || configured.value <= 0 ==> max == 5
  {
    if configured.Some? && configured.value > 0 then configured.value else DEFAULT_MAX_RETRIES
  }

  // ---- queries ----

  // The claim's filter. staleBefore and now are read once, before the claim loop.
  predicate Claimable(e: Event, max: nat, now: Millis, staleBefore: Millis) {
    && !e.processed
    && e.retries < max
    && e.exhaustedAt.Missing?
    && (e.nextAttemptAt.Missing? || (e.nextAttemptAt.At? && e.nextAttemptAt.ms <= now))
    && (!e.processing || e.startedAt.Missing? || (e.startedAt.At? && e.startedAt.ms < staleBefore))
  }

  // countPendingEvents.
  predicate PendingByCount(e: Event, max: nat) {
    !e.processed && e.retries < max && e.exhaustedAt.Missing?
  }

  // The two facets of getBacklogStats: matching null also matches an absent field.
  predicate PendingInBacklog(e: Event, max: nat) {
    !e.processed && e.retries < max && !e.exhaustedAt.At?
  }

  predicate ExhaustedInBacklog(e: Event, max: nat) {
    !e.processed && (e.retries >= max || e.exhaustedAt.At?)
  }

  // requeueExhaustedEvent's filter: a null exhaustedAt exists.
  predicate Requeueable(e: Event, max: nat) {
    !e.processed && !e.processing && (e.retries >= max || !e.exhaustedAt.Missing?)
  }

  // buildOwnedFilter: an absent or empty worker id filters by event id alone.
  predicate OwnedBy(e: Event, worker: Option<string>) {
    worker.None? || worker.value == "" || e.owner == worker
  }

  // renewClaim always compares the owner.
  predicate Renewable(e: Event, worker: string) {
    e.owner == Some(worker) && e.processing && !e.processed
  }

  // ---- updates ----

  function Saved(payload: string, createdAt: Millis): Event {
    Event(payload, createdAt, false, Missing, false, None, Missing, 0, Missing, Missing, None, [])
  }

  function Claimed(e: Event, worker: string, at: Millis): Event {
    e.(processing := true, owner := Some(worker), startedAt := At(at))
  }

  function Renewed(e: Event, at: Millis): Event {
    e.(startedAt := At(at))
  }

  function Processed(e: Event, at: Millis): Event {
    e.(processed := true, processedAt := At(at), processing := false, owner := None, startedAt := Missing,
       error := None, nextAttemptAt := Missing, exhaustedAt := Missing)
  }

  function HandlerDone(e: Event, key: string): Event {
    if key in e.handlers then e else e.(handlers := e.handlers + [key])
  }

  // The schedule a failure asks for: exhaustion wins over a next attempt, neither leaves both as they are.
  datatype Failure = Failure(nextAttemptAt: Option<Millis>, exhaustedAt: Option<Millis>)

  function Failed(e: Event, message: string, failure: Failure): Event {
    e.(retries := e.retries + 1, error := Some(message), processing := false, owner := None, startedAt := Missing,
       exhaustedAt :=
         if failure.exhaustedAt.Some? then At(failure.exhaustedAt.value)
         else if failure.nextAttemptAt.Some? then Missing else e.exhaustedAt,
       nextAttemptAt :=
         if failure.exhaustedAt.Some? then Missing
         else if failure.nextAttemptAt.Some? then At(failure.nextAttemptAt.value) else e.nextAttemptAt)
  }

  function Requeued(e: Event): Event {
    e.(retries := 0, processing := false, error := None, exhaustedAt := Missing, nextAttemptAt := Missing,
       owner := None, startedAt := Missing)
  }

  // ---- the backlog ----

  // Pending are unprocessed events with tries left and no date of exhaustion, exhausted the other
  // unprocessed ones.
  ghost predicate Counted(docs: Store, max: nat, pending: nat, exhausted: nat) {
    && pending ==
       |set id | id in docs && !docs[id].processed && docs[id].retries < max && !docs[id].exhaustedAt.At?|
    && exhausted ==
       |set id | id in docs && !docs[id].processed && (docs[id].retries >= max || docs[id].exhaustedAt.At?)|
  }

  // ---- the claim loop's meaning ----

  function PendingIds(docs: Store, max: nat): set<Id> {
    set id | id in docs && PendingInBacklog(docs[id], max)
  }

  function NullExhausted(docs: Store, max: nat): set<Id> {
    set id | id in docs && !docs[id].processed && docs[id].retries < max && docs[id].exhaustedAt.Null?
  }

  function ExhaustedIds(docs: Store, max: nat): set<Id> {
    set id | id in docs && ExhaustedInBacklog(docs[id], max)
  }

  predicate Oldest(docs: Store, ids: set<Id>, id: Id)
    requires ids <= docs.Keys
  {
    id in ids && forall o :: o in ids ==> docs[id].createdAt <= docs[o].createdAt
  }

  lemma {:induction false} OldestExists(docs: Store, ids: set<Id>)
    requires ids <= docs.Keys && ids != {}
    ensures exists id :: Oldest(docs, ids, id)
    decreases |ids|
  {
    var x :| x in ids;
    var rest := ids - {x};
    if rest == {} {
      assert ids == {x};
      assert Oldest(docs, ids, x);
    } else {
      OldestExists(docs, rest);
      var y :| Oldest(docs, rest, y);
      assert ids == rest + {x};
      assert Oldest(docs, ids, if docs[x].createdAt < docs[y].createdAt then x else y);
    }
  }

  function Eligible(docs: Store, max: nat, now: Millis, staleBefore: Millis): set<Id> {
    set id | id in docs && Claimable(docs[id], max, now, staleBefore)
  }

  // What the loop has done after claiming ids, in this order, at the given readings of the clock.
  ghost predicate ClaimedInOrder(before: Store, after: Store, claimed: seq<Id>, max: nat,
                                now: Millis, staleBefore: Millis) {
    && after.Keys == before.Keys
    && (forall i, j :: 0 <= i < j < |claimed| ==> claimed[i] != claimed[j])
    && (forall i :: 0 <= i < |claimed| ==> claimed[i] in Eligible(before, max, now, staleBefore))
    && (forall i, j :: 0 <= i < j < |claimed| ==> before[claimed[i]].createdAt <= before[claimed[j]].createdAt)
    && (forall id :: id in before && id !in claimed ==> after[id] == before[id])
    // No eligible event left behind is older than a claimed one.
    && (forall i, id :: 0 <= i < |claimed| && id in Eligible(before, max, now, staleBefore) && id !in claimed ==>
          before[claimed[i]].createdAt <= before[id].createdAt)
  }

  // Every claimed event was handed to the worker at some moment of the loop.
  ghost predicate Stamped(before: Store, after: Store, claimed: seq<Id>, worker: string, now: Millis, clock: Millis) {
    forall i :: 0 <= i < |claimed| ==>
      && claimed[i] in before && claimed[i] in after && after[claimed[i]].startedAt.At?
      && now <= after[claimed[i]].startedAt.ms <= clock
      && after[claimed[i]] == Claimed(before[claimed[i]], worker, after[claimed[i]].startedAt.ms)
  }

  // What is still eligible is what was eligible and is not claimed yet.
  lemma EligibleShrinks(before: Store, after: Store, claimed: seq<Id>, max: nat, now: Millis, staleBefore: Millis,
                        worker: string, clock: Millis)
    requires ClaimedInOrder(before, after, claimed, max, now, staleBefore) && staleBefore <= now
    requires Stamped(before, after, claimed, worker, now, clock)
    ensures forall id :: id in Eligible(after, max, now, staleBefore)
                         <==> id in Eligible(before, max, now, staleBefore) && id !in claimed
  {
    forall id | id in after ensures id in claimed ==> !Claimable(after[id], max, now, staleBefore) {
      if id in claimed {
        var i :| 0 <= i < |claimed| && claimed[i] == id;
      }
    }
  }

  lemma ClaimStep(before: Store, docs: Store, claimed: seq<Id>, max: nat, now: Millis, staleBefore: Millis,
                  id: Id, worker: string, at: Millis, clock: Millis)
    requires ClaimedInOrder(before, docs, claimed, max, now, staleBefore) && staleBefore <= now
    requires Stamped(before, docs, claimed, worker, now, clock) && now <= clock <= at
    requires Oldest(docs, Eligible(docs, max, now, staleBefore), id)
    ensures ClaimedInOrder(before, docs[id := Claimed(docs[id], worker, at)], claimed + [id], max, now, staleBefore)
    ensures Stamped(before, docs[id := Claimed(docs[id], worker, at)], claimed + [id], worker, now, at)
  {
    EligibleShrinks(before, docs, claimed, max, now, staleBefore, worker, clock);
    ClaimKeepsOrder(before, docs, claimed, max, now, staleBefore, id, worker, at);
  }

  lemma ClaimKeepsOrder(before: Store, docs: Store, claimed: seq<Id>, max: nat, now: Millis, staleBefore: Millis,
                        id: Id, worker: string, at: Millis)
    requires ClaimedInOrder(before, docs, claimed, max, now, staleBefore)
    requires Oldest(docs, Eligible(docs, max, now, staleBefore), id)
    requires forall o :: o in Eligible(docs, max, now, staleBefore) <==>
               o in Eligible(before, max, now, staleBefore) && o !in claimed
    ensures ClaimedInOrder(before, docs[id := Claimed(docs[id], worker, at)], claimed + [id], max, now, staleBefore)
  {
    assert id !in claimed && docs[id] == before[id];
    var longer := claimed + [id];
    forall o | o in Eligible(before, max, now, staleBefore) && o !in longer
      ensures before[id].createdAt <= before[o].createdAt {
      assert o !in claimed && o in Eligible(docs, max, now, staleBefore);
    }
  }

  lemma {:induction false} DistinctCount(claimed: seq<Id>, all: set<Id>)
    requires forall i, j :: 0 <= i < j < |claimed| ==> claimed[i] != claimed[j]
    requires forall i :: 0 <= i < |claimed| ==> claimed[i] in all
    ensures |claimed| <= |all|
    ensures (forall id :: id in all ==> id in claimed) ==> |claimed| == |all|
  {
    if claimed != [] {
      var n := |claimed| - 1;
      var rest := all - {claimed[n]};
      assert forall id :: id in claimed ==> id == claimed[n] || id in claimed[..n];
      DistinctCount(claimed[..n], rest);
    } else if forall id :: id in all ==> id in claimed {
      assert all == {};
    }
  }

  // As many distinct claims as there are eligible events are all of them.
  lemma {:induction false} AllClaimed(claimed: seq<Id>, all: set<Id>)
    requires forall i, j :: 0 <= i < j < |claimed| ==> claimed[i] != claimed[j]
    requires forall i :: 0 <= i < |claimed| ==> claimed[i] in all
    ensures |claimed| == |all| ==> forall id :: id in all ==> id in claimed
    decreases |claimed|
  {
    if claimed == [] {
      assert |all| == 0 ==> all == {};
    } else {
      var n := |claimed| - 1;
      assert |all - {claimed[n]}| == |all| - 1;
      AllClaimed(claimed[..n], all - {claimed[n]});
      assert forall id :: id in claimed[..n] ==> id in claimed;
    }
  }

  // The collections agree on everything but one document.
  ghost predicate OnlyAt(before: Store, after: Store, id: Id) {
    after.Keys == before.Keys && forall o :: o in before && o != id ==> after[o] == before[o]
  }

  class Repository {
    // The number of attempts, from ResolveMaxRetries.
    const max: Attempts
    var docs: Store
    var clock: Millis

    constructor (max: Attempts)
      ensures this.max == max && docs == map[]
    {
      this.max, docs, clock := max, map[], 0;
    }

    // Reading the clock: time never goes backwards.
    method Now() returns (t: Millis)
      modifies this`clock
      ensures old(clock) <= t == clock
    {
      var passed: int := *;
      if passed > 0 {
        clock := clock + passed;
      }
      t := clock;
    }

    method SaveEvent(id: Id, payload: string)
      requires id !in docs
      modifies this
      ensures docs.Keys == old(docs).Keys + {id} && forall o :: o in old(docs) ==> docs[o] == old(docs)[o]
      ensures docs[id].payload == payload && docs[id].handlers == [] && docs[id].retries == 0
      ensures !docs[id].processed && !docs[id].processing && docs[id].owner == None
      ensures docs[id].exhaustedAt == docs[id].nextAttemptAt == Missing
      ensures old(clock) <= docs[id].createdAt <= clock
      // The new event is pending, no other changed side, and the next claim loop may take it.
      ensures PendingIds(docs, max) == PendingIds(old(docs), max) + {id}
      ensures ExhaustedIds(docs, max) == ExhaustedIds(old(docs), max)
      ensures forall now, staleBefore :: id in Eligible(docs, max, now, staleBefore)
    {
      var t := Now();
      docs := docs[id := Saved(payload, t)];
    }

    /**
     * The claim loop, run by one worker alone. With a non-negative stale window it claims the oldest
     * eligible events, each once, as many as asked for and available.
     */
    method ClaimPendingEvents(limit: int, worker: string, staleAfterMs: int)
      returns (claimed: seq<Id>, ghost now: Millis, ghost staleBefore: Millis)
      modifies this
      ensures |claimed| <= Max(limit, 0)
      ensures old(clock) - staleAfterMs <= staleBefore && staleBefore + staleAfterMs <= now <= clock
      ensures staleAfterMs >= 0 ==>
                && ClaimedInOrder(old(docs), docs, claimed, max, now, staleBefore)
                && |claimed| == Min(Max(limit, 0), |Eligible(old(docs), max, now, staleBefore)|)
                && Stamped(old(docs), docs, claimed, worker, now, clock)
      // What is claimed was free and due, and is the worker's from some moment of the loop on.
      ensures staleAfterMs >= 0 ==> forall i :: 0 <= i < |claimed| ==>
                var e, f := old(docs)[claimed[i]], docs[claimed[i]];
                && !e.processed && e.retries < max && e.exhaustedAt == Missing
                && (e.nextAttemptAt == Missing || (e.nextAttemptAt.At? && e.nextAttemptAt.ms <= now))
                && (!e.processing || e.startedAt == Missing || (e.startedAt.At? && e.startedAt.ms < staleBefore))
                && f.processing && f.owner == Some(worker) && f.startedAt.At? && now <= f.startedAt.ms <= clock
                && f.(processing := e.processing, owner := e.owner, startedAt := e.startedAt) == e
      // When there are fewer than asked for, nothing that is free and due is left.
      ensures staleAfterMs >= 0 && |claimed| < limit ==> forall id :: id in old(docs) && id !in claimed ==>
                var e := old(docs)[id];
                || e.processed || e.retries >= max || e.exhaustedAt != Missing
                || e.nextAttemptAt == Null || (e.nextAttemptAt.At? && e.nextAttemptAt.ms > now)
                || (e.processing && (e.startedAt == Null || (e.startedAt.At? && e.startedAt.ms >= staleBefore)))
    {
      claimed := [];
      var readAt := Now();
      var stale := readAt - staleAfterMs;
      var current := Now();
      staleBefore, now := stale, current;
      while |claimed| < limit
        invariant |claimed| <= Max(limit, 0) && now <= clock
        invariant staleAfterMs >= 0 ==> ClaimedInOrder(old(docs), docs, claimed, max, now, staleBefore)
        invariant staleAfterMs >= 0 ==> Stamped(old(docs), docs, claimed, worker, now, clock)
        decreases limit - |claimed|
      {
        // findOneAndUpdate sorts by createdAt; ties are broken either way.
        var eligible := Eligible(docs, max, current, stale);
        if eligible == {} {
          if staleAfterMs >= 0 {
            EligibleShrinks(old(docs), docs, claimed, max, now, staleBefore, worker, clock);
          }
          break;
        }
        OldestExists(docs, eligible);
        var next :| Oldest(docs, eligible, next);
        ghost var before := clock;
        var at := Now();
        if staleAfterMs >= 0 {
          ClaimStep(old(docs), docs, claimed, max, now, staleBefore, next, worker, at, before);
        }
        docs := docs[next := Claimed(docs[next], worker, at)];
        claimed := claimed + [next];
      }
      if staleAfterMs >= 0 {
        DistinctCount(claimed, Eligible(old(docs), max, now, staleBefore));
        AllClaimed(claimed, Eligible(old(docs), max, now, staleBefore));
      }
    }

    // updateOne with the owned filter: false when nothing matched or nothing changed.
    method MarkAsProcessed(id: Id, worker: Option<string>) returns (modified: bool)
      modifies this
      ensures old(clock) <= clock && (modified <==> docs != old(docs))
      ensures if id in old(docs) && (worker == None || worker == Some("") || old(docs)[id].owner == worker)
              then
                OnlyAt(old(docs), docs, id) &&
                var e, f := old(docs)[id], docs[id];
                && f.processed && f.processedAt == At(clock)
                && !f.processing && f.owner == None && f.startedAt == Missing
                && f.error == None && f.nextAttemptAt == Missing && f.exhaustedAt == Missing
                && f.payload == e.payload && f.createdAt == e.createdAt
                && f.retries == e.retries && f.handlers == e.handlers
              else docs == old(docs)
    {
      var t := Now();
      modified := false;
      if id in docs && OwnedBy(docs[id], worker) {
        var e := docs[id];
        var f := e.(processed := true, processedAt := At(t), processing := false)
                  .(owner := None, startedAt := Missing, error := None, nextAttemptAt := Missing,
                    exhaustedAt := Missing);
        modified := e != f;
        docs := docs[id := f];
        assert docs[id] == f;
      }
    }

    method MarkHandlerProcessed(id: Id, key: string, worker: Option<string>) returns (modified: bool)
      modifies this`docs
      ensures modified <==>
                && id in old(docs) && (worker == None || worker == Some("") || old(docs)[id].owner == worker)
                && key !in old(docs)[id].handlers
      ensures !modified ==> docs == old(docs)
      ensures modified ==>
                && OnlyAt(old(docs), docs, id) && docs[id].handlers == old(docs)[id].handlers + [key]
                && docs[id].(handlers := old(docs)[id].handlers) == old(docs)[id]
    {
      modified := false;
      if id in docs && OwnedBy(docs[id], worker) && key !in docs[id].handlers {
        docs := docs[id := docs[id].(handlers := docs[id].handlers + [key])];
        modified := true;
      }
    }

    method MarkAsFailed(id: Id, message: string, worker: Option<string>, failure: Failure) returns (modified: bool)
      modifies this`docs
      ensures modified <==>
                id in old(docs) && (worker == None || worker == Some("") || old(docs)[id].owner == worker)
      ensures !modified ==> docs == old(docs)
      ensures modified ==>
                OnlyAt(old(docs), docs, id) &&
                var e, f := old(docs)[id], docs[id];
                && f.retries == e.retries + 1 && f.error == Some(message)
                && !f.processing && f.owner == None && f.startedAt == Missing
                && f.payload == e.payload && f.createdAt == e.createdAt && f.handlers == e.handlers
                && f.processed == e.processed && f.processedAt == e.processedAt
                && (failure.exhaustedAt.Some? ==>
                      f.exhaustedAt == At(failure.exhaustedAt.value) && f.nextAttemptAt == Missing)
                && (failure.exhaustedAt.None? && failure.nextAttemptAt.Some? ==>
                      f.exhaustedAt == Missing && f.nextAttemptAt == At(failure.nextAttemptAt.value))
                && (failure.exhaustedAt.None? && failure.nextAttemptAt.None? ==>
                      f.exhaustedAt == e.exhaustedAt && f.nextAttemptAt == e.nextAttemptAt)
    {
      modified := false;
      if id in docs && OwnedBy(docs[id], worker) {
        var e := docs[id];
        var f := e.(error := Some(message), processing := false, owner := None, startedAt := Missing,
                    retries := e.retries + 1);
        if failure.exhaustedAt.Some? {
          f := f.(exhaustedAt := At(failure.exhaustedAt.value), nextAttemptAt := Missing);
        } else if failure.nextAttemptAt.Some? {
          f := f.(nextAttemptAt := At(failure.nextAttemptAt.value), exhaustedAt := Missing);
        }
        docs := docs[id := f];
        modified := true;
      }
    }

    method RequeueExhaustedEvent(id: Id) returns (modified: bool)
      modifies this`docs
      ensures modified <==>
                && id in old(docs) && !old(docs)[id].processed && !old(docs)[id].processing
                && (old(docs)[id].retries >= max || old(docs)[id].exhaustedAt != Missing)
      ensures !modified ==> docs == old(docs)
      // Its progress is kept, it is pending and may be claimed at once, and no other event changed.
      ensures modified ==>
                && docs.Keys == old(docs).Keys && (forall o :: o in docs && o != id ==> docs[o] == old(docs)[o])
                && docs[id].payload == old(docs)[id].payload && docs[id].createdAt == old(docs)[id].createdAt
                && docs[id].handlers == old(docs)[id].handlers && docs[id].retries == 0
                && !docs[id].processed && !docs[id].processing && docs[id].owner == None && docs[id].error == None
                && docs[id].startedAt == docs[id].exhaustedAt == docs[id].nextAttemptAt == Missing
                && PendingIds(docs, max) == PendingIds(old(docs), max) + {id}
                && ExhaustedIds(docs, max) == ExhaustedIds(old(docs), max) - {id}
                && forall now, staleBefore :: id in Eligible(docs, max, now, staleBefore)
    {
      modified := false;
      if id in docs && Requeueable(docs[id], max) {
        docs := docs[id := Requeued(docs[id])];
        modified := true;
      }
    }

    method RenewClaim(id: Id, worker: string) returns (matched: bool)
      modifies this
      ensures old(clock) <= clock
      ensures matched <==>
                && id in old(docs) && old(docs)[id].owner == Some(worker)
                && old(docs)[id].processing && !old(docs)[id].processed
      ensures !matched ==> docs == old(docs)
      ensures matched ==>
                && OnlyAt(old(docs), docs, id) && docs[id].startedAt == At(clock)
                && docs[id].(startedAt := old(docs)[id].startedAt) == old(docs)[id]
    {
      var t := Now();
      matched := false;
      if id in docs && Renewable(docs[id], worker) {
        docs := docs[id := docs[id].(startedAt := At(t))];
        matched := true;
      }
    }

    method GetBacklogStats() returns (pending: nat, exhausted: nat, oldest: Option<Millis>)
      ensures Counted(docs, max, pending, exhausted)
      ensures oldest.None? <==> pending == 0
      ensures oldest.Some? ==>
                exists id :: Oldest(docs, PendingIds(docs, max), id) && docs[id].createdAt == oldest.value
    {
      var ids := PendingIds(docs, max);
      assert ids == set id | id in docs && !docs[id].processed && docs[id].retries < max && !docs[id].exhaustedAt.At?;
      assert ExhaustedIds(docs, max) ==
             set id | id in docs && !docs[id].processed && (docs[id].retries >= max || docs[id].exhaustedAt.At?);
      pending, exhausted, oldest := |ids|, |ExhaustedIds(docs, max)|, None;
      if ids != {} {
        OldestExists(docs, ids);
        var id :| Oldest(docs, ids, id);
        oldest := Some(docs[id].createdAt);
      }
    }

    // The backlog also counts the events whose exhaustedAt is an explicit null; this does not.
    method CountPendingEvents() returns (count: nat)
      ensures count + |NullExhausted(docs, max)| == |PendingIds(docs, max)|
    {
      var ids := set id | id in docs && PendingByCount(docs[id], max);
      assert ids !! NullExhausted(docs, max) && ids + NullExhausted(docs, max) == PendingIds(docs, max);
      count := |ids|;
    }
  }
}
