/**
 * The telemetry bucket: client events since the last rotation, kept as samples, per-feed and
 * per-flow aggregates, and counters of what was not kept.
 */
module Telemetry {
  import opened Prelude
  import opened Tally
  import opened TelemetryEvents
  import opened DimensionLedger

  const CREATE_POST := "create_post"
  const MAX_TTFI_SAMPLES := 10000
  const MAX_FEEDS := 128
  const MAX_FLOWS := 32
  const THRESHOLDS := [25, 50, 75, 90, 100]

  // ---- aggregates ----

  // One counter per threshold.
  type Five = s: seq<nat> | |s| == 5 witness seq(5, _ => 0)

  datatype Scroll = Scroll(count: nat, totalDepth: nat, reached: Five)

  datatype Completion = Completion(count: nat, totalDuration: real)

  function NoScroll(): Scroll { Scroll(0, 0, seq(5, _ => 0)) }

  function NoCompletion(): Completion { Completion(0, 0.0) }

  function Added(s: Scroll, depth: nat): Scroll {
    Scroll(s.count + 1, s.totalDepth + depth, Raised(s.reached, depth))
  }

  // One more for every threshold that the depth reaches.
  function Raised(reached: Five, depth: nat): Five {
    seq(5, i requires 0 <= i < 5 => reached[i] + if depth >= THRESHOLDS[i] then 1 else 0)
  }

  function DepthOf(e: Entry): Percent { if e.Scrolled? then e.depth else 0 }

  function TimeOf(e: Entry): real { if e.Completed? then e.time else 0.0 }

  // The aggregate of a feed's events.
  function ScrollOf(events: seq<Entry>): Scroll {
    if events == [] then NoScroll() else Added(ScrollOf(events[..|events| - 1]), DepthOf(events[|events| - 1]))
  }

  function CompletionOf(events: seq<Entry>): Completion {
    if events == [] then NoCompletion()
    else
      var c, e := CompletionOf(events[..|events| - 1]), events[|events| - 1];
      Completion(c.count + 1, c.totalDuration + TimeOf(e))
  }

  lemma ScrollOfPush(events: seq<Entry>, e: Entry)
    ensures ScrollOf(events + [e]) == Added(ScrollOf(events), DepthOf(e))
  {
    assert (events + [e])[..|events|] == events;
  }

  lemma CompletionOfPush(events: seq<Entry>, e: Entry)
    ensures CompletionOf(events + [e]) ==
            Completion(CompletionOf(events).count + 1,
                       CompletionOf(events).totalDuration + TimeOf(e))
  {
    assert (events + [e])[..|events|] == events;
  }

  // The thresholds bound the total depth from both sides.
  predicate Bounded(s: Scroll) {
    var r := s.reached;
       && r[4] <= r[3] <= r[2] <= r[1] <= r[0] <= s.count
       && 25 * r[0] + 25 * r[1] + 25 * r[2] + 15 * r[3] + 10 * r[4] <= s.totalDepth
       && s.totalDepth <= 24 * s.count + 25 * r[0] + 25 * r[1] + 15 * r[2] + 10 * r[3] + r[4]
       && s.totalDepth <= 100 * s.count
  }

  lemma AddedStaysBounded(s: Scroll, depth: nat)
    requires Bounded(s) && depth <= 100
    ensures Bounded(Added(s, depth))
  {
    var r, q := s.reached, Added(s, depth).reached;
    assert q[0] == r[0] + (if depth >= 25 then 1 else 0) && q[1] == r[1] + (if depth >= 50 then 1 else 0);
    assert q[2] == r[2] + (if depth >= 75 then 1 else 0) && q[3] == r[3] + (if depth >= 90 then 1 else 0);
    assert q[4] == r[4] + (if depth >= 100 then 1 else 0);
  }

  /** The aggregate of any events is bounded: 25·r25 + ... + 10·r100 <= totalDepth <= 100·count. */
  lemma {:induction false} ScrollIsBounded(events: seq<Entry>)
    ensures Bounded(ScrollOf(events))
  {
    if events != [] {
      var init, e := events[..|events| - 1], events[|events| - 1];
      ScrollIsBounded(init);
      AddedStaysBounded(ScrollOf(init), DepthOf(e));
    }
  }

  lemma {:induction false} ScrollCountsAll(events: seq<Entry>)
    ensures ScrollOf(events).count == |events|
  {
    if events != [] {
      ScrollCountsAll(events[..|events| - 1]);
    }
  }

  /** It counts the events and, for each threshold, those that reached it. */
  lemma {:induction false} ScrollCounts(events: seq<Entry>, i: nat)
    requires i < 5
    requires forall e :: e in events ==> e.Scrolled?
    ensures ScrollOf(events).count == |events|
    ensures ScrollOf(events).reached[i] == |Select(events, AtLeast(THRESHOLDS[i]))|
  {
    if events != [] {
      var init, e := events[..|events| - 1], events[|events| - 1];
      ScrollCounts(init, i);
      assert events == init + [e];
      SelectPush(init, e, AtLeast(THRESHOLDS[i]));
    }
  }

  // ---- the bucket ----

  datatype Samples = Samples(ttfi: seq<real>, dropped: nat, invalid: nat)

  datatype Feeds = Feeds(admitted: set<string>, depths: map<string, Scroll>)

  datatype Flows = Flows(admitted: set<string>, starts: map<string, nat>, completes: map<string, Completion>,
                         abandons: map<string, nat>)

  datatype Bucket = Bucket(samples: Samples, feeds: Feeds, flows: Flows, coalesced: nat)

  const FEEDS := Policy(ByFeed, MAX_FEEDS, {OTHER})
  const FLOWS := Policy(ByAnyFlow, MAX_FLOWS, {OTHER, CREATE_POST})

  function SamplesAfter(s: Samples, e: Entry): Samples {
    if e.Rejected? then s.(invalid := s.invalid + 1)
    else if !e.Sample? then s
    else if |s.ttfi| >= MAX_TTFI_SAMPLES then s.(dropped := s.dropped + 1)
    else s.(ttfi := s.ttfi + [e.duration])
  }

  function ScrollAt(depths: map<string, Scroll>, name: string): Scroll {
    if name in depths then depths[name] else NoScroll()
  }

  // A scroll is added to the feed it is filed under.
  function FeedsAfter(f: Feeds, e: Entry): Feeds {
    if !e.Scrolled? then f
    else
      var (names, name) := Admit(f.admitted, e.feed, MAX_FEEDS);
      Feeds(names, f.depths[name := Added(ScrollAt(f.depths, name), e.depth)])
  }

  function Incremented(counts: map<string, nat>, name: string): map<string, nat> {
    counts[name := (if name in counts then counts[name] else 0) + 1]
  }

  function Finished(completes: map<string, Completion>, name: string, e: Entry): map<string, Completion> {
    var c := if name in completes then completes[name] else NoCompletion();
    completes[name := Completion(c.count + 1, c.totalDuration + TimeOf(e))]
  }

  // A flow event is added to the map of its kind.
  function FlowsAfter(f: Flows, e: Entry): Flows {
    if NameOf(ByAnyFlow, e).None? then f
    else
      var (names, name) := Admit(f.admitted, NameOf(ByAnyFlow, e).value, MAX_FLOWS);
      match e
      case Started(_) => f.(admitted := names, starts := Incremented(f.starts, name))
      case Completed(_, _) => f.(admitted := names, completes := Finished(f.completes, name, e))
      case _ => f.(admitted := names, abandons := Incremented(f.abandons, name))
  }

  predicate Coalesces(b: Bucket, e: Entry) {
    || (e.Scrolled? && TurnsAway(b.feeds.admitted, e.feed, MAX_FEEDS))
    || (NameOf(ByAnyFlow, e).Some? && TurnsAway(b.flows.admitted, NameOf(ByAnyFlow, e).value, MAX_FLOWS))
  }

  function After(b: Bucket, e: Entry): Bucket {
    Bucket(SamplesAfter(b.samples, e), FeedsAfter(b.feeds, e), FlowsAfter(b.flows, e),
           b.coalesced + if Coalesces(b, e) then 1 else 0)
  }

  // One entry of each kind, spelled out.
  lemma AfterStarted(b: Bucket, flow: string)
    ensures var (names, name) := Admit(b.flows.admitted, flow, MAX_FLOWS);
            After(b, Started(flow)) ==
            b.(flows := b.flows.(admitted := names, starts := Incremented(b.flows.starts, name)),
               coalesced := b.coalesced + if TurnsAway(b.flows.admitted, flow, MAX_FLOWS) then 1 else 0)
  {
  }

  lemma AfterCompleted(b: Bucket, flow: string, time: real)
    ensures var (names, name) := Admit(b.flows.admitted, flow, MAX_FLOWS);
            var e := Completed(flow, time);
            After(b, e) ==
            b.(flows := b.flows.(admitted := names, completes := Finished(b.flows.completes, name, e)),
               coalesced := b.coalesced + if TurnsAway(b.flows.admitted, flow, MAX_FLOWS) then 1 else 0)
  {
  }

  lemma AfterAbandoned(b: Bucket, flow: string)
    ensures var (names, name) := Admit(b.flows.admitted, flow, MAX_FLOWS);
            After(b, Abandoned(flow)) ==
            b.(flows := b.flows.(admitted := names, abandons := Incremented(b.flows.abandons, name)),
               coalesced := b.coalesced + if TurnsAway(b.flows.admitted, flow, MAX_FLOWS) then 1 else 0)
  {
  }

  lemma AfterScrolled(b: Bucket, feed: string, depth: Percent)
    ensures var (names, name) := Admit(b.feeds.admitted, feed, MAX_FEEDS);
            After(b, Scrolled(feed, depth)) ==
            b.(feeds := Feeds(names, b.feeds.depths[name := Added(ScrollAt(b.feeds.depths, name), depth)]),
               coalesced := b.coalesced + if TurnsAway(b.feeds.admitted, feed, MAX_FEEDS) then 1 else 0)
  {
  }

  function EmptyBucket(): Bucket {
    Bucket(Samples([], 0, 0), Feeds({OTHER}, map[]), Flows({OTHER, CREATE_POST}, map[], map[], map[]), 0)
  }

  // The bucket after the entries since a rotation.
  function AfterAll(log: seq<Entry>): Bucket {
    if log == [] then EmptyBucket() else After(AfterAll(log[..|log| - 1]), log[|log| - 1])
  }

  lemma AfterPush(log: seq<Entry>, e: Entry)
    ensures AfterAll(log + [e]) == After(AfterAll(log), e)
  {
    assert (log + [e])[..|log|] == log;
  }

  // ---- what the bucket says of the entries ----

  /** The first durations are the samples, up to the limit; what is beyond it or invalid is counted. */
  lemma {:induction false} SamplesHold(log: seq<Entry>)
    ensures var s, valid := AfterAll(log).samples, Select(log, TtfiSamples);
            && |s.ttfi| == Min(|valid|, MAX_TTFI_SAMPLES) && s.dropped == |valid| - |s.ttfi|
            && (forall i :: 0 <= i < |s.ttfi| ==> valid[i] == Sample(s.ttfi[i]))
            && s.invalid == |Select(log, InvalidEvents)|
  {
    if log != [] {
      SamplesHold(log[..|log| - 1]);
    }
  }

  // The bucket's names are those of the ledger.
  lemma {:induction false} NamesAgree(log: seq<Entry>)
    ensures AfterAll(log).feeds.admitted == NamesAll(log, FEEDS)
    ensures AfterAll(log).flows.admitted == NamesAll(log, FLOWS)
  {
    if log != [] {
      NamesAgree(log[..|log| - 1]);
    }
  }

  ghost predicate DepthsFit(depths: map<string, Scroll>, book: Book) {
    depths.Keys == book.Keys && forall n :: n in book ==> depths[n] == ScrollOf(book[n])
  }

  ghost predicate CountsFit(counts: map<string, nat>, book: Book) {
    counts.Keys == book.Keys && forall n :: n in book ==> counts[n] == |book[n]|
  }

  ghost predicate CompletionsFit(completes: map<string, Completion>, book: Book) {
    completes.Keys == book.Keys && forall n :: n in book ==> completes[n] == CompletionOf(book[n])
  }

  lemma ScrollFiled(depths: map<string, Scroll>, book: Book, name: string, e: Entry)
    requires DepthsFit(depths, book)
    ensures DepthsFit(depths[name := Added(ScrollAt(depths, name), DepthOf(e))], File(book, name, e))
  {
    ScrollOfPush(Held(book, name), e);
  }

  lemma CompletionFiled(completes: map<string, Completion>, book: Book, name: string, e: Entry)
    requires CompletionsFit(completes, book)
    ensures CompletionsFit(Finished(completes, name, e), File(book, name, e))
  {
    CompletionOfPush(Held(book, name), e);
  }

  // Every aggregate is that of the entries filed under its name.
  lemma {:induction false} FeedsAgree(log: seq<Entry>)
    ensures DepthsFit(AfterAll(log).feeds.depths, BookAll(log, FEEDS, ByFeed))
  {
    if log != [] {
      var init, e := log[..|log| - 1], log[|log| - 1];
      FeedsAgree(init);
      NamesAgree(init);
      if e.Scrolled? {
        ScrollFiled(AfterAll(init).feeds.depths, BookAll(init, FEEDS, ByFeed),
                    Admit(NamesAll(init, FEEDS), e.feed, MAX_FEEDS).1, e);
      }
    }
  }

  lemma {:induction false} StartsAgree(log: seq<Entry>)
    ensures CountsFit(AfterAll(log).flows.starts, BookAll(log, FLOWS, ByStart))
  {
    if log != [] {
      StartsAgree(log[..|log| - 1]);
      NamesAgree(log[..|log| - 1]);
    }
  }

  lemma {:induction false} CompletesAgree(log: seq<Entry>)
    ensures CompletionsFit(AfterAll(log).flows.completes, BookAll(log, FLOWS, ByCompletion))
  {
    if log != [] {
      var init, e := log[..|log| - 1], log[|log| - 1];
      CompletesAgree(init);
      NamesAgree(init);
      if e.Completed? {
        CompletionFiled(AfterAll(init).flows.completes, BookAll(init, FLOWS, ByCompletion),
                        Admit(NamesAll(init, FLOWS), e.flow, MAX_FLOWS).1, e);
      }
    }
  }

  lemma {:induction false} AbandonsAgree(log: seq<Entry>)
    ensures CountsFit(AfterAll(log).flows.abandons, BookAll(log, FLOWS, ByAbandon))
  {
    if log != [] {
      AbandonsAgree(log[..|log| - 1]);
      NamesAgree(log[..|log| - 1]);
    }
  }

  /**
   * At most 128 feeds and 32 flows are told apart. The aggregate of one that is, the common one
   * apart, is that of exactly its events, whatever else came and when; create_post always is.
   */
  lemma AdmittedAggregatesAreExact(log: seq<Entry>, name: string)
    requires name != OTHER
    ensures var b := AfterAll(log);
            && |b.feeds.admitted| <= 128 && |b.flows.admitted| <= 32 && CREATE_POST in b.flows.admitted
            && (name in b.feeds.depths ==> b.feeds.depths[name] == ScrollOf(Select(log, Under(ByFeed, name))))
            && (name in b.flows.starts ==> b.flows.starts[name] == |Select(log, Under(ByStart, name))|)
            && (name in b.flows.completes ==>
                  b.flows.completes[name] == CompletionOf(Select(log, Under(ByCompletion, name))))
            && (name in b.flows.abandons ==> b.flows.abandons[name] == |Select(log, Under(ByAbandon, name))|)
  {
    PoliciesAreSound();
    NamesAgree(log);
    NamesHold(log, FEEDS);
    NamesHold(log, FLOWS);
    FeedsAgree(log);
    StartsAgree(log);
    CompletesAgree(log);
    AbandonsAgree(log);
    ExactIfPresent(log, FEEDS, ByFeed, name);
    ExactIfPresent(log, FLOWS, ByStart, name);
    ExactIfPresent(log, FLOWS, ByCompletion, name);
    ExactIfPresent(log, FLOWS, ByAbandon, name);
  }

  lemma PoliciesAreSound()
    ensures FEEDS.Sound() && FLOWS.Sound()
  {
    assert OTHER[0] != CREATE_POST[0];
  }

  lemma ExactIfPresent(log: seq<Entry>, p: Policy, naming: Naming, name: string)
    requires p.Sound() && p.Covers(naming) && name != OTHER
    ensures name in BookAll(log, p, naming) ==> BookAll(log, p, naming)[name] == Select(log, Under(naming, name))
  {
    BookNamesAreAdmitted(log, p, naming);
    if name in BookAll(log, p, naming) {
      BookIsExact(log, p, naming, name);
    }
  }

  function CountOfScroll(): Scroll -> int { (s: Scroll) => s.count }

  function CountOfCompletion(): Completion -> int { (c: Completion) => c.count }

  function Itself(): nat -> int { n => n }

  // A total over aggregates is the total over the books they are of.
  lemma {:induction false} SumsAgree<V>(m: map<string, V>, book: Book, f: V -> int)
    requires m.Keys == book.Keys && forall n :: n in book ==> f(m[n]) == |book[n]|
    ensures Sum(m, f) == Sum(book, Length())
    decreases |m|
  {
    if m != map[] {
      var n :| n in m;
      SumRemove(m, n, f);
      SumRemove(book, n, Length());
      assert (m - {n}).Keys == m.Keys - {n} && (book - {n}).Keys == book.Keys - {n};
      SumsAgree(m - {n}, book - {n}, f);
    } else {
      assert book == map[];
    }
  }

  lemma {:induction false} CompletionCounts(events: seq<Entry>)
    ensures CompletionOf(events).count == |events|
  {
    if events != [] {
      CompletionCounts(events[..|events| - 1]);
    }
  }

  /**
   * Every event since the rotation is accounted for: it was invalid, dropped, kept as a sample, or
   * is counted in exactly one feed or flow.
   */
  lemma BucketAccounts(log: seq<Entry>)
    ensures var b := AfterAll(log);
            |log| == b.samples.invalid + b.samples.dropped + |b.samples.ttfi| + Sum(b.feeds.depths, CountOfScroll())
                     + Sum(b.flows.starts, Itself()) + Sum(b.flows.completes, CountOfCompletion())
                     + Sum(b.flows.abandons, Itself())
  {
    EveryEventCounts(log);
    SamplesHold(log);
    FeedsTotal(log);
    FlowsTotal(log);
  }

  lemma FeedsTotal(log: seq<Entry>)
    ensures Sum(AfterAll(log).feeds.depths, CountOfScroll()) == |Select(log, FiledBy(ByFeed))|
  {
    var depths, book := AfterAll(log).feeds.depths, BookAll(log, FEEDS, ByFeed);
    FeedsAgree(log);
    forall n | n in book ensures depths[n].count == |book[n]| { ScrollCountsAll(book[n]); }
    SumsAgree(depths, book, CountOfScroll());
    BookIsComplete(log, FEEDS, ByFeed);
  }

  lemma FlowsTotal(log: seq<Entry>)
    ensures var f := AfterAll(log).flows;
            && Sum(f.starts, Itself()) == |Select(log, FiledBy(ByStart))|
            && Sum(f.completes, CountOfCompletion()) == |Select(log, FiledBy(ByCompletion))|
            && Sum(f.abandons, Itself()) == |Select(log, FiledBy(ByAbandon))|
  {
    var f, completed := AfterAll(log).flows, BookAll(log, FLOWS, ByCompletion);
    StartsAgree(log);
    CompletesAgree(log);
    AbandonsAgree(log);
    forall n | n in completed ensures f.completes[n].count == |completed[n]| { CompletionCounts(completed[n]); }
    SumsAgree(f.starts, BookAll(log, FLOWS, ByStart), Itself());
    SumsAgree(f.completes, completed, CountOfCompletion());
    SumsAgree(f.abandons, BookAll(log, FLOWS, ByAbandon), Itself());
    BookIsComplete(log, FLOWS, ByStart);
    BookIsComplete(log, FLOWS, ByCompletion);
    BookIsComplete(log, FLOWS, ByAbandon);
  }

  /** Every feed's total depth is bounded by its threshold counters and its count. */
  lemma DepthsAreBounded(log: seq<Entry>, feed: string)
    requires feed in AfterAll(log).feeds.depths
    ensures Bounded(AfterAll(log).feeds.depths[feed])
  {
    FeedsAgree(log);
    ScrollIsBounded(BookAll(log, FEEDS, ByFeed)[feed]);
  }

  lemma {:induction false} TurnedAwayAgrees(log: seq<Entry>)
    ensures AfterAll(log).coalesced == TurnedAwayAll(log, FEEDS) + TurnedAwayAll(log, FLOWS)
  {
    if log != [] {
      TurnedAwayAgrees(log[..|log| - 1]);
      NamesAgree(log[..|log| - 1]);
    }
  }

  /** coalescedDimensions counts the entries in the common aggregates that named something else. */
  lemma CoalescedMeans(log: seq<Entry>)
    ensures AfterAll(log).coalesced == Coalesced(BookAll(log, FEEDS, ByFeed), ByFeed) + FlowsCoalesced(log, FLOWS)
  {
    PoliciesAreSound();
    TurnedAwayAgrees(log);
    FeedsTurnedAway(log, FEEDS);
    FlowsTurnedAway(log, FLOWS);
  }

  // ---- the service ----

  class TelemetryService {
    var currentBucket: Bucket
    // The events since the last rotation.
    ghost var log: seq<Event>

    ghost predicate Valid()
      reads this
    {
      currentBucket == AfterAll(EntriesOf(log))
    }

    constructor ()
      ensures Valid() && log == []
    {
      currentBucket, log := EmptyBucket(), [];
    }

    method RotateBucket()
      modifies this
      ensures Valid() && log == []
    {
      currentBucket, log := EmptyBucket(), [];
    }

    method ProcessEvents(events: seq<Event>)
      requires Valid()
      modifies this
      ensures Valid() && log == old(log) + events
    {
      for i := 0 to |events|
        invariant Valid() && log == old(log) + events[..i]
      {
        ProcessEvent(events[i]);
        AfterPush(EntriesOf(log), EntryOf(events[i]));
        assert EntriesOf(log + [events[i]]) == EntriesOf(log) + [EntryOf(events[i])];
        log := log + [events[i]];
      }
    }

    method ProcessEvent(e: Event)
      modifies this`currentBucket
      ensures currentBucket == After(old(currentBucket), EntryOf(e))
    {
      match e.kind
      case Ttfi => ProcessTTFI(e);
      case ScrollDepth => ProcessScrollDepth(e);
      case FlowStart => ProcessFlowStart(e);
      case FlowComplete => ProcessFlowComplete(e);
      case FlowAbandon => ProcessFlowAbandon(e);
      case Unknown => CountInvalid();
    }

    method CountInvalid()
      modifies this`currentBucket
      ensures currentBucket == After(old(currentBucket), Rejected)
    {
      var samples := currentBucket.samples;
      currentBucket := currentBucket.(samples := samples.(invalid := samples.invalid + 1));
    }

    method ProcessTTFI(e: Event)
      requires e.kind.Ttfi?
      modifies this`currentBucket
      ensures currentBucket == After(old(currentBucket), EntryOf(e))
    {
      if e.number.None? || e.number.value <= 0.0 || e.number.value >= 60000.0 {
        CountInvalid();
        return;
      }
      var samples := currentBucket.samples;
      if |samples.ttfi| >= MAX_TTFI_SAMPLES {
        currentBucket := currentBucket.(samples := samples.(dropped := samples.dropped + 1));
        return;
      }
      currentBucket := currentBucket.(samples := samples.(ttfi := samples.ttfi + [e.number.value]));
    }

    method AdmitDimension(dimension: string, admitted: set<string>, max: nat) returns (names: set<string>, name: string)
      modifies this`currentBucket
      ensures (names, name) == Admit(admitted, dimension, max)
      ensures currentBucket == old(currentBucket).(coalesced :=
                old(currentBucket).coalesced + if TurnsAway(admitted, dimension, max) then 1 else 0)
    {
      if dimension in admitted {
        return admitted, dimension;
      }
      if |admitted| < max {
        return admitted + {dimension}, dimension;
      }
      currentBucket := currentBucket.(coalesced := currentBucket.coalesced + 1);
      return admitted, OTHER;
    }

    // Counts a depth at every threshold it reaches.
    method RaiseThresholds(reached: Five, depth: nat) returns (raised: Five)
      ensures raised == Raised(reached, depth)
    {
      raised := reached;
      for i := 0 to 5
        invariant forall j :: 0 <= j < 5 ==> raised[j] == if j < i then Raised(reached, depth)[j] else reached[j]
      {
        if depth >= THRESHOLDS[i] {
          raised := raised[i := raised[i] + 1];
        }
      }
    }

    method ProcessScrollDepth(e: Event)
      requires e.kind.ScrollDepth?
      modifies this`currentBucket
      ensures currentBucket == After(old(currentBucket), EntryOf(e))
    {
      var feedId := NormalizeDimension(e.dimension, MAX_FEED_ID_LENGTH);
      if feedId.None? || e.number.None? || e.number.value.Floor as real != e.number.value
         || e.number.value < 0.0 || e.number.value > 100.0 {
        CountInvalid();
        return;
      }
      var depth := e.number.value.Floor;
      AfterScrolled(currentBucket, feedId.value, depth);
      var feeds := currentBucket.feeds;
      var names, admitted := AdmitDimension(feedId.value, feeds.admitted, MAX_FEEDS);
      var aggregate := ScrollAt(feeds.depths, admitted);
      var raised := RaiseThresholds(aggregate.reached, depth);
      aggregate := Scroll(aggregate.count + 1, aggregate.totalDepth + depth, raised);
      currentBucket := currentBucket.(feeds := Feeds(names, feeds.depths[admitted := aggregate]));
    }

    // The bodies of the three flow handlers, once the flow has a name.
    method CountStart(flowType: string)
      modifies this`currentBucket
      ensures currentBucket == After(old(currentBucket), Started(flowType))
    {
      AfterStarted(currentBucket, flowType);
      var flows := currentBucket.flows;
      var names, admitted := AdmitDimension(flowType, flows.admitted, MAX_FLOWS);
      var current := if admitted in flows.starts then flows.starts[admitted] else 0;
      currentBucket := currentBucket.(flows := flows.(admitted := names,
                                      starts := flows.starts[admitted := current + 1]));
    }

    method CountComplete(flowType: string, value: real)
      modifies this`currentBucket
      ensures currentBucket == After(old(currentBucket), Completed(flowType, value))
    {
      AfterCompleted(currentBucket, flowType, value);
      var flows := currentBucket.flows;
      var names, admitted := AdmitDimension(flowType, flows.admitted, MAX_FLOWS);
      var data := if admitted in flows.completes then flows.completes[admitted] else NoCompletion();
      data := Completion(data.count + 1, data.totalDuration + value);
      currentBucket := currentBucket.(flows := flows.(admitted := names,
                                      completes := flows.completes[admitted := data]));
    }

    method CountAbandon(flowType: string)
      modifies this`currentBucket
      ensures currentBucket == After(old(currentBucket), Abandoned(flowType))
    {
      AfterAbandoned(currentBucket, flowType);
      var flows := currentBucket.flows;
      var names, admitted := AdmitDimension(flowType, flows.admitted, MAX_FLOWS);
      var current := if admitted in flows.abandons then flows.abandons[admitted] else 0;
      currentBucket := currentBucket.(flows := flows.(admitted := names,
                                      abandons := flows.abandons[admitted := current + 1]));
    }

    method ProcessFlowStart(e: Event)
      requires e.kind.FlowStart?
      modifies this`currentBucket
      ensures currentBucket == After(old(currentBucket), EntryOf(e))
    {
      var flowType := FlowOf(e);
      if flowType.None? {
        CountInvalid();
        return;
      }
      CountStart(flowType.value);
    }

    method ProcessFlowComplete(e: Event)
      requires e.kind.FlowComplete?
      modifies this`currentBucket
      ensures currentBucket == After(old(currentBucket), EntryOf(e))
    {
      var flowType := FlowOf(e);
      if flowType.None? || e.number.None? || e.number.value < 0.0 || e.number.value > MAX_FLOW_DURATION {
        CountInvalid();
        return;
      }
      CountComplete(flowType.value, e.number.value);
    }

    method ProcessFlowAbandon(e: Event)
      requires e.kind.FlowAbandon?
      modifies this`currentBucket
      ensures currentBucket == After(old(currentBucket), EntryOf(e))
    {
      var flowType := FlowOf(e);
      if flowType.None? {
        CountInvalid();
        return;
      }
      CountAbandon(flowType.value);
    }
  }
}
