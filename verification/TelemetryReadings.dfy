/**
 * What the telemetry bucket holds, over the client events themselves: every number in it is a
 * count or a total over the events of one kind, with a valid number, and with the name it is kept
 * under.
 */
module TelemetryReadings {
  import opened Prelude
  import opened Tally
  import opened TelemetryEvents
  import opened DimensionLedger
  import opened Telemetry
  import KeyOrder

  // ---- names ----

  // The text between the blanks at both ends.
  ghost predicate Trimmed(s: string, r: string) {
    exists i, j :: 0 <= i <= j <= |s| && Between(s, r, i, j)
  }

  ghost predicate Between(s: string, r: string, i: nat, j: nat)
    requires i <= j <= |s|
  {
    && r == s[i..j] && (forall k :: 0 <= k < i || j <= k < |s| ==> Blank(s[k]))
    && (i < j ==> !Blank(s[i]) && !Blank(s[j - 1]))
  }

  lemma {:induction false} TrimTrims(s: string)
    ensures Trimmed(s, Trim(s))
    decreases |s|
  {
    hide Blank;
    if s == "" || !BlankEnds(s) {
      assert Between(s, s, 0, |s|);
    } else if Blank(s[0]) {
      TrimTrims(s[1..]);
      BlankBefore(s, Trim(s));
    } else {
      TrimTrims(s[..|s| - 1]);
      BlankAfter(s, Trim(s));
    }
  }

  lemma BlankBefore(s: string, r: string)
    requires s != "" && Blank(s[0]) && Trimmed(s[1..], r)
    ensures Trimmed(s, r)
  {
    hide Blank;
    ghost var i, j :| 0 <= i <= j <= |s| - 1 && Between(s[1..], r, i, j);
    assert forall k :: 0 < k < |s| ==> s[k] == s[1..][k - 1];
    assert Between(s, r, i + 1, j + 1);
  }

  lemma BlankAfter(s: string, r: string)
    requires s != "" && Blank(s[|s| - 1]) && Trimmed(s[..|s| - 1], r)
    ensures Trimmed(s, r)
  {
    hide Blank;
    ghost var i, j :| 0 <= i <= j <= |s| - 1 && Between(s[..|s| - 1], r, i, j);
    assert forall k :: 0 <= k < |s| - 1 ==> s[k] == s[..|s| - 1][k];
    assert Between(s, r, i, j);
  }

  lemma TrimmedIsUnique(s: string, r: string, q: string)
    requires Trimmed(s, r) && Trimmed(s, q)
    ensures r == q
  {
    ghost var i, j :| 0 <= i <= j <= |s| && Between(s, r, i, j);
    ghost var k, l :| 0 <= k <= l <= |s| && Between(s, q, k, l);
  }

  // A string that is this name, up to blanks around it, and not too long.
  ghost predicate Names(d: Option<string>, name: string, maxUnits: nat) {
    d.Some? && Trimmed(d.value, name) && name != "" && |KeyOrder.Utf16(name)| <= maxUnits
  }

  lemma {:induction false} UnitsAreCodeUnits(s: string)
    ensures Units(s) == |KeyOrder.Utf16(s)|
  {
    if s != "" {
      UnitsAreCodeUnits(s[1..]);
    }
  }

  lemma NormalizeNames(d: Option<string>, name: string, maxUnits: nat)
    ensures NormalizeDimension(d, maxUnits) == Some(name) <==> Names(d, name, maxUnits)
  {
    if d.Some? {
      TrimTrims(d.value);
      if Trimmed(d.value, name) {
        TrimmedIsUnique(d.value, name, Trim(d.value));
      }
      UnitsAreCodeUnits(name);
      UnitsAreCodeUnits(Trim(d.value));
    }
  }

  // ---- events ----

  datatype What =
    | Starting(name: string)
    | Completing(name: string)
    | Abandoning(name: string)
    | Scrolling(name: string)
    | Reaching(name: string, percent: nat)
    | Timing

  // What an event is, over its own fields.
  ghost predicate Is(e: Event, what: What) {
    match what
    case Starting(name) => e.kind == FlowStart && Names(e.dimension, name, 64)
    case Completing(name) =>
      && e.kind == FlowComplete && Names(e.dimension, name, 64)
      && e.number.Some? && 0.0 <= e.number.value <= 3600000.0
    case Abandoning(name) => e.kind == FlowAbandon && Names(e.dimension, name, 64)
    case Scrolling(name) => IsScroll(e, name)
    case Reaching(name, percent) => IsScroll(e, name) && e.number.value >= percent as real
    case Timing => e.kind == Ttfi && e.number.Some? && 0.0 < e.number.value < 60000.0
  }

  ghost predicate IsScroll(e: Event, name: string) {
    && e.kind == ScrollDepth && Names(e.dimension, name, 512)
    && e.number.Some? && 0.0 <= e.number.value <= 100.0
    && e.number.value.Floor as real == e.number.value
  }

  // An event that is none of these is invalid.
  ghost predicate IsValid(e: Event) {
    || Is(e, Timing)
    || exists name ::
         Is(e, Starting(name)) || Is(e, Completing(name)) || Is(e, Abandoning(name)) || Is(e, Scrolling(name))
  }

  ghost function Count(events: seq<Event>, what: What): nat {
    if events == [] then 0
    else Count(events[..|events| - 1], what) + if Is(events[|events| - 1], what) then 1 else 0
  }

  ghost function Total(events: seq<Event>, what: What): real {
    if events == [] then 0.0
    else
      var e := events[|events| - 1];
      Total(events[..|events| - 1], what) + if Is(e, what) && e.number.Some? then e.number.value else 0.0
  }

  ghost function Invalid(events: seq<Event>): nat {
    if events == [] then 0
    else Invalid(events[..|events| - 1]) + if IsValid(events[|events| - 1]) then 0 else 1
  }

  // The valid durations in the order of their events.
  ghost function Durations(events: seq<Event>): seq<real> {
    if events == [] then []
    else
      var e := events[|events| - 1];
      Durations(events[..|events| - 1]) + if Is(e, Timing) then [e.number.value] else []
  }

  // ---- what events come to ----

  lemma EntryOfFlow(e: Event, name: string)
    ensures EntryOf(e) == Started(name) <==> Is(e, Starting(name))
    ensures EntryOf(e).Completed? && EntryOf(e).flow == name <==> Is(e, Completing(name))
    ensures EntryOf(e).Completed? ==> e.number == Some(EntryOf(e).time)
    ensures EntryOf(e) == Abandoned(name) <==> Is(e, Abandoning(name))
  {
    NormalizeNames(e.dimension, name, 64);
  }

  lemma EntryOfScroll(e: Event, name: string)
    ensures EntryOf(e).Scrolled? && EntryOf(e).feed == name <==> Is(e, Scrolling(name))
    ensures EntryOf(e).Scrolled? ==> e.number == Some(EntryOf(e).depth as real)
  {
    NormalizeNames(e.dimension, name, 512);
  }

  lemma EntryOfTiming(e: Event)
    ensures EntryOf(e).Sample? <==> Is(e, Timing)
    ensures EntryOf(e).Sample? ==> e.number == Some(EntryOf(e).duration)
  {
  }

  lemma RejectedIsInvalid(e: Event)
    ensures EntryOf(e).Rejected? <==> !IsValid(e)
  {
    hide EntryOf, Is;
    EntryOfTiming(e);
    forall name ensures (Is(e, Starting(name)) <==> EntryOf(e) == Started(name)) &&
                        (Is(e, Completing(name)) <==> EntryOf(e).Completed? && EntryOf(e).flow == name) &&
                        (Is(e, Abandoning(name)) <==> EntryOf(e) == Abandoned(name)) &&
                        (Is(e, Scrolling(name)) <==> EntryOf(e).Scrolled? && EntryOf(e).feed == name)
    {
      EntryOfFlow(e, name);
      EntryOfScroll(e, name);
    }
    match EntryOf(e) {
      case Started(flow) => assert Is(e, Starting(flow));
      case Completed(flow, _) => assert Is(e, Completing(flow));
      case Abandoned(flow) => assert Is(e, Abandoning(flow));
      case Scrolled(feed, _) => assert Is(e, Scrolling(feed));
      case Sample(_) =>
      case Rejected =>
    }
  }

  lemma EntriesOfLast(events: seq<Event>)
    requires events != []
    ensures var n := |events| - 1; EntriesOf(events) == EntriesOf(events[..n]) + [EntryOf(events[n])]
  {
  }

  // ---- counting and adding up ----

  lemma {:induction false} FlowsCount(events: seq<Event>, name: string)
    ensures var log := EntriesOf(events);
            && |Select(log, Under(ByStart, name))| == Count(events, Starting(name))
            && |Select(log, Under(ByAbandon, name))| == Count(events, Abandoning(name))
  {
    hide Is, EntryOf, EntriesOf;
    if events != [] {
      var init, e := events[..|events| - 1], events[|events| - 1];
      FlowsCount(init, name);
      EntriesOfLast(events);
      EntryOfFlow(e, name);
      SelectPush(EntriesOf(init), EntryOf(e), Under(ByStart, name));
      SelectPush(EntriesOf(init), EntryOf(e), Under(ByAbandon, name));
    } else {
      assert EntriesOf(events) == [];
    }
  }

  // The completions of a flow, counted and added up.
  ghost function Completions(events: seq<Event>, name: string): Completion {
    Completion(Count(events, Completing(name)), Total(events, Completing(name)))
  }

  lemma {:induction false} CompletionsCount(events: seq<Event>, name: string)
    ensures CompletionOf(Select(EntriesOf(events), Under(ByCompletion, name))) == Completions(events, name)
  {
    hide Completions, EntryOf, EntriesOf;
    if events != [] {
      var init, e := events[..|events| - 1], events[|events| - 1];
      CompletionsCount(init, name);
      EntriesOfLast(events);
      SelectPush(EntriesOf(init), EntryOf(e), Under(ByCompletion, name));
      OneCompletionMore(events, name);
      CompletionOfPush(Select(EntriesOf(init), Under(ByCompletion, name)), EntryOf(e));
    } else {
      assert EntriesOf(events) == [];
      NoCompletions(name);
    }
  }

  lemma NoCompletions(name: string)
    ensures Completions([], name) == Completion(0, 0.0)
  {
  }

  lemma OneCompletionMore(events: seq<Event>, name: string)
    requires events != []
    ensures var before, entry := Completions(events[..|events| - 1], name), EntryOf(events[|events| - 1]);
            Completions(events, name) ==
            if NameOf(ByCompletion, entry) == Some(name)
            then Completion(before.count + 1, before.totalDuration + TimeOf(entry))
            else before
  {
    hide Is, EntryOf;
    EntryOfFlow(events[|events| - 1], name);
  }

  // A feed's aggregate, over its events.
  ghost predicate ScrollReads(s: Scroll, events: seq<Event>, name: string) {
    && s.count == Count(events, Scrolling(name)) && s.totalDepth as real == Total(events, Scrolling(name))
    && s.reached[0] == Count(events, Reaching(name, 25)) && s.reached[1] == Count(events, Reaching(name, 50))
    && s.reached[2] == Count(events, Reaching(name, 75)) && s.reached[3] == Count(events, Reaching(name, 90))
    && s.reached[4] == Count(events, Reaching(name, 100))
  }

  lemma {:induction false} ScrollsCount(events: seq<Event>, name: string)
    ensures ScrollReads(ScrollOf(Select(EntriesOf(events), Under(ByFeed, name))), events, name)
  {
    hide Is, EntryOf, EntriesOf;
    if events != [] {
      var init, e := events[..|events| - 1], events[|events| - 1];
      ScrollsCount(init, name);
      EntriesOfLast(events);
      EntryOfScroll(e, name);
      SelectPush(EntriesOf(init), EntryOf(e), Under(ByFeed, name));
      OneScrollMore(ScrollOf(Select(EntriesOf(init), Under(ByFeed, name))), events, name);
      ScrollOfPush(Select(EntriesOf(init), Under(ByFeed, name)), EntryOf(e));
    } else {
      assert EntriesOf(events) == [];
    }
  }

  lemma OneScrollMore(s: Scroll, events: seq<Event>, name: string)
    requires events != [] && ScrollReads(s, events[..|events| - 1], name)
    ensures var entry := EntryOf(events[|events| - 1]);
            ScrollReads(if NameOf(ByFeed, entry) == Some(name) then Added(s, DepthOf(entry)) else s, events, name)
  {
    var e := events[|events| - 1];
    EntryOfScroll(e, name);
    ReachingIsScrolling(e, name);
    hide Is, EntryOf;
  }

  lemma ReachingIsScrolling(e: Event, name: string)
    ensures forall n :: Is(e, Reaching(name, n)) <==> Is(e, Scrolling(name)) && e.number.value >= n as real
  {
  }

  lemma {:induction false} SamplesCount(events: seq<Event>)
    ensures var log := EntriesOf(events);
            && |Select(log, InvalidEvents)| == Invalid(events) && |Select(log, TtfiSamples)| == |Durations(events)|
            && forall i :: 0 <= i < |Durations(events)| ==> Select(log, TtfiSamples)[i] == Sample(Durations(events)[i])
  {
    hide Is, IsValid, EntryOf, EntriesOf;
    if events != [] {
      var init, e := events[..|events| - 1], events[|events| - 1];
      SamplesCount(init);
      EntriesOfLast(events);
      EntryOfTiming(e);
      RejectedIsInvalid(e);
      SelectPush(EntriesOf(init), EntryOf(e), InvalidEvents);
      SelectPush(EntriesOf(init), EntryOf(e), TtfiSamples);
    } else {
      assert EntriesOf(events) == [];
    }
  }

  // ---- the bucket ----

  ghost predicate FlowReads(f: Flows, events: seq<Event>, name: string) {
    && (if name in f.starts then f.starts[name] else 0) == Count(events, Starting(name))
    && (if name in f.abandons then f.abandons[name] else 0) == Count(events, Abandoning(name))
    && (if name in f.completes then f.completes[name] else Completion(0, 0.0)) == Completions(events, name)
  }

  /**
   * The numbers of a flow or feed that is told apart are those of all its events, and a name that
   * is not told apart has no numbers.
   */
  lemma BucketReads(events: seq<Event>, name: string)
    requires name != "__other__"
    ensures var b := AfterAll(EntriesOf(events));
            && (name in b.flows.admitted ==> FlowReads(b.flows, events, name))
            && (name !in b.flows.admitted ==>
                  name !in b.flows.starts && name !in b.flows.completes && name !in b.flows.abandons)
            && (name in b.feeds.admitted ==>
                  ScrollReads(if name in b.feeds.depths then b.feeds.depths[name] else NoScroll(), events, name))
            && (name !in b.feeds.admitted ==> name !in b.feeds.depths)
  {
    var log := EntriesOf(events);
    FlowsCount(events, name);
    CompletionsCount(events, name);
    ScrollsCount(events, name);
    Kept(log, name);
  }

  // The aggregates of a name, whether there are any or not.
  lemma Kept(log: seq<Entry>, name: string)
    requires name != OTHER
    ensures var b := AfterAll(log);
            var f := b.flows;
            && (name in f.admitted ==>
                  && (if name in f.starts then f.starts[name] else 0) == |Select(log, Under(ByStart, name))|
                  && (if name in f.abandons then f.abandons[name] else 0) == |Select(log, Under(ByAbandon, name))|
                  && (if name in f.completes then f.completes[name] else NoCompletion()) ==
                     CompletionOf(Select(log, Under(ByCompletion, name))))
            && (name !in f.admitted ==> name !in f.starts && name !in f.completes && name !in f.abandons)
            && (name in b.feeds.admitted ==>
                  (if name in b.feeds.depths then b.feeds.depths[name] else NoScroll()) ==
                  ScrollOf(Select(log, Under(ByFeed, name))))
            && (name !in b.feeds.admitted ==> name !in b.feeds.depths)
  {
    hide AfterAll, BookAll, NamesAll, Select;
    PoliciesAreSound();
    NamesAgree(log);
    FeedsAgree(log);
    StartsAgree(log);
    CompletesAgree(log);
    AbandonsAgree(log);
    KeptIn(log, FEEDS, ByFeed, name);
    KeptIn(log, FLOWS, ByStart, name);
    KeptIn(log, FLOWS, ByCompletion, name);
    KeptIn(log, FLOWS, ByAbandon, name);
  }

  lemma KeptIn(log: seq<Entry>, p: Policy, naming: Naming, name: string)
    requires p.Sound() && p.Covers(naming) && name != OTHER
    ensures name in NamesAll(log, p) ==> Held(BookAll(log, p, naming), name) == Select(log, Under(naming, name))
    ensures name !in NamesAll(log, p) ==> name !in BookAll(log, p, naming)
  {
    BookNamesAreAdmitted(log, p, naming);
    if name in NamesAll(log, p) {
      BookIsExact(log, p, naming, name);
    }
  }

  /** The samples are the first 10000 valid durations; the others and the invalid events are counted. */
  lemma SamplesRead(events: seq<Event>)
    ensures var s, all := AfterAll(EntriesOf(events)).samples, Durations(events);
            && s.ttfi == (if |all| <= 10000 then all else all[..10000])
            && s.dropped == |all| - |s.ttfi| && s.invalid == Invalid(events)
  {
    var s, all := AfterAll(EntriesOf(events)).samples, Durations(events);
    hide AfterAll;
    SamplesHold(EntriesOf(events));
    SamplesCount(events);
    forall i | 0 <= i < |s.ttfi| ensures s.ttfi[i] == all[i] {
      assert Select(EntriesOf(events), TtfiSamples)[i] == Sample(s.ttfi[i]);
    }
  }

  /** create_post is always told apart, and any name that occurs, unless 32 flows or 128 feeds are. */
  lemma NamesRead(events: seq<Event>, e: Event, name: string)
    requires e in events
    ensures var b := AfterAll(EntriesOf(events));
            && "create_post" in b.flows.admitted && |b.flows.admitted| <= 32 && |b.feeds.admitted| <= 128
            && (Is(e, Starting(name)) || Is(e, Completing(name)) || Is(e, Abandoning(name)) ==>
                  name in b.flows.admitted || |b.flows.admitted| == 32)
            && (Is(e, Scrolling(name)) ==> name in b.feeds.admitted || |b.feeds.admitted| == 128)
  {
    hide AfterAll, NamesAll, Is, EntryOf;
    var log := EntriesOf(events);
    ghost var i :| 0 <= i < |events| && events[i] == e;
    assert log[i] == EntryOf(e) && EntryOf(e) in log;
    PoliciesAreSound();
    NamesAgree(log);
    NamesHold(log, FEEDS);
    NamesHold(log, FLOWS);
    EntryOfFlow(e, name);
    EntryOfScroll(e, name);
  }
}
