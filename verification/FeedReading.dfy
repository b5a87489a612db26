/**
 * Reading the chronological feed page by page: the pipeline of a page is a piece of the feed,
 * following the cursors returns all of it, and no identity comes twice while posts are added.
 */
module FeedReading {
  import opened Prelude
  import opened Lists
  import opened Sorting
  import opened KeysetPaging
  import opened FeedPipeline

  function Reverse<T>(s: seq<T>): (r: seq<T>)
    ensures |r| == |s| && forall i :: 0 <= i < |s| ==> r[i] == s[|s| - 1 - i]
  {
    if s == [] then [] else Reverse(s[1..]) + [s[0]]
  }

  function Beyond(filter: Option<CursorFilter>): Doc -> bool { (d: Doc) => filter.Some? ==> Passes(filter.value, d) }

  // The part of the feed a page is taken from, in the order it is read in.
  function Side(posts: seq<Post>, direction: Direction, filter: Option<CursorFilter>, seen: seq<nat>): seq<Doc> {
    var side := Filter(Unseen(posts, seen), Beyond(filter));
    if direction.Forward? then side else Reverse(side)
  }

  // ---- the pipeline ----

  lemma {:induction false} RunStagesOfSum(a: seq<Stage>, b: seq<Stage>, docs: seq<Doc>, shuffle: Shuffle)
    ensures RunStages(a + b, docs, shuffle) == RunStages(b, RunStages(a, docs, shuffle), shuffle)
  {
    if a == [] {
      assert a + b == b;
    } else {
      assert (a + b)[1..] == a[1..] + b;
      RunStagesOfSum(a[1..], b, RunStage(a[0], docs, shuffle), shuffle);
    }
  }

  lemma OneStage(stage: Stage, docs: seq<Doc>, shuffle: Shuffle)
    ensures RunStages([stage], docs, shuffle) == RunStage(stage, docs, shuffle)
  {
    assert [stage][1..] == [];
  }

  // The grouped documents before the two optional filters.
  function Grouped(posts: seq<Post>, shuffle: Shuffle): seq<Doc> { shuffle(Firsts(ActiveNewestFirst(posts))) }

  lemma FirstStages(posts: seq<Post>, shuffle: Shuffle)
    ensures RunStages([MatchActive, SortByCreated(false)] + GetVisibleIdentityStages(), Docs(posts), shuffle)
            == Grouped(posts, shuffle)
  {
    var active := RunStage(MatchActive, Docs(posts), shuffle);
    var stages := [MatchActive, SortByCreated(false), GroupByIdentity];
    assert stages[1..] == [SortByCreated(false), GroupByIdentity] && stages[1..][1..] == [GroupByIdentity];
    OneStage(GroupByIdentity, RunStage(SortByCreated(false), active, shuffle), shuffle);
  }

  // An optional filter that is left out is one that keeps everything.
  lemma OptionalSeen(seen: seq<nat>, docs: seq<Doc>, shuffle: Shuffle)
    ensures RunStages(if |seen| > 0 then [MatchIdentityNotIn(seen)] else [], docs, shuffle) == Filter(docs, NotIn(seen))
  {
    if |seen| > 0 {
      OneStage(MatchIdentityNotIn(seen), docs, shuffle);
    } else {
      FilterAllOrNone(docs, NotIn(seen));
    }
  }

  lemma OptionalCursor(filter: Option<CursorFilter>, docs: seq<Doc>, shuffle: Shuffle)
    ensures RunStages(if filter.Some? then [MatchCursor(filter.value)] else [], docs, shuffle) ==
            Filter(docs, Beyond(filter))
  {
    if filter.Some? {
      OneStage(MatchCursor(filter.value), docs, shuffle);
      SamePredicate(docs, (d: Doc) => Passes(filter.value, d), Beyond(filter));
    } else {
      FilterAllOrNone(docs, Beyond(filter));
    }
  }

  lemma LastStages(docs: seq<Doc>, direction: Direction, limit: nat, shuffle: Shuffle)
    requires DistinctIds(docs, KeyOf)
    ensures var sorted := SortBy(docs, ByNewest(KeyOf));
            RunStages([SortByCreated(direction == Backward), LimitTo(limit + 1)], docs, shuffle)
            == Take(if direction.Forward? then sorted else Reverse(sorted), limit + 1)
  {
    var stages := [SortByCreated(direction == Backward), LimitTo(limit + 1)];
    assert stages[1..] == [LimitTo(limit + 1)];
    OneStage(LimitTo(limit + 1), RunStage(stages[0], docs, shuffle), shuffle);
    if direction.Backward? {
      OldestIsReverse(docs);
    }
  }

  lemma {:induction false} ReverseKeepsElements<T>(s: seq<T>)
    ensures multiset(Reverse(s)) == multiset(s)
  {
    if s != [] {
      ReverseKeepsElements(s[1..]);
      assert s == [s[0]] + s[1..];
    }
  }

  lemma OldestIsReverse(docs: seq<Doc>)
    requires DistinctIds(docs, KeyOf)
    ensures SortBy(docs, ByOldest()) == Reverse(SortBy(docs, ByNewest(KeyOf)))
  {
    var newest, oldest := SortBy(docs, ByNewest(KeyOf)), SortBy(docs, ByOldest());
    SortDescends(docs, KeyOf);
    DescendingIsSorted(newest, KeyOf);
    ReverseKeepsElements(newest);
    assert StrictWeak(ByOldest());
    SortSorts(docs, ByOldest());
    SortKeepsElements(docs, ByOldest());
    var r := Reverse(newest);
    forall x, y | x in r && y in r && x != y ensures ByOldest()(x, y) || ByOldest()(y, x) {
      SameMultisetSameMembers(r, newest, x);
      SameMultisetSameMembers(r, newest, y);
      assert ByNewest(KeyOf)(x, y) || ByNewest(KeyOf)(y, x);
    }
    SortedIsUnique(r, oldest, ByOldest());
  }

  // Whatever order the grouping gives, sorting what the filters leave is the feed, filtered.
  lemma SortedGroups(posts: seq<Post>, filter: Option<CursorFilter>, seen: seq<nat>, shuffle: Shuffle)
    requires Collection(posts) && Shuffles(shuffle)
    ensures var left := Filter(Filter(Grouped(posts, shuffle), NotIn(seen)), Beyond(filter));
            && DistinctIds(left, KeyOf)
            && SortBy(left, ByNewest(KeyOf)) == Filter(Unseen(posts, seen), Beyond(filter))
  {
    var firsts, groups := Firsts(ActiveNewestFirst(posts)), Grouped(posts, shuffle);
    ActiveNewestFirstMeans(posts);
    FirstsAreDistinct(ActiveNewestFirst(posts));
    assert multiset(groups) == multiset(firsts);
    forall i, j | 0 <= i < j < |groups| ensures KeyOf(groups[i]).id != KeyOf(groups[j]).id {
      DistinctAfterPermutation(firsts, groups, KeyOf, i, j);
    }
    SortDescends(firsts, KeyOf);
    SortDescends(groups, KeyOf);
    DescendingIsSorted(Feed(posts), KeyOf);
    DescendingIsSorted(SortBy(groups, ByNewest(KeyOf)), KeyOf);
    SortedIsUnique(Feed(posts), SortBy(groups, ByNewest(KeyOf)), ByNewest(KeyOf));
    FilterKeepsDistinct(groups, NotIn(seen), KeyOf);
    FilterKeepsDistinct(Filter(groups, NotIn(seen)), Beyond(filter), KeyOf);
    FilterThenSort(groups, NotIn(seen), KeyOf);
    FilterThenSort(Filter(groups, NotIn(seen)), Beyond(filter), KeyOf);
  }

  /** The pipeline returns the first rows, one more than the limit, of its side of the feed. */
  lemma PipelineMeans(posts: seq<Post>, limit: nat, direction: Direction, filter: Option<CursorFilter>, seen: seq<nat>,
                      shuffle: Shuffle)
    requires Collection(posts) && Shuffles(shuffle)
    ensures RunStages(BuildNewFeedPipeline(limit, direction, filter, seen), Docs(posts), shuffle)
            == Take(Side(posts, direction, filter, seen), limit + 1)
  {
    var docs, groups := Docs(posts), Grouped(posts, shuffle);
    var head := [MatchActive, SortByCreated(false)] + GetVisibleIdentityStages();
    var s1 := if |seen| > 0 then [MatchIdentityNotIn(seen)] else [];
    var s2 := if filter.Some? then [MatchCursor(filter.value)] else [];
    var tail := [SortByCreated(direction == Backward), LimitTo(limit + 1)];
    assert BuildNewFeedPipeline(limit, direction, filter, seen) == head + (s1 + (s2 + tail));
    RunStagesOfSum(head, s1 + (s2 + tail), docs, shuffle);
    FirstStages(posts, shuffle);
    RunStagesOfSum(s1, s2 + tail, groups, shuffle);
    OptionalSeen(seen, groups, shuffle);
    RunStagesOfSum(s2, tail, Filter(groups, NotIn(seen)), shuffle);
    OptionalCursor(filter, Filter(groups, NotIn(seen)), shuffle);
    SortedGroups(posts, filter, seen, shuffle);
    LastStages(Filter(Filter(groups, NotIn(seen)), Beyond(filter)), direction, limit, shuffle);
  }

  // ---- a page ----

  datatype FeedPage = FeedPage(data: seq<Doc>, hasMore: bool, next: Option<Key>, prev: Option<Key>)

  // The payload of a cursor that names a row.
  function PayloadOf(cursor: Option<Key>): Option<Payload> {
    if cursor.None? then None else Some(Payload(Given(Time(cursor.value.at)), Given(cursor.value.id)))
  }

  function FilterOf(cursor: Option<Key>, direction: Direction): Option<CursorFilter> {
    if cursor.None? then None else Some(CursorFilter(direction, cursor.value.at, cursor.value.id))
  }

  // What becomes of the rows the pipeline found.
  function PageFrom(found: seq<Doc>, limit: nat, direction: Direction): FeedPage {
    var hasMore := |found| > limit;
    var kept := if hasMore then found[..limit] else found;
    var results := if direction.Backward? then Reverse(kept) else kept;
    FeedPage(results, hasMore,
             if hasMore && results != [] then Some(KeyOf(results[if direction.Backward? then 0 else |results| - 1]))
             else None,
             if results != [] then Some(KeyOf(results[0])) else None)
  }

  function GetNewFeed(posts: seq<Post>, limit: nat, direction: Direction, cursor: Option<Key>, seen: seq<nat>,
                      shuffle: Shuffle): FeedPage {
    var built := BuildCreatedAtCursorFilter(PayloadOf(cursor), direction).value;
    var filter := if built.Exact? then Some(built.filter) else None;
    PageFrom(RunStages(BuildNewFeedPipeline(limit, direction, filter, seen), Docs(posts), shuffle), limit, direction)
  }

  lemma PageMeans(posts: seq<Post>, limit: nat, direction: Direction, cursor: Option<Key>, seen: seq<nat>,
                  shuffle: Shuffle)
    requires Collection(posts) && Shuffles(shuffle)
    ensures GetNewFeed(posts, limit, direction, cursor, seen, shuffle)
            == PageFrom(Take(Side(posts, direction, FilterOf(cursor, direction), seen), limit + 1), limit, direction)
  {
    PipelineMeans(posts, limit, direction, FilterOf(cursor, direction), seen, shuffle);
  }

  lemma ForwardSide(posts: seq<Post>, cursor: Option<Key>, seen: seq<nat>)
    ensures Side(posts, Forward, FilterOf(cursor, Forward), seen) == Rest(Unseen(posts, seen), KeyOf, cursor)
  {
    var p, q := Beyond(FilterOf(cursor, Forward)), OlderThan(KeyOf, cursor);
    forall d: Doc ensures p(d) == q(d) {
      assert q(d) == (cursor.None? || Newer(cursor.value, KeyOf(d)));
    }
    SamePredicate(Unseen(posts, seen), p, q);
  }

  /** Forward, a page is the keyset page of the feed after the cursor. */
  lemma ForwardPage(posts: seq<Post>, limit: nat, cursor: Option<Key>, seen: seq<nat>, shuffle: Shuffle)
    requires Collection(posts) && Shuffles(shuffle)
    ensures var page := GetNewFeed(posts, limit, Forward, cursor, seen, shuffle);
            Page(page.data, page.hasMore, page.next) == FetchPage(Unseen(posts, seen), KeyOf, limit, cursor)
  {
    PageMeans(posts, limit, Forward, cursor, seen, shuffle);
    ForwardSide(posts, cursor, seen);
  }

  function NewerThan(cursor: Key): Doc -> bool { (d: Doc) => Newer(KeyOf(d), cursor) }

  lemma BackwardSide(posts: seq<Post>, cursor: Key, seen: seq<nat>)
    ensures Side(posts, Backward, FilterOf(Some(cursor), Backward), seen)
            == Reverse(Filter(Unseen(posts, seen), NewerThan(cursor)))
  {
    SamePredicate(Unseen(posts, seen), Beyond(FilterOf(Some(cursor), Backward)), NewerThan(cursor));
  }

  // The first rows of the reversed list, reversed again, are the last rows.
  lemma ReversedEnd(s: seq<Doc>, limit: nat)
    ensures var kept := if |s| > limit then Reverse(s)[..limit] else Reverse(s);
            Reverse(kept) == s[if |s| > limit then |s| - limit else 0..]
  {
  }

  /**
   * Backward, a page is the piece of the feed just before the cursor, in feed order, and its next
   * cursor is its first row.
   */
  lemma BackwardPage(posts: seq<Post>, limit: nat, cursor: Key, seen: seq<nat>, shuffle: Shuffle)
    requires Collection(posts) && Shuffles(shuffle)
    ensures var page := GetNewFeed(posts, limit, Backward, Some(cursor), seen, shuffle);
            var newer := Filter(Unseen(posts, seen), NewerThan(cursor));
            && page.hasMore == (|newer| > limit)
            && page.data == newer[if |newer| > limit then |newer| - limit else 0..]
            && (page.next.Some? <==> page.hasMore && limit > 0)
            && (page.next.Some? ==> page.next == page.prev == Some(KeyOf(page.data[0])))
  {
    var newer := Filter(Unseen(posts, seen), NewerThan(cursor));
    PageMeans(posts, limit, Backward, Some(cursor), seen, shuffle);
    BackwardSide(posts, cursor, seen);
    ReversedPage(newer, limit);
  }

  // The page made of the first rows of a reversed list.
  lemma ReversedPage(newer: seq<Doc>, limit: nat)
    ensures var page := PageFrom(Take(Reverse(newer), limit + 1), limit, Backward);
            && page.hasMore == (|newer| > limit)
            && page.data == newer[if |newer| > limit then |newer| - limit else 0..]
            && (page.next.Some? <==> page.hasMore && limit > 0)
            && (page.next.Some? ==> page.next == page.prev == Some(KeyOf(page.data[0])))
  {
    ReversedEnd(newer, limit);
    var reversed := Reverse(newer);
    TakeTake(reversed, limit);
    RowsOfPage(Take(reversed, limit + 1), limit);
  }

  lemma TakeTake(s: seq<Doc>, limit: nat)
    ensures var found := Take(s, limit + 1);
            && (|found| > limit <==> |s| > limit)
            && (if |s| > limit then found[..limit] == s[..limit] else found == s)
  {
  }

  // A backward page, by its rows.
  lemma RowsOfPage(found: seq<Doc>, limit: nat)
    ensures var page := PageFrom(found, limit, Backward);
            && page.hasMore == (|found| > limit)
            && page.data == Reverse(if |found| > limit then found[..limit] else found)
            && (page.next.Some? <==> page.hasMore && limit > 0)
            && (page.next.Some? ==> page.next == page.prev == Some(KeyOf(page.data[0])))
  {
  }

  // ---- the whole feed ----

  lemma UnseenMeans(posts: seq<Post>, seen: seq<nat>)
    requires Collection(posts)
    ensures Descending(Unseen(posts, seen), KeyOf)
    ensures forall d :: d in Unseen(posts, seen) <==> Visible(posts, d) && d.identity.value !in seen
  {
    FeedMeans(posts);
    FilterKeepsDescending(Feed(posts), NotIn(seen), KeyOf);
    forall d ensures d in Unseen(posts, seen) <==> Visible(posts, d) && d.identity.value !in seen {
      FilterMembers(Feed(posts), NotIn(seen), d);
    }
  }

  // The next cursor of a page leaves less of the feed to read.
  lemma NextIsCloser(posts: seq<Post>, limit: nat, cursor: Option<Key>, seen: seq<nat>, shuffle: Shuffle)
    requires Collection(posts) && Shuffles(shuffle)
    requires GetNewFeed(posts, limit, Forward, cursor, seen, shuffle).next.Some?
    ensures var next := GetNewFeed(posts, limit, Forward, cursor, seen, shuffle).next;
            |Rest(Unseen(posts, seen), KeyOf, next)| < |Rest(Unseen(posts, seen), KeyOf, cursor)|
  {
    var h := Unseen(posts, seen);
    ForwardPage(posts, limit, cursor, seen, shuffle);
    UnseenMeans(posts, seen);
    PageIsHead(h, KeyOf, limit, cursor);
    RestOfRest(h, KeyOf, cursor, limit - 1);
  }

  // The pages of a reader that follows nextCursor over fixed posts.
  function ReadFeed(posts: seq<Post>, limit: nat, cursor: Option<Key>, seen: seq<nat>, shuffle: Shuffle): seq<seq<Doc>>
    requires Collection(posts) && Shuffles(shuffle)
    decreases |Rest(Unseen(posts, seen), KeyOf, cursor)|
  {
    var page := GetNewFeed(posts, limit, Forward, cursor, seen, shuffle);
    if page.next.None? then [page.data]
    else
      NextIsCloser(posts, limit, cursor, seen, shuffle);
      [page.data] + ReadFeed(posts, limit, page.next, seen, shuffle)
  }

  lemma {:induction false} ReadFeedWalks(posts: seq<Post>, limit: nat, cursor: Option<Key>, seen: seq<nat>,
                                         shuffle: Shuffle)
    requires Collection(posts) && Shuffles(shuffle) && Descending(Unseen(posts, seen), KeyOf)
    ensures ReadFeed(posts, limit, cursor, seen, shuffle) == Walk(Unseen(posts, seen), KeyOf, limit, cursor)
    decreases |Rest(Unseen(posts, seen), KeyOf, cursor)|
  {
    var h := Unseen(posts, seen);
    ForwardPage(posts, limit, cursor, seen, shuffle);
    var page := GetNewFeed(posts, limit, Forward, cursor, seen, shuffle);
    var fetched := FetchPage(h, KeyOf, limit, cursor);
    assert page.data == fetched.data && page.next == fetched.next;
    if page.next.Some? {
      RestOfRest(h, KeyOf, cursor, limit - 1);
      NextIsCloser(posts, limit, cursor, seen, shuffle);
      ReadFeedWalks(posts, limit, page.next, seen, shuffle);
      assert Walk(h, KeyOf, limit, cursor) == [page.data] + Walk(h, KeyOf, limit, page.next);
    }
  }

  /**
   * Reading fixed posts forward from the start returns exactly the feed, in pages that are full but
   * for the last, if and only if a page can hold a post or there is none.
   */
  lemma ReadingTheFeed(posts: seq<Post>, limit: nat, seen: seq<nat>, shuffle: Shuffle)
    requires Collection(posts) && Shuffles(shuffle)
    ensures var pages := ReadFeed(posts, limit, None, seen, shuffle);
            && (Flatten(pages) == Unseen(posts, seen) <==> limit >= 1 || Unseen(posts, seen) == [])
            && (limit >= 1 ==> FullPages(pages, limit))
  {
    UnseenMeans(posts, seen);
    ReadFeedWalks(posts, limit, None, seen, shuffle);
    WalkIsComplete(Unseen(posts, seen), KeyOf, limit);
    if limit >= 1 {
      WalkIsTheRest(Unseen(posts, seen), KeyOf, limit, None);
    }
  }

  // ---- while posts are added ----

  function FollowFeed(snapshots: seq<seq<Post>>, limit: nat, cursor: Option<Key>, seen: seq<nat>, shuffle: Shuffle)
    : seq<seq<Doc>> {
    if snapshots == [] then []
    else
      var page := GetNewFeed(snapshots[0], limit, Forward, cursor, seen, shuffle);
      if page.next.None? then [page.data] else [page.data] + FollowFeed(snapshots[1..], limit, page.next, seen, shuffle)
  }

  ghost predicate OnlyInserts(snapshots: seq<seq<Post>>) {
    && (forall i :: 0 <= i < |snapshots| ==> Collection(snapshots[i]))
    && (forall i, j :: 0 <= i < j < |snapshots| ==> forall p :: p in snapshots[i] ==> p in snapshots[j])
  }

  // The post shown for an identity is only ever replaced by a newer one.
  lemma ShownMovesUp(before: seq<Post>, after: seq<Post>, d: Doc, e: Doc)
    requires (forall p :: p in before ==> p in after) && Visible(before, d) && Visible(after, e)
             && d.identity == e.identity
    ensures d == e || Newer(KeyOf(e), KeyOf(d))
  {
    assert d.post in after;
  }

  // What there was to read at each page.
  function UnseenLists(snapshots: seq<seq<Post>>, seen: seq<nat>): (r: seq<seq<Doc>>)
    ensures |r| == |snapshots| && forall i :: 0 <= i < |snapshots| ==> r[i] == Unseen(snapshots[i], seen)
  {
    seq(|snapshots|, i requires 0 <= i < |snapshots| => Unseen(snapshots[i], seen))
  }

  lemma {:induction false} FollowIsJourney(snapshots: seq<seq<Post>>, limit: nat, cursor: Option<Key>, seen: seq<nat>,
                                           shuffle: Shuffle)
    requires OnlyInserts(snapshots) && Shuffles(shuffle)
    ensures FollowFeed(snapshots, limit, cursor, seen, shuffle)
            == Journey(UnseenLists(snapshots, seen), KeyOf, limit, cursor)
  {
    if snapshots != [] {
      var lists, rest := UnseenLists(snapshots, seen), snapshots[1..];
      ForwardPage(snapshots[0], limit, cursor, seen, shuffle);
      assert lists[1..] == UnseenLists(rest, seen);
      var page := GetNewFeed(snapshots[0], limit, Forward, cursor, seen, shuffle);
      var fetched := FetchPage(lists[0], KeyOf, limit, cursor);
      assert page.data == fetched.data && page.next == fetched.next;
      if page.next.Some? {
        FollowIsJourney(rest, limit, page.next, seen, shuffle);
      }
    }
  }

  // Every row of a journey was visible in the posts of its page.
  lemma {:induction false} RowsWereVisible(snapshots: seq<seq<Post>>, limit: nat, cursor: Option<Key>, seen: seq<nat>,
                                           shuffle: Shuffle)
    requires OnlyInserts(snapshots) && Shuffles(shuffle)
    ensures forall d :: d in Flatten(FollowFeed(snapshots, limit, cursor, seen, shuffle)) ==>
              exists i :: 0 <= i < |snapshots| && Visible(snapshots[i], d)
  {
    if snapshots != [] {
      var page := GetNewFeed(snapshots[0], limit, Forward, cursor, seen, shuffle);
      PageWasVisible(snapshots[0], limit, cursor, seen, shuffle);
      if page.next.Some? {
        var more := FollowFeed(snapshots[1..], limit, page.next, seen, shuffle);
        RowsWereVisible(snapshots[1..], limit, page.next, seen, shuffle);
        OnePageMore(page.data, more, limit);
        forall d | d in Flatten(more) ensures exists i :: 0 <= i < |snapshots| && Visible(snapshots[i], d) {
          ghost var i :| 0 <= i < |snapshots[1..]| && Visible(snapshots[1..][i], d);
          assert snapshots[1..][i] == snapshots[i + 1];
        }
      } else {
        OnlyPage(page.data);
      }
    }
  }

  lemma PageWasVisible(posts: seq<Post>, limit: nat, cursor: Option<Key>, seen: seq<nat>, shuffle: Shuffle)
    requires Collection(posts) && Shuffles(shuffle)
    ensures var page := GetNewFeed(posts, limit, Forward, cursor, seen, shuffle);
            Descending(page.data, KeyOf) && forall d :: d in page.data ==> Visible(posts, d)
  {
    ForwardPage(posts, limit, cursor, seen, shuffle);
    UnseenMeans(posts, seen);
    PageIsOlder(Unseen(posts, seen), KeyOf, limit, cursor);
  }

  ghost predicate DistinctIdentities(docs: seq<Doc>) {
    forall i, j :: 0 <= i < j < |docs| ==> docs[i].identity != docs[j].identity
  }

  lemma PageShowsOnce(posts: seq<Post>, limit: nat, cursor: Option<Key>, seen: seq<nat>, shuffle: Shuffle)
    requires Collection(posts) && Shuffles(shuffle)
    ensures DistinctIdentities(GetNewFeed(posts, limit, Forward, cursor, seen, shuffle).data)
  {
    var data := GetNewFeed(posts, limit, Forward, cursor, seen, shuffle).data;
    PageWasVisible(posts, limit, cursor, seen, shuffle);
    forall i, j | 0 <= i < j < |data| ensures data[i].identity != data[j].identity {
      assert Newer(KeyOf(data[i]), KeyOf(data[j])) && Visible(posts, data[i]) && Visible(posts, data[j]);
    }
  }

  /** While posts are only inserted, a reader never sees an identity twice, however far it reads. */
  lemma {:induction false} NoIdentityTwice(snapshots: seq<seq<Post>>, limit: nat, cursor: Option<Key>, seen: seq<nat>,
                                           shuffle: Shuffle)
    requires OnlyInserts(snapshots) && Shuffles(shuffle)
    ensures var shown := Flatten(FollowFeed(snapshots, limit, cursor, seen, shuffle));
            DistinctIdentities(shown)
  {
    if snapshots != [] {
      var page := GetNewFeed(snapshots[0], limit, Forward, cursor, seen, shuffle);
      PageShowsOnce(snapshots[0], limit, cursor, seen, shuffle);
      if page.next.Some? {
        var more := FollowFeed(snapshots[1..], limit, page.next, seen, shuffle);
        NoIdentityTwice(snapshots[1..], limit, page.next, seen, shuffle);
        OnePageMore(page.data, more, limit);
        LaterIdentitiesDiffer(snapshots, limit, cursor, seen, shuffle);
        JoinIdentities(page.data, Flatten(more));
      } else {
        OnlyPage(page.data);
      }
    }
  }

  lemma JoinIdentities(a: seq<Doc>, b: seq<Doc>)
    requires DistinctIdentities(a) && DistinctIdentities(b)
    requires forall d, e :: d in a && e in b ==> d.identity != e.identity
    ensures DistinctIdentities(a + b)
  {
    forall i, j | 0 <= i < |a| <= j < |a + b| ensures (a + b)[i].identity != (a + b)[j].identity {
      assert a[i] in a && b[j - |a|] in b;
    }
  }

  // A row of a page and a row older than its last one, visible later, differ in identity.
  lemma OlderIdentityDiffers(before: seq<Post>, after: seq<Post>, data: seq<Doc>, d: Doc, e: Doc)
    requires (forall p :: p in before ==> p in after) && Visible(before, d) && Visible(after, e)
    requires Descending(data, KeyOf) && d in data && Newer(KeyOf(data[|data| - 1]), KeyOf(e))
    ensures d.identity != e.identity
  {
    ghost var k :| 0 <= k < |data| && data[k] == d;
    assert k < |data| - 1 ==> Newer(KeyOf(data[k]), KeyOf(data[|data| - 1]));
    if d.identity == e.identity {
      ShownMovesUp(before, after, d, e);
    }
  }

  lemma OlderIdentitiesDiffer(before: seq<Post>, rest: seq<seq<Post>>, data: seq<Doc>, later: seq<Doc>)
    requires data != [] && Descending(data, KeyOf) && forall d :: d in data ==> Visible(before, d)
    requires forall i :: 0 <= i < |rest| ==> forall p :: p in before ==> p in rest[i]
    requires forall e :: e in later ==>
               Newer(KeyOf(data[|data| - 1]), KeyOf(e)) && exists i :: 0 <= i < |rest| && Visible(rest[i], e)
    ensures forall d, e :: d in data && e in later ==> d.identity != e.identity
  {
    forall d, e | d in data && e in later ensures d.identity != e.identity {
      ghost var i :| 0 <= i < |rest| && Visible(rest[i], e);
      OlderIdentityDiffers(before, rest[i], data, d, e);
    }
  }

  lemma LaterIdentitiesDiffer(snapshots: seq<seq<Post>>, limit: nat, cursor: Option<Key>, seen: seq<nat>,
                              shuffle: Shuffle)
    requires OnlyInserts(snapshots) && Shuffles(shuffle) && snapshots != []
    requires GetNewFeed(snapshots[0], limit, Forward, cursor, seen, shuffle).next.Some?
    ensures var page := GetNewFeed(snapshots[0], limit, Forward, cursor, seen, shuffle);
            var later := Flatten(FollowFeed(snapshots[1..], limit, page.next, seen, shuffle));
            forall d, e :: d in page.data && e in later ==> d.identity != e.identity
  {
    hide FollowFeed, Flatten, GetNewFeed;
    var page := GetNewFeed(snapshots[0], limit, Forward, cursor, seen, shuffle);
    var rest := snapshots[1..];
    var later := Flatten(FollowFeed(rest, limit, page.next, seen, shuffle));
    UnseenMeans(snapshots[0], seen);
    PageIsOlder(Unseen(snapshots[0], seen), KeyOf, limit, cursor);
    ForwardPage(snapshots[0], limit, cursor, seen, shuffle);
    PageWasVisible(snapshots[0], limit, cursor, seen, shuffle);
    RowsWereVisible(rest, limit, page.next, seen, shuffle);
    LaterIsOlder(rest, limit, page.next.value, seen, shuffle);
    assert forall i :: 0 <= i < |rest| ==> rest[i] == snapshots[i + 1];
    OlderIdentitiesDiffer(snapshots[0], rest, page.data, later);
  }

  lemma LaterIsOlder(snapshots: seq<seq<Post>>, limit: nat, cursor: Key, seen: seq<nat>, shuffle: Shuffle)
    requires OnlyInserts(snapshots) && Shuffles(shuffle)
    ensures forall e :: e in Flatten(FollowFeed(snapshots, limit, Some(cursor), seen, shuffle)) ==>
              Newer(cursor, KeyOf(e))
  {
    var lists := UnseenLists(snapshots, seen);
    forall i | 0 <= i < |lists| ensures Descending(lists[i], KeyOf) {
      UnseenMeans(snapshots[i], seen);
    }
    FollowIsJourney(snapshots, limit, Some(cursor), seen, shuffle);
    JourneyDescends(lists, KeyOf, limit, Some(cursor));
  }
}
