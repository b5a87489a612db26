/**
 * The messages of a conversation, read page by page: the query filters the collection by
 * conversation, by the time it was cleared at, and by the cursor, sorts newest first and takes one
 * row more than the limit.
 */
module MessagePaging {
  import opened Prelude
  import opened Lists
  import opened Sorting
  import opened KeysetPaging

  datatype Message = Message(id: nat, createdAt: int, conversation: nat)

  function KeyOf(m: Message): Key { Key(m.createdAt, m.id) }

  predicate Shown(m: Message, conversation: nat, clearedAt: Option<int>) {
    m.conversation == conversation && (clearedAt.Some? ==> m.createdAt > clearedAt.value)
  }

  function ShownIn(conversation: nat, clearedAt: Option<int>): Message -> bool {
    m => Shown(m, conversation, clearedAt)
  }

  // The filter document of the query.
  predicate Selected(m: Message, conversation: nat, cursor: Option<Key>, clearedAt: Option<int>) {
    && m.conversation == conversation
    && (clearedAt.Some? ==> m.createdAt > clearedAt.value)
    && (cursor.Some? ==>
          m.createdAt < cursor.value.at || (m.createdAt == cursor.value.at && m.id < cursor.value.id))
  }

  function FindMessages(messages: seq<Message>, conversation: nat, limit: nat, cursor: Option<Key>,
                        clearedAt: Option<int>): Page<Message> {
    var found := Filter(messages, m => Selected(m, conversation, cursor, clearedAt));
    PageOf(Take(SortBy(found, ByNewest(KeyOf)), limit + 1), KeyOf, limit)
  }

  // What paging is about: the messages shown, newest first.
  function History(messages: seq<Message>, conversation: nat, clearedAt: Option<int>): seq<Message> {
    SortBy(Filter(messages, ShownIn(conversation, clearedAt)), ByNewest(KeyOf))
  }

  /** The history holds exactly the messages of the conversation newer than clearedAt, in order. */
  lemma HistoryMeans(messages: seq<Message>, conversation: nat, clearedAt: Option<int>)
    requires DistinctIds(messages, KeyOf)
    ensures var h := History(messages, conversation, clearedAt);
            Descending(h, KeyOf) && forall m :: m in h <==> m in messages && Shown(m, conversation, clearedAt)
  {
    var p := ShownIn(conversation, clearedAt);
    FilterKeepsDistinct(messages, p, KeyOf);
    SortDescends(Filter(messages, p), KeyOf);
    forall m ensures m in Filter(messages, p) <==> m in messages && p(m) { FilterMembers(messages, p, m); }
  }

  /** The query with a cursor is a page of the history. */
  lemma PageOfHistory(messages: seq<Message>, conversation: nat, limit: nat, cursor: Option<Key>,
                      clearedAt: Option<int>)
    requires DistinctIds(messages, KeyOf)
    ensures FindMessages(messages, conversation, limit, cursor, clearedAt) ==
            FetchPage(History(messages, conversation, clearedAt), KeyOf, limit, cursor)
  {
    var p, both := ShownIn(conversation, clearedAt), (m: Message) => Selected(m, conversation, cursor, clearedAt);
    FilterKeepsDistinct(messages, p, KeyOf);
    FilterThenSort(Filter(messages, p), OlderThan(KeyOf, cursor), KeyOf);
    FilterTwice(messages, p, OlderThan(KeyOf, cursor), both);
  }

  // ---- a page, by the fields of the messages ----

  predicate Later(m: Message, n: Message) { m.createdAt > n.createdAt || (m.createdAt == n.createdAt && m.id > n.id) }

  predicate Eligible(messages: seq<Message>, m: Message, conversation: nat, cursor: Option<Key>,
                     clearedAt: Option<int>) {
    && m in messages && m.conversation == conversation && (clearedAt.Some? ==> clearedAt.value < m.createdAt)
    && (cursor.Some? ==>
          m.createdAt < cursor.value.at || (m.createdAt == cursor.value.at && m.id < cursor.value.id))
  }

  ghost predicate PageShows(page: Page<Message>, messages: seq<Message>, conversation: nat, limit: nat,
                            cursor: Option<Key>, clearedAt: Option<int>) {
    var rows := page.data;
    && |rows| <= limit
    && (forall i :: 0 <= i < |rows| ==> Eligible(messages, rows[i], conversation, cursor, clearedAt))
    && (forall i, j :: 0 <= i < j < |rows| ==> Later(rows[i], rows[j]))
    && (forall m :: Eligible(messages, m, conversation, cursor, clearedAt) && m !in rows ==>
          page.hasMore && |rows| == limit && forall i :: 0 <= i < |rows| ==> Later(rows[i], m))
    && (page.hasMore ==> exists m :: Eligible(messages, m, conversation, cursor, clearedAt) && m !in rows)
    && page.next == (if rows == [] || !page.hasMore then None
                     else Some(Key(rows[|rows| - 1].createdAt, rows[|rows| - 1].id)))
  }

  /**
   * A page holds the newest messages of the conversation beyond the cursor and not cleared, newest
   * first; there is more exactly if one of these is left, and the next cursor is the last row.
   */
  lemma PageMeansByFields(messages: seq<Message>, conversation: nat, limit: nat, cursor: Option<Key>,
                          clearedAt: Option<int>)
    requires DistinctIds(messages, KeyOf)
    ensures PageShows(FindMessages(messages, conversation, limit, cursor, clearedAt), messages, conversation, limit,
                      cursor, clearedAt)
  {
    var p := (m: Message) => Selected(m, conversation, cursor, clearedAt);
    var found := SortBy(Filter(messages, p), ByNewest(KeyOf));
    FilterKeepsDistinct(messages, p, KeyOf);
    SortDescends(Filter(messages, p), KeyOf);
    forall m ensures m in found <==> Eligible(messages, m, conversation, cursor, clearedAt) {
      FilterMembers(messages, p, m);
      assert p(m) == Selected(m, conversation, cursor, clearedAt);
    }
    RowsShow(found, messages, conversation, limit, cursor, clearedAt);
  }

  lemma RowsShow(found: seq<Message>, messages: seq<Message>, conversation: nat, limit: nat, cursor: Option<Key>,
                 clearedAt: Option<int>)
    requires Descending(found, KeyOf)
    requires forall m :: m in found <==> Eligible(messages, m, conversation, cursor, clearedAt)
    ensures PageShows(PageOf(Take(found, limit + 1), KeyOf, limit), messages, conversation, limit, cursor, clearedAt)
  {
    hide Eligible, PageOf, Take, Descending;
    var page := PageOf(Take(found, limit + 1), KeyOf, limit);
    var rows := page.data;
    RowsAreHead(found, limit);
    forall i | 0 <= i < |rows| ensures Eligible(messages, rows[i], conversation, cursor, clearedAt) {
      assert found[i] in found;
    }
    forall m | Eligible(messages, m, conversation, cursor, clearedAt) && m !in rows
      ensures page.hasMore && |rows| == limit && forall i :: 0 <= i < |rows| ==> Later(rows[i], m) {
      LeftForLater(found, limit, m);
    }
    if page.hasMore {
      assert found[limit] in found;
    }
  }

  // The rows are the first of those found, and the one after them is another one.
  lemma RowsAreHead(found: seq<Message>, limit: nat)
    requires Descending(found, KeyOf)
    ensures var page := PageOf(Take(found, limit + 1), KeyOf, limit);
            var rows := page.data;
            && |rows| == (if |found| > limit then limit else |found|) && page.hasMore == (|found| > limit)
            && (forall i :: 0 <= i < |rows| ==> rows[i] == found[i])
            && (forall i, j :: 0 <= i < j < |rows| ==> Later(rows[i], rows[j]))
            && (|found| > limit ==> found[limit] !in rows)
            && page.next == (if rows == [] || !page.hasMore then None
                             else Some(Key(rows[|rows| - 1].createdAt, rows[|rows| - 1].id)))
  {
    assert PageOf(Take(found, limit + 1), KeyOf, limit).data == Take(found, limit);
    Descends(found);
  }

  lemma Descends(found: seq<Message>)
    requires Descending(found, KeyOf)
    ensures forall i, j :: 0 <= i < j < |found| ==> Later(found[i], found[j]) && found[i] != found[j]
  {
  }

  lemma LeftForLater(found: seq<Message>, limit: nat, m: Message)
    requires Descending(found, KeyOf) && m in found && m !in PageOf(Take(found, limit + 1), KeyOf, limit).data
    ensures var rows := PageOf(Take(found, limit + 1), KeyOf, limit).data;
            |rows| == limit < |found| && forall i :: 0 <= i < |rows| ==> Later(rows[i], m)
  {
    hide PageOf, Take, Later;
    var rows := PageOf(Take(found, limit + 1), KeyOf, limit).data;
    RowsAreHead(found, limit);
    Descends(found);
    assert forall i :: 0 <= i < |rows| ==> found[i] in rows;
    ghost var k :| |rows| <= k < |found| && found[k] == m;
  }

  // ---- reading on ----

  // The pages a client gets that follows nextCursor while nothing changes.
  function ReadAll(messages: seq<Message>, conversation: nat, limit: nat, cursor: Option<Key>, clearedAt: Option<int>)
    : seq<seq<Message>>
    requires DistinctIds(messages, KeyOf)
    decreases |Rest(History(messages, conversation, clearedAt), KeyOf, cursor)|
  {
    var page := FindMessages(messages, conversation, limit, cursor, clearedAt);
    if page.next.None? then [page.data]
    else
      HistoryMeans(messages, conversation, clearedAt);
      PageOfHistory(messages, conversation, limit, cursor, clearedAt);
      RestOfRest(History(messages, conversation, clearedAt), KeyOf, cursor, limit - 1);
      [page.data] + ReadAll(messages, conversation, limit, page.next, clearedAt)
  }

  lemma {:induction false} ReadAllWalks(messages: seq<Message>, conversation: nat, limit: nat, cursor: Option<Key>,
                                        clearedAt: Option<int>)
    requires DistinctIds(messages, KeyOf) && Descending(History(messages, conversation, clearedAt), KeyOf)
    ensures ReadAll(messages, conversation, limit, cursor, clearedAt) ==
            Walk(History(messages, conversation, clearedAt), KeyOf, limit, cursor)
    decreases |Rest(History(messages, conversation, clearedAt), KeyOf, cursor)|
  {
    var h := History(messages, conversation, clearedAt);
    PageOfHistory(messages, conversation, limit, cursor, clearedAt);
    var page := FindMessages(messages, conversation, limit, cursor, clearedAt);
    assert page == FetchPage(h, KeyOf, limit, cursor);
    if page.next.Some? {
      RestOfRest(h, KeyOf, cursor, limit - 1);
      ReadAllWalks(messages, conversation, limit, page.next, clearedAt);
      assert Walk(h, KeyOf, limit, cursor) == [page.data] + Walk(h, KeyOf, limit, page.next);
    }
  }

  /**
   * Following nextCursor from the start over fixed data returns exactly the history, page by full
   * page, if and only if a page can hold a message or there is none.
   */
  lemma ReadingIsComplete(messages: seq<Message>, conversation: nat, limit: nat, clearedAt: Option<int>)
    requires DistinctIds(messages, KeyOf)
    ensures var pages := ReadAll(messages, conversation, limit, None, clearedAt);
            var history := History(messages, conversation, clearedAt);
            && (Flatten(pages) == history <==> limit >= 1 || history == [])
            && (limit >= 1 ==> FullPages(pages, limit))
  {
    var history := History(messages, conversation, clearedAt);
    HistoryMeans(messages, conversation, clearedAt);
    ReadAllWalks(messages, conversation, limit, None, clearedAt);
    WalkIsComplete(history, KeyOf, limit);
    if limit >= 1 {
      WalkIsTheRest(history, KeyOf, limit, None);
    }
  }

  // ---- while messages come and go ----

  // A client that follows nextCursor, with the collection as it is at each request.
  function Follow(snapshots: seq<seq<Message>>, conversation: nat, limit: nat, cursor: Option<Key>,
                  clearedAt: Option<int>)
    : seq<seq<Message>> {
    if snapshots == [] then []
    else
      var page := FindMessages(snapshots[0], conversation, limit, cursor, clearedAt);
      if page.next.None? then [page.data]
      else [page.data] + Follow(snapshots[1..], conversation, limit, page.next, clearedAt)
  }

  function Histories(snapshots: seq<seq<Message>>, conversation: nat, clearedAt: Option<int>): (r: seq<seq<Message>>)
    ensures |r| == |snapshots|
  {
    seq(|snapshots|, i requires 0 <= i < |snapshots| => History(snapshots[i], conversation, clearedAt))
  }

  lemma {:induction false} FollowIsJourney(snapshots: seq<seq<Message>>, conversation: nat, limit: nat,
                                           cursor: Option<Key>, clearedAt: Option<int>)
    requires forall i :: 0 <= i < |snapshots| ==> DistinctIds(snapshots[i], KeyOf)
    ensures Follow(snapshots, conversation, limit, cursor, clearedAt) ==
            Journey(Histories(snapshots, conversation, clearedAt), KeyOf, limit, cursor)
  {
    if snapshots != [] {
      var lists := Histories(snapshots, conversation, clearedAt);
      PageOfHistory(snapshots[0], conversation, limit, cursor, clearedAt);
      var page := FindMessages(snapshots[0], conversation, limit, cursor, clearedAt);
      assert lists[1..] == Histories(snapshots[1..], conversation, clearedAt);
      if page.next.Some? {
        FollowIsJourney(snapshots[1..], conversation, limit, page.next, clearedAt);
      }
    }
  }

  /**
   * Whatever is inserted or deleted between the pages, the messages a client is given go strictly
   * back in time, so no message is given twice.
   */
  lemma NoMessageTwice(snapshots: seq<seq<Message>>, conversation: nat, limit: nat, clearedAt: Option<int>)
    requires forall i :: 0 <= i < |snapshots| ==> DistinctIds(snapshots[i], KeyOf)
    ensures var given := Flatten(Follow(snapshots, conversation, limit, None, clearedAt));
            forall i, j :: 0 <= i < j < |given| ==> Newer(KeyOf(given[i]), KeyOf(given[j])) && given[i] != given[j]
  {
    var lists := Histories(snapshots, conversation, clearedAt);
    forall i | 0 <= i < |lists| ensures Descending(lists[i], KeyOf) {
      HistoryMeans(snapshots[i], conversation, clearedAt);
    }
    FollowIsJourney(snapshots, conversation, limit, None, clearedAt);
    JourneyDescends(lists, KeyOf, limit, None);
  }
}
