/**
 * Which posts the feed shows, over the fields of the posts: what it takes for two posts to compete
 * for one row, and the rows of a page.
 */
module FeedRows {
  import opened Prelude
  import opened Lists
  import opened KeysetPaging
  import opened FeedPipeline
  import opened FeedReading

  // ---- who competes for a row ----

  predicate IsActive(p: Post) { p.status.None? || p.status.value == "active" }

  predicate HasContent(p: Post) { (p.body.Some? && p.body.value != "") || p.image.Some? }

  predicate Bare(p: Post) { p.repostOf.Some? && !HasContent(p) }

  predicate BareRepostOf(p: Post, q: Post) { Bare(p) && p.repostOf.value == q.id }

  // The same post, a bare repost and the original, or two bare reposts of one original.
  predicate Compete(p: Post, q: Post) {
    || p == q
    || (BareRepostOf(p, q) && !Bare(q))
    || (BareRepostOf(q, p) && !Bare(p))
    || (Bare(p) && Bare(q) && p.repostOf == q.repostOf)
  }

  predicate Later(p: Post, q: Post) { p.createdAt > q.createdAt || (p.createdAt == q.createdAt && p.id > q.id) }

  // An active post that is later than every other active post it competes with.
  ghost predicate Wins(posts: seq<Post>, p: Post) {
    p in posts && IsActive(p) && forall q :: q in posts && IsActive(q) && Compete(p, q) && q != p ==> Later(p, q)
  }

  lemma IdentityIsCompetition(posts: seq<Post>, p: Post, q: Post)
    requires Collection(posts) && p in posts && q in posts
    ensures Identity(p) == Identity(q) <==> Compete(p, q)
  {
    ghost var i :| 0 <= i < |posts| && posts[i] == p;
    ghost var j :| 0 <= j < |posts| && posts[j] == q;
    assert p.id == q.id ==> i == j;
  }

  function DocOf(p: Post): Doc { Doc(p, Some(Identity(p))) }

  lemma VisibleIsWinning(posts: seq<Post>, d: Doc)
    requires Collection(posts)
    ensures Visible(posts, d) <==> Wins(posts, d.post) && d == DocOf(d.post)
  {
    if d.post in posts {
      forall q | q in posts ensures Identity(q) == Identity(d.post) <==> Compete(d.post, q) {
        IdentityIsCompetition(posts, d.post, q);
      }
    }
  }

  /** A post with content of its own is shown exactly if no active bare repost of it is later. */
  lemma ContentIsShown(posts: seq<Post>, p: Post)
    requires Collection(posts) && p in posts && IsActive(p) && HasContent(p)
    ensures DocOf(p) in Feed(posts) <==> forall q :: q in posts && IsActive(q) && BareRepostOf(q, p) ==> Later(p, q)
  {
    FeedMeans(posts);
    VisibleIsWinning(posts, DocOf(p));
  }

  /** A bare repost of a bare repost does not compete with it: both are shown. */
  lemma RepostOfRepostIsShown(p: Post, q: Post)
    requires IsActive(p) && IsActive(q) && p.id != q.id && BareRepostOf(p, q) && Bare(q) && p.repostOf != q.repostOf
    ensures DocOf(p) in Feed([p, q]) && DocOf(q) in Feed([p, q])
  {
    FeedMeans([p, q]);
    VisibleIsWinning([p, q], DocOf(p));
    VisibleIsWinning([p, q], DocOf(q));
  }

  // ---- the rows of a page ----

  predicate OnItsSide(p: Post, direction: Direction, cursor: Option<Key>) {
    cursor.None? ||
    match direction
    case Forward => p.createdAt < cursor.value.at || (p.createdAt == cursor.value.at && p.id < cursor.value.id)
    case Backward => p.createdAt > cursor.value.at || (p.createdAt == cursor.value.at && p.id > cursor.value.id)
  }

  // Posts that a page may hold: the snapshot of a cursor holds the ids of originals.
  ghost predicate Eligible(posts: seq<Post>, p: Post, direction: Direction, cursor: Option<Key>, seen: seq<nat>) {
    && Wins(posts, p) && OnItsSide(p, direction, cursor)
    && (if Bare(p) then p.repostOf.value else p.id) !in seen
  }

  function RowsOf(docs: seq<Doc>): (r: seq<Post>)
    ensures |r| == |docs| && forall i :: 0 <= i < |r| ==> r[i] == docs[i].post
  {
    seq(|docs|, i requires 0 <= i < |docs| => docs[i].post)
  }

  // Every row comes before the post in the direction of reading.
  ghost predicate Passed(rows: seq<Post>, p: Post, direction: Direction) {
    forall i :: 0 <= i < |rows| ==> Before(rows[i], p, direction)
  }

  function At(p: Post): Key { Key(p.createdAt, p.id) }

  predicate Before(p: Post, q: Post, direction: Direction) {
    if direction.Forward? then Later(p, q) else Later(q, p)
  }

  ghost predicate InOrder(docs: seq<Doc>, direction: Direction) {
    forall i, j :: 0 <= i < j < |docs| ==> Before(docs[i].post, docs[j].post, direction)
  }

  lemma SideIsInOrder(posts: seq<Post>, direction: Direction, filter: Option<CursorFilter>, seen: seq<nat>)
    requires Collection(posts)
    ensures InOrder(Side(posts, direction, filter, seen), direction)
  {
    var unseen := Unseen(posts, seen);
    UnseenMeans(posts, seen);
    FilterKeepsDescending(unseen, Beyond(filter), KeyOf);
    ReadDescending(Filter(unseen, Beyond(filter)), direction);
  }

  lemma ReadDescending(docs: seq<Doc>, direction: Direction)
    requires Descending(docs, KeyOf)
    ensures InOrder(if direction.Forward? then docs else Reverse(docs), direction)
  {
    var read := if direction.Forward? then docs else Reverse(docs);
    forall i, j | 0 <= i < j < |read| ensures Before(read[i].post, read[j].post, direction) {
      assert read[i] == docs[if direction.Forward? then i else |docs| - 1 - i];
      assert read[j] == docs[if direction.Forward? then j else |docs| - 1 - j];
    }
  }

  lemma SideIsEligible(posts: seq<Post>, direction: Direction, cursor: Option<Key>, seen: seq<nat>, d: Doc)
    requires Collection(posts)
    ensures d in Side(posts, direction, FilterOf(cursor, direction), seen) <==>
            Eligible(posts, d.post, direction, cursor, seen) && d == DocOf(d.post)
  {
    hide Wins, Visible, Collection, Filter, Unseen, Reverse;
    var unseen, beyond := Unseen(posts, seen), Beyond(FilterOf(cursor, direction));
    UnseenMeans(posts, seen);
    FilterMembers(unseen, beyond, d);
    ReverseMembers(Filter(unseen, beyond), d);
    VisibleIsWinning(posts, d);
  }

  lemma ReverseMembers(docs: seq<Doc>, d: Doc)
    ensures d in Reverse(docs) <==> d in docs
  {
    ReverseKeepsElements(docs);
    assert d in docs <==> d in multiset(docs);
  }

  // The rows kept of those found, in the order of the feed.
  lemma RowsOfPageFrom(side: seq<Doc>, limit: nat, direction: Direction)
    requires InOrder(side, direction)
    ensures var page := PageFrom(Take(side, limit + 1), limit, direction);
            var n := if |side| > limit then limit else |side|;
            && |page.data| == n && page.hasMore == (|side| > limit)
            && forall i :: 0 <= i < n ==> page.data[i] == side[if direction.Forward? then i else n - 1 - i]
  {
  }

  ghost predicate PageShows(page: FeedPage, posts: seq<Post>, limit: nat, direction: Direction, cursor: Option<Key>,
                            seen: seq<nat>) {
    var rows := RowsOf(page.data);
    && |rows| <= limit
    && (forall i :: 0 <= i < |rows| ==> Eligible(posts, rows[i], direction, cursor, seen))
    && (forall i, j :: 0 <= i < j < |rows| ==> Later(rows[i], rows[j]))
    && (forall p :: Eligible(posts, p, direction, cursor, seen) && p !in rows ==>
          page.hasMore && |rows| == limit && Passed(rows, p, direction))
    && (page.hasMore ==> exists p :: Eligible(posts, p, direction, cursor, seen) && p !in rows)
    && page.prev == (if rows == [] then None else Some(At(rows[0])))
    && page.next == (if rows == [] || !page.hasMore then None
                     else Some(At(rows[if direction.Forward? then |rows| - 1 else 0])))
  }

  /**
   * A page holds, newest first, the first posts in the direction of reading of those that win their
   * row, lie beyond the cursor and were not in its snapshot; there is more exactly if one is left.
   */
  lemma PageMeansByFields(posts: seq<Post>, limit: nat, direction: Direction, cursor: Option<Key>, seen: seq<nat>,
                          shuffle: Shuffle)
    requires Collection(posts) && Shuffles(shuffle)
    ensures PageShows(GetNewFeed(posts, limit, direction, cursor, seen, shuffle), posts, limit, direction, cursor, seen)
  {
    hide Eligible, PageShows, Side;
    var filter := FilterOf(cursor, direction);
    var side := Side(posts, direction, filter, seen);
    PageMeans(posts, limit, direction, cursor, seen, shuffle);
    SideIsInOrder(posts, direction, filter, seen);
    forall d ensures d in side <==> Eligible(posts, d.post, direction, cursor, seen) && d == DocOf(d.post) {
      SideIsEligible(posts, direction, cursor, seen, d);
    }
    RowsShow(posts, side, limit, direction, cursor, seen);
  }

  lemma RowsShow(posts: seq<Post>, side: seq<Doc>, limit: nat, direction: Direction, cursor: Option<Key>,
                 seen: seq<nat>)
    requires InOrder(side, direction)
    requires forall d :: d in side <==> Eligible(posts, d.post, direction, cursor, seen) && d == DocOf(d.post)
    ensures PageShows(PageFrom(Take(side, limit + 1), limit, direction), posts, limit, direction, cursor, seen)
  {
    hide Eligible, InOrder, Later, Passed, PageFrom;
    var page := PageFrom(Take(side, limit + 1), limit, direction);
    var rows, n := RowsOf(page.data), |page.data|;
    RowsOfPageFrom(side, limit, direction);
    RowsDescend(side, limit, direction);
    CursorsOfPage(Take(side, limit + 1), limit, direction);
    forall i | 0 <= i < n ensures Eligible(posts, rows[i], direction, cursor, seen) {
      assert page.data[i] in side;
    }
    forall p | Eligible(posts, p, direction, cursor, seen) && p !in rows
      ensures page.hasMore && n == limit && Passed(rows, p, direction) {
      assert DocOf(p) in side;
      LeftForLater(side, limit, direction, DocOf(p));
    }
    if page.hasMore {
      assert side[limit] in side;
      LeftOut(side, limit, direction);
    }
  }

  lemma RowsDescend(side: seq<Doc>, limit: nat, direction: Direction)
    requires InOrder(side, direction)
    ensures var rows := RowsOf(PageFrom(Take(side, limit + 1), limit, direction).data);
            forall i, j :: 0 <= i < j < |rows| ==> Later(rows[i], rows[j])
  {
    hide Later;
    RowsOfPageFrom(side, limit, direction);
    var page := PageFrom(Take(side, limit + 1), limit, direction);
    var rows, n := RowsOf(page.data), |page.data|;
    forall i, j | 0 <= i < j < n ensures Later(rows[i], rows[j]) {
      if direction.Backward? {
        assert Before(side[n - 1 - j].post, side[n - 1 - i].post, direction);
      } else {
        assert Before(side[i].post, side[j].post, direction);
      }
    }
  }

  lemma CursorsOfPage(found: seq<Doc>, limit: nat, direction: Direction)
    ensures var page := PageFrom(found, limit, direction);
            var rows := RowsOf(page.data);
            && page.prev == (if rows == [] then None else Some(At(rows[0])))
            && page.next == (if rows == [] || !page.hasMore then None
                             else Some(At(rows[if direction.Forward? then |rows| - 1 else 0])))
  {
  }

  // The rows are the first of their side, and all of them.
  lemma RowsAreHead(side: seq<Doc>, limit: nat, direction: Direction)
    requires InOrder(side, direction)
    ensures var page := PageFrom(Take(side, limit + 1), limit, direction);
            var rows := RowsOf(page.data);
            && |rows| <= |side| && (|rows| < |side| ==> page.hasMore && |rows| == limit)
            && (forall p :: p in rows ==> exists i :: 0 <= i < |rows| && side[i].post == p)
            && (forall i :: 0 <= i < |rows| ==> side[i].post in rows)
  {
    hide InOrder, PageFrom;
    RowsOfPageFrom(side, limit, direction);
    var page := PageFrom(Take(side, limit + 1), limit, direction);
    var rows, n := RowsOf(page.data), |page.data|;
    forall i | 0 <= i < n ensures side[i].post in rows {
      assert side[i].post == rows[if direction.Forward? then i else n - 1 - i];
    }
  }

  // What a page leaves comes after its rows, and leaves no room on it.
  lemma LeftForLater(side: seq<Doc>, limit: nat, direction: Direction, d: Doc)
    requires InOrder(side, direction) && d in side
    requires d.post !in RowsOf(PageFrom(Take(side, limit + 1), limit, direction).data)
    ensures var page := PageFrom(Take(side, limit + 1), limit, direction);
            page.hasMore && |page.data| == limit && Passed(RowsOf(page.data), d.post, direction)
  {
    hide Before, PageFrom, Take;
    RowsAreHead(side, limit, direction);
    var rows := RowsOf(PageFrom(Take(side, limit + 1), limit, direction).data);
    ghost var k :| |rows| <= k < |side| && side[k] == d;
    forall i | 0 <= i < |rows| ensures Before(rows[i], d.post, direction) {
      assert rows[i] in rows;
      ghost var j :| 0 <= j < |rows| && side[j].post == rows[i];
    }
  }

  // The row after those of the page is not one of them.
  lemma LeftOut(side: seq<Doc>, limit: nat, direction: Direction)
    requires InOrder(side, direction) && |side| > limit
    ensures side[limit].post !in RowsOf(PageFrom(Take(side, limit + 1), limit, direction).data)
  {
    RowsOfPageFrom(side, limit, direction);
  }
}
