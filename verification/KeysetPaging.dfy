/**
 * Keyset paging: a page is the first rows, newest first, that are older than the last row of the
 * page before. Rows are ordered by their time and, at equal times, by their id.
 */
module KeysetPaging {
  import opened Prelude
  import opened Lists
  import opened Sorting

  datatype Key = Key(at: int, id: nat)

  predicate Newer(k: Key, l: Key) { k.at > l.at || (k.at == l.at && k.id > l.id) }

  function ByNewest<T>(key: T -> Key): (T, T) -> bool { (a, b) => Newer(key(a), key(b)) }

  // The rows of a collection: no two have the same id.
  ghost predicate DistinctIds<T(!new)>(rows: seq<T>, key: T -> Key) {
    forall i, j :: 0 <= i < j < |rows| ==> key(rows[i]).id != key(rows[j]).id
  }

  ghost predicate Descending<T(!new)>(rows: seq<T>, key: T -> Key) {
    forall i, j :: 0 <= i < j < |rows| ==> Newer(key(rows[i]), key(rows[j]))
  }

  // ---- filtering and sorting ----

  lemma {:induction false} FilterKeepsDescending<T(!new)>(s: seq<T>, p: T -> bool, key: T -> Key)
    requires Descending(s, key)
    ensures Descending(Filter(s, p), key)
  {
    if s != [] {
      FilterKeepsDescending(s[1..], p, key);
      var rest := Filter(s[1..], p);
      forall i | 0 <= i < |rest| ensures Newer(key(s[0]), key(rest[i])) {
        FilterMembers(s[1..], p, rest[i]);
      }
    }
  }

  lemma {:induction false} FilterKeepsDistinct<T(!new)>(s: seq<T>, p: T -> bool, key: T -> Key)
    requires DistinctIds(s, key)
    ensures DistinctIds(Filter(s, p), key)
  {
    if s != [] {
      FilterKeepsDistinct(s[1..], p, key);
      var rest := Filter(s[1..], p);
      forall i | 0 <= i < |rest| ensures key(rest[i]).id != key(s[0]).id {
        FilterMembers(s[1..], p, rest[i]);
        ghost var j :| 0 <= j < |s[1..]| && s[1..][j] == rest[i];
        assert key(s[0]).id != key(s[j + 1]).id;
      }
    }
  }

  lemma ByNewestIsStrictWeak<T(!new)>(key: T -> Key)
    ensures StrictWeak(ByNewest(key))
  {
  }

  lemma DescendingIsSorted<T(!new)>(s: seq<T>, key: T -> Key)
    requires Descending(s, key)
    ensures Sorted(s, ByNewest(key)) && Separates(ByNewest(key), s)
  {
    forall x, y | x in s && y in s && x != y ensures Newer(key(x), key(y)) || Newer(key(y), key(x)) {
      ghost var i :| 0 <= i < |s| && s[i] == x;
      ghost var j :| 0 <= j < |s| && s[j] == y;
      assert if i < j then Newer(key(s[i]), key(s[j])) else Newer(key(s[j]), key(s[i]));
    }
  }

  // A collection sorted newest first.
  lemma SortDescends<T(!new)>(s: seq<T>, key: T -> Key)
    requires DistinctIds(s, key)
    ensures Descending(SortBy(s, ByNewest(key)), key) && multiset(SortBy(s, ByNewest(key))) == multiset(s)
    ensures DistinctIds(SortBy(s, ByNewest(key)), key)
    ensures forall x :: x in SortBy(s, ByNewest(key)) <==> x in s
  {
    var r := SortBy(s, ByNewest(key));
    ByNewestIsStrictWeak(key);
    SortSorts(s, ByNewest(key));
    SortKeepsElements(s, ByNewest(key));
    forall x ensures x in r <==> x in s { SameMultisetSameMembers(r, s, x); }
    forall i, j | 0 <= i < j < |r| ensures Newer(key(r[i]), key(r[j])) && key(r[i]).id != key(r[j]).id {
      assert !Newer(key(r[j]), key(r[i]));
      DistinctAfterPermutation(s, r, key, i, j);
    }
  }

  lemma DistinctAfterPermutation<T(!new)>(s: seq<T>, r: seq<T>, key: T -> Key, i: nat, j: nat)
    requires DistinctIds(s, key) && multiset(r) == multiset(s) && i < j < |r|
    ensures key(r[i]).id != key(r[j]).id
  {
    if r[i] == r[j] {
      TwiceMeansTwo(r, i, j);
      OnceInDistinct(s, key, r[i]);
    } else {
      SameMultisetSameMembers(r, s, r[i]);
      SameMultisetSameMembers(r, s, r[j]);
      ghost var a :| 0 <= a < |s| && s[a] == r[i];
      ghost var b :| 0 <= b < |s| && s[b] == r[j];
    }
  }

  lemma {:induction false} OnceInDistinct<T(!new)>(s: seq<T>, key: T -> Key, x: T)
    requires DistinctIds(s, key)
    ensures multiset(s)[x] <= 1
  {
    if s != [] {
      OnceInDistinct(s[1..], key, x);
      assert s == [s[0]] + s[1..];
      forall i | 0 <= i < |s[1..]| ensures s[1..][i] != s[0] {
        assert key(s[i + 1]).id != key(s[0]).id;
      }
      assert s[0] !in s[1..] && s[0] !in multiset(s[1..]);
    }
  }

  /** Filtering a collection before sorting it or after is the same. */
  lemma FilterThenSort<T(!new)>(s: seq<T>, p: T -> bool, key: T -> Key)
    requires DistinctIds(s, key)
    ensures SortBy(Filter(s, p), ByNewest(key)) == Filter(SortBy(s, ByNewest(key)), p)
  {
    var sorted := SortBy(s, ByNewest(key));
    SortDescends(s, key);
    FilterKeepsDescending(sorted, p, key);
    FilterOfPermutation(s, sorted, p);
    DescendingIsSorted(Filter(sorted, p), key);
    ByNewestIsStrictWeak(key);
    SortSorts(Filter(s, p), ByNewest(key));
    SortKeepsElements(Filter(s, p), ByNewest(key));
    SortedIsUnique(Filter(sorted, p), SortBy(Filter(s, p), ByNewest(key)), ByNewest(key));
  }

  // ---- pages ----

  function OlderThan<T>(key: T -> Key, cursor: Option<Key>): T -> bool {
    x => cursor.None? || Newer(cursor.value, key(x))
  }

  // The rows of a list that come after a cursor.
  function Rest<T>(rows: seq<T>, key: T -> Key, cursor: Option<Key>): seq<T> { Filter(rows, OlderThan(key, cursor)) }

  datatype Page<T> = Page(data: seq<T>, hasMore: bool, next: Option<Key>)

  // One row more than the limit is fetched, to see whether there are more.
  function PageOf<T>(fetched: seq<T>, key: T -> Key, limit: nat): Page<T> {
    var hasMore := |fetched| > limit;
    var data := if hasMore then fetched[..limit] else fetched;
    Page(data, hasMore, if hasMore && data != [] then Some(key(data[|data| - 1])) else None)
  }

  function FetchPage<T>(rows: seq<T>, key: T -> Key, limit: nat, cursor: Option<Key>): Page<T> {
    PageOf(Take(Rest(rows, key, cursor), limit + 1), key, limit)
  }

  lemma {:induction false} RestOfAll<T>(rows: seq<T>, key: T -> Key)
    ensures Rest(rows, key, None) == rows
  {
    if rows != [] {
      RestOfAll(rows[1..], key);
    }
  }

  // In a list, the rows older than row k are the ones after it.
  lemma RestAfterRow<T(!new)>(rows: seq<T>, key: T -> Key, k: nat)
    requires Descending(rows, key) && k < |rows|
    ensures Rest(rows, key, Some(key(rows[k]))) == rows[k + 1..]
  {
    var p := OlderThan(key, Some(key(rows[k])));
    assert rows == rows[..k + 1] + rows[k + 1..];
    FilterOfSum(rows[..k + 1], rows[k + 1..], p);
    forall x | x in rows[..k + 1] ensures !p(x) {
      ghost var i :| 0 <= i <= k && rows[i] == x;
      assert i < k ==> Newer(key(rows[i]), key(rows[k]));
    }
    FilterAllOrNone(rows[..k + 1], p);
    FilterAllOrNone(rows[k + 1..], p);
  }

  // And what follows a row of the rest of a list is again a rest.
  lemma RestOfRest<T(!new)>(rows: seq<T>, key: T -> Key, cursor: Option<Key>, k: nat)
    requires Descending(rows, key) && k < |Rest(rows, key, cursor)|
    ensures Rest(rows, key, Some(key(Rest(rows, key, cursor)[k]))) == Rest(rows, key, cursor)[k + 1..]
  {
    var rest := Rest(rows, key, cursor);
    var last := Some(key(rest[k]));
    FilterKeepsDescending(rows, OlderThan(key, cursor), key);
    RestAfterRow(rest, key, k);
    FilterMembers(rows, OlderThan(key, cursor), rest[k]);
    FilterTwice(rows, OlderThan(key, cursor), OlderThan(key, last), OlderThan(key, last));
  }

  // ---- following the cursors over fixed data ----

  // The pages from a cursor on, each fetched with the cursor of the one before.
  function Walk<T(!new)>(rows: seq<T>, key: T -> Key, limit: nat, cursor: Option<Key>): (pages: seq<seq<T>>)
    requires Descending(rows, key)
    decreases |Rest(rows, key, cursor)|
  {
    var page := FetchPage(rows, key, limit, cursor);
    if page.next.None? then [page.data]
    else
      RestOfRest(rows, key, cursor, limit - 1);
      [page.data] + Walk(rows, key, limit, page.next)
  }

  function Flatten<T>(pages: seq<seq<T>>): seq<T> { if pages == [] then [] else pages[0] + Flatten(pages[1..]) }

  // All pages but the last hold exactly the limit.
  ghost predicate FullPages<T>(pages: seq<seq<T>>, limit: nat) {
    pages != [] && (forall i :: 0 <= i < |pages| - 1 ==> |pages[i]| == limit) && |pages[|pages| - 1]| <= limit
  }

  lemma OnePageMore<T>(page: seq<T>, pages: seq<seq<T>>, limit: nat)
    ensures Flatten([page] + pages) == page + Flatten(pages)
    ensures FullPages(pages, limit) && |page| == limit ==> FullPages([page] + pages, limit)
  {
    assert ([page] + pages)[1..] == pages;
  }

  lemma OnlyPage<T>(page: seq<T>)
    ensures Flatten([page]) == page
  {
    OnePageMore(page, [], 0);
    assert [page] + [] == [page];
  }

  // A page with a next cursor is full, and the cursor is its last row; one without is all there is.
  lemma PageIsHead<T(!new)>(rows: seq<T>, key: T -> Key, limit: nat, cursor: Option<Key>)
    requires limit >= 1
    ensures var rest := Rest(rows, key, cursor);
            var page := FetchPage(rows, key, limit, cursor);
            if page.next.None? then page.data == rest && |rest| <= limit
            else |rest| > limit && page.data == rest[..limit] && page.next == Some(key(rest[limit - 1]))
  {
    var rest := Rest(rows, key, cursor);
    var fetched := Take(rest, limit + 1);
    if |rest| > limit {
      assert fetched[..limit] == rest[..limit];
    } else {
      assert fetched == rest;
    }
  }

  // A page and what there is to read after it make up what there was before.
  lemma PageAndRest<T(!new)>(rows: seq<T>, key: T -> Key, limit: nat, cursor: Option<Key>)
    requires Descending(rows, key) && limit >= 1 && FetchPage(rows, key, limit, cursor).next.Some?
    ensures var page := FetchPage(rows, key, limit, cursor);
            && |page.data| == limit && page.data + Rest(rows, key, page.next) == Rest(rows, key, cursor)
            && Walk(rows, key, limit, cursor) == [page.data] + Walk(rows, key, limit, page.next)
  {
    var rest := Rest(rows, key, cursor);
    PageIsHead(rows, key, limit, cursor);
    RestOfRest(rows, key, cursor, limit - 1);
    assert rest[..limit] + rest[limit..] == rest;
  }

  /** With a positive limit the pages are the list cut into pieces: all full but the last. */
  lemma {:induction false} WalkIsTheRest<T(!new)>(rows: seq<T>, key: T -> Key, limit: nat, cursor: Option<Key>)
    requires Descending(rows, key) && limit >= 1
    ensures Flatten(Walk(rows, key, limit, cursor)) == Rest(rows, key, cursor)
    ensures FullPages(Walk(rows, key, limit, cursor), limit)
    decreases |Rest(rows, key, cursor)|
  {
    var page := FetchPage(rows, key, limit, cursor);
    if page.next.Some? {
      PageAndRest(rows, key, limit, cursor);
      WalkIsTheRest(rows, key, limit, page.next);
      OnePageMore(page.data, Walk(rows, key, limit, page.next), limit);
    } else {
      PageIsHead(rows, key, limit, cursor);
      OnlyPage(page.data);
    }
  }

  /** Following the cursors from the start returns the whole list exactly when a page can hold a row. */
  lemma WalkIsComplete<T(!new)>(rows: seq<T>, key: T -> Key, limit: nat)
    requires Descending(rows, key)
    ensures Flatten(Walk(rows, key, limit, None)) == rows <==> limit >= 1 || rows == []
  {
    RestOfAll(rows, key);
    if limit >= 1 {
      WalkIsTheRest(rows, key, limit, None);
    } else {
      var page := FetchPage(rows, key, 0, None);
      OnlyPage(page.data);
    }
  }

  // ---- following the cursors while the data changes ----

  // One page of each list in turn, as long as there is a cursor to go on with.
  function Journey<T>(lists: seq<seq<T>>, key: T -> Key, limit: nat, cursor: Option<Key>): seq<seq<T>> {
    if lists == [] then []
    else
      var page := FetchPage(lists[0], key, limit, cursor);
      if page.next.None? then [page.data] else [page.data] + Journey(lists[1..], key, limit, page.next)
  }

  lemma PageIsOlder<T(!new)>(rows: seq<T>, key: T -> Key, limit: nat, cursor: Option<Key>)
    requires Descending(rows, key)
    ensures var page := FetchPage(rows, key, limit, cursor);
            && Descending(page.data, key)
            && (forall x :: x in page.data ==> x in rows && (cursor.Some? ==> Newer(cursor.value, key(x))))
            && (page.next.Some? ==> page.data != [] && page.next.value == key(page.data[|page.data| - 1]))
  {
    FilterKeepsDescending(rows, OlderThan(key, cursor), key);
    var data := FetchPage(rows, key, limit, cursor).data;
    assert data <= Rest(rows, key, cursor);
    forall x | x in data ensures x in rows && (cursor.Some? ==> Newer(cursor.value, key(x))) {
      FilterMembers(rows, OlderThan(key, cursor), x);
      assert OlderThan(key, cursor)(x);
    }
  }

  /**
   * Whatever happens to the data between the pages, the rows of a journey go strictly downwards, so
   * none is ever returned twice.
   */
  lemma {:induction false} JourneyDescends<T(!new)>(lists: seq<seq<T>>, key: T -> Key, limit: nat, cursor: Option<Key>)
    requires forall i :: 0 <= i < |lists| ==> Descending(lists[i], key)
    ensures var seen := Flatten(Journey(lists, key, limit, cursor));
            Descending(seen, key) && (cursor.Some? ==> forall x :: x in seen ==> Newer(cursor.value, key(x)))
    decreases |lists|
  {
    if lists != [] {
      var page := FetchPage(lists[0], key, limit, cursor);
      PageIsOlder(lists[0], key, limit, cursor);
      if page.next.Some? {
        var more := Journey(lists[1..], key, limit, page.next);
        JourneyDescends(lists[1..], key, limit, page.next);
        OnePageMore(page.data, more, limit);
        JoinDescends(page.data, Flatten(more), key);
      } else {
        OnlyPage(page.data);
      }
    }
  }

  lemma JoinDescends<T(!new)>(a: seq<T>, b: seq<T>, key: T -> Key)
    requires Descending(a, key) && Descending(b, key) && a != []
    requires forall x :: x in b ==> Newer(key(a[|a| - 1]), key(x))
    ensures Descending(a + b, key)
    ensures forall x :: x in b ==> forall i :: 0 <= i < |a| ==> Newer(key(a[i]), key(x))
  {
    forall x, i | x in b && 0 <= i < |a| ensures Newer(key(a[i]), key(x)) {
      assert i < |a| - 1 ==> Newer(key(a[i]), key(a[|a| - 1]));
    }
    forall i, j | 0 <= i < j < |a + b| ensures Newer(key((a + b)[i]), key((a + b)[j])) {
      if i < |a| <= j {
        assert b[j - |a|] in b;
      }
    }
  }
}
