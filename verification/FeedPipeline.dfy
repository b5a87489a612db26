/**
 * The chronological feed: the aggregation pipeline as a program of stages, what it means, and the
 * pages read with it. A repost without content of its own shares the identity of the post it
 * repeats, and only the newest active post of an identity is shown.
 */
module FeedPipeline {
  import opened Prelude
  import opened Lists
  import opened Sorting
  import opened KeysetPaging

  // A post; None is a missing field.
  datatype Post = Post(id: nat, createdAt: int, status: Option<string>, body: Option<string>, image: Option<nat>,
                       repostOf: Option<nat>)

  // A document in the pipeline: the identity is known from the grouping on.
  datatype Doc = Doc(post: Post, identity: Option<nat>)

  function KeyOf(d: Doc): Key { Key(d.post.createdAt, d.post.id) }

  predicate Active(p: Post) { p.status == None || p.status == Some("active") }

  // The grouping key: reposts without body and image count as the post they repeat.
  function Identity(p: Post): nat {
    if (p.body == None || p.body == Some("")) && p.image == None && p.repostOf.Some? then p.repostOf.value else p.id
  }

  // ---- the program ----

  datatype Direction = Forward | Backward

  // The $or filter of a cursor: documents on its far side in the direction of reading.
  datatype CursorFilter = CursorFilter(direction: Direction, at: int, id: nat)

  datatype Stage =
    | MatchActive
    | SortByCreated(ascending: bool)
    | GroupByIdentity
    | MatchIdentityNotIn(ids: seq<nat>)
    | MatchCursor(filter: CursorFilter)
    | LimitTo(n: nat)

  // A part of a cursor's payload: missing, unusable (empty, or an id that is none), or a value.
  datatype Part<T> = Missing | Bad | Given(value: T)

  // A text that is no date is still accepted, and makes an invalid date.
  datatype Date = Invalid | Time(at: int)

  datatype Payload = Payload(createdAt: Part<Date>, id: Part<nat>)

  datatype CursorMatch = NoMatch | Exact(filter: CursorFilter) | OnInvalidDate(direction: Direction, id: nat)

  /**
   * No filter without a cursor or with an empty payload; an error when a part is missing or unusable;
   * otherwise a filter of the given direction, for the given row, or on an invalid date.
   */
  function BuildCreatedAtCursorFilter(cursor: Option<Payload>, direction: Direction)
    : (r: Result<CursorMatch, string>)
    ensures r == Ok(NoMatch) <==> cursor == None || cursor == Some(Payload(Missing, Missing))
    ensures r.Err? <==> cursor.Some? && cursor != Some(Payload(Missing, Missing))
                        && !(cursor.value.createdAt.Given? && cursor.value.id.Given?)
    ensures forall at, id ::
              cursor == Some(Payload(Given(Time(at)), Given(id))) <==> r == Ok(Exact(CursorFilter(direction, at, id)))
    ensures forall id ::
              cursor == Some(Payload(Given(Invalid), Given(id))) <==> r == Ok(OnInvalidDate(direction, id))
  {
    if cursor.None? then Ok(NoMatch)
    else
      var c := cursor.value;
      if c.createdAt.Missing? && c.id.Missing? then Ok(NoMatch)
      else if !c.createdAt.Given? || !c.id.Given? then Err("Invalid chronological feed cursor")
      else
        match c.createdAt.value
        case Time(at) => Ok(Exact(CursorFilter(direction, at, c.id.value)))
        case Invalid => Ok(OnInvalidDate(direction, c.id.value))
  }

  function GetVisibleIdentityStages(): seq<Stage> { [GroupByIdentity] }

  function BuildNewFeedPipeline(limit: nat, direction: Direction, cursorFilter: Option<CursorFilter>, seen: seq<nat>)
    : seq<Stage> {
    [MatchActive, SortByCreated(false)] + GetVisibleIdentityStages()
    + (if |seen| > 0 then [MatchIdentityNotIn(seen)] else [])
    + (if cursorFilter.Some? then [MatchCursor(cursorFilter.value)] else [])
    + [SortByCreated(direction == Backward), LimitTo(limit + 1)]
  }

  // ---- running it ----

  function ByOldest(): (Doc, Doc) -> bool { (a, b) => Newer(KeyOf(b), KeyOf(a)) }

  predicate Passes(f: CursorFilter, d: Doc) {
    match f.direction
    case Forward => d.post.createdAt < f.at || (d.post.createdAt == f.at && d.post.id < f.id)
    case Backward => d.post.createdAt > f.at || (d.post.createdAt == f.at && d.post.id > f.id)
  }

  function Identified(d: Doc): Doc { d.(identity := Some(Identity(d.post))) }

  predicate HasIdentity(docs: seq<Doc>, identity: nat) {
    exists i :: 0 <= i < |docs| && docs[i].identity == Some(identity)
  }

  // The first document of every identity, with its identity.
  function Firsts(docs: seq<Doc>): seq<Doc> {
    if docs == [] then []
    else
      var firsts, d := Firsts(docs[..|docs| - 1]), docs[|docs| - 1];
      if HasIdentity(firsts, Identity(d.post)) then firsts else firsts + [Identified(d)]
  }

  // The order in which a grouping returns its groups is unspecified.
  type Shuffle = seq<Doc> -> seq<Doc>

  ghost predicate Shuffles(shuffle: Shuffle) { forall s :: multiset(shuffle(s)) == multiset(s) }

  function RunStage(stage: Stage, docs: seq<Doc>, shuffle: Shuffle): seq<Doc> {
    match stage
    case MatchActive => Filter(docs, (d: Doc) => Active(d.post))
    case SortByCreated(ascending) => SortBy(docs, if ascending then ByOldest() else ByNewest(KeyOf))
    case GroupByIdentity => shuffle(Firsts(docs))
    case MatchIdentityNotIn(ids) => Filter(docs, NotIn(ids))
    case MatchCursor(f) => Filter(docs, (d: Doc) => Passes(f, d))
    case LimitTo(n) => Take(docs, n)
  }

  function NotIn(ids: seq<nat>): Doc -> bool { (d: Doc) => d.identity.Some? ==> d.identity.value !in ids }

  function RunStages(stages: seq<Stage>, docs: seq<Doc>, shuffle: Shuffle): seq<Doc> {
    if stages == [] then docs else RunStages(stages[1..], RunStage(stages[0], docs, shuffle), shuffle)
  }

  function Docs(posts: seq<Post>): (docs: seq<Doc>)
    ensures |docs| == |posts|
  {
    seq(|posts|, i requires 0 <= i < |posts| => Doc(posts[i], None))
  }

  // ---- what it means ----

  ghost predicate Collection(posts: seq<Post>) {
    forall i, j :: 0 <= i < j < |posts| ==> posts[i].id != posts[j].id
  }

  // The newest active post of its identity.
  ghost predicate Visible(posts: seq<Post>, d: Doc) {
    && d.post in posts && Active(d.post) && d.identity == Some(Identity(d.post))
    && forall q :: q in posts && Active(q) && Identity(q) == Identity(d.post) ==>
         q == d.post || Newer(KeyOf(d), Key(q.createdAt, q.id))
  }

  function ActiveNewestFirst(posts: seq<Post>): seq<Doc> {
    SortBy(Filter(Docs(posts), (d: Doc) => Active(d.post)), ByNewest(KeyOf))
  }

  // The feed: the visible posts, newest first.
  function Feed(posts: seq<Post>): seq<Doc> {
    SortBy(Firsts(ActiveNewestFirst(posts)), ByNewest(KeyOf))
  }

  // The feed without the identities a cursor's snapshot excludes.
  function Unseen(posts: seq<Post>, seen: seq<nat>): seq<Doc> { Filter(Feed(posts), NotIn(seen)) }

  lemma DocsAreACollection(posts: seq<Post>)
    requires Collection(posts)
    ensures DistinctIds(Docs(posts), KeyOf)
    ensures forall d :: d in Docs(posts) <==> d.post in posts && d.identity == None
  {
    forall d: Doc | d.post in posts && d.identity == None ensures d in Docs(posts) {
      ghost var i :| 0 <= i < |posts| && posts[i] == d.post;
      assert Docs(posts)[i] == d;
    }
  }

  lemma ActiveNewestFirstMeans(posts: seq<Post>)
    requires Collection(posts)
    ensures Descending(ActiveNewestFirst(posts), KeyOf) && DistinctIds(ActiveNewestFirst(posts), KeyOf)
    ensures forall d :: d in ActiveNewestFirst(posts) <==> d.post in posts && Active(d.post) && d.identity == None
  {
    var active := (d: Doc) => Active(d.post);
    DocsAreACollection(posts);
    FilterKeepsDistinct(Docs(posts), active, KeyOf);
    SortDescends(Filter(Docs(posts), active), KeyOf);
    forall d ensures d in Filter(Docs(posts), active) <==> d in Docs(posts) && Active(d.post) {
      FilterMembers(Docs(posts), active, d);
    }
  }

  ghost predicate IsFirst(docs: seq<Doc>, i: nat)
    requires i < |docs|
  {
    forall j :: 0 <= j < i ==> Identity(docs[j].post) != Identity(docs[i].post)
  }

  ghost predicate FirstOf(docs: seq<Doc>, d: Doc) {
    exists i :: 0 <= i < |docs| && IsFirst(docs, i) && d == Identified(docs[i])
  }

  ghost predicate Shows(docs: seq<Doc>, identity: nat) {
    exists i :: 0 <= i < |docs| && Identity(docs[i].post) == identity
  }

  lemma HasIdentityPush(docs: seq<Doc>, d: Doc, identity: nat)
    ensures HasIdentity(docs + [d], identity) <==> HasIdentity(docs, identity) || d.identity == Some(identity)
  {
    if d.identity == Some(identity) {
      assert (docs + [d])[|docs|] == d;
    }
    if i :| 0 <= i < |docs| && docs[i].identity == Some(identity) {
      assert (docs + [d])[i] == docs[i];
    }
  }

  lemma {:induction false} FirstsShow(docs: seq<Doc>, identity: nat)
    ensures HasIdentity(Firsts(docs), identity) <==> Shows(docs, identity)
  {
    if docs != [] {
      var n := |docs| - 1;
      FirstsShow(docs[..n], identity);
      FirstsShow(docs[..n], Identity(docs[n].post));
      HasIdentityPush(Firsts(docs[..n]), Identified(docs[n]), identity);
      assert Shows(docs, identity) <==> Shows(docs[..n], identity) || Identity(docs[n].post) == identity;
    }
  }

  lemma {:induction false} FirstsMean(docs: seq<Doc>)
    ensures forall d :: d in Firsts(docs) <==> FirstOf(docs, d)
    ensures forall i, j :: 0 <= i < j < |Firsts(docs)| ==> Firsts(docs)[i].identity != Firsts(docs)[j].identity
  {
    if docs != [] {
      var n := |docs| - 1;
      var init, firsts := docs[..n], Firsts(docs[..n]);
      FirstsMean(init);
      FirstsShow(init, Identity(docs[n].post));
      assert IsFirst(docs, n) <==> !HasIdentity(firsts, Identity(docs[n].post));
      assert forall i :: 0 <= i < n ==> (IsFirst(docs, i) <==> IsFirst(init, i));
      forall d ensures d in Firsts(docs) <==> FirstOf(docs, d) {
        assert FirstOf(docs, d) <==> FirstOf(init, d) || (IsFirst(docs, n) && d == Identified(docs[n]));
      }
    }
  }

  // In a list sorted newest first, first is newest.
  lemma FirstIsNewest(docs: seq<Doc>, d: Doc)
    requires Descending(docs, KeyOf)
    ensures FirstOf(docs, d) <==>
            && d.identity == Some(Identity(d.post)) && (exists e :: e in docs && d == Identified(e))
            && forall e :: e in docs && Identity(e.post) == Identity(d.post) ==>
                 e.post == d.post || Newer(KeyOf(d), KeyOf(e))
  {
    if FirstOf(docs, d) {
      ghost var i :| 0 <= i < |docs| && IsFirst(docs, i) && d == Identified(docs[i]);
      forall e | e in docs && Identity(e.post) == Identity(d.post)
        ensures e.post == d.post || Newer(KeyOf(d), KeyOf(e)) {
        ghost var j :| 0 <= j < |docs| && docs[j] == e;
        assert i < j ==> Newer(KeyOf(docs[i]), KeyOf(docs[j]));
      }
    } else if e :| e in docs && d == Identified(e) {
      ghost var i :| 0 <= i < |docs| && docs[i] == e;
      assert !IsFirst(docs, i);
      ghost var j :| 0 <= j < i && Identity(docs[j].post) == Identity(docs[i].post);
      assert Newer(KeyOf(docs[j]), KeyOf(docs[i])) && docs[j] in docs;
    }
  }

  /** The feed holds exactly the newest active post of every identity, once, newest first. */
  lemma FeedMeans(posts: seq<Post>)
    requires Collection(posts)
    ensures Descending(Feed(posts), KeyOf)
    ensures forall d :: d in Feed(posts) <==> Visible(posts, d)
    ensures forall x :: HasIdentity(Feed(posts), x) <==> exists p :: p in posts && Active(p) && Identity(p) == x
  {
    var active := ActiveNewestFirst(posts);
    ActiveNewestFirstMeans(posts);
    FirstsMean(active);
    FirstsAreDistinct(active);
    SortDescends(Firsts(active), KeyOf);
    forall d ensures d in Feed(posts) <==> Visible(posts, d) {
      FirstIsNewest(active, d);
      if d.post in posts && Active(d.post) {
        assert Doc(d.post, None) in active;
      }
      forall q | q in posts && Active(q) ensures Doc(q, None) in active {}
    }
    forall x ensures HasIdentity(Feed(posts), x) <==> exists p :: p in posts && Active(p) && Identity(p) == x {
      FirstsShow(active, x);
      SameIdentities(Feed(posts), Firsts(active), x);
      if p :| p in posts && Active(p) && Identity(p) == x {
        assert Doc(p, None) in active;
      }
    }
  }

  lemma SameIdentities(a: seq<Doc>, b: seq<Doc>, x: nat)
    requires forall d :: d in a <==> d in b
    ensures HasIdentity(a, x) <==> HasIdentity(b, x)
  {
    if i :| 0 <= i < |a| && a[i].identity == Some(x) {
      assert a[i] in b;
    }
    if i :| 0 <= i < |b| && b[i].identity == Some(x) {
      assert b[i] in a;
    }
  }

  lemma FirstsAreDistinct(docs: seq<Doc>)
    requires DistinctIds(docs, KeyOf)
    ensures DistinctIds(Firsts(docs), KeyOf)
  {
    FirstsMean(docs);
    var firsts := Firsts(docs);
    forall i, j | 0 <= i < j < |firsts| ensures firsts[i].post.id != firsts[j].post.id {
      assert firsts[i] in firsts && firsts[j] in firsts;
      ghost var a :| 0 <= a < |docs| && IsFirst(docs, a) && firsts[i] == Identified(docs[a]);
      ghost var b :| 0 <= b < |docs| && IsFirst(docs, b) && firsts[j] == Identified(docs[b]);
      assert KeyOf(docs[a]).id == firsts[i].post.id && KeyOf(docs[b]).id == firsts[j].post.id;
      assert firsts[i].identity != firsts[j].identity;
    }
  }
}
