/**
 * Stable sorting by a strict order, as Array.prototype.sort and a database sort stage do it, and
 * the fact every canonical form of this model rests on: an order that separates any two different
 * elements leaves only one way to arrange a collection.
 */
module Sorting {
  // before is asymmetric and its "neither way round" is transitive.
  ghost predicate StrictWeak<T(!new)>(before: (T, T) -> bool) {
    && (forall x, y :: before(x, y) ==> !before(y, x))
    && (forall x, y, z :: before(x, z) ==> before(x, y) || before(y, z))
  }

  ghost predicate Sorted<T(!new)>(s: seq<T>, before: (T, T) -> bool) {
    forall i, j :: 0 <= i < j < |s| ==> !before(s[j], s[i])
  }

  // Different elements of s are ordered one way or the other.
  ghost predicate Separates<T(!new)>(before: (T, T) -> bool, s: seq<T>) {
    forall x, y :: x in s && y in s && x != y ==> before(x, y) || before(y, x)
  }

  // x goes before the first element that is not before it.
  function Insert<T>(x: T, s: seq<T>, before: (T, T) -> bool): (r: seq<T>)
    ensures |r| == |s| + 1
  {
    if s == [] || !before(s[0], x) then [x] + s else [s[0]] + Insert(x, s[1..], before)
  }

  function SortBy<T>(s: seq<T>, before: (T, T) -> bool): (r: seq<T>)
    ensures |r| == |s|
  {
    if s == [] then [] else Insert(s[0], SortBy(s[1..], before), before)
  }

  lemma {:induction false} InsertKeepsElements<T>(x: T, s: seq<T>, before: (T, T) -> bool)
    ensures multiset(Insert(x, s, before)) == multiset{x} + multiset(s)
  {
    if s != [] && before(s[0], x) {
      InsertKeepsElements(x, s[1..], before);
      assert s == [s[0]] + s[1..];
    }
  }

  lemma {:induction false} SortKeepsElements<T>(s: seq<T>, before: (T, T) -> bool)
    ensures multiset(SortBy(s, before)) == multiset(s)
  {
    if s != [] {
      SortKeepsElements(s[1..], before);
      InsertKeepsElements(s[0], SortBy(s[1..], before), before);
      assert s == [s[0]] + s[1..];
    }
  }

  lemma SameMultisetSameMembers<T>(s: seq<T>, t: seq<T>, x: T)
    requires multiset(s) == multiset(t)
    ensures x in s <==> x in t
  {
    assert x in s <==> x in multiset(s);
    assert x in t <==> x in multiset(t);
  }

  lemma SameMultisetSameLength<T>(s: seq<T>, t: seq<T>)
    requires multiset(s) == multiset(t)
    ensures |s| == |t|
  {
    assert |s| == |multiset(s)| == |multiset(t)| == |t|;
  }

  lemma TailsAgree<T>(s: seq<T>, t: seq<T>)
    requires s != [] && t != [] && s[0] == t[0] && multiset(s) == multiset(t)
    ensures multiset(s[1..]) == multiset(t[1..])
    ensures s[1..] == t[1..] ==> s == t
    ensures forall x :: x in s[1..] ==> x in s
  {
    assert s == [s[0]] + s[1..] && t == [t[0]] + t[1..];
    assert multiset(s[1..]) == multiset(s) - multiset{s[0]};
    assert multiset(t[1..]) == multiset(t) - multiset{t[0]};
  }

  lemma TwiceMeansTwo<T>(s: seq<T>, i: nat, j: nat)
    requires i < j < |s| && s[i] == s[j]
    ensures multiset(s)[s[i]] >= 2
  {
    assert s == s[..j] + s[j..];
    assert s[i] in multiset(s[..j]) && s[j..][0] in multiset(s[j..]);
    assert multiset(s) == multiset(s[..j]) + multiset(s[j..]);
  }

  lemma {:induction false} InsertKeepsSorted<T(!new)>(x: T, s: seq<T>, before: (T, T) -> bool)
    requires StrictWeak(before) && Sorted(s, before)
    ensures Sorted(Insert(x, s, before), before)
  {
    if s == [] {
    } else if before(s[0], x) {
      var rest := Insert(x, s[1..], before);
      InsertKeepsSorted(x, s[1..], before);
      InsertKeepsElements(x, s[1..], before);
      forall k | 0 <= k < |rest| ensures !before(rest[k], s[0]) {
        assert rest[k] in multiset(rest);
        assert rest[k] == x || rest[k] in s[1..];
      }
    } else {
      forall k | 0 <= k < |s| ensures !before(s[k], x) {
        assert k > 0 ==> !before(s[k], s[0]);
      }
    }
  }

  lemma {:induction false} SortSorts<T(!new)>(s: seq<T>, before: (T, T) -> bool)
    requires StrictWeak(before)
    ensures Sorted(SortBy(s, before), before)
  {
    if s != [] {
      SortSorts(s[1..], before);
      InsertKeepsSorted(s[0], SortBy(s[1..], before), before);
    }
  }

  /** Two sorted arrangements of the same elements are the same list. */
  lemma {:induction false} SortedIsUnique<T(!new)>(s: seq<T>, t: seq<T>, before: (T, T) -> bool)
    requires Sorted(s, before) && Sorted(t, before) && multiset(s) == multiset(t)
    requires Separates(before, s)
    ensures s == t
  {
    SameMultisetSameLength(s, t);
    if s != [] {
      SameMultisetSameMembers(s, t, s[0]);
      SameMultisetSameMembers(s, t, t[0]);
      HeadsAgree(s, t, before);
      TailsAgree(s, t);
      SortedIsUnique(s[1..], t[1..], before);
    }
  }

  lemma HeadsAgree<T(!new)>(s: seq<T>, t: seq<T>, before: (T, T) -> bool)
    requires s != [] && t != [] && s[0] in t && t[0] in s
    requires Sorted(s, before) && Sorted(t, before) && Separates(before, s)
    ensures s[0] == t[0]
  {
    ghost var i :| 0 <= i < |s| && s[i] == t[0];
    ghost var j :| 0 <= j < |t| && t[j] == s[0];
    assert i > 0 ==> !before(s[i], s[0]);
    assert j > 0 ==> !before(t[j], t[0]);
    assert s[0] in s;
  }

  /** Sorting forgets the order it was given the elements in. */
  lemma SortForgetsOrder<T(!new)>(s: seq<T>, t: seq<T>, before: (T, T) -> bool)
    requires StrictWeak(before) && multiset(s) == multiset(t) && Separates(before, s)
    ensures SortBy(s, before) == SortBy(t, before)
  {
    var a, b := SortBy(s, before), SortBy(t, before);
    SortSorts(s, before);
    SortSorts(t, before);
    SortKeepsElements(s, before);
    SortKeepsElements(t, before);
    forall x, y | x in a && y in a && x != y ensures before(x, y) || before(y, x) {
      SameMultisetSameMembers(a, s, x);
      SameMultisetSameMembers(a, s, y);
    }
    SortedIsUnique(a, b, before);
  }
}
