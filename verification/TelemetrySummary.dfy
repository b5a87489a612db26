/** The percentiles of the time-to-first-interaction samples in the bucket's summary. */
module TelemetrySummary {
  import opened Lists
  import opened Sorting

  function Below(): (real, real) -> bool { (a, b) => a < b }

  function AtMost(x: real): real -> bool { v => v <= x }

  function RankOf(n: nat, percent: nat): nat { n * percent / 100 }

  // The sample at a fraction of the sorted samples, and 0 without samples.
  function Percentile(sorted: seq<real>, percent: nat): real
    requires percent < 100
  {
    if sorted == [] then 0.0
    else
      RankIsInside(|sorted|, percent);
      sorted[RankOf(|sorted|, percent)]
  }

  datatype Ttfi = Ttfi(count: nat, p50: real, p90: real, p99: real)

  function Summary(values: seq<real>): Ttfi {
    var sorted := SortBy(values, Below());
    Ttfi(|sorted|, Percentile(sorted, 50), Percentile(sorted, 90), Percentile(sorted, 99))
  }

  lemma RankIsInside(n: nat, percent: nat)
    requires n > 0 && percent < 100
    ensures RankOf(n, percent) < n && 100 * (RankOf(n, percent) + 1) > n * percent
  {
    assert n * percent < n * 100;
  }

  function LessThan(x: real): real -> bool { v => v < x }

  // The samples up to an index of the sorted list are at most the one there ...
  lemma PrefixIsAtMost(sorted: seq<real>, i: nat)
    requires Sorted(sorted, Below()) && i < |sorted|
    ensures |Filter(sorted, AtMost(sorted[i]))| >= i + 1
  {
    var p := AtMost(sorted[i]);
    forall x | x in sorted[..i + 1] ensures p(x) {
      ghost var j :| 0 <= j <= i && sorted[j] == x;
      assert j < i ==> !Below()(sorted[i], sorted[j]);
    }
    assert sorted == sorted[..i + 1] + sorted[i + 1..];
    FilterOfSum(sorted[..i + 1], sorted[i + 1..], p);
    FilterAllOrNone(sorted[..i + 1], p);
  }

  // ... and only samples before it are less.
  lemma OnlyPrefixIsLess(sorted: seq<real>, i: nat)
    requires Sorted(sorted, Below()) && i < |sorted|
    ensures |Filter(sorted, LessThan(sorted[i]))| <= i
  {
    var p := LessThan(sorted[i]);
    forall x | x in sorted[i..] ensures !p(x) {
      ghost var j :| i <= j < |sorted| && sorted[j] == x;
      assert i < j ==> !Below()(sorted[j], sorted[i]);
    }
    assert sorted == sorted[..i] + sorted[i..];
    FilterOfSum(sorted[..i], sorted[i..], p);
    FilterAllOrNone(sorted[i..], p);
  }

  // Sorting keeps how many samples there are of a kind, and which values are samples.
  lemma SortingKeepsSamples(values: seq<real>, p: real -> bool, x: real)
    ensures |Filter(SortBy(values, Below()), p)| == |Filter(values, p)|
    ensures x in SortBy(values, Below()) <==> x in values
  {
    var sorted := SortBy(values, Below());
    SortKeepsElements(values, Below());
    SameMultisetSameMembers(sorted, values, x);
    FilterOfPermutation(values, sorted, p);
    SameMultisetSameLength(Filter(values, p), Filter(sorted, p));
  }

  // A sample such that more than this share of the samples is at most it, and at most this share less.
  ghost predicate IsPercentile(x: real, values: seq<real>, percent: nat) {
    && x in values && 100 * |Filter(values, v => v <= x)| > |values| * percent
    && 100 * |Filter(values, v => v < x)| <= |values| * percent
  }

  /** Which is what a percentile is. */
  lemma PercentileMeans(values: seq<real>, percent: nat)
    requires values != [] && percent < 100
    ensures IsPercentile(Percentile(SortBy(values, Below()), percent), values, percent)
  {
    var sorted := SortBy(values, Below());
    var x := Percentile(sorted, percent);
    RankIsInside(|values|, percent);
    SortSorts(values, Below());
    PrefixIsAtMost(sorted, RankOf(|values|, percent));
    OnlyPrefixIsLess(sorted, RankOf(|values|, percent));
    SortingKeepsSamples(values, AtMost(x), x);
    SortingKeepsSamples(values, LessThan(x), x);
    SamePredicate(values, AtMost(x), v => v <= x);
    SamePredicate(values, LessThan(x), v => v < x);
  }

  /** The summary holds the three percentiles, in order, and zeros without samples. */
  lemma SummaryMeans(values: seq<real>)
    ensures var s := Summary(values);
            && s.count == |values| && s.p50 <= s.p90 <= s.p99
            && (values == [] ==> s.p50 == s.p90 == s.p99 == 0.0)
            && (values != [] ==> IsPercentile(s.p50, values, 50) && IsPercentile(s.p90, values, 90)
                                 && IsPercentile(s.p99, values, 99))
  {
    hide IsPercentile, SortBy;
    var sorted := SortBy(values, Below());
    SortSorts(values, Below());
    if values != [] {
      PercentileMeans(values, 50);
      PercentileMeans(values, 90);
      PercentileMeans(values, 99);
      Ascending(sorted, 50, 90);
      Ascending(sorted, 90, 99);
    }
  }

  lemma HundredthsGrow(a: nat, b: nat)
    requires a <= b
    ensures a / 100 <= b / 100
  {
  }

  lemma {:induction false} ProductGrows(n: nat, a: nat, b: nat)
    requires a <= b
    ensures n * a <= n * b
  {
    if n > 0 {
      ProductGrows(n - 1, a, b);
    }
  }

  lemma Ascending(sorted: seq<real>, percent: nat, more: nat)
    requires Sorted(sorted, Below()) && sorted != [] && percent <= more < 100
    ensures Percentile(sorted, percent) <= Percentile(sorted, more)
  {
    var n := |sorted|;
    RankIsInside(n, more);
    RankIsInside(n, percent);
    ProductGrows(n, percent, more);
    HundredthsGrow(n * percent, n * more);
    var i, j := RankOf(n, percent), RankOf(n, more);
    assert i < j ==> !Below()(sorted[j], sorted[i]);
  }
}
