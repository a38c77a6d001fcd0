/** When the brute-force filter flags a sample, said by counting values and without sorting. */
module OutlierCounts {
  import opened Samples
  import opened SortedSeq
  import opened Outlier

  function Below(values: seq<real>, x: real): nat {
    if values == [] then 0
    else
      var n := Below(values[1..], x);
      if values[0] < x then n + 1 else n
  }

  function Above(values: seq<real>, x: real): nat {
    if values == [] then 0
    else
      var n := Above(values[1..], x);
      if values[0] > x then n + 1 else n
  }

  /** x is one of the values; at most r of them are smaller and at most |values| - 1 - r are larger. */
  predicate HasRank(values: seq<real>, x: real, r: nat) {
    x in values && Below(values, x) <= r && Above(values, x) + r < |values|
  }

  /** m is the middle value, or halfway between the two middle ones. */
  ghost predicate IsMiddle(values: seq<real>, m: real) {
    exists a, b :: IsHalfway(values, a, b, m)
  }

  predicate IsHalfway(values: seq<real>, a: real, b: real, m: real) {
    var n := |values|;
    n > 0 && HasRank(values, a, (n - 1) / 2) && HasRank(values, b, n / 2) && m == (a + b) / 2.0
  }

  // ---- a value of a rank is the only one ------------------------------------------------------------

  lemma {:induction false} EitherSide(values: seq<real>, x: real, y: real)
    requires x < y
    ensures Above(values, x) + Below(values, y) >= |values|
    decreases |values|
  {
    if values != [] {
      EitherSide(values[1..], x, y);
    }
  }

  lemma RankIsUnique(values: seq<real>, x: real, y: real, r: nat)
    requires HasRank(values, x, r) && HasRank(values, y, r)
    ensures x == y
  {
    if x < y {
      EitherSide(values, x, y);
    } else if y < x {
      EitherSide(values, y, x);
    }
  }

  lemma MiddleIsUnique(values: seq<real>, m: real, m': real)
    requires IsMiddle(values, m) && IsMiddle(values, m')
    ensures m == m'
  {
    var a, b :| IsHalfway(values, a, b, m);
    var a', b' :| IsHalfway(values, a', b', m');
    RankIsUnique(values, a, a', (|values| - 1) / 2);
    RankIsUnique(values, b, b', |values| / 2);
  }

  // ---- sorting does not change the counts -------------------------------------------------------------

  lemma {:induction false} CountsJoin(a: seq<real>, b: seq<real>, x: real)
    ensures Below(a + b, x) == Below(a, x) + Below(b, x) && Above(a + b, x) == Above(a, x) + Above(b, x)
    decreases |a|
  {
    if a == [] {
      assert a + b == b;
    } else {
      assert (a + b)[0] == a[0] && (a + b)[1..] == a[1..] + b;
      CountsJoin(a[1..], b, x);
    }
  }

  lemma InsertCounts(w: seq<real>, i: nat, v: real, x: real)
    requires i <= |w|
    ensures Below(InsertAt(w, i, v), x) == Below(w + [v], x) && Above(InsertAt(w, i, v), x) == Above(w + [v], x)
  {
    var a, b := w[..i], w[i..];
    assert w == a + b;
    CountsJoin(a, b, x);
    CountsJoin(a + b, [v], x);
    CountsJoin(a + [v], b, x);
    CountsJoin(a, [v], x);
  }

  lemma {:induction false} SortCounts(s: seq<real>, x: real)
    ensures Below(Sort(s), x) == Below(s, x) && Above(Sort(s), x) == Above(s, x)
    decreases |s|
  {
    if s != [] {
      var n := |s| - 1;
      var w := Sort(s[..n]);
      SortCounts(s[..n], x);
      InsertCounts(w, UpperBound(w, s[n]), s[n], x);
      CountsJoin(w, [s[n]], x);
      CountsJoin(s[..n], [s[n]], x);
      assert s == s[..n] + [s[n]];
    }
  }

  lemma {:induction false} NoneBelow(values: seq<real>, x: real)
    ensures (forall i :: 0 <= i < |values| ==> values[i] >= x) ==> Below(values, x) == 0
    ensures (forall i :: 0 <= i < |values| ==> values[i] <= x) ==> Above(values, x) == 0
    ensures Below(values, x) <= |values| && Above(values, x) <= |values|
    decreases |values|
  {
    if values != [] {
      NoneBelow(values[1..], x);
      assert forall i :: 0 <= i < |values[1..]| ==> values[1..][i] == values[i + 1];
    }
  }

  lemma FewBelow(w: seq<real>, r: nat)
    requires Sorted(w) && r < |w|
    ensures Below(w, w[r]) <= r
  {
    assert w == w[..r] + w[r..];
    CountsJoin(w[..r], w[r..], w[r]);
    NoneBelow(w[..r], w[r]);
    NoneBelow(w[r..], w[r]);
  }

  lemma FewAbove(w: seq<real>, r: nat)
    requires Sorted(w) && r < |w|
    ensures Above(w, w[r]) + r < |w|
  {
    assert w == w[..r + 1] + w[r + 1..];
    CountsJoin(w[..r + 1], w[r + 1..], w[r]);
    NoneBelow(w[..r + 1], w[r]);
    NoneBelow(w[r + 1..], w[r]);
  }

  lemma SortedRank(w: seq<real>, r: nat)
    requires Sorted(w) && r < |w|
    ensures HasRank(w, w[r], r)
  {
    FewBelow(w, r);
    FewAbove(w, r);
  }

  lemma RankOfSorted(values: seq<real>, r: nat)
    requires r < |values|
    ensures HasRank(values, Sort(values)[r], r)
  {
    var w := Sort(values);
    SortSorts(values);
    SortedRank(w, r);
    SortCounts(values, w[r]);
    assert w[r] in multiset(w);
  }

  /** The median of the reference is the middle of the values. */
  lemma MedianIsMiddle(values: seq<real>)
    requires values != []
    ensures IsMiddle(values, Median(values))
  {
    var n, w := |values|, Sort(values);
    RankOfSorted(values, (n - 1) / 2);
    RankOfSorted(values, n / 2);
    assert IsHalfway(values, w[(n - 1) / 2], w[n / 2], Median(values));
  }

  // ---- the flag -----------------------------------------------------------------------------------------

  /** distances are those of the values from m. */
  predicate AreDistances(values: seq<real>, m: real, distances: seq<real>) {
    && |distances| == |values|
    && forall i :: 0 <= i < |values| ==>
         distances[i] == if values[i] < m then m - values[i] else values[i] - m
  }

  predicate IsNear(i: int, k: nat, radius: nat) {
    k - radius <= i <= k + radius
  }

  /** From lo to end are exactly the indices at most radius away from k. */
  predicate IsAround(n: nat, k: nat, radius: nat, lo: nat, end: nat) {
    && lo <= end <= n
    && forall i: nat {:trigger IsNear(i, k, radius)} :: i < n ==> (lo <= i < end <==> IsNear(i, k, radius))
  }

  lemma AroundIsWindow(z: seq<real>, k: nat, radius: nat, lo: nat, end: nat)
    requires k < |z| && IsAround(|z|, k, radius, lo, end)
    ensures z[lo..end] == Window(z, k, radius)
  {
    assert IsNear(k, k, radius);
    assert IsNear(lo, k, radius) && IsNear(end - 1, k, radius);
    assert lo > 0 ==> !IsNear(lo - 1, k, radius);
    assert end < |z| ==> !IsNear(end, k, radius);
  }

  /** The threshold is positive and x is further from m, on either side. */
  predicate IsTooFar(x: real, m: real, threshold: real) {
    threshold > 0.0 && (x - m > threshold || m - x > threshold)
  }

  lemma ExceedsIs(x: real, med: real, mad: real, madK: real)
    ensures Exceeds(x, med, mad, madK) <==> IsTooFar(x, med, madK * mad)
  {
  }

  lemma Judged(z: seq<real>, k: nat, madK: real, radius: nat, med: real, mad: real)
    requires k < |z|
    requires med == Median(Window(z, k, radius)) && mad == Median(AbsDevs(Window(z, k, radius), med))
    ensures IsOutlier(z, k, madK, radius) == Exceeds(z[k], med, mad, madK)
  {
  }

  lemma MedianIs(values: seq<real>, m: real)
    requires IsMiddle(values, m)
    ensures m == Median(values)
  {
    var a, b :| IsHalfway(values, a, b, m);
    MedianIsMiddle(values);
    MiddleIsUnique(values, m, Median(values));
  }

  lemma DistancesAre(values: seq<real>, m: real, distances: seq<real>)
    requires AreDistances(values, m, distances)
    ensures distances == AbsDevs(values, m)
  {
  }

  /** The middle of the heights around sample k, and of their distances from it. */
  ghost predicate AreMiddles(
    z: seq<real>, k: nat, radius: nat, lo: nat, end: nat, med: real, distances: seq<real>, mad: real
  ) {
    && IsAround(|z|, k, radius, lo, end) && IsMiddle(z[lo..end], med)
    && AreDistances(z[lo..end], med, distances) && IsMiddle(distances, mad)
  }

  lemma MiddlesAre(
    z: seq<real>, k: nat, radius: nat, lo: nat, end: nat, med: real, distances: seq<real>, mad: real
  )
    requires k < |z| && AreMiddles(z, k, radius, lo, end, med, distances, mad)
    ensures med == Median(Window(z, k, radius)) && mad == Median(AbsDevs(Window(z, k, radius), med))
  {
    var w := Window(z, k, radius);
    AroundIsWindow(z, k, radius, lo, end);
    MedianIs(w, med);
    DistancesAre(w, med, distances);
    MedianIs(distances, mad);
  }

  /**
   * A height is judged an outlier exactly if it is further from the middle of the heights around it than
   * madK times the middle of their distances from it, and that product is positive.
   */
  lemma OutlierIff(
    z: seq<real>, k: nat, madK: real, radius: nat, lo: nat, end: nat, med: real, distances: seq<real>, mad: real
  )
    requires k < |z| && AreMiddles(z, k, radius, lo, end, med, distances, mad)
    ensures IsOutlier(z, k, madK, radius) <==> IsTooFar(z[k], med, madK * mad)
  {
    MiddlesAre(z, k, radius, lo, end, med, distances, mad);
    Judged(z, k, madK, radius, med, mad);
    ExceedsIs(z[k], med, mad, madK);
  }

  /** Kept sample j gets the flag of verdict j. */
  lemma VerdictIsFlag(samples: seq<Sample>, indices: seq<nat>, verdicts: seq<bool>, j: nat)
    requires indices == KeptIndices(samples) && |verdicts| == |indices| && j < |indices|
    ensures SetFlags(samples, indices, verdicts, |indices|)[indices[j]].flag.Outlier? == verdicts[j]
  {
    FlaggedSample(samples, indices, verdicts, |indices|, indices[j]);
  }

  /** In the filter's result kept sample j, at index i of the line, is flagged exactly if its height is too
      far from the middle of those around it. */
  lemma KeptSampleIsFlaggedIff(
    input: FilterResult, madK: real, windowRadius: int, j: nat,
    lo: nat, end: nat, med: real, distances: seq<real>, mad: real
  )
    requires 2 <= |KeptIndices(input.samples)| && j < |KeptIndices(input.samples)|
    requires AreMiddles(KeptHeights(input.samples), j, if windowRadius < 1 then 1 else windowRadius,
                        lo, end, med, distances, mad)
    ensures var i := KeptIndices(input.samples)[j];
            var r := Reference(input, madK, windowRadius).samples;
            && |r| == |input.samples|
            && r[i].flag.Outlier? == IsTooFar(input.samples[i].z, med, madK * mad)
  {
    var indices, z := KeptIndices(input.samples), KeptHeights(input.samples);
    var radius := Radius(windowRadius);
    OutlierIff(z, j, madK, radius, lo, end, med, distances, mad);
    VerdictIsFlag(input.samples, indices, Verdicts(z, madK, radius), j);
    assert z[j] == input.samples[indices[j]].z;
  }
}
