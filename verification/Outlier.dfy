/** src/analysis/outlier_rejection.cpp over exact reals, and the brute-force filter it replaced. */
module Outlier {
  import opened Samples
  import opened SortedSeq

  datatype FilterResult = FilterResult(angle: real, samples: seq<Sample>,
                                       removedCount: nat, removedFraction: real)

  function Abs(x: real): real {
    if x < 0.0 then -x else x
  }

  function SortedMedian(w: seq<real>): real
    requires |w| > 0
  {
    var mid := |w| / 2;
    if |w| % 2 == 0 then 0.5 * (w[mid] + w[mid - 1]) else w[mid]
  }

  // ---- the reference ------------------------------------------------------------------------

  /** reference_median: order statistics of the unsorted values. */
  function Median(values: seq<real>): real {
    if values == [] then 0.0 else SortedMedian(Sort(values))
  }

  function AbsDevs(values: seq<real>, med: real): seq<real> {
    seq(|values|, i requires 0 <= i < |values| => Abs(values[i] - med))
  }

  function KeptIndices(samples: seq<Sample>): (r: seq<nat>)
    ensures forall k :: 0 <= k < |r| ==> r[k] < |samples| && samples[r[k]].flag == Kept
    ensures forall j, k :: 0 <= j < k < |r| ==> r[j] < r[k]
  {
    if samples == [] then []
    else
      var n := |samples| - 1;
      var r := KeptIndices(samples[..n]);
      if samples[n].flag == Kept then r + [n] else r
  }

  function KeptHeights(samples: seq<Sample>): (r: seq<real>)
    ensures |r| == |KeptIndices(samples)|
  {
    var idx := KeptIndices(samples);
    seq(|idx|, k requires 0 <= k < |idx| => samples[idx[k]].z)
  }

  function Radius(windowRadius: int): nat {
    if windowRadius < 1 then 1 else windowRadius
  }

  function Lo(k: nat, radius: nat): nat {
    if k > radius then k - radius else 0
  }

  function End(n: nat, k: nat, radius: nat): nat {
    if n < k + radius + 1 then n else k + radius + 1
  }

  /** The raw heights around kept sample k. */
  function Window(z: seq<real>, k: nat, radius: nat): (w: seq<real>)
    requires k < |z|
    ensures w != []
  {
    z[Lo(k, radius)..End(|z|, k, radius)]
  }

  /** x is further from the median than madK times the median absolute deviation. */
  predicate Exceeds(x: real, med: real, mad: real, madK: real) {
    var threshold := madK * mad;
    threshold > 0.0 && Abs(x - med) > threshold
  }

  predicate IsOutlier(z: seq<real>, k: nat, madK: real, radius: nat)
    requires k < |z|
  {
    var w := Window(z, k, radius);
    Exceeds(z[k], Median(w), Median(AbsDevs(w, Median(w))), madK)
  }

  function Verdicts(z: seq<real>, madK: real, radius: nat): seq<bool> {
    seq(|z|, k requires 0 <= k < |z| => IsOutlier(z, k, madK, radius))
  }

  /** The samples at the first k indices get the flag kOutlier when their verdict says so. */
  function SetFlags(samples: seq<Sample>, indices: seq<nat>, verdicts: seq<bool>, k: nat): (r: seq<Sample>)
    requires k <= |indices| && k <= |verdicts|
    requires forall j :: 0 <= j < |indices| ==> indices[j] < |samples|
    ensures |r| == |samples|
  {
    if k == 0 then samples
    else
      var r := SetFlags(samples, indices, verdicts, k - 1);
      var i := indices[k - 1];
      if verdicts[k - 1] then r[i := r[i].(flag := Outlier)] else r
  }

  function CountRemoved(samples: seq<Sample>): nat {
    if samples == [] then 0
    else
      var n := |samples| - 1;
      CountRemoved(samples[..n]) + if samples[n].flag != Kept then 1 else 0
  }

  /** reference_outlier_rejection: every window is copied and sorted from scratch. */
  function Reference(input: FilterResult, madK: real, windowRadius: int): FilterResult {
    var n := |KeptIndices(input.samples)|;
    if n < 2 then input
    else
      var verdicts := Verdicts(KeptHeights(input.samples), madK, Radius(windowRadius));
      var samples := SetFlags(input.samples, KeptIndices(input.samples), verdicts, n);
      var removed := CountRemoved(samples);
      input.(samples := samples, removedCount := removed,
             removedFraction := removed as real / |samples| as real)
  }

  /** Sample i changes exactly when it is judged an outlier, and then only its flag. */
  lemma {:induction false} FlaggedSample(samples: seq<Sample>, indices: seq<nat>, verdicts: seq<bool>,
                                         k: nat, i: nat)
    requires k <= |indices| && k <= |verdicts| && i < |samples|
    requires forall j :: 0 <= j < |indices| ==> indices[j] < |samples|
    ensures SetFlags(samples, indices, verdicts, k)[i] ==
              if exists j :: 0 <= j < k && indices[j] == i && verdicts[j]
              then samples[i].(flag := Outlier) else samples[i]
    decreases k
  {
    if k > 0 {
      FlaggedSample(samples, indices, verdicts, k - 1, i);
    }
  }

  // ---- the median of the deviations -----------------------------------------------------------

  lemma AbsDevsConcat(a: seq<real>, b: seq<real>, med: real)
    ensures AbsDevs(a + b, med) == AbsDevs(a, med) + AbsDevs(b, med)
  {
  }

  /** The deviations of w[left..right), without an order. */
  ghost function DevBag(w: seq<real>, med: real, left: nat, right: nat): multiset<real>
    requires left <= right <= |w|
    decreases right - left
  {
    if left == right then multiset{} else multiset{Abs(w[left] - med)} + DevBag(w, med, left + 1, right)
  }

  lemma {:induction false} DevBagGrows(w: seq<real>, med: real, left: nat, right: nat)
    requires left <= right < |w|
    ensures DevBag(w, med, left, right + 1) == DevBag(w, med, left, right) + multiset{Abs(w[right] - med)}
    decreases right - left
  {
    if left < right {
      DevBagGrows(w, med, left + 1, right);
    }
  }

  lemma AbsDevsCons(x: real, rest: seq<real>, med: real)
    ensures multiset(AbsDevs([x] + rest, med)) == multiset{Abs(x - med)} + multiset(AbsDevs(rest, med))
  {
    AbsDevsConcat([x], rest, med);
    assert AbsDevs([x], med) == [Abs(x - med)];
  }

  lemma AbsDevsOfSlice(w: seq<real>, med: real, left: nat, right: nat)
    requires left < right <= |w|
    ensures multiset(AbsDevs(w[left..right], med))
            == multiset{Abs(w[left] - med)} + multiset(AbsDevs(w[left + 1..right], med))
  {
    AbsDevsCons(w[left], w[left + 1..right], med);
    assert w[left..right] == [w[left]] + w[left + 1..right];
  }

  lemma {:induction false} DevBagOfSlice(w: seq<real>, med: real, left: nat, right: nat)
    requires left <= right <= |w|
    ensures DevBag(w, med, left, right) == multiset(AbsDevs(w[left..right], med))
    decreases right - left
  {
    if left < right {
      DevBagOfSlice(w, med, left + 1, right);
      AbsDevsOfSlice(w, med, left, right);
    }
  }

  predicate NotBelow(x: real, merged: seq<real>) {
    merged != [] ==> merged[|merged| - 1] <= x
  }

  /** merged lists the deviations of w[left..right) in order, and no other deviation is smaller. */
  ghost predicate Merge(w: seq<real>, med: real, left: nat, right: nat, merged: seq<real>) {
    && left <= right <= |w| && |merged| == right - left && Sorted(merged)
    && multiset(merged) == DevBag(w, med, left, right)
    && (forall i :: 0 <= i < left ==> NotBelow(Abs(w[i] - med), merged))
    && (forall i :: right <= i < |w| ==> NotBelow(Abs(w[i] - med), merged))
  }

  lemma AppendKeepsSorted(a: seq<real>, b: seq<real>)
    requires Sorted(a) && Sorted(b)
    requires a != [] && b != [] ==> a[|a| - 1] <= b[0]
    ensures Sorted(a + b)
  {
  }

  lemma MergeLeft(w: seq<real>, med: real, left: nat, right: nat, merged: seq<real>, dev: real)
    requires Sorted(w) && Merge(w, med, left, right, merged)
    requires 0 < left <= LowerBound(w, med) <= right && dev == med - w[left - 1]
    requires right < |w| ==> dev <= w[right] - med
    ensures Merge(w, med, left - 1, right, merged + [dev])
  {
    var i := left - 1;
    assert Abs(w[i] - med) == dev;
    AppendKeepsSorted(merged, [dev]);
    forall k | 0 <= k < i || right <= k < |w|
      ensures NotBelow(Abs(w[k] - med), merged + [dev])
    {
      if k < i { assert w[k] <= w[i]; } else { assert w[right] <= w[k] || k == right; }
    }
  }

  lemma RightIsNext(w: seq<real>, med: real, left: nat, right: nat, dev: real, k: nat)
    requires Sorted(w) && left <= LowerBound(w, med) <= right < |w| && dev == w[right] - med
    requires left > 0 ==> dev <= med - w[left - 1]
    requires k < left || right <= k < |w|
    ensures dev <= Abs(w[k] - med)
  {
    if k < left {
      assert w[k] <= w[left - 1] || k == left - 1;
    } else {
      assert w[right] <= w[k] || k == right;
    }
  }

  lemma MergeRight(w: seq<real>, med: real, left: nat, right: nat, merged: seq<real>, dev: real)
    requires Sorted(w) && Merge(w, med, left, right, merged)
    requires left <= LowerBound(w, med) <= right < |w| && dev == w[right] - med
    requires left > 0 ==> dev <= med - w[left - 1]
    ensures Merge(w, med, left, right + 1, merged + [dev])
  {
    assert w[LowerBound(w, med)] <= w[right];
    assert Abs(w[right] - med) == dev;
    AppendKeepsSorted(merged, [dev]);
    DevBagGrows(w, med, left, right);
    forall k | 0 <= k < left || right < k < |w|
      ensures NotBelow(Abs(w[k] - med), merged + [dev])
    {
      RightIsNext(w, med, left, right, dev, k);
    }
  }

  lemma AbsDevsInThree(w: seq<real>, left: nat, right: nat, med: real)
    requires left <= right <= |w|
    ensures multiset(AbsDevs(w, med)) == multiset(AbsDevs(w[left..right], med))
                                         + multiset(AbsDevs(w[..left], med) + AbsDevs(w[right..], med))
  {
    assert w == w[..right] + w[right..] && w[..right] == w[..left] + w[left..right];
    AbsDevsConcat(w[..right], w[right..], med);
    AbsDevsConcat(w[..left], w[left..right], med);
  }

  lemma OthersNotBelow(w: seq<real>, med: real, left: nat, right: nat, merged: seq<real>, y: real)
    requires Merge(w, med, left, right, merged)
    requires y in AbsDevs(w[..left], med) + AbsDevs(w[right..], med)
    ensures NotBelow(y, merged)
  {
    if y in AbsDevs(w[..left], med) {
      var i :| 0 <= i < left && y == Abs(w[..left][i] - med);
    } else {
      var i :| 0 <= i < |w| - right && y == Abs(w[right..][i] - med);
      assert w[right..][i] == w[right + i];
    }
  }

  /** A merge of part of the window is the start of the sorted deviations. */
  lemma MergedIsPrefix(w: seq<real>, med: real, left: nat, right: nat, merged: seq<real>)
    requires Merge(w, med, left, right, merged)
    ensures merged <= Sort(AbsDevs(w, med))
  {
    var others := AbsDevs(w[..left], med) + AbsDevs(w[right..], med);
    var tail := Sort(others);
    SortSorts(others);
    if tail != [] {
      assert tail[0] in multiset(tail);
      OthersNotBelow(w, med, left, right, merged, tail[0]);
    }
    AppendKeepsSorted(merged, tail);
    AbsDevsInThree(w, left, right, med);
    DevBagOfSlice(w, med, left, right);
    SortedIsSort(merged + tail, AbsDevs(w, med));
  }

  /** Merging one more than half of the window decides its median deviation. */
  lemma MergedMiddle(w: seq<real>, med: real, left: nat, right: nat, merged: seq<real>)
    requires |w| > 0 && Merge(w, med, left, right, merged) && |merged| == |w| / 2 + 1
    ensures var mid := |w| / 2;
            Median(AbsDevs(w, med)) ==
              if |w| % 2 == 0 then 0.5 * (merged[mid] + merged[mid - 1]) else merged[mid]
  {
    MergedIsPrefix(w, med, left, right, merged);
    assert |AbsDevs(w, med)| == |w|;
  }

  /** One turn of the merge: the smaller of the two candidate deviations is taken. */
  method TakeNext(w: seq<real>, med: real, left: nat, right: nat, ghost merged: seq<real>)
    returns (dev: real, newLeft: nat, newRight: nat)
    requires Sorted(w) && Merge(w, med, left, right, merged)
    requires left <= LowerBound(w, med) <= right && right - left < |w|
    ensures Merge(w, med, newLeft, newRight, merged + [dev])
    ensures newLeft <= left && right <= newRight
  {
    var haveLeft := left > 0;
    var haveRight := right < |w|;
    var devLeft := if haveLeft then med - w[left - 1] else 0.0;
    var devRight := if haveRight then w[right] - med else 0.0;
    if haveLeft && (!haveRight || devLeft <= devRight) {
      dev, newLeft, newRight := devLeft, left - 1, right;
      MergeLeft(w, med, left, right, merged, dev);
    } else {
      dev, newLeft, newRight := devRight, left, right + 1;
      MergeRight(w, med, left, right, merged, dev);
    }
  }

  predicate LastTwo(merged: seq<real>, previous: real, current: real) {
    && (merged != [] ==> current == merged[|merged| - 1])
    && (|merged| >= 2 ==> previous == merged[|merged| - 2])
  }

  /** The loop of median_abs_deviation: one more than half of the deviations, in order. */
  method MergeHalf(w: seq<real>, med: real)
    returns (previous: real, current: real, ghost left: nat, ghost right: nat, ghost merged: seq<real>)
    requires Sorted(w) && |w| > 0
    ensures Merge(w, med, left, right, merged) && |merged| == |w| / 2 + 1
    ensures LastTwo(merged, previous, current)
  {
    var l: nat, r: nat := LowerBound(w, med), LowerBound(w, med);
    previous, current, merged := 0.0, 0.0, [];
    for taken := 0 to |w| / 2 + 1
      invariant l <= LowerBound(w, med) <= r && |merged| == taken
      invariant Merge(w, med, l, r, merged)
      invariant LastTwo(merged, previous, current)
    {
      previous := current;
      current, l, r := TakeNext(w, med, l, r, merged);
      merged := merged + [current];
    }
    left, right := l, r;
  }

  /** median_abs_deviation: merges the two sides of the window and stops in the middle. */
  method MedianAbsDeviation(w: seq<real>, med: real) returns (mad: real)
    requires Sorted(w) && |w| > 0
    ensures mad == Median(AbsDevs(w, med))
  {
    var previous, current, left, right, merged := MergeHalf(w, med);
    MergedMiddle(w, med, left, right, merged);
    mad := if |w| % 2 == 0 then 0.5 * (current + previous) else current;
  }

  // ---- the sliding window -----------------------------------------------------------------------

  lemma AbsDevsRemove(w: seq<real>, i: nat, med: real) returns (rest: seq<real>)
    requires i < |w|
    ensures |rest| == |w| - 1 && multiset(rest) == multiset(w) - multiset{w[i]}
    ensures multiset(AbsDevs(w, med)) == multiset(AbsDevs(rest, med)) + multiset{Abs(w[i] - med)}
  {
    rest := w[..i] + w[i + 1..];
    RemoveElements(w, i);
    AbsDevsInThree(w, i, i + 1, med);
    AbsDevsConcat(w[..i], w[i + 1..], med);
    assert w[i..i + 1] == [w[i]] && AbsDevs([w[i]], med) == [Abs(w[i] - med)];
  }

  lemma FirstOccursIn(a: seq<real>, b: seq<real>) returns (j: nat)
    requires multiset(a) == multiset(b) && a != []
    ensures j < |b| && b[j] == a[0]
  {
    assert a[0] in multiset(b);
    j :| 0 <= j < |b| && b[j] == a[0];
  }

  lemma SameRest(a: multiset<real>, b: multiset<real>, a': multiset<real>, b': multiset<real>, x: real)
    requires a == b && a' == a - multiset{x} && b' == b - multiset{x}
    ensures a' == b'
  {
  }

  lemma {:induction false} AbsDevsOfPermutation(a: seq<real>, b: seq<real>, med: real)
    requires multiset(a) == multiset(b)
    ensures multiset(AbsDevs(a, med)) == multiset(AbsDevs(b, med))
    decreases |a|
  {
    if a == [] {
      assert |multiset(b)| == 0;
      assert b == [];
    } else {
      var j := FirstOccursIn(a, b);
      var a' := AbsDevsRemove(a, 0, med);
      var b' := AbsDevsRemove(b, j, med);
      SameRest(multiset(a), multiset(b), multiset(a'), multiset(b'), a[0]);
      AbsDevsOfPermutation(a', b', med);
    }
  }

  lemma MedianDeviationOfPermutation(a: seq<real>, b: seq<real>, med: real)
    requires multiset(a) == multiset(b)
    ensures Median(AbsDevs(a, med)) == Median(AbsDevs(b, med))
  {
    AbsDevsOfPermutation(a, b, med);
    SortSorts(AbsDevs(a, med));
    SortedIsSort(Sort(AbsDevs(a, med)), AbsDevs(b, med));
    assert |multiset(a)| == |a| && |multiset(b)| == |b|;
  }

  lemma MedianOfSorted(w: seq<real>, values: seq<real>)
    requires Sorted(w) && multiset(w) == multiset(values) && values != []
    ensures w != [] && SortedMedian(w) == Median(values)
  {
    SortedIsSort(w, values);
  }

  /** The buffer is the sorted permutation of z[lo..end). */
  ghost predicate Holds(w: seq<real>, z: seq<real>, lo: nat, end: nat) {
    lo <= end <= |z| && Sorted(w) && multiset(w) == multiset(z[lo..end])
  }

  /** The value that leaves is present, and lower_bound finds it. */
  lemma LeavingValue(w: seq<real>, z: seq<real>, lo: nat, end: nat)
    requires Holds(w, z, lo, end) && lo < end
    ensures var i := LowerBound(w, z[lo]); i < |w| && Holds(RemoveAt(w, i), z, lo + 1, end)
  {
    assert z[lo..end] == [z[lo]] + z[lo + 1..end];
    assert z[lo] in multiset(w);
    LowerBoundFinds(w, z[lo]);
    RemoveElements(w, LowerBound(w, z[lo]));
    RemoveKeepsSorted(w, LowerBound(w, z[lo]));
  }

  lemma EnteringValue(w: seq<real>, z: seq<real>, lo: nat, end: nat)
    requires Holds(w, z, lo, end) && end < |z|
    ensures Holds(InsertAt(w, UpperBound(w, z[end]), z[end]), z, lo, end + 1)
  {
    assert z[lo..end + 1] == z[lo..end] + [z[end]];
    InsertElements(w, UpperBound(w, z[end]), z[end]);
    InsertKeepsSorted(w, z[end]);
  }

  /** The first inner loop: values before the new window leave. */
  method DropLeaving(window: seq<real>, z: seq<real>, lo: nat, end: nat, newLo: nat) returns (w: seq<real>)
    requires Holds(window, z, lo, end) && lo <= newLo <= end
    ensures Holds(w, z, newLo, end)
  {
    w := window;
    for i := lo to newLo
      invariant Holds(w, z, i, end)
    {
      w := EraseLeaving(w, z, i, end);
    }
  }

  method EraseLeaving(window: seq<real>, z: seq<real>, lo: nat, end: nat) returns (w: seq<real>)
    requires Holds(window, z, lo, end) && lo < end
    ensures Holds(w, z, lo + 1, end)
  {
    LeavingValue(window, z, lo, end);
    w := RemoveAt(window, LowerBound(window, z[lo]));
  }

  /** The second: values up to the end of the new window enter. */
  method AddEntering(window: seq<real>, z: seq<real>, lo: nat, end: nat, newEnd: nat) returns (w: seq<real>)
    requires Holds(window, z, lo, end) && end <= newEnd <= |z|
    ensures Holds(w, z, lo, newEnd)
  {
    w := window;
    for i := end to newEnd
      invariant Holds(w, z, lo, i)
    {
      w := InsertEntering(w, z, lo, i);
    }
  }

  method InsertEntering(window: seq<real>, z: seq<real>, lo: nat, end: nat) returns (w: seq<real>)
    requires Holds(window, z, lo, end) && end < |z|
    ensures Holds(w, z, lo, end + 1)
  {
    EnteringValue(window, z, lo, end);
    w := InsertAt(window, UpperBound(window, z[end]), z[end]);
  }

  method SlideWindow(window: seq<real>, z: seq<real>, lo: nat, end: nat, k: nat, radius: nat)
    returns (w: seq<real>, newLo: nat, newEnd: nat)
    requires k < |z| && lo <= Lo(k, radius) <= end <= End(|z|, k, radius)
    requires Holds(window, z, lo, end)
    ensures newLo == Lo(k, radius) && newEnd == End(|z|, k, radius)
    ensures Holds(w, z, newLo, newEnd)
  {
    newLo, newEnd := Lo(k, radius), End(|z|, k, radius);
    w := DropLeaving(window, z, lo, end, newLo);
    w := AddEntering(w, z, newLo, end, newEnd);
  }

  /** std::count_if over the flags. */
  method CountFlags(samples: seq<Sample>) returns (count: nat)
    ensures count == CountRemoved(samples)
  {
    count := 0;
    for i := 0 to |samples|
      invariant count == CountRemoved(samples[..i])
    {
      assert samples[..i + 1][..i] == samples[..i];
      if samples[i].flag != Kept {
        count := count + 1;
      }
    }
    assert samples[..|samples|] == samples;
  }

  /** The comparison of one kept sample with the median and deviation of its window. */
  method JudgeSample(window: seq<real>, z: seq<real>, k: nat, madK: real, radius: nat)
    returns (outlier: bool)
    requires k < |z| && Holds(window, z, Lo(k, radius), End(|z|, k, radius))
    ensures outlier == Verdicts(z, madK, radius)[k]
  {
    MedianOfSorted(window, Window(z, k, radius));
    var med := SortedMedian(window);
    var mad := MedianAbsDeviation(window, med);
    MedianDeviationOfPermutation(window, Window(z, k, radius), med);
    outlier := Exceeds(z[k], med, mad, madK);
  }

  method CollectKept(samples: seq<Sample>) returns (indices: seq<nat>, heights: seq<real>)
    ensures indices == KeptIndices(samples) && heights == KeptHeights(samples)
  {
    indices, heights := [], [];
    for i := 0 to |samples|
      invariant indices == KeptIndices(samples[..i])
      invariant |heights| == |indices|
      invariant forall k :: 0 <= k < |heights| ==> heights[k] == samples[indices[k]].z
    {
      assert samples[..i + 1][..i] == samples[..i];
      if samples[i].flag == Kept {
        indices := indices + [i];
        heights := heights + [samples[i].z];
      }
    }
    assert samples[..|samples|] == samples;
  }

  /** The main loop: a sorted window that one value enters and one leaves per step. */
  method FlagOutliers(samples: seq<Sample>, indices: seq<nat>, z: seq<real>, madK: real, radius: nat)
    returns (r: seq<Sample>)
    requires |indices| == |z|
    requires forall j :: 0 <= j < |indices| ==> indices[j] < |samples|
    ensures r == SetFlags(samples, indices, Verdicts(z, madK, radius), |z|)
  {
    var n := |z|;
    ghost var verdicts := Verdicts(z, madK, radius);
    r := samples;
    var window: seq<real> := [];
    var lo: nat, end: nat := 0, 0;
    for k := 0 to n
      invariant lo == (if k == 0 then 0 else Lo(k - 1, radius))
      invariant end == (if k == 0 then 0 else End(n, k - 1, radius))
      invariant Holds(window, z, lo, end)
      invariant r == SetFlags(samples, indices, verdicts, k)
    {
      window, lo, end := SlideWindow(window, z, lo, end, k, radius);
      var outlier := JudgeSample(window, z, k, madK, radius);
      if outlier {
        var i := indices[k];
        r := r[i := r[i].(flag := Outlier)];
      }
    }
  }

  /** apply_outlier_rejection equals the brute-force filter on every line, factor and radius. */
  method ApplyOutlierRejection(input: FilterResult, madK: real, windowRadius: int)
    returns (result: FilterResult)
    ensures result == Reference(input, madK, windowRadius)
  {
    var keptIndices, keptZ := CollectKept(input.samples);
    if |keptIndices| < 2 {
      return input;
    }
    var samples := FlagOutliers(input.samples, keptIndices, keptZ, madK, Radius(windowRadius));
    var removed := CountFlags(samples);
    result := input.(samples := samples, removedCount := removed,
                     removedFraction := removed as real / |samples| as real);
  }
}
