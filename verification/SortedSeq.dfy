/** Sorted sequences of reals and the two binary searches of the C++ library. */
module SortedSeq {
  predicate Sorted(w: seq<real>) {
    forall i, j :: 0 <= i < j < |w| ==> w[i] <= w[j]
  }

  /** std::lower_bound: the first position whose value is not below v. */
  function LowerBound(w: seq<real>, v: real): (r: nat)
    ensures r <= |w|
    ensures forall i :: 0 <= i < r ==> w[i] < v
    ensures r < |w| ==> w[r] >= v
  {
    if w == [] || w[0] >= v then 0
    else
      var r := LowerBound(w[1..], v);
      assert forall i :: 1 <= i <= r ==> w[i] == w[1..][i - 1];
      r + 1
  }

  /** std::upper_bound: the first position whose value is above v. */
  function UpperBound(w: seq<real>, v: real): (r: nat)
    ensures r <= |w|
    ensures forall i :: 0 <= i < r ==> w[i] <= v
    ensures r < |w| ==> w[r] > v
  {
    if w == [] || w[0] > v then 0
    else
      var r := UpperBound(w[1..], v);
      assert forall i :: 1 <= i <= r ==> w[i] == w[1..][i - 1];
      r + 1
  }

  function InsertAt(w: seq<real>, i: nat, v: real): seq<real>
    requires i <= |w|
  {
    w[..i] + [v] + w[i..]
  }

  function RemoveAt(w: seq<real>, i: nat): seq<real>
    requires i < |w|
  {
    w[..i] + w[i + 1..]
  }

  lemma InsertElements(w: seq<real>, i: nat, v: real)
    requires i <= |w|
    ensures multiset(InsertAt(w, i, v)) == multiset(w) + multiset{v}
  {
    assert w == w[..i] + w[i..];
  }

  lemma InsertKeepsSorted(w: seq<real>, v: real)
    requires Sorted(w)
    ensures Sorted(InsertAt(w, UpperBound(w, v), v))
  {
    var i := UpperBound(w, v);
    var r := InsertAt(w, i, v);
    forall a, b | 0 <= a < b < |r|
      ensures r[a] <= r[b]
    {
      assert a < i ==> r[a] == w[a];
      assert b < i ==> r[b] == w[b];
      assert i < a ==> r[a] == w[a - 1];
      assert i < b ==> r[b] == w[b - 1];
    }
  }

  lemma RemoveElements(w: seq<real>, i: nat)
    requires i < |w|
    ensures multiset(RemoveAt(w, i)) == multiset(w) - multiset{w[i]}
  {
    assert w == w[..i] + ([w[i]] + w[i + 1..]);
  }

  lemma RemoveKeepsSorted(w: seq<real>, i: nat)
    requires Sorted(w) && i < |w|
    ensures Sorted(RemoveAt(w, i))
  {
    var r := RemoveAt(w, i);
    assert forall k :: i <= k < |r| ==> r[k] == w[k + 1];
  }

  /** A value that is in a sorted sequence is where lower_bound points. */
  lemma LowerBoundFinds(w: seq<real>, v: real)
    requires Sorted(w) && v in w
    ensures LowerBound(w, v) < |w| && w[LowerBound(w, v)] == v
  {
    var j :| 0 <= j < |w| && w[j] == v;
    assert LowerBound(w, v) <= j;
  }

  /** Insertion sort, the reference order. */
  function Sort(s: seq<real>): (w: seq<real>)
    ensures |w| == |s|
  {
    if s == [] then []
    else
      var n := |s| - 1;
      var w := Sort(s[..n]);
      InsertAt(w, UpperBound(w, s[n]), s[n])
  }

  lemma InsertSorts(w: seq<real>, v: real)
    requires Sorted(w)
    ensures var r := InsertAt(w, UpperBound(w, v), v);
            Sorted(r) && multiset(r) == multiset(w) + multiset{v}
  {
    InsertKeepsSorted(w, v);
    InsertElements(w, UpperBound(w, v), v);
  }

  lemma LastElement(s: seq<real>, n: nat)
    requires |s| == n + 1
    ensures multiset(s) == multiset(s[..n]) + multiset{s[n]}
  {
    assert s == s[..n] + [s[n]];
  }

  lemma {:induction false} SortSorts(s: seq<real>)
    ensures Sorted(Sort(s)) && multiset(Sort(s)) == multiset(s)
    decreases |s|
  {
    if s != [] {
      var n := |s| - 1;
      SortSorts(s[..n]);
      InsertSorts(Sort(s[..n]), s[n]);
      LastElement(s, n);
    }
  }

  lemma FirstIsLeast(a: seq<real>, v: real)
    requires Sorted(a) && v in multiset(a)
    ensures a != [] && a[0] <= v
  {
    var j :| 0 <= j < |a| && a[j] == v;
  }

  lemma TailElements(a: seq<real>)
    requires a != [] && Sorted(a)
    ensures multiset(a[1..]) == multiset(a) - multiset{a[0]} && Sorted(a[1..])
  {
    assert a == [a[0]] + a[1..];
  }

  lemma SameFirst(a: seq<real>, b: seq<real>)
    requires Sorted(a) && Sorted(b) && multiset(a) == multiset(b) && a != []
    ensures b != [] && a[0] == b[0]
  {
    assert a[0] in multiset(a);
    FirstIsLeast(b, a[0]);
    assert b[0] in multiset(b);
    FirstIsLeast(a, b[0]);
  }

  lemma SameParts(a: seq<real>, b: seq<real>)
    requires a != [] && b != [] && a[0] == b[0] && a[1..] == b[1..]
    ensures a == b
  {
    assert a == [a[0]] + a[1..] && b == [b[0]] + b[1..];
  }

  /** There is only one way to sort. */
  lemma {:induction false} SortedIsUnique(a: seq<real>, b: seq<real>)
    requires Sorted(a) && Sorted(b) && multiset(a) == multiset(b)
    ensures a == b
    decreases |a|
  {
    if a == [] {
      assert |multiset(b)| == 0;
    } else {
      SameFirst(a, b);
      TailElements(a);
      TailElements(b);
      SortedIsUnique(a[1..], b[1..]);
      SameParts(a, b);
    }
  }

  lemma SortedIsSort(w: seq<real>, s: seq<real>)
    requires Sorted(w) && multiset(w) == multiset(s)
    ensures w == Sort(s)
  {
    SortSorts(s);
    SortedIsUnique(w, Sort(s));
  }
}
