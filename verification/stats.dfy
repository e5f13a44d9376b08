/**
 * Column statistics as pandas computes them over the non-missing values of a
 * column (`Series.mean`, `Series.median`), in exact real arithmetic.
 */
module Stats {

  function Sum(xs: seq<real>): real
  {
    if xs == [] then 0.0 else xs[0] + Sum(xs[1..])
  }

  /** The arithmetic mean of a non-empty sample. */
  function Mean(xs: seq<real>): real
    requires xs != []
  {
    Sum(xs) / (|xs| as real)
  }

  function Min(xs: seq<real>): (m: real)
    requires xs != []
    ensures m in xs
    ensures forall k :: 0 <= k < |xs| ==> m <= xs[k]
  {
    if |xs| == 1 then xs[0]
    else var r := Min(xs[1..]); if xs[0] <= r then xs[0] else r
  }

  function Max(xs: seq<real>): (m: real)
    requires xs != []
    ensures m in xs
    ensures forall k :: 0 <= k < |xs| ==> xs[k] <= m
  {
    if |xs| == 1 then xs[0]
    else var r := Max(xs[1..]); if xs[0] >= r then xs[0] else r
  }

  /** The sum of a sample lies between its size times its minimum and its size times its maximum. */
  lemma {:induction false} SumBounds(xs: seq<real>, lo: real, hi: real)
    requires forall k :: 0 <= k < |xs| ==> lo <= xs[k] <= hi
    ensures (|xs| as real) * lo <= Sum(xs) <= (|xs| as real) * hi
  {
    if xs != [] {
      SumBounds(xs[1..], lo, hi);
    }
  }

  /** The mean lies between the smallest and the largest value of the sample. */
  lemma MeanWithinRange(xs: seq<real>)
    requires xs != []
    ensures Min(xs) <= Mean(xs) <= Max(xs)
  {
    var n, lo, hi := |xs| as real, Min(xs), Max(xs);
    SumBounds(xs, lo, hi);
    QuotientBounds(Sum(xs), n, lo, hi, Mean(xs));
  }

  lemma QuotientBounds(a: real, n: real, lo: real, hi: real, q: real)
    requires n > 0.0 && n * lo <= a <= n * hi && q == a / n
    ensures lo <= q <= hi
  {
    assert q * n == a;
    assert (q - lo) * n == a - n * lo;
    assert (hi - q) * n == n * hi - a;
  }

  predicate Sorted(xs: seq<real>)
  {
    forall i, j :: 0 <= i <= j < |xs| ==> xs[i] <= xs[j]
  }

  function Insert(x: real, s: seq<real>): (r: seq<real>)
    requires Sorted(s)
    ensures Sorted(r)
    ensures multiset(r) == multiset{x} + multiset(s)
  {
    if s == [] then [x]
    else if x <= s[0] then
      SortedCons(x, s);
      [x] + s
    else
      var t := Insert(x, s[1..]);
      assert s == [s[0]] + s[1..];
      assert forall k :: 0 <= k < |t| ==> s[0] <= t[k] by {
        forall k | 0 <= k < |t| ensures s[0] <= t[k] {
          assert t[k] in multiset(t);
        }
      }
      SortedCons(s[0], t);
      [s[0]] + t
  }

  /** A value no larger than any element of a sorted sequence can go in front. */
  lemma SortedCons(h: real, t: seq<real>)
    requires Sorted(t)
    requires forall k :: 0 <= k < |t| ==> h <= t[k]
    ensures Sorted([h] + t)
  {
  }

  /** The values in ascending order (the order `median` works on). */
  function Sort(xs: seq<real>): (r: seq<real>)
    ensures Sorted(r)
    ensures multiset(r) == multiset(xs)
  {
    if xs == [] then []
    else
      assert xs == [xs[0]] + xs[1..];
      Insert(xs[0], Sort(xs[1..]))
  }

  /**
   * The median of a non-empty sample: the middle value in sorted order, or the
   * average of the two middle values when the count is even.
   */
  function Median(xs: seq<real>): real
    requires xs != []
  {
    var s := Sort(xs);
    assert |s| == |multiset(s)| == |xs|;
    var n := |s|;
    if n % 2 == 1 then s[n / 2] else (s[n / 2 - 1] + s[n / 2]) / 2.0
  }

  /** The median lies between the smallest and the largest value of the sample. */
  lemma MedianWithinRange(xs: seq<real>)
    requires xs != []
    ensures Min(xs) <= Median(xs) <= Max(xs)
  {
    var s := Sort(xs);
    assert |s| == |multiset(s)| == |xs|;
    var n := |s|;
    forall k | 0 <= k < n ensures Min(xs) <= s[k] <= Max(xs) {
      assert s[k] in multiset(xs);
    }
  }

  /** For an odd count the median is one of the sample's values. */
  lemma MedianOfOddIsValue(xs: seq<real>)
    requires |xs| % 2 == 1
    ensures Median(xs) in xs
  {
    var s := Sort(xs);
    assert |s| == |multiset(s)| == |xs|;
    assert s[|s| / 2] in multiset(xs);
  }
}
