/** NumPy's default (`linear`) percentile, Hyndman and Fan's definition 7:
    sort the sample, take the virtual rank h = (n - 1) * p / 100 and
    interpolate linearly between the two order statistics around h. */
module Percentiles {
  import opened Sorting

  function RealLe(x: real, y: real): bool { x <= y }

  lemma RealLeIsTotalPreorder()
    ensures TotalPreorder(RealLe)
  {
  }

  /** The sample in increasing order. */
  function SortReals(col: seq<real>): (s: seq<real>)
    ensures |s| == |col|
    ensures multiset(s) == multiset(col)
    ensures forall i, j :: 0 <= i < j < |s| ==> s[i] <= s[j]
  {
    RealLeIsTotalPreorder();
    var s := SortBy(col, RealLe);
    assert forall i, j :: 0 <= i < j < |s| ==> RealLe(s[i], s[j]);
    s
  }

  /** The virtual rank of percentile `p` in a sample of size `n`. */
  function Rank(n: nat, p: real): (h: real)
    requires n >= 1 && 0.0 <= p <= 100.0
    ensures 0.0 <= h <= (n - 1) as real
  {
    var m := (n - 1) as real;
    assert m * p <= m * 100.0;
    m * p / 100.0
  }

  /** Linear interpolation in the increasing sequence `s` at rank `h`;
      at the last rank there is no upper neighbour and the last element is used. */
  function Interpolate(s: seq<real>, h: real): real
    requires |s| >= 1 && 0.0 <= h <= (|s| - 1) as real
  {
    var lo := h.Floor;
    var hi := if lo + 1 < |s| then lo + 1 else lo;
    s[lo] + (h - lo as real) * (s[hi] - s[lo])
  }

  function Percentile(col: seq<real>, p: real): real
    requires |col| >= 1 && 0.0 <= p <= 100.0
  {
    Interpolate(SortReals(col), Rank(|col|, p))
  }

  /** The interpolated value lies between the order statistics at floor(h) and the next rank. */
  lemma InterpolateBetween(s: seq<real>, h: real)
    requires |s| >= 1 && 0.0 <= h <= (|s| - 1) as real
    requires forall i, j :: 0 <= i < j < |s| ==> s[i] <= s[j]
    ensures var lo := h.Floor;
      && s[lo] <= Interpolate(s, h)
      && Interpolate(s, h) <= s[if lo + 1 < |s| then lo + 1 else lo]
  {
    var lo := h.Floor;
    var hi := if lo + 1 < |s| then lo + 1 else lo;
    var t, d := h - lo as real, s[hi] - s[lo];
    assert 0.0 <= t < 1.0 && 0.0 <= d;
    MulNonnegative(t, d);
    MulNonnegative(1.0 - t, d);
    assert t * d + (1.0 - t) * d == d;
  }

  lemma MulNonnegative(x: real, y: real)
    requires 0.0 <= x && 0.0 <= y
    ensures 0.0 <= x * y
  {
  }

  /** Interpolation in an increasing sequence is increasing in the rank. */
  lemma InterpolateMonotone(s: seq<real>, h1: real, h2: real)
    requires |s| >= 1 && 0.0 <= h1 <= h2 <= (|s| - 1) as real
    requires forall i, j :: 0 <= i < j < |s| ==> s[i] <= s[j]
    ensures Interpolate(s, h1) <= Interpolate(s, h2)
  {
    var lo1, lo2 := h1.Floor, h2.Floor;
    InterpolateBetween(s, h1);
    InterpolateBetween(s, h2);
    if lo1 == lo2 {
      var hi := if lo1 + 1 < |s| then lo1 + 1 else lo1;
      var d := s[hi] - s[lo1];
      MulNonnegative(h2 - h1, d);
      assert (h2 - lo1 as real) * d == (h1 - lo1 as real) * d + (h2 - h1) * d;
    } else {
      assert lo1 + 1 <= lo2 < |s|;
      assert s[lo1 + 1] <= s[lo2];
    }
  }

  /** A higher percentile is never below a lower one of the same sample. */
  lemma PercentileMonotone(col: seq<real>, p: real, q: real)
    requires |col| >= 1 && 0.0 <= p <= q <= 100.0
    ensures Percentile(col, p) <= Percentile(col, q)
  {
    var m := (|col| - 1) as real;
    MulNonnegative(m, q - p);
    assert m * p / 100.0 <= m * q / 100.0;
    InterpolateMonotone(SortReals(col), Rank(|col|, p), Rank(|col|, q));
  }

  /** The first and last order statistics are the sample's minimum and maximum. */
  lemma SortedEnds(col: seq<real>)
    requires |col| >= 1
    ensures SortReals(col)[0] in col && SortReals(col)[|col| - 1] in col
    ensures forall k :: 0 <= k < |col| ==> SortReals(col)[0] <= col[k] <= SortReals(col)[|col| - 1]
  {
    var s := SortReals(col);
    assert s[0] in multiset(col) && s[|s| - 1] in multiset(col);
    forall k | 0 <= k < |col| ensures s[0] <= col[k] <= s[|s| - 1] {
      assert col[k] in multiset(s);
      var m :| 0 <= m < |s| && s[m] == col[k];
    }
  }

  /** At rank 0 and at the last rank interpolation returns the end elements. */
  lemma InterpolateEnds(s: seq<real>)
    requires |s| >= 1
    ensures Interpolate(s, 0.0) == s[0]
    ensures Interpolate(s, (|s| - 1) as real) == s[|s| - 1]
  {
    assert ((|s| - 1) as real).Floor == |s| - 1;
  }

  /** Every percentile lies between the smallest and the largest value of the sample. */
  lemma PercentileWithinSample(col: seq<real>, p: real)
    requires |col| >= 1 && 0.0 <= p <= 100.0
    ensures exists i :: 0 <= i < |col| && col[i] <= Percentile(col, p)
    ensures exists j :: 0 <= j < |col| && Percentile(col, p) <= col[j]
    ensures forall k :: 0 <= k < |col| ==> Percentile(col, 0.0) <= col[k] <= Percentile(col, 100.0)
  {
    var s := SortReals(col);
    var n := |s|;
    assert Rank(n, 0.0) == 0.0;
    assert Rank(n, 100.0) == (n - 1) as real;
    InterpolateMonotone(s, 0.0, Rank(n, p));
    InterpolateMonotone(s, Rank(n, p), (n - 1) as real);
    InterpolateEnds(s);
    SortedEnds(col);
    var i :| 0 <= i < |col| && col[i] == s[0];
    var j :| 0 <= j < |col| && col[j] == s[n - 1];
  }

  /** A sample whose values all equal `c` has every percentile equal to `c`. */
  lemma PercentileOfConstant(col: seq<real>, p: real, c: real)
    requires |col| >= 1 && 0.0 <= p <= 100.0
    requires forall i :: 0 <= i < |col| ==> col[i] == c
    ensures Percentile(col, p) == c
  {
    var s := SortReals(col);
    forall k | 0 <= k < |s| ensures s[k] == c {
      assert s[k] in multiset(col);
      var m :| 0 <= m < |col| && col[m] == s[k];
    }
    var h := Rank(|col|, p);
    var lo := h.Floor;
    var hi := if lo + 1 < |s| then lo + 1 else lo;
    assert s[lo] == c && s[hi] == c;
  }
}
