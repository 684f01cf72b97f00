/** Streaming an equity curve, batch by batch, down to a fixed number of points. */
module Downsample {
  import opened IntegerArithmetic
  import opened RealArithmetic
  import opened Wrappers

  datatype Point = Point(timestamp: int, equity: real, drawdown: real)

  /** The whole curve. */
  function Flatten(batches: seq<seq<Point>>): seq<Point> {
    if |batches| == 0 then [] else Flatten(batches[..|batches| - 1]) + batches[|batches| - 1]
  }

  /** `int(i * stride)` with stride = total / (max - 1). */
  function StrideIndex(total: nat, maxPoints: int, i: nat): int
    requires maxPoints >= 2
  {
    (i as real * (total as real / (maxPoints - 1) as real)).Floor
  }

  /** The reference: one row per stride, and the last row. */
  function Selection(total: nat, maxPoints: int): (r: seq<int>)
    requires maxPoints >= 2
    ensures |r| == maxPoints
  {
    seq(maxPoints - 1, i requires 0 <= i => StrideIndex(total, maxPoints, i)) + [total - 1]
  }

  predicate StrictlyIncreasing(xs: seq<int>) {
    forall i, j | 0 <= i < j < |xs| :: xs[i] < xs[j]
  }

  predicate Within(xs: seq<int>, lo: int, hi: int) {
    forall i | 0 <= i < |xs| :: lo <= xs[i] < hi
  }

  /** When there are more rows than points, the selection names as many different rows as
      there are points, in order, the first and the last row among them. */
  lemma {:induction false} SelectionMeans(total: nat, maxPoints: int)
    requires total > maxPoints >= 2
    ensures var xs := Selection(total, maxPoints);
      && |xs| == maxPoints && StrictlyIncreasing(xs) && Within(xs, 0, total)
      && xs[0] == 0 && xs[maxPoints - 1] == total - 1
  {
    hide StrideIndex;
    var xs := Selection(total, maxPoints);
    StrideBounds(total, maxPoints, 0);
    forall i, j | 0 <= i < j < |xs|
      ensures xs[i] < xs[j]
    {
      StrideBounds(total, maxPoints, i);
      if j < maxPoints - 1 {
        StridesIncrease(total, maxPoints, i, j);
      }
    }
    forall i | 0 <= i < |xs|
      ensures 0 <= xs[i] < total
    {
      if i < maxPoints - 1 {
        StrideBounds(total, maxPoints, i);
      }
    }
  }

  lemma {:induction false} StridesIncrease(total: nat, maxPoints: int, i: nat, j: nat)
    requires total > maxPoints >= 2 && i < j
    ensures StrideIndex(total, maxPoints, i) < StrideIndex(total, maxPoints, j)
  {
    StepsApart(i, j, total as real / (maxPoints - 1) as real);
  }

  /** The strides start at row 0 and stop before the last row. */
  lemma {:induction false} StrideBounds(total: nat, maxPoints: int, i: nat)
    requires total > maxPoints >= 2 && i < maxPoints - 1
    ensures StrideIndex(total, maxPoints, 0) == 0
    ensures 0 <= StrideIndex(total, maxPoints, i) < total - 1
  {
    StepsApart(i, maxPoints - 1, total as real / (maxPoints - 1) as real);
    if i > 0 {
      StridesIncrease(total, maxPoints, 0, i);
    }
  }

  /** Steps of more than one never share a floor, and end more than one apart. */
  lemma StepsApart(i: nat, j: nat, stride: real)
    requires i < j && stride > 1.0
    ensures (i as real * stride).Floor < (j as real * stride).Floor
    ensures i as real * stride < j as real * stride - 1.0
  {
  }

  /** Every selected row before the last is the integer quotient of `i * total` by the number of
      gaps, so neighbouring rows are the whole stride apart, or one row more. */
  lemma {:induction false} SelectionIsEven(total: nat, maxPoints: int, i: nat)
    requires total > maxPoints >= 2 && i < maxPoints - 1
    ensures var xs, gaps := Selection(total, maxPoints), maxPoints - 1;
      && xs[i] == i * total / gaps
      && (i + 1 < gaps ==> total / gaps <= xs[i + 1] - xs[i] <= total / gaps + 1)
      && (i + 1 == gaps ==> xs[i + 1] - xs[i] <= total / gaps + 1)
  {
    var gaps: Positive := maxPoints - 1;
    StrideIsQuotient(total, gaps, i);
    if i + 1 < gaps {
      StrideIsQuotient(total, gaps, i + 1);
    }
    QuotientStep(i * total, total, gaps);
    assert (i + 1) * total == i * total + total;
    if i + 1 == gaps {
      DivUnique(gaps * total, gaps, total);
    }
  }

  lemma {:induction false} StrideIsQuotient(total: nat, gaps: Positive, i: nat)
    ensures StrideIndex(total, gaps + 1, i) == i * total / gaps
  {
    var stride, k := total as real / gaps as real, StrideIndex(total, gaps + 1, i);
    assert stride * gaps as real == total as real;
    Scaled(i, total, gaps, stride, k);
    DivUnique(i * total, gaps, k);
  }

  lemma {:induction false} Scaled(i: nat, total: nat, gaps: Positive, stride: real, k: int)
    requires stride * gaps as real == total as real && k as real <= i as real * stride < k as real + 1.0
    ensures k * gaps <= i * total < k * gaps + gaps
  {
    var x, g := i as real * stride, gaps as real;
    CompareScaled(x, k as real, g);
    CompareScaled(x, k as real + 1.0, g);
    Associate(i as real, stride, g);
    assert x * g == i as real * total as real;
    assert (k * gaps) as real == k as real * g;
    assert (i * total) as real == i as real * total as real;
    assert (k as real + 1.0) * g == k as real * g + g;
  }

  lemma Associate(x: real, y: real, z: real)
    ensures x * y * z == x * (y * z)
  {
  }

  lemma {:induction false} QuotientStep(a: int, b: int, n: Positive)
    ensures b / n <= (a + b) / n - a / n <= b / n + 1
  {
    DivBounds(a, n);
    DivBounds(b, n);
    var q, carry := a / n + b / n, a % n + b % n;
    assert (a / n) * n + (b / n) * n == q * n;
    if carry < n {
      DivUnique(a + b, n, q);
    } else {
      assert (q + 1) * n == q * n + n;
      DivUnique(a + b, n, q + 1);
    }
  }

  /** The members of a set in [lo, hi), ascending. */
  function Ascending(s: set<int>, lo: int, hi: int): seq<int>
    decreases hi - lo
  {
    if lo >= hi then []
    else if hi - 1 in s then Ascending(s, lo, hi - 1) + [hi - 1]
    else Ascending(s, lo, hi - 1)
  }

  lemma {:induction false} AscendingSplit(s: set<int>, lo: int, mid: int, hi: int)
    requires lo <= mid <= hi
    ensures Ascending(s, lo, hi) == Ascending(s, lo, mid) + Ascending(s, mid, hi)
    decreases hi - mid
  {
    if mid >= hi {
    } else {
      AscendingSplit(s, lo, mid, hi - 1);
    }
  }

  lemma {:induction false} AscendingWithin(s: set<int>, lo: int, hi: int)
    ensures Within(Ascending(s, lo, hi), lo, hi)
    decreases hi - lo
  {
    if lo >= hi {
    } else {
      AscendingWithin(s, lo, hi - 1);
    }
  }

  function Members(xs: seq<int>): set<int> {
    set x | x in xs
  }

  /** A strictly increasing list is the ascending list of its members. */
  lemma {:induction false} IncreasingIsAscending(xs: seq<int>, lo: int, hi: int)
    requires StrictlyIncreasing(xs) && Within(xs, lo, hi)
    ensures Ascending(Members(xs), lo, hi) == xs
    decreases hi - lo
  {
    var n := |xs|;
    if n == 0 {
      NoneAscending(lo, hi);
      assert Members(xs) == {};
    } else if xs[n - 1] == hi - 1 {
      var init := xs[..n - 1];
      IncreasingIsAscending(init, lo, hi - 1);
      AscendingSame(Members(init), Members(xs), lo, hi - 1);
      assert init + [hi - 1] == xs;
    } else {
      IncreasingIsAscending(xs, lo, hi - 1);
      assert hi - 1 !in Members(xs);
    }
  }

  lemma {:induction false} NoneAscending(lo: int, hi: int)
    ensures Ascending({}, lo, hi) == []
    decreases hi - lo
  {
    if lo >= hi {
    } else {
      NoneAscending(lo, hi - 1);
    }
  }

  lemma {:induction false} AscendingSame(s: set<int>, t: set<int>, lo: int, hi: int)
    requires forall x | lo <= x < hi :: x in s <==> x in t
    ensures Ascending(s, lo, hi) == Ascending(t, lo, hi)
    decreases hi - lo
  {
    if lo >= hi {
    } else {
      AscendingSame(s, t, lo, hi - 1);
    }
  }

  /** The rows of a curve at some indices. */
  function At(curve: seq<Point>, xs: seq<int>): (r: seq<Point>)
    requires Within(xs, 0, |curve|)
    ensures |r| == |xs|
  {
    seq(|xs|, k requires 0 <= k < |xs| => curve[xs[k]])
  }

  /** One batch extends a selection from the rows before it. */
  lemma {:induction false} NextBatch(curve: seq<Point>, batch: seq<Point>, targets: set<int>, local: seq<int>)
    requires var xs := Ascending(targets, |curve|, |curve| + |batch|);
      |local| == |xs| && forall k | 0 <= k < |xs| :: local[k] == xs[k] - |curve|
    ensures Within(local, 0, |batch|) && Within(Ascending(targets, 0, |curve|), 0, |curve|)
    ensures Within(Ascending(targets, 0, |curve + batch|), 0, |curve + batch|)
    ensures At(curve + batch, Ascending(targets, 0, |curve + batch|))
      == At(curve, Ascending(targets, 0, |curve|)) + At(batch, local)
  {
    var before, xs := Ascending(targets, 0, |curve|), Ascending(targets, |curve|, |curve| + |batch|);
    AscendingWithin(targets, 0, |curve|);
    AscendingWithin(targets, |curve|, |curve| + |batch|);
    AscendingWithin(targets, 0, |curve| + |batch|);
    AscendingSplit(targets, 0, |curve|, |curve| + |batch|);
  }

  /** `_downsample_equity_curve`: however the rows are cut into batches, the selected rows of the
      whole curve come out. One requested point is a division by zero (None), and fewer than one
      give the last row alone. */
  method DownsampleEquityCurve(batches: seq<seq<Point>>, maxPoints: int) returns (sampled: Option<seq<Point>>)
    ensures var curve := Flatten(batches);
      && (|curve| == 0 || |curve| <= maxPoints ==> sampled == Some(curve))
      && (|curve| > 1 == maxPoints ==> sampled == None)
      && (|curve| > 0 && maxPoints < 1 ==> sampled == Some([curve[|curve| - 1]]))
      && (|curve| > maxPoints >= 2 ==>
            Within(Selection(|curve|, maxPoints), 0, |curve|)
            && sampled == Some(At(curve, Selection(|curve|, maxPoints))))
  {
    var total := 0;
    for i := 0 to |batches|
      invariant total == |Flatten(batches[..i])|
    {
      assert batches[..i + 1][..i] == batches[..i];
      total := total + |batches[i]|;
    }
    assert batches[..|batches|] == batches;
    if total == 0 {
      return Some([]);
    }
    if total <= maxPoints {
      var points := CopyAll(batches);
      return Some(points);
    }
    if maxPoints == 1 {
      return None;
    }
    var targets := {total - 1};
    if maxPoints >= 2 {
      targets := Members(Selection(total, maxPoints));
      SelectionMeans(total, maxPoints);
      IncreasingIsAscending(Selection(total, maxPoints), 0, total);
    } else {
      OnlyLast(total);
    }
    var rows := Sample(batches, targets);
    if maxPoints < 1 {
      assert rows == [Flatten(batches)[total - 1]];
    }
    sampled := Some(rows);
  }

  lemma {:induction false} OnlyLast(total: nat)
    requires total >= 1
    ensures Ascending({total - 1}, 0, total) == [total - 1]
  {
    IncreasingIsAscending([total - 1], 0, total);
    assert Members([total - 1]) == {total - 1};
  }

  method CopyAll(batches: seq<seq<Point>>) returns (points: seq<Point>)
    ensures points == Flatten(batches)
  {
    points := [];
    for i := 0 to |batches|
      invariant points == Flatten(batches[..i])
    {
      assert batches[..i + 1][..i] == batches[..i];
      points := points + batches[i];
    }
    assert batches[..|batches|] == batches;
  }

  /** The second pass: local targets of every batch, offset by the rows before it. */
  method Sample(batches: seq<seq<Point>>, targets: set<int>) returns (sampled: seq<Point>)
    ensures var curve := Flatten(batches);
      Within(Ascending(targets, 0, |curve|), 0, |curve|) && sampled == At(curve, Ascending(targets, 0, |curve|))
  {
    sampled := [];
    var globalOffset := 0;
    for i := 0 to |batches|
      invariant globalOffset == |Flatten(batches[..i])|
      invariant Within(Ascending(targets, 0, globalOffset), 0, globalOffset)
      invariant sampled == At(Flatten(batches[..i]), Ascending(targets, 0, globalOffset))
    {
      assert batches[..i + 1][..i] == batches[..i];
      var batch := batches[i];
      var batchEnd := globalOffset + |batch|;
      var inBatch := Ascending(targets, globalOffset, batchEnd);
      var localTargets := seq(|inBatch|, k requires 0 <= k < |inBatch| => inBatch[k] - globalOffset);
      NextBatch(Flatten(batches[..i]), batch, targets, localTargets);
      for k := 0 to |localTargets|
        invariant sampled ==
          At(Flatten(batches[..i]), Ascending(targets, 0, globalOffset)) + At(batch, localTargets)[..k]
      {
        sampled := sampled + [batch[localTargets[k]]];
      }
      globalOffset := batchEnd;
    }
    assert batches[..|batches|] == batches;
  }
}
