/** Columns of a data frame, with the pandas operations the signal code composes.
    A float cell is a real or NaN; every comparison with NaN is false. */
module Series {
  datatype Num = NaN | Val(v: real)

  predicate Less(a: Num, b: Num) {
    a.Val? && b.Val? && a.v < b.v
  }

  /** `series.shift(k)`: row i receives row i - k, the first k rows become NaN. */
  function Shift(s: seq<Num>, k: nat): (r: seq<Num>)
    ensures |r| == |s|
    ensures forall i :: 0 <= i < |s| ==> r[i] == if i >= k then s[i - k] else NaN
  {
    seq(|s|, i requires 0 <= i < |s| => if i >= k then s[i - k] else NaN)
  }

  /** The last value of s at or before row i that is not NaN. */
  function FillAt(s: seq<Num>, i: nat): Num
    requires i < |s|
  {
    if s[i].Val? || i == 0 then s[i] else FillAt(s, i - 1)
  }

  /** `series.ffill()`. */
  function FFill(s: seq<Num>): (r: seq<Num>)
    ensures |r| == |s|
    ensures forall i :: 0 <= i < |s| ==> r[i] == FillAt(s, i)
  {
    seq(|s|, i requires 0 <= i < |s| => FillAt(s, i))
  }

  /** `pd.merge_asof(..., direction="backward")`: the value beside the last time not after t. */
  function AsOf(times: seq<int>, values: seq<Num>, t: int): Num
    requires |times| == |values|
    decreases |times|
  {
    var n := |times|;
    if n == 0 then NaN
    else if times[n - 1] <= t then values[n - 1]
    else AsOf(times[..n - 1], values[..n - 1], t)
  }

  /** With q+1 times at most t, all before the others, the as-of value is the one at q. */
  lemma {:induction false} AsOfAt(times: seq<int>, values: seq<Num>, t: int, q: nat)
    requires |times| == |values| && q < |times|
    requires times[q] <= t
    requires forall k :: q < k < |times| ==> times[k] > t
    ensures AsOf(times, values, t) == values[q]
    decreases |times|
  {
    var n := |times|;
    if q >= n - 1 {
    } else {
      AsOfAt(times[..n - 1], values[..n - 1], t, q);
    }
  }

  lemma {:induction false} AsOfNone(times: seq<int>, values: seq<Num>, t: int)
    requires |times| == |values|
    requires forall k :: 0 <= k < |times| ==> times[k] > t
    ensures AsOf(times, values, t) == NaN
    decreases |times|
  {
    var n := |times|;
    if n == 0 {
    } else {
      AsOfNone(times[..n - 1], values[..n - 1], t);
    }
  }
}
