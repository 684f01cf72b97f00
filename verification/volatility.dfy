/** Average true range: Wilder smoothing over bars 0..i, NaN until `period` bars exist. */
module Volatility {
  import opened Series
  import opened Bars

  /** A window length; zero makes the source divide by zero. */
  type Period = p: nat | p >= 1 witness 1

  function Abs(x: real): real { if x < 0.0 then -x else x }

  function Max(a: real, b: real): real { if a >= b then a else b }

  function Min(a: real, b: real): real { if a <= b then a else b }

  /** The row maximum skips the NaN cells of bar 0, which has no previous close. */
  function TrueRange(rows: seq<Bar>, i: nat): real
    requires i < |rows|
  {
    var span := rows[i].high - rows[i].low;
    if i == 0 then span else
      Max(span, Max(Abs(rows[i].high - rows[i - 1].close), Abs(rows[i].low - rows[i - 1].close)))
  }

  function Blend(alpha: real, before: real, now: real): real {
    (1.0 - alpha) * before + alpha * now
  }

  /** `ewm(alpha, adjust=False).mean()` at row i. */
  function Smoothed(rows: seq<Bar>, alpha: real, i: nat): real
    requires i < |rows|
  {
    if i == 0 then TrueRange(rows, 0)
    else Blend(alpha, Smoothed(rows, alpha, i - 1), TrueRange(rows, i))
  }

  function Atr(rows: seq<Bar>, period: Period): (r: seq<Num>)
    ensures |r| == |rows|
  {
    seq(|rows|, i requires 0 <= i < |rows| =>
      if i + 1 < period then NaN else Val(Smoothed(rows, 1.0 / period as real, i)))
  }

  lemma {:induction false} SmoothedFromPrefix(a: seq<Bar>, b: seq<Bar>, alpha: real, i: nat)
    requires i < |a| && i < |b|
    requires forall k :: 0 <= k <= i ==> a[k] == b[k]
    ensures Smoothed(a, alpha, i) == Smoothed(b, alpha, i)
  {
    assert TrueRange(a, i) == TrueRange(b, i);
    if i == 0 {
    } else {
      SmoothedFromPrefix(a, b, alpha, i - 1);
    }
  }

  /** ATR at bar i is a function of bars 0..i. */
  lemma {:induction false} AtrFromPrefix(a: seq<Bar>, b: seq<Bar>, period: Period, i: nat)
    requires i < |a| && i < |b| && a[..i + 1] == b[..i + 1]
    ensures Atr(a, period)[i] == Atr(b, period)[i]
  {
    assert forall k :: 0 <= k <= i ==> a[k] == a[..i + 1][k] == b[k];
    SmoothedFromPrefix(a, b, 1.0 / period as real, i);
  }

  /** The true range is the span of the bar together with the close before it. */
  lemma TrueRangeMeans(rows: seq<Bar>, i: nat)
    requires i < |rows| && rows[i].low <= rows[i].high
    ensures TrueRange(rows, i) ==
      if i == 0 then rows[i].high - rows[i].low
      else Max(rows[i].high, rows[i - 1].close) - Min(rows[i].low, rows[i - 1].close)
  {
  }

  function Power(x: real, n: nat): real {
    if n == 0 then 1.0 else x * Power(x, n - 1)
  }

  /** What bar k is worth at bar i: alpha * (1 - alpha)^(i - k), and bar 0 the rest. */
  function Share(alpha: real, i: nat, k: nat): real
    requires k <= i
  {
    if k == 0 then Power(1.0 - alpha, i) else alpha * Power(1.0 - alpha, i - k)
  }

  /** The weighted sum of the true ranges of bars 0..k. */
  function Weighted(rows: seq<Bar>, alpha: real, i: nat, k: nat): real
    requires k <= i < |rows|
  {
    (if k == 0 then 0.0 else Weighted(rows, alpha, i, k - 1)) + Share(alpha, i, k) * TrueRange(rows, k)
  }

  lemma ShareDecays(alpha: real, i: nat, k: nat)
    requires k <= i
    ensures Share(alpha, i + 1, k) == (1.0 - alpha) * Share(alpha, i, k)
  {
    var r := 1.0 - alpha;
    assert Power(r, i - k + 1) == r * Power(r, i - k);
    assert alpha * (r * Power(r, i - k)) == r * (alpha * Power(r, i - k));
  }

  lemma {:induction false} WeightedDecays(rows: seq<Bar>, alpha: real, i: nat, k: nat)
    requires k <= i && i + 1 < |rows|
    ensures Weighted(rows, alpha, i + 1, k) == (1.0 - alpha) * Weighted(rows, alpha, i, k)
  {
    hide TrueRange, Share;
    var r := 1.0 - alpha;
    ShareDecays(alpha, i, k);
    if k == 0 {
      Distribute(r, 0.0, Share(alpha, i, k), TrueRange(rows, k));
    } else {
      WeightedDecays(rows, alpha, i, k - 1);
      Distribute(r, Weighted(rows, alpha, i, k - 1), Share(alpha, i, k), TrueRange(rows, k));
    }
  }

  lemma Distribute(r: real, before: real, w: real, t: real)
    ensures r * before + (r * w) * t == r * (before + w * t)
  {
    assert (r * w) * t == r * (w * t);
  }

  /** ATR is Wilder's smoothing: NaN before `period` bars, then the exponentially weighted mean of
      all true ranges so far. */
  lemma {:induction false} AtrMeans(rows: seq<Bar>, period: Period, i: nat)
    requires i < |rows|
    ensures Atr(rows, period)[i] ==
      if i < period - 1 then NaN else Val(Weighted(rows, 1.0 / period as real, i, i))
  {
    SmoothedIsWeighted(rows, 1.0 / period as real, i);
  }

  lemma {:induction false} SmoothedIsWeighted(rows: seq<Bar>, alpha: real, i: nat)
    requires i < |rows|
    ensures Smoothed(rows, alpha, i) == Weighted(rows, alpha, i, i)
  {
    hide TrueRange, Share;
    OwnShare(alpha, i);
    if i == 0 {
    } else {
      SmoothedIsWeighted(rows, alpha, i - 1);
      WeightedDecays(rows, alpha, i - 1, i - 1);
    }
  }

  lemma OwnShare(alpha: real, i: nat)
    ensures Share(alpha, i, i) == if i == 0 then 1.0 else alpha
  {
  }
}
