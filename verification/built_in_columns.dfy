/** The end-to-end claim for the indicators the strategies use, and the two indicators
    it must not be made for. */
module BuiltInColumns {
  import opened Wrappers
  import opened Series
  import opened Bars
  import opened Volatility
  import opened Swings
  import opened IntegerArithmetic
  import opened Rollup
  import opened SignalPipeline
  import ChannelBreakout
  import SwingPullback

  datatype BuiltIn =
    | AtrColumn(period: Period)
    | MarketStructureColumn(swingBars: nat)
    | ChannelBreakoutColumn(cp: ChannelBreakout.Params)
    | SwingPullbackColumn(sp: SwingPullback.Params)

  function AtrRows(period: Period): RowIndicator {
    (rows: seq<Bar>) => Some(Atr(rows, period))
  }

  function StructureRows(n: nat): RowIndicator {
    (rows: seq<Bar>) =>
      if SwingPullback.Raises(n, |rows|) then None
      else Some(SwingPullback.ToNums(Structure(Highs(rows), Lows(rows), n)))
  }

  function BreakoutRows(p: ChannelBreakout.Params): RowIndicator {
    (rows: seq<Bar>) =>
      if SwingPullback.Raises(p.swingBars, |rows|) then None
      else Some(SwingPullback.ToNums(ChannelBreakout.Signals(rows, p)))
  }

  /** `_compute_indicator` for these cases, over the rows of a timeframe. */
  function Column(ind: BuiltIn, tf: Timeframe): Indicator {
    match ind
    case AtrColumn(period) => OnRows(AtrRows(period), tf)
    case MarketStructureColumn(n) => OnRows(StructureRows(n), tf)
    case ChannelBreakoutColumn(p) => OnRows(BreakoutRows(p), tf)
    case SwingPullbackColumn(p) => SwingPullback.Pullback(tf, p)
  }

  /** A built-in column is enriched on every table but those whose rows are fewer than the bars on
      one side of a swing, and at least two: there swing detection raises. */
  lemma {:induction false} EnrichedIff(ind: BuiltIn, tf: Timeframe, table: seq<Bar>)
    ensures var rows := |TfRows(table, tf)|;
      Enrich(Column(ind, tf), table, tf).Some? <==>
      match ind
      case AtrColumn(_) => true
      case MarketStructureColumn(n) => !(2 <= rows < n)
      case ChannelBreakoutColumn(p) => !(2 <= rows < p.swingBars)
      case SwingPullbackColumn(p) => !(2 <= rows < p.swingBars) && !(2 <= |TfRows(table, p.htf)| < p.swingBars)
  {
    hide TfRows, Atr, Structure, ChannelBreakout.Signals, SwingPullback.PullbackSignals;
    EnrichMeans(Column(ind, tf), table, tf, 0);
  }

  /** Whether the theorem needs distinct bar times. */
  predicate NeedsDistinctTimes(ind: BuiltIn, tf: Timeframe) {
    ind.SwingPullbackColumn? && tf.M1? && ind.sp.htf.M1?
  }

  lemma {:induction false} AtrCausal(period: Period)
    ensures RowCausal(AtrRows(period))
  {
    hide Atr;
    forall r: seq<Bar>, s: seq<Bar>, j: nat | j + 1 < |r| && j + 1 < |s| && r[..j + 1] == s[..j + 1]
      ensures Atr(r, period)[j] == Atr(s, period)[j]
    {
      AtrFromPrefix(r, s, period, j);
    }
  }

  lemma {:induction false} StructureRowsFromPrefix(r: seq<Bar>, s: seq<Bar>, n: nat, j: nat)
    requires j < |r| && j < |s| && r[..j + 1] == s[..j + 1]
    ensures Structure(Highs(r), Lows(r), n)[j] == Structure(Highs(s), Lows(s), n)[j]
  {
    hide Structure;
    assert forall k :: 0 <= k <= j ==> r[k] == r[..j + 1][k] == s[k];
    assert Highs(r)[..j + 1] == Highs(s)[..j + 1];
    assert Lows(r)[..j + 1] == Lows(s)[..j + 1];
    StructureFromPrefix(Highs(r), Lows(r), Highs(s), Lows(s), n, j);
  }

  lemma {:induction false} StructureCausal(n: nat)
    ensures RowCausal(StructureRows(n))
  {
    hide Structure, SwingPullback.Raises;
    forall r: seq<Bar>, s: seq<Bar>, j: nat | j + 1 < |r| && j + 1 < |s| && r[..j + 1] == s[..j + 1]
      ensures Structure(Highs(r), Lows(r), n)[j] == Structure(Highs(s), Lows(s), n)[j]
    {
      StructureRowsFromPrefix(r, s, n, j);
    }
  }

  lemma {:induction false} BreakoutRowsFromPrefix(r: seq<Bar>, s: seq<Bar>, p: ChannelBreakout.Params, j: nat)
    requires BreakoutRows(p)(r).Some? && BreakoutRows(p)(s).Some?
    requires j < |r| && j < |s| && r[..j + 1] == s[..j + 1]
    ensures |BreakoutRows(p)(r).value| == |r| && |BreakoutRows(p)(s).value| == |s|
    ensures BreakoutRows(p)(r).value[j] == BreakoutRows(p)(s).value[j]
  {
    hide ChannelBreakout.SignalAt, SwingPullback.Raises;
    ChannelBreakout.SignalFromPrefix(r, s, p, j);
  }

  lemma {:induction false} BreakoutCausal(p: ChannelBreakout.Params)
    ensures RowCausal(BreakoutRows(p))
  {
    hide BreakoutRows;
    var ind := BreakoutRows(p);
    forall r: seq<Bar>, s: seq<Bar>, j: nat |
      && ind(r).Some? && ind(s).Some?
      && j + 1 < |r| && j + 1 < |s| && r[..j + 1] == s[..j + 1]
      && j < |ind(r).value| && j < |ind(s).value|
      ensures ind(r).value[j] == ind(s).value[j]
    {
      BreakoutRowsFromPrefix(r, s, p, j);
    }
  }

  lemma {:induction false} ColumnPointInTime(ind: BuiltIn, tf: Timeframe)
    ensures PointInTime(Column(ind, tf), tf, NeedsDistinctTimes(ind, tf))
  {
    hide RowCausal, PointInTime, AtrRows, StructureRows, BreakoutRows, SwingPullback.Pullback, OnRows;
    match ind
    case AtrColumn(period) =>
      AtrCausal(period);
      RowCausalIsPointInTime(AtrRows(period), tf);
    case MarketStructureColumn(n) =>
      StructureCausal(n);
      RowCausalIsPointInTime(StructureRows(n), tf);
    case ChannelBreakoutColumn(p) =>
      BreakoutCausal(p);
      RowCausalIsPointInTime(BreakoutRows(p), tf);
    case SwingPullbackColumn(p) =>
      SwingPullback.PullbackIsPointInTime(tf, p);
  }

  /** End to end, above M1: tables that agree before the start of a bar's period give that
      bar the same enriched value, for every built-in column and every pair of timeframes. */
  lemma {:induction false} EndToEnd(ind: BuiltIn, tf: Timeframe, a: seq<Bar>, i: nat, b: seq<Bar>, k: nat)
    requires !tf.M1? && SortedByTime(a) && SortedByTime(b) && i < |a| && k < |b|
    ensures var p, ea, eb := Start(TfGrid(tf), a[i].t), Enrich(Column(ind, tf), a, tf), Enrich(Column(ind, tf), b, tf);
      && p == Start(TfGrid(tf), b[k].t) && Until(a, p) == Until(b, p)
      && ea.Some? && eb.Some?
      ==> ea.value[i] == eb.value[k]
  {
    hide Column, PointInTime, Until, Enrich, TfGrid;
    ColumnPointInTime(ind, tf);
    if Enrich(Column(ind, tf), a, tf).Some? && Enrich(Column(ind, tf), b, tf).Some? {
      NoLookahead(Column(ind, tf), tf, false, a, i, b, k);
    }
  }

  /** End to end on M1: agreement on the bars before bar i suffices. */
  lemma {:induction false} EndToEndM1(ind: BuiltIn, a: seq<Bar>, b: seq<Bar>, i: nat)
    requires Ordered(a, NeedsDistinctTimes(ind, M1)) && Ordered(b, NeedsDistinctTimes(ind, M1))
    requires i < |a| && i < |b|
    ensures var ea, eb := Enrich(Column(ind, M1), a, M1), Enrich(Column(ind, M1), b, M1);
      a[..i] == b[..i] && ea.Some? && eb.Some? ==> ea.value[i] == eb.value[i]
  {
    hide Column, PointInTime, Enrich, NeedsDistinctTimes;
    ColumnPointInTime(ind, M1);
    if Enrich(Column(ind, M1), a, M1).Some? && Enrich(Column(ind, M1), b, M1).Some? {
      NoLookaheadM1(Column(ind, M1), NeedsDistinctTimes(ind, M1), a, b, i);
    }
  }

  // ----- the unlagged indicators -----

  /** `swing_highs` and `swing_lows` return the detector's mask without a lag. */
  function UnlaggedRows(side: Side, n: nat): RowIndicator {
    (rows: seq<Bar>) =>
      if SwingPullback.Raises(n, |rows|) then None
      else Some(seq(|rows|, i requires 0 <= i < |rows| =>
        Val(if IsSwing(side, ChannelBreakout.Prices(side, rows), n, i) then 1.0 else 0.0)))
  }

  function Spike(t: int, price: real): Bar {
    Bar(t, 0.0, price, price, 0.0, 0.0, 0.0, OffHours, false)
  }

  function WitnessPrice(side: Side, n: nat, after: real, i: int): real {
    if i < n then 0.0 else if i > n then after else if side.High? then 1.0 else -1.0
  }

  /** 2n+1 bars, one in each period of the timeframe, with a peak at bar n that the bars after
      it may spoil. */
  function Witness(side: Side, n: nat, tf: Timeframe, after: real): (r: seq<Bar>)
    ensures |r| == 2 * n + 1
    ensures forall i :: 0 <= i < |r| ==> r[i] == Spike(i * TfGrid(tf).length, WitnessPrice(side, n, after, i))
  {
    seq(2 * n + 1, i requires 0 <= i < 2 * n + 1 => Spike(i * TfGrid(tf).length, WitnessPrice(side, n, after, i)))
  }

  /** One clean bar at the start of each of the first periods. */
  predicate OnePerPeriod(bars: seq<Bar>, length: Length) {
    forall i | 0 <= i < |bars| :: bars[i].t == i * length && !bars[i].quarantined
  }

  lemma {:induction false} OnePerPeriodIsOrdered(bars: seq<Bar>, length: Length)
    requires OnePerPeriod(bars, length)
    ensures Ordered(bars, true)
  {
    forall i, k | 0 <= i < k < |bars|
      ensures bars[i].t < bars[k].t
    {
      ProductGap(k, i, length);
    }
  }

  /** Such bars are their own rows. */
  lemma {:induction false} OnePerPeriodIsRows(bars: seq<Bar>, tf: Timeframe)
    requires OnePerPeriod(bars, TfGrid(tf).length)
    ensures TfRows(bars, tf) == bars
  {
    if !tf.M1? {
      OnePerPeriodRolls(bars, TfGrid(tf));
    }
  }

  lemma {:induction false} OnePerPeriodRolls(bars: seq<Bar>, g: Grid)
    requires OnePerPeriod(bars, g.length) && g.origin == 0 && g.rounding == Floor
    ensures Roll(bars, g) == bars
  {
    hide Start, Push;
    if |bars| == 0 {
    } else {
      var n := |bars| - 1;
      OnePerPeriodRolls(bars[..n], g);
      PeriodStart(n, g);
      if n > 0 {
        ProductGap(n, n - 1, g.length);
      }
      PushNext(bars[..n], g, bars[n]);
      assert bars[..n] + [bars[n]] == bars;
    }
  }

  lemma {:induction false} PeriodStart(k: int, g: Grid)
    requires g.origin == 0 && g.rounding == Floor
    ensures Start(g, k * g.length) == k * g.length
  {
    MultipleQuotient(Floor, k, g.length);
  }

  lemma {:induction false} PushNext(rows: seq<Bar>, g: Grid, b: Bar)
    requires Start(g, b.t) == b.t && !b.quarantined
    requires |rows| > 0 ==> rows[|rows| - 1].t != b.t
    ensures Push(rows, g, b) == rows + [b]
  {
    hide Start;
  }

  /** The rows up to j of such a table cover its first j + 1 bars. */
  lemma {:induction false} OnePerPeriodCovers(bars: seq<Bar>, tf: Timeframe, j: nat)
    requires OnePerPeriod(bars, TfGrid(tf).length) && j < |bars|
    ensures j < |TfRows(bars, tf)| && Covered(bars, tf, j) == bars[..j + 1]
  {
    hide TfRows, Until;
    var length := TfGrid(tf).length;
    OnePerPeriodIsRows(bars, tf);
    OnePerPeriodIsOrdered(bars, length);
    assert bars[j].t + length == (j + 1) * length;
    forall i | 0 <= i < |bars|
      ensures i <= j ==> bars[i].t < (j + 1) * length
      ensures i > j ==> bars[i].t >= (j + 1) * length
    {
      if i <= j {
        ProductGap(j + 1, i, length);
      } else if i > j + 1 {
        ProductGap(i, j + 1, length);
      }
    }
    UntilUnique(bars, (j + 1) * length, j + 1);
  }

  lemma WitnessPrices(side: Side, n: nat, tf: Timeframe, after: real)
    ensures var prices := ChannelBreakout.Prices(side, Witness(side, n, tf, after));
      && |prices| == 2 * n + 1
      && prices[n] == (if side.High? then 1.0 else -1.0)
      && (forall k :: 0 <= k < n ==> prices[k] == 0.0)
      && (forall k :: n < k < 2 * n + 1 ==> prices[k] == after)
    ensures OnePerPeriod(Witness(side, n, tf, after), TfGrid(tf).length)
  {
  }

  /** What the bars after the peak make of it. */
  function Spoiler(side: Side): real {
    if side.High? then 2.0 else -2.0
  }

  lemma {:induction false} WitnessSwing(side: Side, n: nat, tf: Timeframe)
    requires n > 0
    ensures IsSwing(side, ChannelBreakout.Prices(side, Witness(side, n, tf, 0.0)), n, n)
    ensures !IsSwing(side, ChannelBreakout.Prices(side, Witness(side, n, tf, Spoiler(side))), n, n)
  {
    hide Witness;
    WitnessPrices(side, n, tf, 0.0);
    WitnessPrices(side, n, tf, Spoiler(side));
    var spoiled := ChannelBreakout.Prices(side, Witness(side, n, tf, Spoiler(side)));
    assert !Beats(side, spoiled[n], spoiled[n + 1]);
  }

  /** For n > 0 and any timeframe: two tables that agree on the first n + 1 bars and differ in
      the unlagged column at row n. */
  lemma {:induction false} UnlaggedWitnesses(side: Side, n: nat, tf: Timeframe) returns (a: seq<Bar>, b: seq<Bar>)
    requires n > 0
    ensures |a| == |b| == 2 * n + 1 && a[..n + 1] == b[..n + 1]
    ensures OnePerPeriod(a, TfGrid(tf).length) && OnePerPeriod(b, TfGrid(tf).length)
    ensures var f := UnlaggedRows(side, n);
      && f(a).Some? && f(b).Some? && |f(a).value| == |a| && |f(b).value| == |b|
      && f(a).value[n] != f(b).value[n]
  {
    hide Witness, IsSwing, ChannelBreakout.Prices, UnlaggedRows;
    a, b := Witness(side, n, tf, 0.0), Witness(side, n, tf, Spoiler(side));
    WitnessSwing(side, n, tf);
    WitnessPrices(side, n, tf, 0.0);
    WitnessPrices(side, n, tf, Spoiler(side));
    UnlaggedAt(side, n, a, n);
    UnlaggedAt(side, n, b, n);
  }

  /** The unlagged columns are point in time only in the degenerate case n == 0, where no bar is
      ever a swing; at every timeframe. */
  lemma {:induction false} UnlaggedSwingsLookAhead(side: Side, n: nat, tf: Timeframe)
    ensures PointInTime(OnRows(UnlaggedRows(side, n), tf), tf, true) <==> n == 0
  {
    hide UnlaggedRows, PointInTime, OnRows, OnePerPeriod;
    if n > 0 {
      var a, b := UnlaggedWitnesses(side, n, tf);
      PeekBreaks(UnlaggedRows(side, n), tf, a, b, n);
    } else {
      NoSwingsWithoutNeighbours(side);
      RowCausalIsPointInTime(UnlaggedRows(side, 0), tf);
      StrictIsWeaker(OnRows(UnlaggedRows(side, 0), tf), tf);
    }
  }

  /** What the lookahead does to the output: for n > 0, at every timeframe, two tables that agree
      on every bar before a bar's period give that bar different enriched values. */
  lemma {:induction false} UnlaggedEnrichmentLeaks(side: Side, n: nat, tf: Timeframe)
    returns (a: seq<Bar>, b: seq<Bar>, i: nat)
    requires n > 0
    ensures Ordered(a, true) && Ordered(b, true) && 0 < i < |a| == |b|
    ensures a[..i] == b[..i] && a[i].t == b[i].t
    ensures Start(TfGrid(tf), a[i].t) == a[i].t && Until(a, a[i].t) == Until(b, a[i].t) == a[..i]
    ensures var f := OnRows(UnlaggedRows(side, n), tf);
      Enrich(f, a, tf).Some? && Enrich(f, b, tf).Some? && Enrich(f, a, tf).value[i] != Enrich(f, b, tf).value[i]
  {
    hide UnlaggedRows, Until, TfRows;
    a, b := UnlaggedWitnesses(side, n, tf);
    i := n + 1;
    EnrichedAfter(UnlaggedRows(side, n), tf, a, n);
    EnrichedAfter(UnlaggedRows(side, n), tf, b, n);
  }

  /** On such tables the bar after row j gets row j's value. */
  lemma {:induction false} EnrichedAfter(ind: RowIndicator, tf: Timeframe, a: seq<Bar>, j: nat)
    requires OnePerPeriod(a, TfGrid(tf).length) && j + 1 < |a|
    requires ind(a).Some? && |ind(a).value| == |a|
    ensures Ordered(a, true) && Start(TfGrid(tf), a[j + 1].t) == a[j + 1].t
    ensures Until(a, a[j + 1].t) == a[..j + 1]
    ensures Enrich(OnRows(ind, tf), a, tf).Some? && Enrich(OnRows(ind, tf), a, tf).value[j + 1] == ind(a).value[j]
  {
    hide TfRows, Until;
    var length := TfGrid(tf).length;
    OnePerPeriodIsRows(a, tf);
    OnePerPeriodIsOrdered(a, length);
    MultipleQuotient(Floor, j + 1, length);
    UntilUnique(a, a[j + 1].t, j + 1);
    if !tf.M1? {
      hide ForwardFill;
      EnrichedIsPreviousRow(a, tf, ind(a).value, j + 1, j + 1);
    }
  }

  lemma NoSwingsWithoutNeighbours(side: Side)
    ensures RowCausal(UnlaggedRows(side, 0))
  {
  }

  lemma {:induction false} StrictIsWeaker(f: Indicator, tf: Timeframe)
    requires PointInTime(f, tf, false)
    ensures PointInTime(f, tf, true)
  {
    hide TfRows, Covered;
  }

  lemma UnlaggedAt(side: Side, n: nat, rows: seq<Bar>, i: nat)
    requires n <= |rows| && i < |rows|
    ensures UnlaggedRows(side, n)(rows).Some? && |UnlaggedRows(side, n)(rows).value| == |rows|
    ensures UnlaggedRows(side, n)(rows).value[i] ==
      Val(if IsSwing(side, ChannelBreakout.Prices(side, rows), n, i) then 1.0 else 0.0)
  {
  }

  lemma {:induction false} PeekBreaks(ind: RowIndicator, tf: Timeframe, a: seq<Bar>, b: seq<Bar>, j: nat)
    requires OnePerPeriod(a, TfGrid(tf).length) && OnePerPeriod(b, TfGrid(tf).length)
    requires ind(a).Some? && ind(b).Some?
    requires j + 1 < |a| && j + 1 < |b| && a[..j + 1] == b[..j + 1]
    requires j < |ind(a).value| && j < |ind(b).value| && ind(a).value[j] != ind(b).value[j]
    ensures !PointInTime(OnRows(ind, tf), tf, true)
  {
    hide TfRows, Covered, OnePerPeriod;
    OnePerPeriodIsOrdered(a, TfGrid(tf).length);
    OnePerPeriodIsOrdered(b, TfGrid(tf).length);
    OnePerPeriodIsRows(a, tf);
    OnePerPeriodIsRows(b, tf);
    OnePerPeriodCovers(a, tf, j);
    OnePerPeriodCovers(b, tf, j);
  }
}
