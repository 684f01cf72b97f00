/** The swing-pullback signal: a higher-timeframe structure bias joined to the rows by an
    as-of merge, and a loop that trades each swing extreme once. */
module SwingPullback {
  import opened Wrappers
  import opened Series
  import opened Bars
  import opened Volatility
  import opened Swings
  import opened Rollup
  import opened SignalPipeline
  import ChannelBreakout

  datatype Params = Params(swingBars: nat, atrPeriod: Period, atrMult: real, htf: Timeframe)

  function ToNums(s: seq<real>): (r: seq<Num>)
    ensures |r| == |s|
    ensures forall i :: 0 <= i < |s| ==> r[i] == Val(s[i])
  {
    seq(|s|, i requires 0 <= i < |s| => Val(s[i]))
  }

  /** `htf_structure.shift(1)`: each row carries the structure of the completed row before it. */
  function CompletedStructure(htfRows: seq<Bar>, n: nat): (r: seq<Num>)
    ensures |r| == |htfRows|
  {
    Shift(ToNums(Structure(Highs(htfRows), Lows(htfRows), n)), 1)
  }

  function BiasAt(htfRows: seq<Bar>, n: nat, t: int): Num {
    AsOf(Times(htfRows), CompletedStructure(htfRows, n), t)
  }

  function Bias(htfRows: seq<Bar>, rows: seq<Bar>, n: nat): (r: seq<Num>)
    ensures |r| == |rows|
    ensures forall i :: 0 <= i < |rows| ==> r[i] == BiasAt(htfRows, n, rows[i].t)
  {
    seq(|rows|, i requires 0 <= i < |rows| => BiasAt(htfRows, n, rows[i].t))
  }

  /** The last confirmed swing level at row i; a buy trades a low, a sell a high. */
  function LevelAt(side: Side, rows: seq<Bar>, p: Params, i: nat): Num
    requires i < |rows|
  {
    Level(side, ChannelBreakout.Prices(side, rows), p.swingBars, i, 1)
  }

  /** Row i is overextended beyond the level, in the direction the bias asks for. */
  predicate Setup(side: Side, rows: seq<Bar>, bias: seq<Num>, p: Params, i: nat)
    requires i < |rows| && |bias| == |rows|
  {
    var a := Atr(rows, p.atrPeriod)[i];
    var low, high := LevelAt(Low, rows, p, i), LevelAt(High, rows, p, i);
    && a.Val? && a.v > 0.0
    && low.Val? && high.Val? && bias[i].Val?
    && if side.Low? then bias[i].v > 0.0 && rows[i].close < low.v - a.v * p.atrMult
       else bias[i].v < 0.0 && rows[i].close > high.v + a.v * p.atrMult && rows[i].close > low.v
  }

  /** The level last traded on this side before row i, NaN if there is none. */
  function LastTraded(side: Side, rows: seq<Bar>, bias: seq<Num>, p: Params, i: nat): Num
    requires i <= |rows| && |bias| == |rows|
  {
    if i == 0 then NaN else
      var before := LastTraded(side, rows, bias, p, i - 1);
      if Setup(side, rows, bias, p, i - 1) && LevelAt(side, rows, p, i - 1) != before
      then LevelAt(side, rows, p, i - 1)
      else before
  }

  predicate Trades(side: Side, rows: seq<Bar>, bias: seq<Num>, p: Params, i: nat)
    requires i < |rows| && |bias| == |rows|
  {
    Setup(side, rows, bias, p, i) && LevelAt(side, rows, p, i) != LastTraded(side, rows, bias, p, i)
  }

  function SignalAt(rows: seq<Bar>, bias: seq<Num>, p: Params, i: nat): real
    requires i < |rows| && |bias| == |rows|
  {
    if Trades(Low, rows, bias, p, i) then 1.0
    else if Trades(High, rows, bias, p, i) then -1.0
    else 0.0
  }

  function Signals(rows: seq<Bar>, bias: seq<Num>, p: Params): (r: seq<real>)
    requires |bias| == |rows|
    ensures |r| == |rows|
    ensures forall i :: 0 <= i < |rows| ==> r[i] == SignalAt(rows, bias, p, i)
  {
    seq(|rows|, i requires 0 <= i < |rows| => SignalAt(rows, bias, p, i))
  }

  function PullbackSignals(table: seq<Bar>, rows: seq<Bar>, p: Params): (r: seq<real>)
    ensures |r| == |rows|
  {
    Signals(rows, Bias(TfRows(table, p.htf), rows, p.swingBars), p)
  }

  /** Whether swing detection raises on a column of this length. */
  predicate Raises(n: nat, len: nat) {
    n > len >= 2
  }

  lemma TradeStep(side: Side, rows: seq<Bar>, bias: seq<Num>, p: Params, i: nat)
    requires i < |rows| && |bias| == |rows|
    ensures LastTraded(side, rows, bias, p, i + 1) ==
      if Trades(side, rows, bias, p, i) then LevelAt(side, rows, p, i) else LastTraded(side, rows, bias, p, i)
  {
  }

  /** `_compute_swing_pullback`: the loop with its two last-traded prices. */
  method ComputeSignals(table: seq<Bar>, rows: seq<Bar>, p: Params) returns (r: Option<seq<real>>)
    ensures r.None? <==> Raises(p.swingBars, |rows|) || Raises(p.swingBars, |TfRows(table, p.htf)|)
    ensures r.Some? ==> r.value == PullbackSignals(table, rows, p)
  {
    hide Atr, LevelAt, Structure, BiasAt, TfRows, LastTraded, SwingMask, LastLevel, Marked;
    var htfRows := TfRows(table, p.htf);
    var structure := MarketStructure(Highs(htfRows), Lows(htfRows), p.swingBars);
    var masks := DetectSwings(Highs(rows), Lows(rows), p.swingBars);
    if structure.None? || masks.None? {
      return None;
    }
    var bias := Bias(htfRows, rows, p.swingBars);
    var lastHigh := LastLevel(masks.value.0, Highs(rows), p.swingBars);
    var lastLow := LastLevel(masks.value.1, Lows(rows), p.swingBars);
    var atr := Atr(rows, p.atrPeriod);
    LevelsMatch(rows, p);
    NothingTraded(rows, bias, p);
    var signal := new real[|rows|](_ => 0.0);
    var prevBuySwing, prevSellSwing := NaN, NaN;
    for i := 0 to |rows|
      invariant prevBuySwing == LastTraded(Low, rows, bias, p, i)
      invariant prevSellSwing == LastTraded(High, rows, bias, p, i)
      invariant forall k :: 0 <= k < i ==> signal[k] == SignalAt(rows, bias, p, k)
      invariant forall k :: i <= k < |rows| ==> signal[k] == 0.0
    {
      TradeStep(Low, rows, bias, p, i);
      TradeStep(High, rows, bias, p, i);
      var a, low, high, b := atr[i], lastLow[i], lastHigh[i], bias[i];
      if a.NaN? || a.v <= 0.0 {
        continue;
      }
      if low.NaN? || high.NaN? || b.NaN? {
        continue;
      }
      if b.v > 0.0 {
        if rows[i].close < low.v - a.v * p.atrMult && low != prevBuySwing {
          signal[i] := 1.0;
          prevBuySwing := low;
        }
      }
      if b.v < 0.0 {
        if rows[i].close > high.v + a.v * p.atrMult && rows[i].close > low.v && high != prevSellSwing {
          signal[i] := -1.0;
          prevSellSwing := high;
        }
      }
    }
    assert signal[..] == Signals(rows, bias, p);
    r := Some(signal[..]);
  }

  lemma NothingTraded(rows: seq<Bar>, bias: seq<Num>, p: Params)
    requires |bias| == |rows|
    ensures LastTraded(Low, rows, bias, p, 0) == NaN && LastTraded(High, rows, bias, p, 0) == NaN
  {
  }

  lemma {:induction false} LevelsMatch(rows: seq<Bar>, p: Params)
    ensures forall i :: 0 <= i < |rows| ==>
      LastLevel(SwingMask(High, Highs(rows), p.swingBars), Highs(rows), p.swingBars)[i] == LevelAt(High, rows, p, i)
    ensures forall i :: 0 <= i < |rows| ==>
      LastLevel(SwingMask(Low, Lows(rows), p.swingBars), Lows(rows), p.swingBars)[i] == LevelAt(Low, rows, p, i)
  {
    hide LastLevel, SwingMask, Marked, FromEnd, Confirmed;
    forall i | 0 <= i < |rows|
      ensures LastLevel(SwingMask(High, Highs(rows), p.swingBars), Highs(rows), p.swingBars)[i]
        == LevelAt(High, rows, p, i)
    {
      LastLevelIsLast(SwingMask(High, Highs(rows), p.swingBars), Highs(rows), p.swingBars, i);
    }
    forall i | 0 <= i < |rows|
      ensures LastLevel(SwingMask(Low, Lows(rows), p.swingBars), Lows(rows), p.swingBars)[i] == LevelAt(Low, rows, p, i)
    {
      LastLevelIsLast(SwingMask(Low, Lows(rows), p.swingBars), Lows(rows), p.swingBars, i);
    }
  }

  // ----- exactly when a row trades -----

  /** The signal value of a trade on each side: a buy trades a swing low, a sell a swing high. */
  function Sign(side: Side): real {
    if side.Low? then 1.0 else -1.0
  }

  /** The last row before i that traded on this side traded another price, if there is one. */
  ghost predicate NewPrice(side: Side, rows: seq<Bar>, bias: seq<Num>, p: Params, i: nat)
    requires i < |rows| && |bias| == |rows|
  {
    forall k | 0 <= k < i && Signals(rows, bias, p)[k] == Sign(side)
      && (forall j | k < j < i :: Signals(rows, bias, p)[j] != Sign(side)) ::
      Level(side, ChannelBreakout.Prices(side, rows), p.swingBars, k, 1)
        != Level(side, ChannelBreakout.Prices(side, rows), p.swingBars, i, 1)
  }

  /** A buy, exactly: the bias is up, the close is below the last confirmed low by more than the
      multiple of the ATR, and that low was not the one bought last. A sell, exactly: the bias
      is down, the close is above the last confirmed high by more than that and above the last
      confirmed low, and that high was not the one sold last. */
  lemma {:induction false} SignalIff(rows: seq<Bar>, bias: seq<Num>, p: Params, i: nat)
    requires i < |rows| && |bias| == |rows|
    ensures Signals(rows, bias, p)[i] in {-1.0, 0.0, 1.0}
    ensures var a, b := Atr(rows, p.atrPeriod)[i], bias[i];
      var low, high := Level(Low, Lows(rows), p.swingBars, i, 1), Level(High, Highs(rows), p.swingBars, i, 1);
      && (Signals(rows, bias, p)[i] == 1.0 <==>
            && a.Val? && a.v > 0.0 && b.Val? && b.v > 0.0 && low.Val? && high.Val?
            && low.v - rows[i].close > a.v * p.atrMult && NewPrice(Low, rows, bias, p, i))
      && (Signals(rows, bias, p)[i] == -1.0 <==>
            && a.Val? && a.v > 0.0 && b.Val? && b.v < 0.0 && low.Val? && high.Val?
            && rows[i].close - high.v > a.v * p.atrMult && rows[i].close > low.v
            && NewPrice(High, rows, bias, p, i))
  {
    hide Level, Atr, LastTraded, NewPrice;
    NewPriceMeans(Low, rows, bias, p, i);
    NewPriceMeans(High, rows, bias, p, i);
  }

  lemma {:induction false} TradesIsSign(side: Side, rows: seq<Bar>, bias: seq<Num>, p: Params, i: nat)
    requires i < |rows| && |bias| == |rows|
    ensures Trades(side, rows, bias, p, i) <==> Signals(rows, bias, p)[i] == Sign(side)
  {
    hide LevelAt, Atr, LastTraded;
  }

  /** The remembered price is that of the last trade. */
  lemma {:induction false} LastTradedMeans(side: Side, rows: seq<Bar>, bias: seq<Num>, p: Params, i: nat, price: Num)
    requires i <= |rows| && |bias| == |rows|
    ensures LastTraded(side, rows, bias, p, i) == price && price.Val? <==>
      price.Val? && exists k :: LastTradeAt(side, rows, bias, p, i, k) && LevelAt(side, rows, p, k) == price
  {
    hide Trades, LevelAt;
    if i == 0 {
    } else {
      LastTradedMeans(side, rows, bias, p, i - 1, price);
      TradeStep(side, rows, bias, p, i - 1);
      var last := i - 1;
      if Trades(side, rows, bias, p, last) {
        assert LastTradeAt(side, rows, bias, p, i, last);
        assert forall k | LastTradeAt(side, rows, bias, p, i, k) :: k == last;
      } else {
        assert forall k :: LastTradeAt(side, rows, bias, p, i, k) <==> LastTradeAt(side, rows, bias, p, last, k);
      }
    }
  }

  ghost predicate LastTradeAt(side: Side, rows: seq<Bar>, bias: seq<Num>, p: Params, i: nat, k: int)
    requires i <= |rows| && |bias| == |rows|
  {
    0 <= k < i && Trades(side, rows, bias, p, k) && forall j | k < j < i :: !Trades(side, rows, bias, p, j)
  }

  lemma {:induction false} NewPriceMeans(side: Side, rows: seq<Bar>, bias: seq<Num>, p: Params, i: nat)
    requires i < |rows| && |bias| == |rows|
    ensures LevelAt(side, rows, p, i).Val? ==>
      (NewPrice(side, rows, bias, p, i) <==> LevelAt(side, rows, p, i) != LastTraded(side, rows, bias, p, i))
  {
    hide Trades, Level, LastTraded, SignalAt;
    LastTradedMeans(side, rows, bias, p, i, LevelAt(side, rows, p, i));
    forall k: nat | k < i
      ensures Trades(side, rows, bias, p, k) <==> Signals(rows, bias, p)[k] == Sign(side)
    {
      TradesIsSign(side, rows, bias, p, k);
    }
    forall k: nat | k < i
      ensures LastTradeAt(side, rows, bias, p, i, k) <==>
        Signals(rows, bias, p)[k] == Sign(side) && forall j | k < j < i :: Signals(rows, bias, p)[j] != Sign(side)
    {
    }
  }

  /** The bias at time t: the structure at the row before the last one that starts by t, read off
      the confirmed swings; none where there is no such row. */
  lemma {:induction false} BiasMeans(htfRows: seq<Bar>, n: nat, t: int, q: nat)
    requires q < |htfRows| && htfRows[q].t <= t && forall k | q < k < |htfRows| :: htfRows[k].t > t
    ensures BiasAt(htfRows, n, t) ==
      if q == 0 then NaN else Val(Structure(Highs(htfRows), Lows(htfRows), n)[q - 1])
  {
    hide Structure;
    AsOfAt(Times(htfRows), CompletedStructure(htfRows, n), t, q);
  }

  // ----- one trade per swing -----

  /** The index of the swing whose level row i sees, -1 before any is confirmed. */
  function SwingSeen(side: Side, rows: seq<Bar>, p: Params, i: nat): int
    requires i < |rows|
  {
    var idx := Marked(SwingMask(side, ChannelBreakout.Prices(side, rows), p.swingBars), Confirmed(i, p.swingBars));
    if idx == [] then -1 else idx[|idx| - 1]
  }

  lemma {:induction false} SwingSeenStep(side: Side, rows: seq<Bar>, p: Params, i: nat)
    requires i + 1 < |rows|
    ensures SwingSeen(side, rows, p, i) <= SwingSeen(side, rows, p, i + 1)
  {
    hide Marked, SwingMask;
    MarkedStep(SwingMask(side, ChannelBreakout.Prices(side, rows), p.swingBars), p.swingBars, i + 1);
  }

  lemma {:induction false} SwingSeenMonotone(side: Side, rows: seq<Bar>, p: Params, i: nat, k: nat)
    requires i <= k < |rows|
    ensures SwingSeen(side, rows, p, i) <= SwingSeen(side, rows, p, k)
  {
    hide SwingSeen;
    if i >= k {
    } else {
      SwingSeenMonotone(side, rows, p, i, k - 1);
      SwingSeenStep(side, rows, p, k - 1);
    }
  }

  /** Until a newer swing is seen, the remembered price stays the traded one. */
  lemma {:induction false} TradedLevelKept(side: Side, rows: seq<Bar>, bias: seq<Num>, p: Params, i: nat, k: nat)
    requires i < k < |rows| && |bias| == |rows|
    requires Trades(side, rows, bias, p, i)
    requires SwingSeen(side, rows, p, i) == SwingSeen(side, rows, p, k)
    ensures LastTraded(side, rows, bias, p, k) == LevelAt(side, rows, p, i)
  {
    hide Setup, LevelAt, SwingSeen;
    if i >= k - 1 {
    } else {
      SwingSeenMonotone(side, rows, p, i, k - 1);
      SwingSeenMonotone(side, rows, p, k - 1, k);
      TradedLevelKept(side, rows, bias, p, i, k - 1);
      SameLevel(side, rows, p, i, k - 1);
    }
  }

  lemma SameLevel(side: Side, rows: seq<Bar>, p: Params, i: nat, k: nat)
    requires i < |rows| && k < |rows|
    requires SwingSeen(side, rows, p, i) == SwingSeen(side, rows, p, k)
    ensures LevelAt(side, rows, p, i) == LevelAt(side, rows, p, k)
  {
  }

  /** Each swing low causes at most one buy and each swing high at most one sell: of two
      trades on a side, the later one trades a strictly later swing. The loop only
      compares prices, and equal prices of distinct swings do not defeat it. */
  lemma {:induction false} OneTradePerSwing(side: Side, rows: seq<Bar>, bias: seq<Num>, p: Params, i: nat, k: nat)
    requires i < k < |rows| && |bias| == |rows|
    ensures Trades(side, rows, bias, p, i) && Trades(side, rows, bias, p, k) ==>
      0 <= SwingSeen(side, rows, p, i) < SwingSeen(side, rows, p, k)
  {
    if Trades(side, rows, bias, p, i) && Trades(side, rows, bias, p, k) {
      SwingSeenMonotone(side, rows, p, i, k);
      if SwingSeen(side, rows, p, i) == SwingSeen(side, rows, p, k) {
        TradedLevelKept(side, rows, bias, p, i, k);
        SameLevel(side, rows, p, i, k);
        assert false;
      }
    }
  }

  // ----- causality -----

  lemma {:induction false} SetupFromPrefix(
    side: Side, a: seq<Bar>, b: seq<Bar>, ba: seq<Num>, bb: seq<Num>, p: Params, i: nat)
    requires i < |a| == |ba| && i < |b| == |bb|
    requires a[..i + 1] == b[..i + 1] && ba[i] == bb[i]
    ensures Setup(side, a, ba, p, i) == Setup(side, b, bb, p, i)
    ensures LevelAt(side, a, p, i) == LevelAt(side, b, p, i)
  {
    hide Level, Atr;
    AtrFromPrefix(a, b, p.atrPeriod, i);
    assert a[i] == a[..i + 1][i] == b[i];
    LevelAtFromPrefix(Low, a, b, p, i);
    LevelAtFromPrefix(High, a, b, p, i);
  }

  lemma {:induction false} LevelAtFromPrefix(side: Side, a: seq<Bar>, b: seq<Bar>, p: Params, i: nat)
    requires i < |a| && i < |b| && a[..i + 1] == b[..i + 1]
    ensures LevelAt(side, a, p, i) == LevelAt(side, b, p, i)
  {
    hide Level;
    var pa, pb := ChannelBreakout.Prices(side, a), ChannelBreakout.Prices(side, b);
    assert forall k :: 0 <= k <= i ==> a[k] == a[..i + 1][k] == b[k];
    assert pa[..i + 1] == pb[..i + 1];
    LevelFromPrefix(side, pa, pb, p.swingBars, i, 1);
  }

  lemma {:induction false} LastTradedFromPrefix(
    side: Side, a: seq<Bar>, b: seq<Bar>, ba: seq<Num>, bb: seq<Num>, p: Params, i: nat)
    requires i <= |a| == |ba| && i <= |b| == |bb|
    requires a[..i] == b[..i] && ba[..i] == bb[..i]
    ensures LastTraded(side, a, ba, p, i) == LastTraded(side, b, bb, p, i)
  {
    hide Setup, LevelAt;
    if i == 0 {
    } else {
      assert a[..i - 1] == a[..i][..i - 1] == b[..i - 1];
      assert ba[..i - 1] == ba[..i][..i - 1] == bb[..i - 1];
      assert ba[i - 1] == ba[..i][i - 1] == bb[i - 1];
      LastTradedFromPrefix(side, a, b, ba, bb, p, i - 1);
      SetupFromPrefix(side, a, b, ba, bb, p, i - 1);
    }
  }

  lemma {:induction false} SignalFromPrefix(
    a: seq<Bar>, b: seq<Bar>, ba: seq<Num>, bb: seq<Num>, p: Params, i: nat)
    requires i < |a| == |ba| && i < |b| == |bb|
    requires a[..i + 1] == b[..i + 1] && ba[..i + 1] == bb[..i + 1]
    ensures SignalAt(a, ba, p, i) == SignalAt(b, bb, p, i)
  {
    hide Setup, LevelAt;
    assert a[..i] == a[..i + 1][..i] == b[..i];
    assert ba[..i] == ba[..i + 1][..i] == bb[..i];
    assert ba[i] == ba[..i + 1][i] == bb[i];
    LastTradedFromPrefix(Low, a, b, ba, bb, p, i);
    LastTradedFromPrefix(High, a, b, ba, bb, p, i);
    SetupFromPrefix(Low, a, b, ba, bb, p, i);
    SetupFromPrefix(High, a, b, ba, bb, p, i);
  }

  lemma {:induction false} LastNotAfter(rows: seq<Bar>, t: int) returns (q: int)
    requires SortedByTime(rows)
    ensures -1 <= q < |rows|
    ensures forall k :: 0 <= k <= q ==> rows[k].t <= t
    ensures forall k :: q < k < |rows| ==> rows[k].t > t
  {
    q := |rows| - 1;
    while q >= 0 && rows[q].t > t
      invariant -1 <= q < |rows|
      invariant forall k :: q < k < |rows| ==> rows[k].t > t
    {
      q := q - 1;
    }
  }

  lemma {:induction false} CompletedStructureFromPrefix(part: seq<Bar>, all: seq<Bar>, n: nat, q: nat)
    requires q < |part| && q < |all| && part[..q] == all[..q]
    ensures CompletedStructure(part, n)[q] == CompletedStructure(all, n)[q]
  {
    hide Structure;
    assert forall k :: 0 <= k < q ==> part[k] == part[..q][k] == all[k];
    if q > 0 {
      assert Highs(part)[..q] == Highs(all)[..q];
      assert Lows(part)[..q] == Lows(all)[..q];
      StructureFromPrefix(Highs(part), Lows(part), Highs(all), Lows(all), n, q - 1);
    }
  }

  /** The bias at t ignores the row that is still open at t and everything after it. */
  lemma {:induction false} BiasFromClosedRows(part: seq<Bar>, all: seq<Bar>, n: nat, t: int)
    requires SortedByTime(all) && Continues(part, all)
    requires forall k :: |part| <= k < |all| ==> all[k].t > t
    ensures BiasAt(part, n, t) == BiasAt(all, n, t)
  {
    hide CompletedStructure, AsOf;
    var q := LastNotAfter(all, t);
    assert q < |part| by {
      if q >= 0 { assert all[q].t <= t; }
    }
    forall k | 0 <= k < |part|
      ensures Times(part)[k] == Times(all)[k]
    {
      assert k < |part| - 1 ==> part[k] == part[..|part| - 1][k] == all[..|part| - 1][k] == all[k];
    }
    if q < 0 {
      AsOfNone(Times(part), CompletedStructure(part, n), t);
      AsOfNone(Times(all), CompletedStructure(all, n), t);
    } else {
      AsOfAt(Times(part), CompletedStructure(part, n), t, q);
      AsOfAt(Times(all), CompletedStructure(all, n), t, q);
      assert part[..q] == part[..|part| - 1][..q] == all[..|part| - 1][..q] == all[..q];
      CompletedStructureFromPrefix(part, all, n, q);
    }
  }

  /** Cutting a table after its bars up to t leaves the bias at t unchanged. */
  lemma {:induction false} BiasFromPrefix(table: seq<Bar>, htf: Timeframe, n: nat, m: nat, t: int)
    requires SortedByTime(table) && 1 <= m <= |table| && table[m - 1].t >= t
    requires htf.M1? ==> forall i :: m <= i < |table| ==> table[i].t > t
    ensures BiasAt(TfRows(table[..m], htf), n, t) == BiasAt(TfRows(table, htf), n, t)
  {
    hide BiasAt, Roll, TfGrid, Start;
    if htf.M1? {
      assert Continues(table[..m], table);
      BiasFromClosedRows(table[..m], table, n, t);
    } else {
      var g := TfGrid(htf);
      var part, all := Roll(table[..m], g), Roll(table, g);
      RollExtends(table, g, m);
      RollIncreasing(table, g);
      RollIncreasing(table[..m], g);
      RollOnGrid(table, g);
      StartMonotone(g, t, table[m - 1].t);
      forall k | |part| <= k < |all|
        ensures all[k].t > t
      {
        assert all[k].t > all[|part| - 1].t >= Start(g, t);
        if all[k].t <= t {
          StartMonotone(g, all[k].t, t);
        }
      }
      BiasFromClosedRows(part, all, n, t);
    }
  }

  /** The pullback column as an indicator over an M1 table. */
  function Pullback(tf: Timeframe, p: Params): Indicator {
    (table: seq<Bar>) =>
      if Raises(p.swingBars, |TfRows(table, tf)|) || Raises(p.swingBars, |TfRows(table, p.htf)|) then None
      else Some(ToNums(PullbackSignals(table, TfRows(table, tf), p)))
  }

  /** The bars rows 0..j cover are a prefix that reaches row j's start and, unless two M1
      bars share a time, contains every bar up to it. */
  lemma {:induction false} CoveredPrefix(table: seq<Bar>, tf: Timeframe, strict: bool, j: nat) returns (m: nat)
    requires Ordered(table, strict) && j < |TfRows(table, tf)|
    ensures 1 <= m <= |table| && Covered(table, tf, j) == table[..m]
    ensures table[m - 1].t >= TfRows(table, tf)[j].t
    ensures !tf.M1? || strict ==> forall i :: m <= i < |table| ==> table[i].t > TfRows(table, tf)[j].t
  {
    if tf.M1? {
      m := j + 1;
    } else {
      hide Roll, TfGrid, Until, Start;
      FlooredGrid(tf);
      m := ReachesRow(table, TfGrid(tf), j);
    }
  }

  lemma {:induction false} ReachesRow(table: seq<Bar>, g: Grid, j: nat) returns (m: nat)
    requires SortedByTime(table) && g.rounding.Floor? && j < |Roll(table, g)|
    ensures 1 <= m <= |table| && Until(table, Roll(table, g)[j].t + g.length) == table[..m]
    ensures table[m - 1].t >= Roll(table, g)[j].t
    ensures forall i :: m <= i < |table| ==> table[i].t > Roll(table, g)[j].t
  {
    hide Roll, Until, Start;
    var s := Roll(table, g)[j].t;
    var i := RowHasBar(table, g, j);
    FloorBounds(g, table[i].t);
    UntilIsPrefix(table, s + g.length);
    m := |Until(table, s + g.length)|;
  }

  lemma {:induction false} BiasAgrees(
    a: seq<Bar>, b: seq<Bar>, tf: Timeframe, p: Params, j: nat, k: nat)
    requires Ordered(a, tf.M1? && p.htf.M1?) && Ordered(b, tf.M1? && p.htf.M1?)
    requires k <= j && j + 1 < |TfRows(a, tf)| && j + 1 < |TfRows(b, tf)|
    requires Covered(a, tf, j) == Covered(b, tf, j)
    ensures TfRows(a, tf)[k] == TfRows(b, tf)[k]
    ensures BiasAt(TfRows(a, p.htf), p.swingBars, TfRows(a, tf)[k].t)
         == BiasAt(TfRows(b, p.htf), p.swingBars, TfRows(b, tf)[k].t)
  {
    hide BiasAt, TfRows, Covered;
    var strict := tf.M1? && p.htf.M1?;
    RowsOfCovered(a, tf, j);
    RowsOfCovered(b, tf, j);
    var t := TfRows(a, tf)[k].t;
    assert TfRows(a, tf)[k] == TfRows(a, tf)[..j + 1][k] == TfRows(b, tf)[..j + 1][k] == TfRows(b, tf)[k];
    TfRowsSorted(a, tf);
    TfRowsSorted(b, tf);
    var m := CoveredPrefix(a, tf, strict, j);
    var m' := CoveredPrefix(b, tf, strict, j);
    BiasFromPrefix(a, p.htf, p.swingBars, m, t);
    BiasFromPrefix(b, p.htf, p.swingBars, m', t);
  }

  lemma {:induction false} TfRowsSorted(table: seq<Bar>, tf: Timeframe)
    requires SortedByTime(table)
    ensures SortedByTime(TfRows(table, tf))
  {
    if !tf.M1? {
      RollIncreasing(table, TfGrid(tf));
    }
  }

  lemma {:induction false} PullbackAgrees(a: seq<Bar>, b: seq<Bar>, tf: Timeframe, p: Params, j: nat)
    requires Ordered(a, tf.M1? && p.htf.M1?) && Ordered(b, tf.M1? && p.htf.M1?)
    requires j + 1 < |TfRows(a, tf)| && j + 1 < |TfRows(b, tf)|
    requires Covered(a, tf, j) == Covered(b, tf, j)
    ensures PullbackSignals(a, TfRows(a, tf), p)[j] == PullbackSignals(b, TfRows(b, tf), p)[j]
  {
    hide BiasAt, TfRows, Covered, SignalAt;
    var ra, rb := TfRows(a, tf), TfRows(b, tf);
    var ba := Bias(TfRows(a, p.htf), ra, p.swingBars);
    var bb := Bias(TfRows(b, p.htf), rb, p.swingBars);
    forall k | 0 <= k <= j
      ensures ra[k] == rb[k] && ba[k] == bb[k]
    {
      BiasAgrees(a, b, tf, p, j, k);
    }
    assert ra[..j + 1] == rb[..j + 1] && ba[..j + 1] == bb[..j + 1];
    SignalFromPrefix(ra, rb, ba, bb, p, j);
  }

  /** The pullback column is point in time for every pair of timeframes; when both are M1, on
      tables of distinct times. */
  lemma {:induction false} PullbackIsPointInTime(tf: Timeframe, p: Params)
    ensures PointInTime(Pullback(tf, p), tf, tf.M1? && p.htf.M1?)
  {
    hide PullbackSignals, TfRows, Covered, Raises;
    var f, strict := Pullback(tf, p), tf.M1? && p.htf.M1?;
    forall a: seq<Bar>, b: seq<Bar>, j: nat |
      && Ordered(a, strict) && Ordered(b, strict)
      && f(a).Some? && f(b).Some?
      && j + 1 < |TfRows(a, tf)| && j + 1 < |TfRows(b, tf)|
      && j < |f(a).value| && j < |f(b).value|
      && Covered(a, tf, j) == Covered(b, tf, j)
      ensures f(a).value[j] == f(b).value[j]
    {
      PullbackAgrees(a, b, tf, p, j);
    }
  }
}
