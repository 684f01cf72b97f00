/** The channel-breakout signal: swings filtered by size, a parallel channel through
    the last two confirmed highs, and a confirmed close beyond it. */
module ChannelBreakout {
  import opened Wrappers
  import opened Series
  import opened Bars
  import opened Volatility
  import opened Swings

  datatype Params = Params(
    swingBars: nat, atrPeriod: Period, atrMult: real, confirmBars: nat, useClose: bool)

  datatype Pivot = Pivot(bar: int, price: real)

  function Price(side: Side, row: Bar): real {
    if side.High? then row.high else row.low
  }

  function Prices(side: Side, rows: seq<Bar>): (r: seq<real>)
    ensures |r| == |rows|
    ensures forall i :: 0 <= i < |rows| ==> r[i] == Price(side, rows[i])
  {
    if side.High? then Highs(rows) else Lows(rows)
  }

  /** The least low or the greatest high of rows lo..hi. */
  function Extreme(side: Side, rows: seq<Bar>, lo: nat, hi: nat): real
    requires lo < hi <= |rows|
  {
    var last := Price(side, rows[hi - 1]);
    if hi == lo + 1 then last
    else if side.High? then Max(Extreme(side, rows, lo, hi - 1), last)
    else Min(Extreme(side, rows, lo, hi - 1), last)
  }

  /** How far a swing at cb stands out from the shallower of its two sides. */
  function SwingSize(side: Side, rows: seq<Bar>, n: nat, cb: nat): real
    requires cb < |rows|
  {
    var opposite := if side.High? then Low else High;
    var leftStart := if cb < n then 0 else cb - n;
    var rightEnd := if cb + n + 1 < |rows| then cb + n + 1 else |rows|;
    var left := if cb > leftStart then Extreme(opposite, rows, leftStart, cb) else Price(opposite, rows[cb]);
    var right := if rightEnd > cb + 1 then Extreme(opposite, rows, cb + 1, rightEnd) else Price(opposite, rows[cb]);
    if side.High? then rows[cb].high - Max(left, right) else Min(left, right) - rows[cb].low
  }

  /** Whether the swing at cb is registered once it is confirmed. */
  predicate Qualifies(side: Side, rows: seq<Bar>, p: Params, cb: nat)
    requires cb < |rows|
  {
    var a := Atr(rows, p.atrPeriod)[cb];
    && a.Val? && a.v > 0.0
    && IsSwing(side, Prices(side, rows), p.swingBars, cb)
    && SwingSize(side, rows, p.swingBars, cb) >= a.v * p.atrMult
  }

  /** The registered swings below bar m, ascending. */
  function Pivots(side: Side, rows: seq<Bar>, p: Params, m: nat): seq<Pivot>
    requires m <= |rows|
  {
    if m == 0 then [] else
      Pivots(side, rows, p, m - 1) +
      if Qualifies(side, rows, p, m - 1) then [Pivot(m - 1, Price(side, rows[m - 1]))] else []
  }

  datatype Channel = Channel(anchor: Pivot, slope: real, width: real) {
    function Upper(x: int): real {
      anchor.price + slope * (x - anchor.bar) as real
    }

    function Lower(x: int): real {
      Upper(x) - width
    }
  }

  function WidthAt(anchor: Pivot, slope: real, low: Pivot): real {
    Channel(anchor, slope, 0.0).Upper(low.bar) - low.price
  }

  /** The channel in force with these confirmed swings and this ATR, if there is one. */
  function ChannelFrom(highs: seq<Pivot>, lows: seq<Pivot>, atr: Num): Option<Channel> {
    if |highs| < 2 || |lows| < 1 then None else
      var older, newer := highs[|highs| - 2], highs[|highs| - 1];
      if newer.bar - older.bar < 2 then None else
        var slope := (newer.price - older.price) / (newer.bar - older.bar) as real;
        var first := WidthAt(newer, slope, lows[|lows| - 1]);
        var width := if first <= 0.0 && |lows| >= 2 then WidthAt(newer, slope, lows[|lows| - 2]) else first;
        if width <= 0.0 || atr.NaN? || atr.v <= 0.0 then None
        else if width < atr.v * 0.3 || width > atr.v * 15.0 then None
        else Some(Channel(newer, slope, width))
  }

  function ChannelAt(rows: seq<Bar>, p: Params, i: nat): Option<Channel>
    requires i < |rows|
  {
    var m := Confirmed(i, p.swingBars);
    ChannelFrom(Pivots(High, rows, p, m), Pivots(Low, rows, p, m), Atr(rows, p.atrPeriod)[i])
  }

  function TestPrice(side: Side, row: Bar, useClose: bool): real {
    if useClose then row.close else Price(side, row)
  }

  /** Bar x lies strictly outside the channel on the given side. */
  predicate Beyond(side: Side, rows: seq<Bar>, p: Params, ch: Channel, x: int)
    requires x < |rows|
  {
    && 0 <= x
    && if side.High? then TestPrice(side, rows[x], p.useClose) > ch.Upper(x)
       else TestPrice(side, rows[x], p.useClose) < ch.Lower(x)
  }

  predicate RunBeyond(side: Side, rows: seq<Bar>, p: Params, ch: Channel, i: nat)
    requires i < |rows|
  {
    forall x :: i - p.confirmBars <= x <= i ==> Beyond(side, rows, p, ch, x)
  }

  function MinGap(p: Params): nat {
    if 3 * p.confirmBars >= 2 * p.swingBars then 3 * p.confirmBars else 2 * p.swingBars
  }

  /** The signal at bar i when the last one was raised at bar `last`. */
  function Decide(rows: seq<Bar>, p: Params, i: nat, last: int): real
    requires i < |rows|
  {
    var ch := ChannelAt(rows, p, i);
    var structure := Structure(Highs(rows), Lows(rows), p.swingBars)[i];
    if ch.None? || i - last < MinGap(p) then 0.0
    else if RunBeyond(High, rows, p, ch.value, i) && structure >= 0.0 then 1.0
    else if RunBeyond(Low, rows, p, ch.value, i) && structure <= 0.0 then -1.0
    else 0.0
  }

  /** The bar of the last signal among bars 0..i-1, or the sentinel -999. */
  function LastSignal(rows: seq<Bar>, p: Params, i: nat): int
    requires i <= |rows|
  {
    if i == 0 then -999 else
      var last := LastSignal(rows, p, i - 1);
      if Decide(rows, p, i - 1, last) != 0.0 then i - 1 else last
  }

  function SignalAt(rows: seq<Bar>, p: Params, i: nat): real
    requires i < |rows|
  {
    Decide(rows, p, i, LastSignal(rows, p, i))
  }

  function Signals(rows: seq<Bar>, p: Params): (r: seq<real>)
    ensures |r| == |rows|
    ensures forall i :: 0 <= i < |rows| ==> r[i] == SignalAt(rows, p, i)
  {
    seq(|rows|, i requires 0 <= i < |rows| => SignalAt(rows, p, i))
  }

  // ----- the loop -----

  /** The inner confirmation loop, walking back from bar i. */
  method ConfirmRun(side: Side, rows: seq<Bar>, p: Params, ch: Channel, i: nat) returns (ok: bool)
    requires i < |rows|
    ensures ok == RunBeyond(side, rows, p, ch, i)
  {
    if !Beyond(side, rows, p, ch, i) {
      return false;
    }
    for j := 1 to p.confirmBars + 1
      invariant forall x :: i - j < x <= i ==> Beyond(side, rows, p, ch, x)
    {
      if i - j < 0 || !Beyond(side, rows, p, ch, i - j) {
        assert !Beyond(side, rows, p, ch, i - j);
        return false;
      }
    }
    ok := true;
  }

  /** Registers the swing that bar i confirms, if there is one and it is large enough. */
  method Register(side: Side, rows: seq<Bar>, p: Params, mask: seq<bool>, i: nat, known: seq<Pivot>)
    returns (pivots: seq<Pivot>)
    requires i < |rows|
    requires mask == SwingMask(side, Prices(side, rows), p.swingBars)
    requires known == Pivots(side, rows, p, if i == 0 then 0 else Confirmed(i - 1, p.swingBars))
    ensures pivots == Pivots(side, rows, p, Confirmed(i, p.swingBars))
  {
    hide Atr, SwingSize;
    pivots := known;
    var cb := i - p.swingBars;
    if 0 <= cb < |rows| {
      var a := Atr(rows, p.atrPeriod)[cb];
      if a.Val? && a.v > 0.0 {
        if mask[cb] && SwingSize(side, rows, p.swingBars, cb) >= a.v * p.atrMult {
          pivots := known + [Pivot(cb, Price(side, rows[cb]))];
        }
      }
      assert Confirmed(i, p.swingBars) == cb + 1;
    }
  }

  /** `_compute_channel_breakout`: the stateful loop computes exactly Signals. */
  method ComputeSignals(rows: seq<Bar>, p: Params) returns (r: Option<seq<real>>)
    ensures r.None? <==> p.swingBars > |rows| >= 2
    ensures r.Some? ==> r.value == Signals(rows, p)
  {
    hide Structure, Pivots, ChannelFrom, RunBeyond, Atr, SwingMask, Confirmed, Highs, Lows;
    var n := |rows|;
    var atr := Atr(rows, p.atrPeriod);
    var masks := DetectSwings(Highs(rows), Lows(rows), p.swingBars);
    var structure := MarketStructure(Highs(rows), Lows(rows), p.swingBars);
    if masks.None? || structure.None? {
      return None;
    }
    NoPivots(rows, p);
    var highs: seq<Pivot>, lows: seq<Pivot> := [], [];
    var signal := new real[n](_ => 0.0);
    var lastSignalBar := -999;
    for i := 0 to n
      invariant highs == Pivots(High, rows, p, if i == 0 then 0 else Confirmed(i - 1, p.swingBars))
      invariant lows == Pivots(Low, rows, p, if i == 0 then 0 else Confirmed(i - 1, p.swingBars))
      invariant lastSignalBar == LastSignal(rows, p, i)
      invariant forall k :: 0 <= k < i ==> signal[k] == SignalAt(rows, p, k)
      invariant forall k :: i <= k < n ==> signal[k] == 0.0
    {
      highs := Register(High, rows, p, masks.value.0, i, highs);
      lows := Register(Low, rows, p, masks.value.1, i, lows);
      var ch := ChannelFrom(highs, lows, atr[i]);
      if ch.None? || i - lastSignalBar < MinGap(p) {
        continue;
      }
      var bullish := ConfirmRun(High, rows, p, ch.value, i);
      if bullish && structure.value[i] >= 0.0 {
        signal[i] := 1.0;
        lastSignalBar := i;
        continue;
      }
      var bearish := ConfirmRun(Low, rows, p, ch.value, i);
      if bearish && structure.value[i] <= 0.0 {
        signal[i] := -1.0;
        lastSignalBar := i;
      }
    }
    assert signal[..] == Signals(rows, p);
    r := Some(signal[..]);
  }

  lemma NoPivots(rows: seq<Bar>, p: Params)
    ensures Pivots(High, rows, p, 0) == [] && Pivots(Low, rows, p, 0) == []
  {
  }

  // ----- discipline -----

  lemma {:induction false} LastSignalBound(rows: seq<Bar>, p: Params, i: nat, k: nat)
    requires i < k <= |rows| && SignalAt(rows, p, i) != 0.0
    ensures i <= LastSignal(rows, p, k) < k
  {
    hide Decide;
    if i >= k - 1 {
    } else {
      LastSignalBound(rows, p, i, k - 1);
    }
  }

  /** Any two signals are at least max(3*confirm_bars, 2*swing_bars) bars apart. */
  lemma {:induction false} SignalsSpaced(rows: seq<Bar>, p: Params, i: nat, k: nat)
    requires i < k < |rows|
    ensures Signals(rows, p)[i] != 0.0 && Signals(rows, p)[k] != 0.0 ==>
      k - i >= 3 * p.confirmBars && k - i >= 2 * p.swingBars
  {
    hide Decide;
    if SignalAt(rows, p, i) != 0.0 && SignalAt(rows, p, k) != 0.0 {
      LastSignalBound(rows, p, i, k);
      NonZeroNeedsGap(rows, p, k, LastSignal(rows, p, k));
    }
  }

  lemma NonZeroNeedsGap(rows: seq<Bar>, p: Params, i: nat, last: int)
    requires i < |rows|
    ensures Decide(rows, p, i, last) != 0.0 ==> i - last >= MinGap(p)
  {
  }

  /** A list of registered swings below bar m, ascending, neighbours more than n apart. */
  ghost predicate SwingList(side: Side, rows: seq<Bar>, p: Params, pivots: seq<Pivot>, m: nat)
    requires m <= |rows|
  {
    && (forall k :: 0 <= k < |pivots| ==>
          && 0 <= pivots[k].bar < m
          && Qualifies(side, rows, p, pivots[k].bar)
          && pivots[k].price == Price(side, rows[pivots[k].bar]))
    && (forall j, k :: 0 <= j < k < |pivots| ==> pivots[k].bar - pivots[j].bar >= p.swingBars + 1)
  }

  lemma {:induction false} QualifiedApart(side: Side, rows: seq<Bar>, p: Params, a: nat, b: nat)
    requires a < b < |rows| && Qualifies(side, rows, p, a) && Qualifies(side, rows, p, b)
    ensures b - a >= p.swingBars + 1
  {
    SwingsApart(side, Prices(side, rows), p.swingBars, a, b);
  }

  lemma {:induction false} SwingListGrows(side: Side, rows: seq<Bar>, p: Params, before: seq<Pivot>, m: nat)
    requires m < |rows| && SwingList(side, rows, p, before, m) && Qualifies(side, rows, p, m)
    ensures SwingList(side, rows, p, before + [Pivot(m, Price(side, rows[m]))], m + 1)
  {
    hide Qualifies, Price;
    forall j | 0 <= j < |before|
      ensures m - before[j].bar >= p.swingBars + 1
    {
      QualifiedApart(side, rows, p, before[j].bar, m);
    }
  }

  /** Registered swings are real swings, decided by bar m - 1 + n, and ascending with
      more than n bars between neighbours. */
  lemma {:induction false} PivotsAreSwings(side: Side, rows: seq<Bar>, p: Params, m: nat)
    requires m <= |rows|
    ensures SwingList(side, rows, p, Pivots(side, rows, p, m), m)
  {
    hide Qualifies, Price;
    if m == 0 {
    } else {
      PivotsAreSwings(side, rows, p, m - 1);
      if Qualifies(side, rows, p, m - 1) {
        SwingListGrows(side, rows, p, Pivots(side, rows, p, m - 1), m - 1);
      }
    }
  }

  lemma QualifiedSwingBars(side: Side, rows: seq<Bar>, p: Params, cb: nat)
    requires cb < |rows| && Qualifies(side, rows, p, cb)
    ensures p.swingBars >= 1
  {
  }

  /** The slope guard never fires: with two confirmed highs their distance is at least 2. */
  lemma {:induction false} SlopeGuardNeverFires(rows: seq<Bar>, p: Params, i: nat)
    requires i < |rows|
    requires |Pivots(High, rows, p, Confirmed(i, p.swingBars))| >= 2
    ensures var highs := Pivots(High, rows, p, Confirmed(i, p.swingBars));
            var gap := highs[|highs| - 1].bar - highs[|highs| - 2].bar;
            gap >= p.swingBars + 1 && gap >= 2
  {
    hide Qualifies;
    var highs := Pivots(High, rows, p, Confirmed(i, p.swingBars));
    PivotsAreSwings(High, rows, p, Confirmed(i, p.swingBars));
    QualifiedSwingBars(High, rows, p, highs[|highs| - 1].bar);
  }

  /** A channel's upper line runs through the last two registered highs and its
      parallel, a positive width below, through one of the last two registered lows. */
  lemma ChannelGeometry(highs: seq<Pivot>, lows: seq<Pivot>, atr: Num)
    requires ChannelFrom(highs, lows, atr).Some?
    ensures |highs| >= 2 && |lows| >= 1
    ensures var ch := ChannelFrom(highs, lows, atr).value;
      && ch.width > 0.0
      && ch.Upper(highs[|highs| - 1].bar) == highs[|highs| - 1].price
      && ch.Upper(highs[|highs| - 2].bar) == highs[|highs| - 2].price
      && exists k :: |lows| - 2 <= k < |lows| && k >= 0 && ch.Lower(lows[k].bar) == lows[k].price
  {
  }

  /** The line's anchor is a registered swing high that bar i has already decided. */
  lemma {:induction false} AnchorIsConfirmedHigh(rows: seq<Bar>, p: Params, i: nat)
    requires i < |rows| && ChannelAt(rows, p, i).Some?
    ensures var anchor := ChannelAt(rows, p, i).value.anchor;
      && 0 <= anchor.bar && anchor.bar + p.swingBars <= i
      && Qualifies(High, rows, p, anchor.bar)
      && anchor.price == rows[anchor.bar].high
  {
    hide Qualifies, Atr;
    var highs := Pivots(High, rows, p, Confirmed(i, p.swingBars));
    PivotsAreSwings(High, rows, p, Confirmed(i, p.swingBars));
    assert ChannelAt(rows, p, i).value.anchor == highs[|highs| - 1];
  }

  lemma NonZeroNeedsRun(rows: seq<Bar>, p: Params, i: nat, last: int)
    requires i < |rows|
    ensures Decide(rows, p, i, last) in {-1.0, 0.0, 1.0}
    ensures Decide(rows, p, i, last) != 0.0 ==> ChannelAt(rows, p, i).Some?
    ensures Decide(rows, p, i, last) > 0.0 ==> RunBeyond(High, rows, p, ChannelAt(rows, p, i).value, i)
    ensures Decide(rows, p, i, last) < 0.0 ==> RunBeyond(Low, rows, p, ChannelAt(rows, p, i).value, i)
  {
  }

  lemma {:induction false} RunReaches(side: Side, rows: seq<Bar>, p: Params, ch: Channel, i: nat, x: int)
    requires i < |rows| && i - p.confirmBars <= x <= i
    ensures RunBeyond(side, rows, p, ch, i) ==> i >= p.confirmBars && Beyond(side, rows, p, ch, x)
  {
    if RunBeyond(side, rows, p, ch, i) {
      assert Beyond(side, rows, p, ch, i - p.confirmBars);
    }
  }

  /** What a signal certifies: a channel is in force and confirm_bars + 1 consecutive
      prices ending at bar i lie strictly beyond it, on the side of the signal. */
  lemma {:induction false} SignalMeaning(rows: seq<Bar>, p: Params, i: nat, x: int)
    requires i < |rows| && i - p.confirmBars <= x <= i
    ensures Signals(rows, p)[i] != 0.0 ==> ChannelAt(rows, p, i).Some? && i >= p.confirmBars
    ensures Signals(rows, p)[i] > 0.0 ==>
      TestPrice(High, rows[x], p.useClose) > ChannelAt(rows, p, i).value.Upper(x)
    ensures Signals(rows, p)[i] < 0.0 ==>
      TestPrice(Low, rows[x], p.useClose) < ChannelAt(rows, p, i).value.Lower(x)
  {
    hide ChannelAt, Decide, LastSignal, RunBeyond;
    NonZeroNeedsRun(rows, p, i, LastSignal(rows, p, i));
    if SignalAt(rows, p, i) != 0.0 {
      var ch := ChannelAt(rows, p, i).value;
      RunReaches(High, rows, p, ch, i, x);
      RunReaches(Low, rows, p, ch, i, x);
    }
  }

  // ----- exactly when a signal fires -----

  /** The last confirmed highs and lows both rose, or both fell. */
  predicate BothRose(rows: seq<Bar>, n: nat, i: nat)
    requires i < |rows|
  {
    && Less(Level(High, Highs(rows), n, i, 2), Level(High, Highs(rows), n, i, 1))
    && Less(Level(Low, Lows(rows), n, i, 2), Level(Low, Lows(rows), n, i, 1))
  }

  predicate BothFell(rows: seq<Bar>, n: nat, i: nat)
    requires i < |rows|
  {
    && Less(Level(High, Highs(rows), n, i, 1), Level(High, Highs(rows), n, i, 2))
    && Less(Level(Low, Lows(rows), n, i, 1), Level(Low, Lows(rows), n, i, 2))
  }

  /** The channel in force was left upwards, or downwards, confirm_bars ago and ever since. */
  predicate BrokeUp(rows: seq<Bar>, p: Params, i: nat)
    requires i < |rows|
  {
    && ChannelAt(rows, p, i).Some? && i >= p.confirmBars
    && forall x | i - p.confirmBars <= x <= i ::
      (if p.useClose then rows[x].close else rows[x].high) > ChannelAt(rows, p, i).value.Upper(x)
  }

  predicate BrokeDown(rows: seq<Bar>, p: Params, i: nat)
    requires i < |rows|
  {
    && ChannelAt(rows, p, i).Some? && i >= p.confirmBars
    && forall x | i - p.confirmBars <= x <= i ::
      (if p.useClose then rows[x].close else rows[x].low) < ChannelAt(rows, p, i).value.Lower(x)
  }

  /** No signal is too recent; before the first one, bars count from -999. */
  predicate GapKept(rows: seq<Bar>, p: Params, i: nat)
    requires i < |rows|
  {
    && i + 999 >= 3 * p.confirmBars && i + 999 >= 2 * p.swingBars
    && forall k | 0 <= k < i && Signals(rows, p)[k] != 0.0 :: i - k >= 3 * p.confirmBars && i - k >= 2 * p.swingBars
  }

  /** A bullish signal fires exactly on an upward break against which structure does not stand,
      a bearish one on a downward break where no bullish one does. */
  lemma {:induction false} SignalIff(rows: seq<Bar>, p: Params, i: nat)
    requires i < |rows|
    ensures Signals(rows, p)[i] in {-1.0, 0.0, 1.0}
    ensures Signals(rows, p)[i] == 1.0 <==>
      GapKept(rows, p, i) && BrokeUp(rows, p, i) && !BothFell(rows, p.swingBars, i)
    ensures Signals(rows, p)[i] == -1.0 <==>
      GapKept(rows, p, i) && BrokeDown(rows, p, i) && !BothRose(rows, p.swingBars, i)
      && !(BrokeUp(rows, p, i) && !BothFell(rows, p.swingBars, i))
  {
    hide ChannelAt, Structure, LastSignal, GapKept, Level, BothRose, BothFell, BrokeUp, BrokeDown, RunBeyond;
    StructureSides(rows, p.swingBars, i);
    GapMeans(rows, p, i);
    if ChannelAt(rows, p, i).Some? {
      BreakMeans(rows, p, i);
    } else {
      NoBreak(rows, p, i);
    }
  }

  lemma {:induction false} StructureSides(rows: seq<Bar>, n: nat, i: nat)
    requires i < |rows|
    ensures Structure(Highs(rows), Lows(rows), n)[i] >= 0.0 <==> !BothFell(rows, n, i)
    ensures Structure(Highs(rows), Lows(rows), n)[i] <= 0.0 <==> !BothRose(rows, n, i)
  {
    hide Structure, Level;
    StructureFromSwings(Highs(rows), Lows(rows), n, i);
  }

  lemma NoBreak(rows: seq<Bar>, p: Params, i: nat)
    requires i < |rows| && ChannelAt(rows, p, i).None?
    ensures !BrokeUp(rows, p, i) && !BrokeDown(rows, p, i)
  {
  }

  lemma {:induction false} BreakMeans(rows: seq<Bar>, p: Params, i: nat)
    requires i < |rows| && ChannelAt(rows, p, i).Some?
    ensures RunBeyond(High, rows, p, ChannelAt(rows, p, i).value, i) <==> BrokeUp(rows, p, i)
    ensures RunBeyond(Low, rows, p, ChannelAt(rows, p, i).value, i) <==> BrokeDown(rows, p, i)
  {
    hide ChannelAt;
    var ch := ChannelAt(rows, p, i).value;
    SideBroke(High, rows, p, ch, i);
    SideBroke(Low, rows, p, ch, i);
  }

  lemma {:induction false} SideBroke(side: Side, rows: seq<Bar>, p: Params, ch: Channel, i: nat)
    requires i < |rows|
    ensures RunBeyond(side, rows, p, ch, i) <==>
      && i >= p.confirmBars
      && forall x | i - p.confirmBars <= x <= i ::
        if side.High? then (if p.useClose then rows[x].close else rows[x].high) > ch.Upper(x)
        else (if p.useClose then rows[x].close else rows[x].low) < ch.Lower(x)
  {
    var from := i - p.confirmBars;
    if RunBeyond(side, rows, p, ch, i) {
      assert Beyond(side, rows, p, ch, from);
    }
    if i >= p.confirmBars {
      forall x | from <= x <= i
        ensures Beyond(side, rows, p, ch, x) <==>
          if side.High? then (if p.useClose then rows[x].close else rows[x].high) > ch.Upper(x)
          else (if p.useClose then rows[x].close else rows[x].low) < ch.Lower(x)
      {
      }
    }
  }

  /** The recorded last signal is the last signal. */
  lemma {:induction false} LastSignalIsLast(rows: seq<Bar>, p: Params, i: nat)
    requires i <= |rows|
    ensures -999 <= LastSignal(rows, p, i) < i && (LastSignal(rows, p, i) < 0 ==> LastSignal(rows, p, i) == -999)
    ensures LastSignal(rows, p, i) >= 0 ==> SignalAt(rows, p, LastSignal(rows, p, i)) != 0.0
    ensures forall k | 0 <= k < i && SignalAt(rows, p, k) != 0.0 :: k <= LastSignal(rows, p, i)
  {
    hide Decide;
    if i == 0 {
    } else {
      LastSignalIsLast(rows, p, i - 1);
    }
  }

  lemma {:induction false} GapMeans(rows: seq<Bar>, p: Params, i: nat)
    requires i < |rows|
    ensures GapKept(rows, p, i) <==> i - LastSignal(rows, p, i) >= MinGap(p)
  {
    hide Decide, LastSignal, SignalAt;
    LastSignalIsLast(rows, p, i);
    assert forall k | 0 <= k < i :: Signals(rows, p)[k] == SignalAt(rows, p, k);
  }

  /** A channel, exactly: its upper line runs through the last two highs, its lower one through
      the last low, or through the one before if the last one is not below the upper line; and it
      is between 0.3 and 15 ATRs wide. */
  lemma {:induction false} ChannelIff(highs: seq<Pivot>, lows: seq<Pivot>, atr: Num, ch: Channel)
    ensures ChannelFrom(highs, lows, atr) == Some(ch) <==>
      && |highs| >= 2 && |lows| >= 1
      && highs[|highs| - 1].bar - highs[|highs| - 2].bar >= 2
      && ch.anchor == highs[|highs| - 1]
      && ch.Upper(highs[|highs| - 2].bar) == highs[|highs| - 2].price
      && (if lows[|lows| - 1].price < ch.Upper(lows[|lows| - 1].bar) || |lows| == 1
          then ch.Lower(lows[|lows| - 1].bar) == lows[|lows| - 1].price
          else ch.Lower(lows[|lows| - 2].bar) == lows[|lows| - 2].price)
      && ch.width > 0.0 && atr.Val? && atr.v > 0.0 && 0.3 * atr.v <= ch.width <= 15.0 * atr.v
  {
    if |highs| >= 2 && highs[|highs| - 1].bar - highs[|highs| - 2].bar >= 2 {
      var older, newer := highs[|highs| - 2], highs[|highs| - 1];
      SlopeThrough(older, newer, ch.slope);
      var slope := (newer.price - older.price) / (newer.bar - older.bar) as real;
      if |lows| >= 1 && ch.anchor == newer && ch.slope == slope {
        SameLine(ch, slope, lows[|lows| - 1]);
        if |lows| >= 2 {
          SameLine(ch, slope, lows[|lows| - 2]);
        }
      }
    }
  }

  lemma SameLine(ch: Channel, slope: real, low: Pivot)
    requires ch.slope == slope
    ensures WidthAt(ch.anchor, slope, low) == ch.Upper(low.bar) - low.price
    ensures ch.Lower(low.bar) == low.price <==> ch.width == WidthAt(ch.anchor, slope, low)
  {
  }

  lemma SlopeThrough(older: Pivot, newer: Pivot, slope: real)
    requires newer.bar - older.bar >= 2
    ensures newer.price + slope * (older.bar - newer.bar) as real == older.price <==>
      slope == (newer.price - older.price) / (newer.bar - older.bar) as real
  {
    var d := (newer.bar - older.bar) as real;
    assert (older.bar - newer.bar) as real == -d;
    assert slope * -d == -(slope * d);
    var exact := (newer.price - older.price) / d;
    assert exact * d == newer.price - older.price;
    if slope * d == exact * d {
      assert (slope - exact) * d == 0.0;
    }
  }

  /** A swing counts, exactly, if on each of its two sides some bar within reach lies far enough
      from it: at least the multiple of the ATR at the swing. */
  lemma {:induction false} QualifiesIff(side: Side, rows: seq<Bar>, p: Params, cb: nat)
    requires cb < |rows|
    ensures Qualifies(side, rows, p, cb) <==>
      && IsSwing(side, Prices(side, rows), p.swingBars, cb)
      && Atr(rows, p.atrPeriod)[cb].Val? && Atr(rows, p.atrPeriod)[cb].v > 0.0
      && var size := Atr(rows, p.atrPeriod)[cb].v * p.atrMult;
      && SomeFar(side, rows, cb, size, cb - p.swingBars, cb - 1)
      && SomeFar(side, rows, cb, size, cb + 1, cb + p.swingBars)
  {
    hide Atr, IsSwing, SomeFar, SwingSize;
    if IsSwing(side, Prices(side, rows), p.swingBars, cb) && Atr(rows, p.atrPeriod)[cb].Val? {
      SwingHasSides(side, Prices(side, rows), p.swingBars, cb);
      SizeIff(side, rows, p.swingBars, cb, Atr(rows, p.atrPeriod)[cb].v * p.atrMult);
    }
  }

  /** The size of a swing is measured on its smaller side. */
  lemma {:induction false} SizeIff(side: Side, rows: seq<Bar>, n: nat, cb: nat, size: real)
    requires 1 <= n <= cb && cb + n < |rows|
    ensures SwingSize(side, rows, n, cb) >= size <==>
      SomeFar(side, rows, cb, size, cb - n, cb - 1) && SomeFar(side, rows, cb, size, cb + 1, cb + n)
  {
    hide SomeFar;
    ExtremeFar(side, rows, cb, size, cb - n, cb);
    ExtremeFar(side, rows, cb, size, cb + 1, cb + n + 1);
  }

  predicate FarFrom(side: Side, rows: seq<Bar>, cb: nat, size: real, x: int)
    requires cb < |rows|
  {
    && 0 <= x < |rows|
    && (if side.High? then rows[cb].high - rows[x].low else rows[x].high - rows[cb].low) >= size
  }

  /** Some bar from `first` to `last` lies far enough from the swing. */
  predicate SomeFar(side: Side, rows: seq<Bar>, cb: nat, size: real, first: int, last: int)
    requires cb < |rows|
  {
    exists x | first <= x <= last :: FarFrom(side, rows, cb, size, x)
  }

  lemma SwingHasSides(side: Side, prices: seq<real>, n: nat, i: int)
    requires IsSwing(side, prices, n, i)
    ensures 1 <= n <= i && i + n < |prices|
  {
  }

  lemma {:induction false} ExtremeFar(side: Side, rows: seq<Bar>, cb: nat, size: real, lo: nat, hi: nat)
    requires cb < |rows| && lo < hi <= |rows|
    ensures var e := Extreme(if side.High? then Low else High, rows, lo, hi);
      (if side.High? then rows[cb].high - e else e - rows[cb].low) >= size
      <==> SomeFar(side, rows, cb, size, lo, hi - 1)
  {
    hide FarFrom;
    var last := hi - 1;
    if lo == last {
      assert SomeFar(side, rows, cb, size, lo, last) <==> FarFrom(side, rows, cb, size, last);
      FarMeans(side, rows, cb, size, last);
    } else {
      ExtremeFar(side, rows, cb, size, lo, last);
      FarMeans(side, rows, cb, size, last);
      assert SomeFar(side, rows, cb, size, lo, last) <==>
        SomeFar(side, rows, cb, size, lo, last - 1) || FarFrom(side, rows, cb, size, last);
    }
  }

  lemma FarMeans(side: Side, rows: seq<Bar>, cb: nat, size: real, x: nat)
    requires cb < |rows| && x < |rows|
    ensures FarFrom(side, rows, cb, size, x) <==>
      (if side.High? then rows[cb].high - rows[x].low else rows[x].high - rows[cb].low) >= size
  {
  }

  /** Every swing that counts is registered. */
  lemma {:induction false} PivotsComplete(side: Side, rows: seq<Bar>, p: Params, m: nat, cb: nat)
    requires cb < m <= |rows| && Qualifies(side, rows, p, cb)
    ensures Pivot(cb, Price(side, rows[cb])) in Pivots(side, rows, p, m)
  {
    hide Qualifies, Price;
    var before := Pivots(side, rows, p, m - 1);
    if cb < m - 1 {
      PivotsComplete(side, rows, p, m - 1, cb);
      assert Pivots(side, rows, p, m)[..|before|] == before;
    } else {
      assert Pivots(side, rows, p, m) == before + [Pivot(cb, Price(side, rows[cb]))];
    }
  }

  // ----- causality -----

  lemma {:induction false} ExtremeFromPrefix(side: Side, a: seq<Bar>, b: seq<Bar>, lo: nat, hi: nat)
    requires lo < hi <= |a| && hi <= |b|
    requires forall k :: 0 <= k < hi ==> a[k] == b[k]
    ensures Extreme(side, a, lo, hi) == Extreme(side, b, lo, hi)
  {
    if lo + 1 >= hi {
    } else {
      ExtremeFromPrefix(side, a, b, lo, hi - 1);
    }
  }

  /** The size filter looks n bars ahead of the swing, so it too is decided n bars later. */
  lemma {:induction false} QualifiesFromPrefix(side: Side, a: seq<Bar>, b: seq<Bar>, p: Params, cb: nat, i: nat)
    requires i < |a| && i < |b| && a[..i + 1] == b[..i + 1] && cb + p.swingBars <= i
    ensures Qualifies(side, a, p, cb) == Qualifies(side, b, p, cb)
  {
    hide Atr, Extreme;
    var n := p.swingBars;
    assert forall k :: 0 <= k <= i ==> a[k] == a[..i + 1][k] == b[k];
    assert a[..cb + 1] == b[..cb + 1];
    AtrFromPrefix(a, b, p.atrPeriod, cb);
    assert Prices(side, a)[..i + 1] == Prices(side, b)[..i + 1];
    SwingFromPrefix(side, Prices(side, a), Prices(side, b), n, cb, i);
    if IsSwing(side, Prices(side, a), n, cb) {
      var opposite := if side.High? then Low else High;
      ExtremeFromPrefix(opposite, a, b, cb - n, cb);
      ExtremeFromPrefix(opposite, a, b, cb + 1, cb + n + 1);
      assert SwingSize(side, a, n, cb) == SwingSize(side, b, n, cb);
    }
  }

  lemma {:induction false} PivotsFromPrefix(side: Side, a: seq<Bar>, b: seq<Bar>, p: Params, m: nat, i: nat)
    requires i < |a| && i < |b| && a[..i + 1] == b[..i + 1]
    requires m <= Confirmed(i, p.swingBars)
    ensures Pivots(side, a, p, m) == Pivots(side, b, p, m)
  {
    if m == 0 {
    } else {
      PivotsFromPrefix(side, a, b, p, m - 1, i);
      QualifiesFromPrefix(side, a, b, p, m - 1, i);
      assert a[m - 1] == a[..i + 1][m - 1] == b[m - 1];
    }
  }

  lemma {:induction false} DecideFromPrefix(a: seq<Bar>, b: seq<Bar>, p: Params, i: nat, last: int)
    requires i < |a| && i < |b| && a[..i + 1] == b[..i + 1]
    ensures Decide(a, p, i, last) == Decide(b, p, i, last)
  {
    var m := Confirmed(i, p.swingBars);
    PivotsFromPrefix(High, a, b, p, m, i);
    PivotsFromPrefix(Low, a, b, p, m, i);
    AtrFromPrefix(a, b, p.atrPeriod, i);
    assert ChannelAt(a, p, i) == ChannelAt(b, p, i);
    assert forall k :: 0 <= k <= i ==> a[k] == a[..i + 1][k] == b[k];
    assert Highs(a)[..i + 1] == Highs(b)[..i + 1];
    assert Lows(a)[..i + 1] == Lows(b)[..i + 1];
    StructureFromPrefix(Highs(a), Lows(a), Highs(b), Lows(b), p.swingBars, i);
    var ch := ChannelAt(a, p, i);
    if ch.Some? {
      forall side: Side, x | 0 <= x <= i
        ensures Beyond(side, a, p, ch.value, x) == Beyond(side, b, p, ch.value, x)
      {
      }
      RunFromPrefix(High, a, b, p, ch.value, i);
      RunFromPrefix(Low, a, b, p, ch.value, i);
    }
  }

  lemma {:induction false} RunFromPrefix(side: Side, a: seq<Bar>, b: seq<Bar>, p: Params, ch: Channel, i: nat)
    requires i < |a| && i < |b|
    requires forall x :: 0 <= x <= i ==> Beyond(side, a, p, ch, x) == Beyond(side, b, p, ch, x)
    ensures RunBeyond(side, a, p, ch, i) == RunBeyond(side, b, p, ch, i)
  {
    forall x | i - p.confirmBars <= x <= i
      ensures Beyond(side, a, p, ch, x) == Beyond(side, b, p, ch, x)
    {
      if x < 0 {
        assert !Beyond(side, a, p, ch, x) && !Beyond(side, b, p, ch, x);
      }
    }
  }

  lemma {:induction false} LastSignalFromPrefix(a: seq<Bar>, b: seq<Bar>, p: Params, i: nat)
    requires i <= |a| && i <= |b| && a[..i] == b[..i]
    ensures LastSignal(a, p, i) == LastSignal(b, p, i)
  {
    hide Decide;
    if i == 0 {
    } else {
      assert a[..i - 1] == a[..i][..i - 1] == b[..i - 1];
      LastSignalFromPrefix(a, b, p, i - 1);
      DecideFromPrefix(a, b, p, i - 1, LastSignal(a, p, i - 1));
    }
  }

  /** No lookahead: the signal at bar i is a function of bars 0..i, through the
      accumulated swing lists and the last-signal state. */
  lemma {:induction false} SignalFromPrefix(a: seq<Bar>, b: seq<Bar>, p: Params, i: nat)
    requires i < |a| && i < |b| && a[..i + 1] == b[..i + 1]
    ensures SignalAt(a, p, i) == SignalAt(b, p, i)
  {
    assert a[..i] == a[..i + 1][..i] == b[..i];
    LastSignalFromPrefix(a, b, p, i);
    DecideFromPrefix(a, b, p, i, LastSignal(a, p, i));
  }
}
