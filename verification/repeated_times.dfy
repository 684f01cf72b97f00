/** M1 bars that repeat a time: where the swing-pullback bias looks ahead. */
module RepeatedTimes {
  import opened Bars
  import opened Series
  import opened SignalPipeline
  import opened SwingPullback
  import opened Swings
  import opened Volatility

  /** A zigzag with rising highs and lows, and a drop that confirms the last high. */
  function Zigzag(i: nat): real
    requires i < 7
  {
    [2.0, 1.0, 3.0, 2.0, 4.0, 0.0, 1.0][i]
  }

  /** The zigzag as flat M1 bars, with a choice for the time of the last one. */
  function ZigzagTable(last: int): (r: seq<Bar>)
    ensures |r| == 7
    ensures forall i :: 0 <= i < 7 ==> r[i].high == r[i].low == r[i].close == Zigzag(i)
    ensures forall i :: 0 <= i < 7 ==> r[i].t == if i == 6 then last else i
  {
    seq(7, i requires 0 <= i < 7 =>
      var z := Zigzag(i);
      Bar(if i == 6 then last else i, z, z, z, z, z, z, Asian, false))
  }

  const ZIGZAG_PARAMS := Params(1, 1, 0.25, M1)

  lemma {:induction false} ZigzagSwings(side: Side, p: seq<real>)
    requires |p| == 7 && forall i :: 0 <= i < 7 ==> p[i] == Zigzag(i)
    ensures var mask := SwingMask(side, p, 1);
      && Marked(mask, Confirmed(5, 1)) == (if side.High? then [2, 4] else [1, 3])
      && forall i: nat :: i < 5 ==> |Marked(mask, Confirmed(i, 1))| < 2 || (i == 4 && side.Low?)
  {
    hide SwingMask;
    var mask := SwingMask(side, p, 1);
    ZigzagMask(side, p);
    assert Marked(mask, 0) == [] && Marked(mask, 1) == [];
    assert Marked(mask, 2) == if side.Low? then [1] else [];
    assert Marked(mask, 3) == if side.Low? then [1] else [2];
    assert Marked(mask, 4) == if side.Low? then [1, 3] else [2];
    assert Marked(mask, 5) == if side.Low? then [1, 3] else [2, 4];
  }

  lemma {:induction false} NarrowSwing(side: Side, p: seq<real>, i: nat)
    requires 1 <= i < |p| - 1
    ensures SwingMask(side, p, 1)[i] <==> Beats(side, p[i], p[i - 1]) && Beats(side, p[i], p[i + 1])
  {
    var before, after := i - 1, i + 1;
    assert IsSwing(side, p, 1, i) ==> Beats(side, p[i], p[before]) && Beats(side, p[i], p[after]);
  }

  lemma NoSwingAtStart(side: Side, p: seq<real>)
    requires |p| > 0
    ensures !SwingMask(side, p, 1)[0]
  {
  }

  lemma {:induction false} ZigzagMask(side: Side, p: seq<real>)
    requires |p| == 7 && forall i :: 0 <= i < 7 ==> p[i] == Zigzag(i)
    ensures var mask := SwingMask(side, p, 1);
      && !mask[0] && mask[1] == side.Low? && mask[2] == side.High? && mask[3] == side.Low? && mask[4] == side.High?
  {
    NoSwingAtStart(side, p);
    hide IsSwing, Zigzag, SwingMask;
    NarrowSwing(side, p, 1);
    NarrowSwing(side, p, 2);
    NarrowSwing(side, p, 3);
    NarrowSwing(side, p, 4);
  }

  /** The structure turns up at bar 5 and not before. */
  lemma {:induction false} ZigzagStructure(last: int)
    ensures var rows := ZigzagTable(last);
      && Structure(Highs(rows), Lows(rows), 1)[5] == 1.0
      && forall i: nat :: i < 5 ==> Structure(Highs(rows), Lows(rows), 1)[i] == 0.0
    ensures LevelAt(Low, ZigzagTable(last), ZIGZAG_PARAMS, 5) == Val(2.0)
    ensures LevelAt(High, ZigzagTable(last), ZIGZAG_PARAMS, 5) == Val(4.0)
  {
    hide Structure, Marked, SwingMask, IsSwing;
    var rows := ZigzagTable(last);
    ZigzagSwings(High, Highs(rows));
    ZigzagSwings(Low, Lows(rows));
    StructureFromSwings(Highs(rows), Lows(rows), 1, 5);
    forall i: nat | i < 5
      ensures Structure(Highs(rows), Lows(rows), 1)[i] == 0.0
    {
      StructureFromSwings(Highs(rows), Lows(rows), 1, i);
    }
  }

  lemma {:induction false} ZigzagAtr(last: int)
    ensures Atr(ZigzagTable(last), 1)[5] == Val(4.0)
  {
    var rows := ZigzagTable(last);
    assert TrueRange(rows, 5) == 4.0;
    assert 1.0 / (1 as real) == 1.0;
  }

  /** Bar k's bias is the structure of the bar before the last one at its time. */
  lemma {:induction false} ZigzagBias(last: int, k: nat, q: nat)
    requires k <= q < 7 && ZigzagTable(last)[q].t == ZigzagTable(last)[k].t
    requires forall i :: q < i < 7 ==> ZigzagTable(last)[i].t > ZigzagTable(last)[k].t
    ensures var rows := ZigzagTable(last);
      BiasAt(rows, 1, rows[k].t) == if q == 0 then NaN else Val(Structure(Highs(rows), Lows(rows), 1)[q - 1])
  {
    hide Structure;
    var rows := ZigzagTable(last);
    AsOfAt(Times(rows), CompletedStructure(rows, 1), rows[k].t, q);
  }

  /** With the last bar at the time of the one before it, that one buys; with a later one it does
      not. */
  lemma {:induction false} ZigzagSignals()
    ensures PullbackSignals(ZigzagTable(6), ZigzagTable(6), ZIGZAG_PARAMS)[5] == 0.0
    ensures PullbackSignals(ZigzagTable(5), ZigzagTable(5), ZIGZAG_PARAMS)[5] == 1.0
  {
    hide Structure, LevelAt, Atr, BiasAt, ZigzagTable, LastTraded;
    var late, same := ZigzagTable(6), ZigzagTable(5);
    ZigzagStructure(6);
    ZigzagStructure(5);
    ZigzagBias(6, 5, 5);
    ZigzagBias(5, 5, 6);
    ZigzagAtr(5);
    var bias := Bias(same, same, 1);
    NothingTradedYet(same, bias);
  }

  lemma {:induction false} NothingTradedYet(rows: seq<Bar>, bias: seq<Num>)
    requires rows == ZigzagTable(5) && bias == Bias(rows, rows, 1)
    ensures LastTraded(Low, rows, bias, ZIGZAG_PARAMS, 5) == NaN
  {
    hide LevelAt, Atr, BiasAt, ZigzagTable, Structure;
    ZigzagStructure(5);
    forall k: nat | k < 5
      ensures !Setup(Low, rows, bias, ZIGZAG_PARAMS, k)
    {
      ZigzagBias(5, k, k);
    }
    NeverSetUp(rows, bias, 5);
  }

  lemma {:induction false} NeverSetUp(rows: seq<Bar>, bias: seq<Num>, i: nat)
    requires |bias| == |rows| && i <= |rows|
    requires forall k: nat :: k < i ==> !Setup(Low, rows, bias, ZIGZAG_PARAMS, k)
    ensures LastTraded(Low, rows, bias, ZIGZAG_PARAMS, i) == NaN
  {
    hide Setup, LevelAt;
    if i == 0 {
    } else {
      NeverSetUp(rows, bias, i - 1);
    }
  }

  /** Distinct times are needed when both timeframes are M1: the as-of merge takes the last of
      equal times, and so sees a bar after the one it enriches. */
  lemma {:induction false} RepeatedTimesLookAhead()
    ensures !PointInTime(Pullback(M1, ZIGZAG_PARAMS), M1, false)
  {
    hide PullbackSignals, ZigzagTable;
    var a, b, f := ZigzagTable(6), ZigzagTable(5), Pullback(M1, ZIGZAG_PARAMS);
    ZigzagSignals();
    ZigzagPrefix();
    assert f(a).value[5] == Val(0.0) && f(b).value[5] == Val(1.0);
    assert Covered(a, M1, 5) == Covered(b, M1, 5);
  }

  lemma ZigzagPrefix()
    ensures ZigzagTable(6)[..6] == ZigzagTable(5)[..6]
    ensures Ordered(ZigzagTable(6), false) && Ordered(ZigzagTable(5), false)
  {
  }
}
