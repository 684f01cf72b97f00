/** The claim of the signal pipeline: an enriched bar never sees its own, still open,
    period. Two runs over tables that agree up to the period's start agree on the value. */
module SignalPipeline {
  import opened Wrappers
  import opened Series
  import opened Bars
  import opened IntegerArithmetic
  import opened Rollup

  datatype Timeframe = M1 | M5 | M15 | H1 | H4 | D1

  function Minutes(tf: Timeframe): Length {
    match tf
    case M1 => 1
    case M5 => 5
    case M15 => 15
    case H1 => 60
    case H4 => 240
    case D1 => 1440
  }

  /** Every resample frequency divides the day, so bins are floors of the epoch time. */
  function TfGrid(tf: Timeframe): Grid {
    Grid(0, Minutes(tf) * MINUTE_US, Floor)
  }

  /** A resampled bar belongs to the whole number of minutes, hours or days it falls into. */
  lemma {:induction false} BinMeans(tf: Timeframe, t: int)
    ensures var v := Start(TfGrid(tf), t);
      var length := match tf
        case M1 => 60_000_000
        case M5 => 300_000_000
        case M15 => 900_000_000
        case H1 => 3_600_000_000
        case H4 => 14_400_000_000
        case D1 => 86_400_000_000;
      v % length == 0 && v <= t < v + length
  {
    hide Start;
    StartMeans(TfGrid(tf), t);
  }

  /** `_rollup_timeframe`; M1 is a copy. Periods without bars have no row. */
  function TfRows(table: seq<Bar>, tf: Timeframe): seq<Bar> {
    if tf.M1? then table else Roll(table, TfGrid(tf))
  }

  /** An indicator pass over a table: one value per timeframe row, or an exception. */
  type Indicator = seq<Bar> -> Option<seq<Num>>

  /** `_forward_fill_to_m1` for one column: shift by one row, then as-of merge. */
  function ForwardFill(table: seq<Bar>, tf: Timeframe, values: seq<Num>): (r: seq<Num>)
    requires |values| == |TfRows(table, tf)|
    ensures |r| == |table|
  {
    var shifted := Shift(values, 1);
    if tf.M1? then shifted
    else seq(|table|, i requires 0 <= i < |table| => AsOf(Times(TfRows(table, tf)), shifted, table[i].t))
  }

  /** The enriched column. A column of the wrong length cannot be assigned to the frame. */
  function Enrich(f: Indicator, table: seq<Bar>, tf: Timeframe): (r: Option<seq<Num>>)
    ensures r.Some? ==> |r.value| == |table|
  {
    var column := f(table);
    if column.None? || |column.value| != |TfRows(table, tf)| then None
    else Some(ForwardFill(table, tf, column.value))
  }

  /** The bars of a sorted table before time p. */
  function Until(table: seq<Bar>, p: int): seq<Bar> {
    if |table| == 0 || table[|table| - 1].t < p then table else Until(table[..|table| - 1], p)
  }

  /** The bars that rows 0..j aggregate. */
  function Covered(table: seq<Bar>, tf: Timeframe, j: nat): seq<Bar>
    requires j < |TfRows(table, tf)|
  {
    if tf.M1? then table[..j + 1]
    else Until(table, TfRows(table, tf)[j].t + TfGrid(tf).length)
  }

  /** A table sorted by time; `strict` also forbids two bars at one time. */
  predicate Ordered(table: seq<Bar>, strict: bool) {
    SortedByTime(table) && (strict ==> StrictlyByTime(table))
  }

  /** Row j's value is settled by the bars of rows 0..j once row j+1 exists. */
  ghost predicate PointInTime(f: Indicator, tf: Timeframe, strict: bool) {
    forall a: seq<Bar>, b: seq<Bar>, j: nat ::
      && Ordered(a, strict) && Ordered(b, strict)
      && f(a).Some? && f(b).Some?
      && j + 1 < |TfRows(a, tf)| && j + 1 < |TfRows(b, tf)|
      && j < |f(a).value| && j < |f(b).value|
      && Covered(a, tf, j) == Covered(b, tf, j)
      ==> f(a).value[j] == f(b).value[j]
  }

  // ----- prefixes of a sorted table -----

  lemma {:induction false} UntilIsPrefix(table: seq<Bar>, p: int)
    requires SortedByTime(table)
    ensures var m := |Until(table, p)|;
      && m <= |table|
      && Until(table, p) == table[..m]
      && (forall i :: 0 <= i < m ==> table[i].t < p)
      && (forall i :: m <= i < |table| ==> table[i].t >= p)
  {
    if |table| > 0 && table[|table| - 1].t >= p {
      var head := table[..|table| - 1];
      UntilIsPrefix(head, p);
      assert Until(table, p) == Until(head, p) == head[..|Until(head, p)|] == table[..|Until(head, p)|];
    }
  }

  lemma {:induction false} UntilUnique(table: seq<Bar>, p: int, m: nat)
    requires SortedByTime(table) && m <= |table|
    requires forall i :: 0 <= i < m ==> table[i].t < p
    requires forall i :: m <= i < |table| ==> table[i].t >= p
    ensures Until(table, p) == table[..m]
  {
    UntilIsPrefix(table, p);
    var u := |Until(table, p)|;
    if u < |table| { assert table[u].t >= p; }
    if m < |table| { assert table[m].t >= p; }
    assert u == m;
  }

  lemma {:induction false} UntilUntil(table: seq<Bar>, p: int, s: int)
    requires SortedByTime(table) && s <= p
    ensures Until(Until(table, p), s) == Until(table, s)
  {
    UntilIsPrefix(table, p);
    UntilIsPrefix(table, s);
    var m, u := |Until(table, s)|, |Until(table, p)|;
    if u < |table| { assert table[u].t >= p; }
    assert m <= u;
    UntilUnique(table[..u], s, m);
    assert table[..u][..m] == table[..m];
  }

  // ----- rows of a floored rollup -----

  lemma {:induction false} RollOnGrid(bars: seq<Bar>, g: Grid)
    ensures forall k :: 0 <= k < |Roll(bars, g)| ==> Start(g, Roll(bars, g)[k].t) == Roll(bars, g)[k].t
  {
    if |bars| == 0 {
    } else {
      RollOnGrid(bars[..|bars| - 1], g);
      StartIdempotent(g, bars[|bars| - 1].t);
    }
  }

  /** The rows before a bar's period are the rollup of the bars before that period. */
  lemma {:induction false} RowAtPeriod(table: seq<Bar>, g: Grid, i: nat) returns (q: nat)
    requires SortedByTime(table) && i < |table| && g.rounding.Floor?
    ensures var p := Start(g, table[i].t);
      && q < |Roll(table, g)|
      && Roll(table, g)[q].t == p
      && Roll(table, g)[..q] == Roll(Until(table, p), g)
  {
    var p := Start(g, table[i].t);
    FloorBounds(g, table[i].t);
    UntilIsPrefix(table, p);
    var m := |Until(table, p)|;
    assert m <= i;
    StartIdempotent(g, table[i].t);
    StartMonotone(g, p, table[m].t);
    StartMonotone(g, table[m].t, table[i].t);
    assert Start(g, table[m].t) == p;
    RollIncreasing(table[..m], g);
    if m > 0 {
      FloorBounds(g, table[m - 1].t);
    }
    RollSnoc(table, g, m);
    RollExtends(table, g, m + 1);
    q := |Roll(table[..m], g)|;
  }

  /** Times of later rows are beyond every bar of an earlier period. */
  lemma {:induction false} LaterRowsAreLater(table: seq<Bar>, g: Grid, q: nat, k: nat, t: int)
    requires SortedByTime(table) && q < k < |Roll(table, g)|
    requires Start(g, t) == Roll(table, g)[q].t
    ensures Roll(table, g)[k].t > t
  {
    RollIncreasing(table, g);
    RollOnGrid(table, g);
    if Roll(table, g)[k].t <= t {
      StartMonotone(g, Roll(table, g)[k].t, t);
    }
  }

  lemma {:induction false} EnrichedIsPreviousRow(table: seq<Bar>, tf: Timeframe, values: seq<Num>, i: nat, q: nat)
    requires !tf.M1? && SortedByTime(table) && i < |table| && |values| == |TfRows(table, tf)|
    requires q < |TfRows(table, tf)| && TfRows(table, tf)[q].t == Start(TfGrid(tf), table[i].t)
    ensures ForwardFill(table, tf, values)[i] == if q == 0 then NaN else values[q - 1]
  {
    var rows, g := TfRows(table, tf), TfGrid(tf);
    FloorBounds(g, table[i].t);
    forall k | q < k < |rows|
      ensures Times(rows)[k] > table[i].t
    {
      LaterRowsAreLater(table, g, q, k, table[i].t);
    }
    AsOfAt(Times(rows), Shift(values, 1), table[i].t, q);
  }

  /** A column is enriched exactly when the indicator gives one value per row, and on M1 the value
      is the one of the bar before. */
  lemma EnrichMeans(f: Indicator, table: seq<Bar>, tf: Timeframe, i: nat)
    ensures Enrich(f, table, tf).Some? <==> f(table).Some? && |f(table).value| == |TfRows(table, tf)|
    ensures Enrich(f, table, tf).Some? && tf.M1? && i < |table| ==>
      Enrich(f, table, tf).value[i] == if i == 0 then NaN else f(table).value[i - 1]
  {
  }

  /** Consecutive rows lie at least one period length apart. */
  lemma {:induction false} RowsApart(table: seq<Bar>, g: Grid, j: nat, q: nat)
    requires SortedByTime(table) && j < q < |Roll(table, g)| && g.rounding.Floor?
    ensures Roll(table, g)[j].t + g.length <= Roll(table, g)[q].t
  {
    RollIncreasing(table, g);
    RollOnGrid(table, g);
    var s, p := Roll(table, g)[j].t, Roll(table, g)[q].t;
    var ks, kp := Quotient(Floor, s - g.origin, g.length), Quotient(Floor, p - g.origin, g.length);
    if kp <= ks {
      if kp < ks { ProductGap(ks, kp, g.length); }
    } else {
      ProductGap(kp, ks, g.length);
    }
  }

  lemma {:induction false} CoveredAgree(a: seq<Bar>, b: seq<Bar>, tf: Timeframe, p: int, j: nat)
    requires !tf.M1? && SortedByTime(a) && SortedByTime(b) && Until(a, p) == Until(b, p)
    requires j < |TfRows(a, tf)| && j < |TfRows(b, tf)| && TfRows(a, tf)[j] == TfRows(b, tf)[j]
    requires TfRows(a, tf)[j].t + TfGrid(tf).length <= p
    ensures Covered(a, tf, j) == Covered(b, tf, j)
  {
    var s := TfRows(a, tf)[j].t + TfGrid(tf).length;
    UntilUntil(a, p, s);
    UntilUntil(b, p, s);
  }

  /** Two tables that agree before a period both reach it at the same row, having
      settled the same rows from the same bars. */
  lemma {:induction false} SameRowReached(tf: Timeframe, a: seq<Bar>, i: nat, b: seq<Bar>, k: nat) returns (q: nat)
    requires !tf.M1? && SortedByTime(a) && SortedByTime(b) && i < |a| && k < |b|
    requires Start(TfGrid(tf), a[i].t) == Start(TfGrid(tf), b[k].t)
    requires Until(a, Start(TfGrid(tf), a[i].t)) == Until(b, Start(TfGrid(tf), a[i].t))
    ensures q < |TfRows(a, tf)| && TfRows(a, tf)[q].t == Start(TfGrid(tf), a[i].t)
    ensures q < |TfRows(b, tf)| && TfRows(b, tf)[q].t == Start(TfGrid(tf), b[k].t)
    ensures q > 0 ==> Covered(a, tf, q - 1) == Covered(b, tf, q - 1)
  {
    hide Roll, TfGrid, Until;
    var g, p := TfGrid(tf), Start(TfGrid(tf), a[i].t);
    assert g.rounding.Floor? by { FlooredGrid(tf); }
    q := RowAtPeriod(a, g, i);
    var q' := RowAtPeriod(b, g, k);
    assert q == |Roll(a, g)[..q]| == |Roll(b, g)[..q']| == q';
    if q > 0 {
      assert Roll(a, g)[q - 1] == Roll(a, g)[..q][q - 1] == Roll(b, g)[..q][q - 1] == Roll(b, g)[q - 1];
      RowsApart(a, g, q - 1, q);
      CoveredAgree(a, b, tf, p, q - 1);
    }
  }

  lemma FlooredGrid(tf: Timeframe)
    ensures TfGrid(tf).rounding.Floor?
  {
  }

  /** No lookahead above M1: if the two tables agree on every bar before the start of
      the bar's period, the enriched values are equal, whatever follows. */
  lemma {:induction false} NoLookahead(
    f: Indicator, tf: Timeframe, strict: bool, a: seq<Bar>, i: nat, b: seq<Bar>, k: nat)
    requires !tf.M1? && PointInTime(f, tf, strict)
    requires Ordered(a, strict) && Ordered(b, strict) && i < |a| && k < |b|
    requires Enrich(f, a, tf).Some? && Enrich(f, b, tf).Some?
    ensures var p := Start(TfGrid(tf), a[i].t);
      p == Start(TfGrid(tf), b[k].t) && Until(a, p) == Until(b, p)
      ==> Enrich(f, a, tf).value[i] == Enrich(f, b, tf).value[k]
  {
    hide TfRows, ForwardFill, Covered, TfGrid;
    var p := Start(TfGrid(tf), a[i].t);
    if p == Start(TfGrid(tf), b[k].t) && Until(a, p) == Until(b, p) {
      var q := SameRowReached(tf, a, i, b, k);
      EnrichedIsPreviousRow(a, tf, f(a).value, i, q);
      EnrichedIsPreviousRow(b, tf, f(b).value, k, q);
      if q > 0 {
        assert q - 1 + 1 < |TfRows(a, tf)|;
        assert Covered(a, tf, q - 1) == Covered(b, tf, q - 1);
      }
    }
  }

  /** No lookahead on M1: agreement on the bars before bar i suffices. */
  lemma NoLookaheadM1(f: Indicator, strict: bool, a: seq<Bar>, b: seq<Bar>, i: nat)
    requires PointInTime(f, M1, strict)
    requires Ordered(a, strict) && Ordered(b, strict) && i < |a| && i < |b|
    requires Enrich(f, a, M1).Some? && Enrich(f, b, M1).Some?
    ensures a[..i] == b[..i] ==> Enrich(f, a, M1).value[i] == Enrich(f, b, M1).value[i]
  {
  }

  // ----- indicators computed row by row -----

  /** An indicator of the timeframe rows alone. */
  type RowIndicator = seq<Bar> -> Option<seq<Num>>

  ghost predicate RowCausal(ind: RowIndicator) {
    forall r: seq<Bar>, s: seq<Bar>, j: nat ::
      && ind(r).Some? && ind(s).Some?
      && j + 1 < |r| && j + 1 < |s| && r[..j + 1] == s[..j + 1]
      && j < |ind(r).value| && j < |ind(s).value|
      ==> ind(r).value[j] == ind(s).value[j]
  }

  function OnRows(ind: RowIndicator, tf: Timeframe): Indicator {
    (table: seq<Bar>) => ind(TfRows(table, tf))
  }

  lemma {:induction false} RowHasBar(table: seq<Bar>, g: Grid, k: nat) returns (i: nat)
    requires k < |Roll(table, g)|
    ensures i < |table| && Start(g, table[i].t) == Roll(table, g)[k].t
    decreases |table|
  {
    var n := |table|;
    if k < |Roll(table[..n - 1], g)| {
      i := RowHasBar(table[..n - 1], g, k);
      if k == |Roll(table, g)| - 1 && Roll(table, g)[k].t == Start(g, table[n - 1].t) {
        i := n - 1;
      }
    } else {
      i := n - 1;
    }
  }

  /** No bar lies between the end of row j and the start of row j+1. */
  lemma {:induction false} NothingBetweenRows(table: seq<Bar>, g: Grid, j: nat)
    requires SortedByTime(table) && g.rounding.Floor? && j + 1 < |Roll(table, g)|
    ensures Until(table, Roll(table, g)[j].t + g.length) == Until(table, Roll(table, g)[j + 1].t)
  {
    hide Roll;
    var rows := Roll(table, g);
    var s, p := rows[j].t + g.length, rows[j + 1].t;
    RowsApart(table, g, j, j + 1);
    RollIncreasing(table, g);
    UntilIsPrefix(table, s);
    var m := |Until(table, s)|;
    forall x | m <= x < |table|
      ensures table[x].t >= p
    {
      var k := RowOfBar(table, g, x);
      FloorBounds(g, table[x].t);
      assert rows[k].t > rows[j].t;
      assert k >= j + 1;
    }
    UntilUnique(table, p, m);
  }

  lemma {:induction false} RowsFromBarsBeforeTheirEnd(table: seq<Bar>, g: Grid, j: nat)
    requires SortedByTime(table) && g.rounding.Floor? && j + 1 < |Roll(table, g)|
    ensures Roll(Until(table, Roll(table, g)[j].t + g.length), g) == Roll(table, g)[..j + 1]
  {
    hide Roll, Until;
    var i := RowHasBar(table, g, j + 1);
    var q := RowAtPeriod(table, g, i);
    RollIncreasing(table, g);
    assert q == j + 1;
    NothingBetweenRows(table, g, j);
  }

  /** Rows 0..j are the rollup of the bars they cover. */
  lemma {:induction false} RowsOfCovered(table: seq<Bar>, tf: Timeframe, j: nat)
    requires SortedByTime(table) && j + 1 < |TfRows(table, tf)|
    ensures TfRows(Covered(table, tf, j), tf) == TfRows(table, tf)[..j + 1]
  {
    if !tf.M1? {
      hide Roll, Until, TfGrid;
      FlooredGrid(tf);
      RowsFromBarsBeforeTheirEnd(table, TfGrid(tf), j);
    }
  }

  /** Any indicator causal on rows is point in time at every timeframe. */
  lemma {:induction false} RowCausalIsPointInTime(ind: RowIndicator, tf: Timeframe)
    requires RowCausal(ind)
    ensures PointInTime(OnRows(ind, tf), tf, false)
  {
    hide TfRows, Covered;
    var f := OnRows(ind, tf);
    forall a: seq<Bar>, b: seq<Bar>, j: nat |
      && Ordered(a, false) && Ordered(b, false)
      && f(a).Some? && f(b).Some?
      && j + 1 < |TfRows(a, tf)| && j + 1 < |TfRows(b, tf)|
      && j < |f(a).value| && j < |f(b).value|
      && Covered(a, tf, j) == Covered(b, tf, j)
      ensures f(a).value[j] == f(b).value[j]
    {
      RowsOfCovered(a, tf, j);
      RowsOfCovered(b, tf, j);
    }
  }
}
