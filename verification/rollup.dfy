/** Aligned periods and OHLC aggregation of consecutive bars that share a period. */
module Rollup {
  import opened Bars
  import opened IntegerArithmetic
  import opened Volatility

  /** pandas floors a timestamp; Arrow's integer division truncates toward zero. */
  datatype Rounding = Floor | TowardZero

  type Length = Positive

  /** A grid of periods of one length, with one period starting at `origin`. */
  datatype Grid = Grid(origin: int, length: Length, rounding: Rounding)

  function Quotient(rounding: Rounding, a: int, n: Length): int {
    if rounding.TowardZero? && a < 0 then -((-a) / n) else a / n
  }

  /** The start of the period a timestamp is assigned to. */
  function Start(g: Grid, t: int): int {
    Quotient(g.rounding, t - g.origin, g.length) * g.length + g.origin
  }

  /** The aggregate of a period with one bar in it. */
  function Open(g: Grid, b: Bar): Bar {
    b.(t := Start(g, b.t), quarantined := false)
  }

  /** First open and session, greatest high, least low, last close, bid and ask. */
  function Merge(row: Bar, b: Bar): Bar {
    row.(high := Max(row.high, b.high), low := Min(row.low, b.low),
         close := b.close, bid := b.bid, ask := b.ask)
  }

  /** Adds one bar to the rows aggregated so far. */
  function Push(rows: seq<Bar>, g: Grid, b: Bar): (r: seq<Bar>)
    ensures |r| >= 1 && |rows| <= |r| <= |rows| + 1
  {
    var n := |rows|;
    if n > 0 && rows[n - 1].t == Start(g, b.t)
    then rows[..n - 1] + [Merge(rows[n - 1], b)]
    else rows + [Open(g, b)]
  }

  function Roll(bars: seq<Bar>, g: Grid): seq<Bar> {
    if |bars| == 0 then []
    else Push(Roll(bars[..|bars| - 1], g), g, bars[|bars| - 1])
  }

  // ----- period arithmetic -----

  lemma {:induction false} QuotientMonotone(rounding: Rounding, a: int, b: int, n: Length)
    requires a <= b
    ensures Quotient(rounding, a, n) <= Quotient(rounding, b, n)
  {
    DivMonotone(a, b, n);
    DivMonotone(-b, -a, n);
    if a < 0 <= b {
      DivNonNegative(b, n);
      DivNonNegative(-a, n);
    }
  }

  lemma {:induction false} MultipleQuotient(rounding: Rounding, k: int, n: Length)
    ensures Quotient(rounding, k * n, n) == k
  {
    DivUnique(k * n, n, k);
    assert -(k * n) == (-k) * n;
    DivUnique(-(k * n), n, -k);
  }

  lemma {:induction false} StartMonotone(g: Grid, a: int, b: int)
    requires a <= b
    ensures Start(g, a) <= Start(g, b)
  {
    QuotientMonotone(g.rounding, a - g.origin, b - g.origin, g.length);
  }

  /** A period start is assigned to its own period. */
  lemma {:induction false} StartIdempotent(g: Grid, t: int)
    ensures Start(g, Start(g, t)) == Start(g, t)
  {
    MultipleQuotient(g.rounding, Quotient(g.rounding, t - g.origin, g.length), g.length);
  }

  /** A floored period contains the timestamps from its start, for its length. */
  lemma FloorBounds(g: Grid, t: int)
    requires g.rounding.Floor?
    ensures Start(g, t) <= t < Start(g, t) + g.length
  {
  }

  /** A start lies whole periods from the origin. Floored, and from the origin on, it is the last
      one that is not after the timestamp; truncated, up to the origin, the first one not before. */
  lemma {:induction false} StartMeans(g: Grid, t: int)
    ensures (Start(g, t) - g.origin) % g.length == 0
    ensures g.rounding.Floor? || t >= g.origin ==> Start(g, t) <= t < Start(g, t) + g.length
    ensures g.rounding.TowardZero? && t <= g.origin ==> Start(g, t) - g.length < t <= Start(g, t)
  {
    hide Quotient;
    var n := g.length;
    var k := Quotient(g.rounding, t - g.origin, n);
    QuotientBounds(g.rounding, t - g.origin, n);
    MultipleRemainder(k, n);
  }

  lemma {:induction false} QuotientBounds(rounding: Rounding, a: int, n: Length)
    ensures var m := Quotient(rounding, a, n) * n;
      if rounding.Floor? || a >= 0 then m <= a < m + n else m - n < a <= m
    ensures a == 0 ==> Quotient(rounding, a, n) == 0
  {
    DivBounds(a, n);
    DivBounds(-a, n);
    if a == 0 {
      DivUnique(0, n, 0);
    } else if rounding.TowardZero? && a < 0 {
      assert -((-a) / n) * n == -(((-a) / n) * n);
    }
  }

  lemma {:induction false} MultipleRemainder(k: int, n: Length)
    ensures (k * n) % n == 0
  {
    DivUnique(k * n, n, k);
  }

  // ----- the rows -----

  lemma PushIncreasing(rows: seq<Bar>, g: Grid, b: Bar)
    requires StrictlyByTime(rows)
    requires |rows| > 0 ==> rows[|rows| - 1].t <= Start(g, b.t)
    ensures var next := Push(rows, g, b);
      StrictlyByTime(next) && next[|next| - 1].t == Start(g, b.t)
  {
  }

  /** Rows of a time-sorted table: one per period, in strictly increasing order, the
      last one for the period of the last bar. */
  lemma {:induction false} RollIncreasing(bars: seq<Bar>, g: Grid)
    requires SortedByTime(bars)
    ensures StrictlyByTime(Roll(bars, g))
    ensures |bars| > 0 ==>
      |Roll(bars, g)| > 0 && Roll(bars, g)[|Roll(bars, g)| - 1].t == Start(g, bars[|bars| - 1].t)
    ensures |bars| == 0 ==> Roll(bars, g) == []
  {
    hide Push, Start;
    var n := |bars|;
    if n == 0 {
    } else {
      RollIncreasing(bars[..n - 1], g);
      if n > 1 {
        StartMonotone(g, bars[n - 2].t, bars[n - 1].t);
      }
      PushIncreasing(Roll(bars[..n - 1], g), g, bars[n - 1]);
    }
  }

  lemma {:induction false} RollSnoc(bars: seq<Bar>, g: Grid, m: nat)
    requires m < |bars|
    ensures Roll(bars[..m + 1], g) == Push(Roll(bars[..m], g), g, bars[m])
  {
    hide Push;
    assert bars[..m + 1][..m] == bars[..m];
  }

  /** `all` continues `part`: every row of part but the last is final, and the last
      one keeps its period. */
  predicate Continues(part: seq<Bar>, all: seq<Bar>) {
    && 1 <= |part| <= |all|
    && part[..|part| - 1] == all[..|part| - 1]
    && part[|part| - 1].t == all[|part| - 1].t
  }

  lemma PushContinues(part: seq<Bar>, rows: seq<Bar>, g: Grid, b: Bar)
    requires Continues(part, rows)
    ensures Continues(part, Push(rows, g, b))
  {
  }

  lemma {:induction false} RollExtends(bars: seq<Bar>, g: Grid, m: nat)
    requires 1 <= m <= |bars|
    ensures Continues(Roll(bars[..m], g), Roll(bars, g))
  {
    hide Push;
    var n := |bars|;
    if m < n {
      assert bars[..n - 1][..m] == bars[..m];
      RollExtends(bars[..n - 1], g, m);
      PushContinues(Roll(bars[..m], g), Roll(bars[..n - 1], g), g, bars[n - 1]);
    } else {
      assert bars[..m] == bars;
    }
  }

  /** The index of a row by its period start. */
  lemma {:induction false} RowOfBar(bars: seq<Bar>, g: Grid, i: nat) returns (k: nat)
    requires SortedByTime(bars) && i < |bars|
    ensures k < |Roll(bars, g)| && Roll(bars, g)[k].t == Start(g, bars[i].t)
    ensures k + 1 == |Roll(bars[..i + 1], g)|
  {
    hide Roll, Start;
    RollExtends(bars, g, i + 1);
    RollIncreasing(bars[..i + 1], g);
    k := |Roll(bars[..i + 1], g)| - 1;
  }
}
