/** The market-data row every component reads: one bar, with its period-start time. */
module Bars {
  /** Times are epoch microseconds. */
  const MINUTE_US := 60_000_000

  /** The labels the session code writes; "mixed" marks daily and weekly bars. */
  datatype Session = Asian | London | LondonNyOverlap | Mixed | NewYork | OffHours

  datatype Bar = Bar(
    t: int,
    open: real, high: real, low: real, close: real,
    bid: real, ask: real,
    session: Session,
    quarantined: bool)

  function Highs(rows: seq<Bar>): (r: seq<real>)
    ensures |r| == |rows|
    ensures forall i :: 0 <= i < |rows| ==> r[i] == rows[i].high
  {
    seq(|rows|, i requires 0 <= i < |rows| => rows[i].high)
  }

  function Lows(rows: seq<Bar>): (r: seq<real>)
    ensures |r| == |rows|
    ensures forall i :: 0 <= i < |rows| ==> r[i] == rows[i].low
  {
    seq(|rows|, i requires 0 <= i < |rows| => rows[i].low)
  }

  function Times(rows: seq<Bar>): (r: seq<int>)
    ensures |r| == |rows|
    ensures forall i :: 0 <= i < |rows| ==> r[i] == rows[i].t
  {
    seq(|rows|, i requires 0 <= i < |rows| => rows[i].t)
  }

  predicate SortedByTime(rows: seq<Bar>) {
    forall i, j :: 0 <= i < j < |rows| ==> rows[i].t <= rows[j].t
  }

  predicate StrictlyByTime(rows: seq<Bar>) {
    forall i, j :: 0 <= i < j < |rows| ==> rows[i].t < rows[j].t
  }
}
