/** Conversion of bars to a higher timeframe, and when two conversions equal one. */
module TimeframeConverter {
  import opened Wrappers
  import opened Bars
  import opened Volatility
  import opened Rollup
  import opened Sessions

  datatype Frame = M1 | M5 | H1 | D1 | W

  const HOUR_US := 60 * MINUTE_US
  const WEEK_US := 7 * DAY_US
  /** The first Sunday 22:00 UTC after the epoch, 94 hours in. */
  const FOREX_WEEK_ORIGIN_US := 94 * HOUR_US

  function Rank(f: Frame): nat {
    match f
    case M1 => 0
    case M5 => 1
    case H1 => 2
    case D1 => 3
    case W => 4
  }

  /** `_compute_period_start`; only daily bars look at the broker's opening hour. */
  function FrameGrid(f: Frame, openHour: int): Grid {
    match f
    case M1 => Grid(0, MINUTE_US, TowardZero)
    case M5 => Grid(0, 5 * MINUTE_US, TowardZero)
    case H1 => Grid(0, HOUR_US, TowardZero)
    case D1 => Grid(openHour * HOUR_US, DAY_US, TowardZero)
    case W => Grid(FOREX_WEEK_ORIGIN_US, WEEK_US, TowardZero)
  }

  /** Microseconds: minutes, five minutes, hours and days from the epoch, days from the broker's
      opening hour, weeks from Sunday 1970-01-04 22:00. */
  lemma {:induction false} PeriodMeans(f: Frame, openHour: int, t: int)
    ensures var v := Start(FrameGrid(f, openHour), t);
      var origin := if f == W then 338_400_000_000 else if f == D1 then openHour * 3_600_000_000 else 0;
      var length := match f
        case M1 => 60_000_000
        case M5 => 300_000_000
        case H1 => 3_600_000_000
        case D1 => 86_400_000_000
        case W => 604_800_000_000;
      && (v - origin) % length == 0
      && (t >= origin ==> v <= t < v + length)
      && (t <= origin ==> v - length < t <= v)
  {
    hide Start;
    StartMeans(FrameGrid(f, openHour), t);
  }

  // ----- filtering and sorting -----

  /** `part` consists of the elements of `whole` that satisfy `keep`, at these positions, in order. */
  ghost predicate PicksAt(part: seq<Bar>, whole: seq<Bar>, keep: Bar -> bool, at: seq<nat>) {
    && |at| == |part|
    && (forall i, j | 0 <= i < j < |at| :: at[i] < at[j])
    && (forall i | 0 <= i < |at| :: at[i] < |whole| && part[i] == whole[at[i]] && keep(part[i]))
    && (forall k: nat | k < |whole| && keep(whole[k]) :: k in at)
  }

  ghost predicate Picks(part: seq<Bar>, whole: seq<Bar>, keep: Bar -> bool) {
    exists at :: PicksAt(part, whole, keep, at)
  }

  lemma {:induction false} PicksNothing(keep: Bar -> bool)
    ensures Picks([], [], keep)
  {
    assert PicksAt([], [], keep, []);
  }

  lemma {:induction false} PicksSnoc(part: seq<Bar>, whole: seq<Bar>, keep: Bar -> bool, b: Bar)
    requires Picks(part, whole, keep)
    ensures Picks(part + if keep(b) then [b] else [], whole + [b], keep)
  {
    var at: seq<nat> :| PicksAt(part, whole, keep, at);
    if keep(b) {
      PicksNext(part, whole, keep, at, b);
    } else {
      hide Picks;
      assert part + [] == part;
      PicksSkips(part, whole, keep, at, b);
    }
  }

  lemma {:induction false} PicksNext(part: seq<Bar>, whole: seq<Bar>, keep: Bar -> bool, at: seq<nat>, b: Bar)
    requires PicksAt(part, whole, keep, at) && keep(b)
    ensures Picks(part + [b], whole + [b], keep)
  {
    var next := at + [|whole|];
    forall k: nat | k < |whole + [b]| && keep((whole + [b])[k])
      ensures k in next
    {
      if k < |whole| {
        assert k in at;
      } else {
        assert next[|at|] == k;
      }
    }
    assert PicksAt(part + [b], whole + [b], keep, next);
  }

  lemma {:induction false} PicksSkips(part: seq<Bar>, whole: seq<Bar>, keep: Bar -> bool, at: seq<nat>, b: Bar)
    requires PicksAt(part, whole, keep, at) && !keep(b)
    ensures Picks(part, whole + [b], keep)
  {
    assert PicksAt(part, whole + [b], keep, at);
  }

  function Kept(table: seq<Bar>): seq<Bar> {
    if |table| == 0 then [] else
      Kept(table[..|table| - 1]) + if table[|table| - 1].quarantined then [] else [table[|table| - 1]]
  }

  /** Exactly the quarantined bars are dropped. */
  lemma {:induction false} KeptMeans(table: seq<Bar>)
    ensures Picks(Kept(table), table, (b: Bar) => !b.quarantined)
  {
    hide Picks;
    var n, keep := |table|, (b: Bar) => !b.quarantined;
    if n == 0 {
      PicksNothing(keep);
    } else {
      KeptMeans(table[..n - 1]);
      PicksSnoc(Kept(table[..n - 1]), table[..n - 1], keep, table[n - 1]);
      assert table == table[..n - 1] + [table[n - 1]];
    }
  }

  function Insert(sorted: seq<Bar>, b: Bar): seq<Bar> {
    var n := |sorted|;
    if n == 0 || sorted[n - 1].t <= b.t then sorted + [b]
    else Insert(sorted[..n - 1], b) + [sorted[n - 1]]
  }

  /** The stable sort by timestamp. */
  function SortByTime(bars: seq<Bar>): seq<Bar> {
    if |bars| == 0 then [] else Insert(SortByTime(bars[..|bars| - 1]), bars[|bars| - 1])
  }

  /** The bars a conversion aggregates, in time order. */
  function Survivors(table: seq<Bar>): seq<Bar> {
    SortByTime(Kept(table))
  }

  lemma {:induction false} InsertMembers(sorted: seq<Bar>, b: Bar)
    ensures |Insert(sorted, b)| == |sorted| + 1
    ensures forall i :: 0 <= i <= |sorted| ==> Insert(sorted, b)[i] == b || Insert(sorted, b)[i] in sorted
  {
    if |sorted| == 0 {
    } else {
      InsertMembers(sorted[..|sorted| - 1], b);
    }
  }

  lemma {:induction false} InsertSorted(sorted: seq<Bar>, b: Bar)
    requires SortedByTime(sorted)
    ensures SortedByTime(Insert(sorted, b))
  {
    var n := |sorted|;
    if n > 0 && sorted[n - 1].t > b.t {
      var head := sorted[..n - 1];
      InsertSorted(head, b);
      InsertMembers(head, b);
      forall i | 0 <= i < n
        ensures Insert(head, b)[i].t <= sorted[n - 1].t
      {
        assert Insert(head, b)[i] == b || Insert(head, b)[i] in head;
      }
    }
  }

  lemma {:induction false} InsertKeeps(sorted: seq<Bar>, b: Bar)
    ensures multiset(Insert(sorted, b)) == multiset(sorted) + multiset{b}
  {
    var n := |sorted|;
    if n > 0 && sorted[n - 1].t > b.t {
      InsertKeeps(sorted[..n - 1], b);
      assert sorted == sorted[..n - 1] + [sorted[n - 1]];
    }
  }

  /** Sorting orders the bars and keeps each of them, duplicates included. */
  lemma {:induction false} SortIsPermutation(bars: seq<Bar>)
    ensures SortedByTime(SortByTime(bars))
    ensures multiset(SortByTime(bars)) == multiset(bars)
  {
    if |bars| == 0 {
    } else {
      var head := bars[..|bars| - 1];
      SortIsPermutation(head);
      InsertSorted(SortByTime(head), bars[|bars| - 1]);
      InsertKeeps(SortByTime(head), bars[|bars| - 1]);
      assert bars == head + [bars[|bars| - 1]];
    }
  }

  /** The bars of one time, in order. */
  function AtTime(bars: seq<Bar>, t: int): seq<Bar> {
    if |bars| == 0 then [] else
      AtTime(bars[..|bars| - 1], t) + if bars[|bars| - 1].t == t then [bars[|bars| - 1]] else []
  }

  lemma {:induction false} AtTimeSnoc(bars: seq<Bar>, b: Bar, t: int)
    ensures AtTime(bars + [b], t) == AtTime(bars, t) + if b.t == t then [b] else []
  {
    assert (bars + [b])[..|bars|] == bars;
  }

  lemma {:induction false} InsertStable(sorted: seq<Bar>, b: Bar, t: int)
    ensures AtTime(Insert(sorted, b), t) == AtTime(sorted, t) + if b.t == t then [b] else []
  {
    var n := |sorted|;
    if n == 0 || sorted[n - 1].t <= b.t {
      AtTimeSnoc(sorted, b, t);
    } else {
      var head, last := sorted[..n - 1], sorted[n - 1];
      InsertStable(head, b, t);
      AtTimeSnoc(Insert(head, b), last, t);
      AtTimeSnoc(head, last, t);
      assert sorted == head + [last];
    }
  }

  /** Bars of equal time keep their order. */
  lemma {:induction false} SortIsStable(bars: seq<Bar>, t: int)
    ensures AtTime(SortByTime(bars), t) == AtTime(bars, t)
  {
    var n := |bars|;
    if n == 0 {
    } else {
      SortIsStable(bars[..n - 1], t);
      InsertStable(SortByTime(bars[..n - 1]), bars[n - 1], t);
    }
  }

  lemma {:induction false} SortOfSorted(bars: seq<Bar>)
    requires SortedByTime(bars)
    ensures SortByTime(bars) == bars
  {
    if |bars| == 0 {
    } else {
      SortOfSorted(bars[..|bars| - 1]);
    }
  }

  lemma {:induction false} KeptAll(table: seq<Bar>)
    requires forall i :: 0 <= i < |table| ==> !table[i].quarantined
    ensures Kept(table) == table
  {
    if |table| == 0 {
    } else {
      KeptAll(table[..|table| - 1]);
    }
  }

  // ----- grouping -----

  /** The bars of one period, in order: the mask of `_aggregate_by_period`. */
  function Group(bars: seq<Bar>, g: Grid, v: int): seq<Bar> {
    if |bars| == 0 then [] else
      Group(bars[..|bars| - 1], g, v) +
      if Start(g, bars[|bars| - 1].t) == v then [bars[|bars| - 1]] else []
  }

  /** A group is the bars assigned to its period, in the order of the table. */
  lemma {:induction false} GroupMeans(bars: seq<Bar>, g: Grid, v: int)
    ensures Picks(Group(bars, g, v), bars, (b: Bar) => Start(g, b.t) == v)
  {
    hide Picks, Start;
    var n, keep := |bars|, (b: Bar) => Start(g, b.t) == v;
    if n == 0 {
      PicksNothing(keep);
    } else {
      GroupMeans(bars[..n - 1], g, v);
      PicksSnoc(Group(bars[..n - 1], g, v), bars[..n - 1], keep, bars[n - 1]);
      assert bars == bars[..n - 1] + [bars[n - 1]];
    }
  }

  function MaxHigh(bars: seq<Bar>): real
    requires |bars| > 0
  {
    var last := bars[|bars| - 1].high;
    if |bars| == 1 then last else Max(MaxHigh(bars[..|bars| - 1]), last)
  }

  function MinLow(bars: seq<Bar>): real
    requires |bars| > 0
  {
    var last := bars[|bars| - 1].low;
    if |bars| == 1 then last else Min(MinLow(bars[..|bars| - 1]), last)
  }

  lemma {:induction false} MaxHighMeans(bars: seq<Bar>)
    requires |bars| > 0
    ensures forall b | b in bars :: b.high <= MaxHigh(bars)
    ensures exists b | b in bars :: b.high == MaxHigh(bars)
  {
    var n := |bars|;
    assert bars[n - 1] in bars;
    if n == 1 {
    } else {
      MaxHighMeans(bars[..n - 1]);
      assert bars == bars[..n - 1] + [bars[n - 1]];
    }
  }

  lemma {:induction false} MinLowMeans(bars: seq<Bar>)
    requires |bars| > 0
    ensures forall b | b in bars :: b.low >= MinLow(bars)
    ensures exists b | b in bars :: b.low == MinLow(bars)
  {
    var n := |bars|;
    assert bars[n - 1] in bars;
    if n == 1 {
    } else {
      MinLowMeans(bars[..n - 1]);
      assert bars == bars[..n - 1] + [bars[n - 1]];
    }
  }

  /** One output row, before its session label. */
  function Aggregate(v: int, bars: seq<Bar>): Bar
    requires |bars| > 0
  {
    var first, last := bars[0], bars[|bars| - 1];
    Bar(v, first.open, MaxHigh(bars), MinLow(bars), last.close, last.bid, last.ask, first.session, false)
  }

  function SessionsOf(bars: seq<Bar>): (r: seq<Session>)
    ensures |r| == |bars|
  {
    seq(|bars|, i requires 0 <= i < |bars| => bars[i].session)
  }

  /** `_compute_session_for_period`. */
  function PeriodSession(f: Frame, group: seq<Bar>, v: int, sched: Option<Schedule>): Session
    requires |group| > 0
  {
    match f
    case D1 | W => Mixed
    case H1 => if sched.Some? then H1Session(v, sched.value) else Majority(SessionsOf(group))
    case M5 | M1 => group[0].session
  }

  /** A row of the output table, read off its group. */
  function OutputRow(f: Frame, g: Grid, bars: seq<Bar>, v: int, sched: Option<Schedule>): Bar
    requires |Group(bars, g, v)| > 0
  {
    var group := Group(bars, g, v);
    Aggregate(v, group).(session := PeriodSession(f, group, v, sched))
  }

  lemma {:induction false} GroupAbsent(bars: seq<Bar>, g: Grid, v: int)
    requires forall i :: 0 <= i < |bars| ==> Start(g, bars[i].t) != v
    ensures Group(bars, g, v) == []
  {
    hide Start;
    if |bars| == 0 {
    } else {
      GroupAbsent(bars[..|bars| - 1], g, v);
    }
  }

  lemma SingleAggregate(g: Grid, b: Bar)
    ensures Aggregate(Start(g, b.t), [b]) == Open(g, b)
  {
  }

  lemma GroupSnoc(bars: seq<Bar>, g: Grid, v: int)
    requires |bars| > 0
    ensures Group(bars, g, v) ==
      Group(bars[..|bars| - 1], g, v) + if Start(g, bars[|bars| - 1].t) == v then [bars[|bars| - 1]] else []
  {
  }

  lemma {:induction false} NoEarlierBar(bars: seq<Bar>, g: Grid)
    requires SortedByTime(bars) && |bars| > 0
    requires var before := Roll(bars[..|bars| - 1], g);
      |before| > 0 ==> before[|before| - 1].t != Start(g, bars[|bars| - 1].t)
    ensures Group(bars[..|bars| - 1], g, Start(g, bars[|bars| - 1].t)) == []
  {
    hide Start, Roll;
    var m := |bars| - 1;
    var head := bars[..m];
    if m > 0 {
      RollIncreasing(head, g);
      forall i | 0 <= i < m
        ensures Start(g, head[i].t) != Start(g, bars[m].t)
      {
        StartMonotone(g, bars[i].t, bars[m - 1].t);
        StartMonotone(g, bars[m - 1].t, bars[m].t);
      }
    }
    GroupAbsent(head, g, Start(g, bars[m].t));
  }

  /** Row k of these rows aggregates exactly the bars whose period starts at row k. */
  ghost predicate IsGroup(bars: seq<Bar>, g: Grid, row: Bar) {
    |Group(bars, g, row.t)| > 0 && row == Aggregate(row.t, Group(bars, g, row.t))
  }

  lemma {:induction false} OldRowIsGroup(bars: seq<Bar>, g: Grid, row: Bar)
    requires |bars| > 0 && IsGroup(bars[..|bars| - 1], g, row) && row.t != Start(g, bars[|bars| - 1].t)
    ensures IsGroup(bars, g, row)
  {
    hide Start, Aggregate;
    GroupSnoc(bars, g, row.t);
    assert Group(bars, g, row.t) == Group(bars[..|bars| - 1], g, row.t);
  }

  lemma MergedRowIsGroup(bars: seq<Bar>, g: Grid, row: Bar)
    requires |bars| > 0 && IsGroup(bars[..|bars| - 1], g, row) && row.t == Start(g, bars[|bars| - 1].t)
    ensures IsGroup(bars, g, Merge(row, bars[|bars| - 1]))
  {
  }

  lemma {:induction false} NewRowIsGroup(bars: seq<Bar>, g: Grid)
    requires SortedByTime(bars) && |bars| > 0
    requires var before := Roll(bars[..|bars| - 1], g);
      |before| > 0 ==> before[|before| - 1].t != Start(g, bars[|bars| - 1].t)
    ensures IsGroup(bars, g, Open(g, bars[|bars| - 1]))
  {
    hide Start, Aggregate;
    var b := bars[|bars| - 1];
    NoEarlierBar(bars, g);
    GroupSnoc(bars, g, Start(g, b.t));
    SingleAggregate(g, b);
    assert Open(g, b).t == Start(g, b.t) && Group(bars, g, Start(g, b.t)) == [b];
  }

  lemma PushShape(before: seq<Bar>, g: Grid, b: Bar)
    ensures var next, n := Push(before, g, b), |before|;
      if n > 0 && before[n - 1].t == Start(g, b.t)
      then |next| == n && next[..n - 1] == before[..n - 1] && next[n - 1] == Merge(before[n - 1], b)
      else |next| == n + 1 && next[..n] == before && next[n] == Open(g, b)
  {
  }

  lemma {:induction false} PushIsGroup(bars: seq<Bar>, g: Grid, before: seq<Bar>, k: nat)
    requires SortedByTime(bars) && |bars| > 0
    requires before == Roll(bars[..|bars| - 1], g)
    requires forall row :: row in before ==> IsGroup(bars[..|bars| - 1], g, row)
    requires k < |Push(before, g, bars[|bars| - 1])|
    ensures IsGroup(bars, g, Push(before, g, bars[|bars| - 1])[k])
  {
    hide Start, IsGroup, Push, Merge, Open;
    var b := bars[|bars| - 1];
    var next := Push(before, g, b);
    PushShape(before, g, b);
    assert Roll(bars, g) == next;
    RollIncreasing(bars, g);
    if k < |next| - 1 {
      assert next[k].t < next[|next| - 1].t;
      assert next[k] == next[..|next| - 1][k] == before[k];
      assert before[k] in before;
      OldRowIsGroup(bars, g, before[k]);
    } else if |next| == |before| {
      assert before[k] in before;
      MergedRowIsGroup(bars, g, before[k]);
    } else {
      NewRowIsGroup(bars, g);
    }
  }

  /** Streaming aggregation computes the masked groups. */
  lemma {:induction false} RollIsGroups(bars: seq<Bar>, g: Grid)
    requires SortedByTime(bars)
    ensures forall row :: row in Roll(bars, g) ==> IsGroup(bars, g, row)
  {
    hide IsGroup, Push;
    if |bars| == 0 {
    } else {
      var before := Roll(bars[..|bars| - 1], g);
      RollIsGroups(bars[..|bars| - 1], g);
      forall k | 0 <= k < |Roll(bars, g)|
        ensures IsGroup(bars, g, Roll(bars, g)[k])
      {
        PushIsGroup(bars, g, before, k);
      }
    }
  }

  // ----- the conversion -----

  ghost predicate EveryRowHasBars(rows: seq<Bar>, bars: seq<Bar>, g: Grid) {
    forall k :: 0 <= k < |rows| ==> |Group(bars, g, rows[k].t)| > 0
  }

  lemma {:induction false} RollHasBars(bars: seq<Bar>, g: Grid)
    requires SortedByTime(bars)
    ensures EveryRowHasBars(Roll(bars, g), bars, g)
  {
    hide Start, Push, Aggregate;
    RollIsGroups(bars, g);
    forall k | 0 <= k < |Roll(bars, g)|
      ensures |Group(bars, g, Roll(bars, g)[k].t)| > 0
    {
      assert IsGroup(bars, g, Roll(bars, g)[k]);
    }
  }

  /** The output rows in time order. */
  function Relabel(rows: seq<Bar>, f: Frame, g: Grid, bars: seq<Bar>, sched: Option<Schedule>): (r: seq<Bar>)
    requires EveryRowHasBars(rows, bars, g)
    ensures |r| == |rows|
    ensures forall k :: 0 <= k < |rows| ==>
      r[k] == rows[k].(session := PeriodSession(f, Group(bars, g, rows[k].t), rows[k].t, sched))
  {
    seq(|rows|, k requires 0 <= k < |rows| =>
      rows[k].(session := PeriodSession(f, Group(bars, g, rows[k].t), rows[k].t, sched)))
  }

  /** `convert_timeframe` on valid timeframes. */
  function Convert(table: seq<Bar>, f: Frame, sched: Option<Schedule>, openHour: int): seq<Bar> {
    var bars, g := Survivors(table), FrameGrid(f, openHour);
    SortIsPermutation(Kept(table));
    RollHasBars(bars, g);
    Relabel(Roll(bars, g), f, g, bars, sched)
  }

  /** `convert_timeframe`, with the ValueError of a target that is not higher. */
  function ConvertTimeframe(
    table: seq<Bar>, source: Frame, target: Frame, sched: Option<Schedule>, openHour: int): Option<seq<Bar>>
  {
    if Rank(target) <= Rank(source) then None else Some(Convert(table, target, sched, openHour))
  }

  /** Only a strictly higher timeframe is a target. */
  lemma TargetsAreHigher(table: seq<Bar>, source: Frame, target: Frame, sched: Option<Schedule>, openHour: int)
    ensures ConvertTimeframe(table, source, target, sched, openHour) ==
      if target in (match source
                    case M1 => {M5, H1, D1, W}
                    case M5 => {H1, D1, W}
                    case H1 => {D1, W}
                    case D1 => {W}
                    case W => {})
      then Some(Convert(table, target, sched, openHour))
      else None
  {
  }

  /** Row k of the output is row k of the streaming form, relabelled. */
  lemma {:induction false} RowOfConvert(
    table: seq<Bar>, f: Frame, sched: Option<Schedule>, openHour: int, k: nat)
    requires k < |Convert(table, f, sched, openHour)|
    ensures var bars, g := Survivors(table), FrameGrid(f, openHour);
      && k < |Roll(bars, g)| && IsGroup(bars, g, Roll(bars, g)[k])
      && Convert(table, f, sched, openHour)[k] == Roll(bars, g)[k].(
           session := PeriodSession(f, Group(bars, g, Roll(bars, g)[k].t), Roll(bars, g)[k].t, sched))
  {
    hide FrameGrid, Start, Push, PeriodSession, Aggregate;
    SortIsPermutation(Kept(table));
    RollIsGroups(Survivors(table), FrameGrid(f, openHour));
    RollHasBars(Survivors(table), FrameGrid(f, openHour));
  }

  lemma {:induction false} GroupRow(bars: seq<Bar>, g: Grid, row: Bar)
    requires IsGroup(bars, g, row)
    ensures var group := Group(bars, g, row.t);
      && |group| > 0
      && row.open == group[0].open && row.close == group[|group| - 1].close
      && row.bid == group[|group| - 1].bid && row.ask == group[|group| - 1].ask
      && (forall b | b in group :: row.low <= b.low && b.high <= row.high)
      && (exists b | b in group :: b.high == row.high) && (exists b | b in group :: b.low == row.low)
  {
    MaxHighMeans(Group(bars, g, row.t));
    MinLowMeans(Group(bars, g, row.t));
  }

  /** A row of the output, from the surviving bars of its period: the open of the first, the close
      and the quotes of the last, the extremes, and the label its timeframe calls for. */
  lemma {:induction false} RowMeans(
    table: seq<Bar>, f: Frame, sched: Option<Schedule>, openHour: int, k: nat)
    requires k < |Convert(table, f, sched, openHour)|
    ensures var row := Convert(table, f, sched, openHour)[k];
      var bars := Group(Survivors(table), FrameGrid(f, openHour), row.t);
      && |bars| > 0
      && row.open == bars[0].open && row.close == bars[|bars| - 1].close
      && row.bid == bars[|bars| - 1].bid && row.ask == bars[|bars| - 1].ask
      && (forall b | b in bars :: row.low <= b.low && b.high <= row.high)
      && (exists b | b in bars :: b.high == row.high) && (exists b | b in bars :: b.low == row.low)
      && (f == D1 || f == W ==> row.session == Mixed)
      && (f == M1 || f == M5 ==> row.session == bars[0].session)
      && (f == H1 && sched.Some? ==> row.session == H1Session(row.t, sched.value))
      && (f == H1 && sched.None? ==> row.session == Majority(SessionsOf(bars)))
  {
    hide FrameGrid, Convert, Survivors, IsGroup, Push, Start, H1Session, Majority, SessionsOf;
    var bars, g := Survivors(table), FrameGrid(f, openHour);
    RowOfConvert(table, f, sched, openHour, k);
    GroupRow(bars, g, Roll(bars, g)[k]);
  }

  /** Bars arrive sorted, so a period is new exactly when it differs from the last one. */
  lemma {:induction false} NewPeriod(bars: seq<Bar>, g: Grid, m: nat)
    requires SortedByTime(bars) && m < |bars|
    ensures var before, after := Times(Roll(bars[..m], g)), Times(Roll(bars[..m + 1], g));
      var v := Start(g, bars[m].t);
      if v in before then after == before else after == before + [v]
  {
    hide Start, Push, Merge, Open;
    var before := Roll(bars[..m], g);
    var v, n := Start(g, bars[m].t), |before|;
    RollSnoc(bars, g, m);
    PushShape(before, g, bars[m]);
    RollIncreasing(bars[..m], g);
    RollIncreasing(bars[..m + 1], g);
    var after := Roll(bars[..m + 1], g);
    if |after| == n {
      assert Times(after)[..n - 1] == Times(before)[..n - 1];
      assert v == Times(before)[n - 1];
    } else {
      forall k | 0 <= k < n
        ensures Times(before)[k] != v
      {
        assert after[k].t < after[n].t;
        assert after[k] == after[..n][k] == before[k];
      }
      assert Times(after) == Times(before) + [v];
    }
  }

  /** `pc.unique(period_starts)`: the distinct starts, already ascending. */
  method DistinctPeriods(bars: seq<Bar>, g: Grid) returns (periods: seq<int>)
    requires SortedByTime(bars)
    ensures periods == Times(Roll(bars, g))
  {
    hide Start, Push;
    periods := [];
    for m := 0 to |bars|
      invariant periods == Times(Roll(bars[..m], g))
    {
      NewPeriod(bars, g, m);
      var v := Start(g, bars[m].t);
      if v !in periods {
        periods := periods + [v];
      }
    }
    assert bars[..|bars|] == bars;
  }

  /** `_aggregate_by_period`: one masked aggregation per distinct period, ascending,
      computes the rows of the streaming form, relabelled. */
  method AggregateByPeriod(bars: seq<Bar>, f: Frame, g: Grid, sched: Option<Schedule>) returns (out: seq<Bar>)
    requires SortedByTime(bars)
    ensures EveryRowHasBars(Roll(bars, g), bars, g)
    ensures out == Relabel(Roll(bars, g), f, g, bars, sched)
  {
    hide Start, Aggregate, PeriodSession, Push;
    ghost var rows := Roll(bars, g);
    RollIsGroups(bars, g);
    RollHasBars(bars, g);
    var periods := DistinctPeriods(bars, g);
    out := [];
    for k := 0 to |periods|
      invariant |out| == k
      invariant forall j :: 0 <= j < k ==> out[j] == Relabel(rows, f, g, bars, sched)[j]
    {
      assert IsGroup(bars, g, rows[k]) && periods[k] == rows[k].t;
      out := out + [OutputRow(f, g, bars, periods[k], sched)];
    }
  }

  /** `convert_timeframe`: filter, sort, period starts, aggregation. */
  method ConvertTable(
    table: seq<Bar>, source: Frame, target: Frame, sched: Option<Schedule>, openHour: int)
    returns (out: Option<seq<Bar>>)
    ensures out == ConvertTimeframe(table, source, target, sched, openHour)
  {
    hide PeriodSession, FrameGrid, Start, Push, Aggregate;
    if Rank(target) <= Rank(source) {
      return None;
    }
    var filtered := Kept(table);
    if |filtered| == 0 {
      return Some([]);
    }
    SortIsPermutation(filtered);
    var rows := AggregateByPeriod(SortByTime(filtered), target, FrameGrid(target, openHour), sched);
    out := Some(rows);
  }
}
