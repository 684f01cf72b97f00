/** When converting in two steps equals converting in one. */
module RollupComposition {
  import opened Wrappers
  import opened Bars
  import opened IntegerArithmetic
  import opened Rollup
  import opened Sessions
  import opened TimeframeConverter

  // ----- nested periods -----

  /** Every period of q is a union of periods of p. */
  ghost predicate Nested(p: Grid, q: Grid) {
    forall t :: Start(q, Start(p, t)) == Start(q, t)
  }

  /** Rounding down to multiples of l first does not change the k*l-quotient. */
  lemma {:induction false} QuotientOfMultiple(x: int, l: Length, k: Length, n: Length)
    requires n == k * l
    ensures ((x / l) * l) / n == x / n
  {
    DivBounds(x, l);
    DivBounds(x, n);
    var q := x / n;
    assert q * n == (q * k) * l;
    DivUnique((q * k) * l, l, q * k);
    DivMonotone((q * k) * l, x, l);
    DivUnique((x / l) * l, n, q);
  }

  lemma {:induction false} ShiftQuotient(a: int, d: int, l: Length)
    ensures (a + d * l) / l == a / l + d
  {
    DivBounds(a, l);
    assert (a / l + d) * l == (a / l) * l + d * l;
    DivUnique(a + d * l, l, a / l + d);
  }

  lemma MultipleIsNonNegative(a: int, l: Length)
    requires a >= 0
    ensures 0 <= (a / l) * l <= a
  {
  }

  /** The relation of two grids under which truncating periods nest: the coarse length
      is a multiple of the fine one and the coarse origin is a fine grid point less than
      one coarse period later. */
  ghost predicate Refines(p: Grid, q: Grid, k: Length, d: nat) {
    && p.rounding.TowardZero? && q.rounding.TowardZero?
    && q.length == k * p.length && q.origin == p.origin + d * p.length
    && d * p.length < q.length
  }

  lemma {:induction false} NestAfterOrigins(p: Grid, q: Grid, k: Length, d: nat, t: int)
    requires Refines(p, q, k, d) && t >= q.origin
    ensures Start(q, Start(p, t)) == Start(q, t)
  {
    var a, l := t - q.origin, p.length;
    ShiftQuotient(a, d, l);
    assert (a / l + d) * l == (a / l) * l + d * l;
    MultipleIsNonNegative(a, l);
    QuotientOfMultiple(a, l, k, q.length);
  }

  lemma {:induction false} NestBetweenOrigins(p: Grid, q: Grid, k: Length, d: nat, t: int)
    requires Refines(p, q, k, d) && p.origin <= t < q.origin
    ensures Start(q, Start(p, t)) == Start(q, t)
  {
    MultipleIsNonNegative(t - p.origin, p.length);
    SmallQuotient(q.origin - t, q.length);
    SmallQuotient(q.origin - Start(p, t), q.length);
  }

  lemma {:induction false} NestBeforeOrigins(p: Grid, q: Grid, k: Length, d: nat, t: int)
    requires Refines(p, q, k, d) && t < p.origin
    ensures Start(q, Start(p, t)) == Start(q, t)
  {
    var b, l := q.origin - t, p.length;
    var u := (p.origin - t) / l;
    ShiftQuotient(p.origin - t, d, l);
    assert (u + d) * l == u * l + d * l;
    assert (-u) * l == -(u * l);
    assert q.origin - Start(p, t) == (b / l) * l;
    MultipleIsNonNegative(b, l);
    QuotientOfMultiple(b, l, k, q.length);
    DivUnique(0, q.length, 0);
  }

  lemma {:induction false} TruncatingNest(p: Grid, q: Grid, k: Length, d: nat, t: int)
    requires Refines(p, q, k, d)
    ensures Start(q, Start(p, t)) == Start(q, t)
  {
    hide Start;
    if t >= q.origin {
      NestAfterOrigins(p, q, k, d, t);
    } else if t >= p.origin {
      NestBetweenOrigins(p, q, k, d, t);
    } else {
      NestBeforeOrigins(p, q, k, d, t);
    }
  }

  lemma SmallQuotient(a: int, n: Length)
    requires 0 <= a < n
    ensures a / n == 0
  {
  }

  /** The conversions of the frame lattice nest, except daily bars in the forex week,
      which do so only when the day opens at 22:00. */
  predicate FramesNest(mid: Frame, target: Frame, openHour: int) {
    mid.D1? && target.W? ==> openHour == 22
  }

  lemma {:induction false} FramesNested(mid: Frame, target: Frame, openHour: int)
    requires 0 < Rank(mid) < Rank(target) && 0 <= openHour < 24
    requires FramesNest(mid, target, openHour)
    ensures Nested(FrameGrid(mid, openHour), FrameGrid(target, openHour))
  {
    hide Start;
    var p, q := FrameGrid(mid, openHour), FrameGrid(target, openHour);
    forall t
      ensures Start(q, Start(p, t)) == Start(q, t)
    {
      match (mid, target)
      case (M5, H1) => TruncatingNest(p, q, 12, 0, t);
      case (M5, D1) => TruncatingNest(p, q, 288, 12 * openHour, t);
      case (M5, W) => TruncatingNest(p, q, 2016, 1128, t);
      case (H1, D1) => TruncatingNest(p, q, 24, openHour, t);
      case (H1, W) => TruncatingNest(p, q, 168, 94, t);
      case (D1, W) => TruncatingNest(p, q, 7, 3, t);
    }
  }

  // ----- folding twice -----

  /** Pushing an aggregate of two pieces equals pushing the pieces. */
  lemma PushTwice(rows: seq<Bar>, q: Grid, row: Bar, b: Bar)
    requires Start(q, row.t) == Start(q, b.t)
    ensures Push(rows, q, Merge(row, b)) == Push(Push(rows, q, row), q, b)
  {
  }

  lemma MergeTime(row: Bar, b: Bar)
    ensures Merge(row, b).t == row.t
  {
  }

  lemma OpenTime(g: Grid, b: Bar)
    ensures Open(g, b).t == Start(g, b.t)
  {
  }

  lemma PushOpened(rows: seq<Bar>, p: Grid, q: Grid, b: Bar)
    requires Start(q, Start(p, b.t)) == Start(q, b.t)
    ensures Push(rows, q, Open(p, b)) == Push(rows, q, b)
  {
  }

  /** The key step: adding one bar before or after the first fold comes to the same. */
  lemma {:induction false} RollPush(rows: seq<Bar>, p: Grid, q: Grid, b: Bar)
    requires Nested(p, q)
    ensures Roll(Push(rows, p, b), q) == Push(Roll(rows, q), q, b)
  {
    hide Start, Merge, Open;
    var n := |rows|;
    var next := Push(rows, p, b);
    assert Start(q, Start(p, b.t)) == Start(q, b.t);
    if n > 0 && rows[n - 1].t == Start(p, b.t) {
      var head := rows[..n - 1];
      assert next[..n - 1] == head && next[n - 1] == Merge(rows[n - 1], b);
      PushTwice(Roll(head, q), q, rows[n - 1], b);
    } else {
      assert next[..n] == rows && next[n] == Open(p, b);
      PushOpened(Roll(rows, q), p, q, b);
    }
  }

  /** Folding to p and then to q is folding to q. */
  lemma {:induction false} RollTwice(bars: seq<Bar>, p: Grid, q: Grid)
    requires Nested(p, q)
    ensures Roll(Roll(bars, p), q) == Roll(bars, q)
  {
    hide Start, Push, Nested;
    if |bars| == 0 {
    } else {
      RollTwice(bars[..|bars| - 1], p, q);
      RollPush(Roll(bars[..|bars| - 1], p), p, q, bars[|bars| - 1]);
    }
  }

  // ----- conversions -----

  /** The rows without their session labels. */
  function Strip(rows: seq<Bar>): (r: seq<Bar>)
    ensures |r| == |rows|
    ensures forall k :: 0 <= k < |rows| ==> r[k] == rows[k].(session := Mixed)
  {
    seq(|rows|, k requires 0 <= k < |rows| => rows[k].(session := Mixed))
  }

  lemma StripPush(rows: seq<Bar>, g: Grid, b: Bar)
    ensures Strip(Push(rows, g, b)) == Push(Strip(rows), g, b.(session := Mixed))
  {
  }

  /** Session labels do not steer the aggregation. */
  lemma {:induction false} StripRoll(rows: seq<Bar>, g: Grid)
    ensures Strip(Roll(rows, g)) == Roll(Strip(rows), g)
  {
    hide Push;
    var n := |rows|;
    if n == 0 {
    } else {
      StripRoll(rows[..n - 1], g);
      assert Strip(rows)[..n - 1] == Strip(rows[..n - 1]);
      StripPush(Roll(rows[..n - 1], g), g, rows[n - 1]);
    }
  }

  lemma {:induction false} RollNotQuarantined(bars: seq<Bar>, g: Grid)
    ensures forall k :: 0 <= k < |Roll(bars, g)| ==> !Roll(bars, g)[k].quarantined
  {
    hide Start;
    if |bars| == 0 {
    } else {
      RollNotQuarantined(bars[..|bars| - 1], g);
    }
  }

  /** Whether the label of a target row is a function of its time. */
  predicate LabelledByTime(target: Frame, sched: Option<Schedule>) {
    target.D1? || target.W? || (target.H1? && sched.Some?)
  }

  lemma {:induction false} ConvertTimes(table: seq<Bar>, f: Frame, sched: Option<Schedule>, openHour: int)
    ensures StrictlyByTime(Convert(table, f, sched, openHour))
    ensures forall k :: 0 <= k < |Convert(table, f, sched, openHour)| ==>
      !Convert(table, f, sched, openHour)[k].quarantined
  {
    hide PeriodSession, Start, FrameGrid;
    var bars, g := Survivors(table), FrameGrid(f, openHour);
    SortIsPermutation(Kept(table));
    RollIncreasing(bars, g);
    RollNotQuarantined(bars, g);
  }

  /** A converted table is clean and strictly increasing in time. */
  lemma {:induction false} ConvertIsOrdered(table: seq<Bar>, f: Frame, sched: Option<Schedule>, openHour: int)
    ensures StrictlyByTime(Convert(table, f, sched, openHour))
    ensures Survivors(Convert(table, f, sched, openHour)) == Convert(table, f, sched, openHour)
  {
    hide Convert;
    var out := Convert(table, f, sched, openHour);
    ConvertTimes(table, f, sched, openHour);
    KeptAll(out);
    SortOfSorted(out);
  }

  lemma ConvertStripped(table: seq<Bar>, f: Frame, sched: Option<Schedule>, openHour: int)
    ensures Strip(Convert(table, f, sched, openHour)) == Strip(Roll(Survivors(table), FrameGrid(f, openHour)))
  {
  }

  lemma ConvertLabel(
    table: seq<Bar>, table': seq<Bar>, f: Frame, sched: Option<Schedule>, openHour: int, k: nat)
    requires LabelledByTime(f, sched)
    requires var a, b := Convert(table, f, sched, openHour), Convert(table', f, sched, openHour);
      k < |a| && k < |b| && a[k].t == b[k].t
    ensures Convert(table, f, sched, openHour)[k].session == Convert(table', f, sched, openHour)[k].session
  {
  }

  /** Converting in two steps gives, row for row, what converting in one step gives. */
  lemma {:induction false} TwoStepsAreOne(
    table: seq<Bar>, mid: Frame, target: Frame, sched: Option<Schedule>, openHour: int)
    requires 0 < Rank(mid) < Rank(target) && 0 <= openHour < 24
    requires FramesNest(mid, target, openHour) && (target.H1? ==> sched.Some?)
    ensures Convert(Convert(table, mid, sched, openHour), target, sched, openHour)
         == Convert(table, target, sched, openHour)
  {
    hide Convert, Start, Push, FrameGrid, Survivors;
    var p, q := FrameGrid(mid, openHour), FrameGrid(target, openHour);
    var once := Convert(table, mid, sched, openHour);
    var twice, direct := Convert(once, target, sched, openHour), Convert(table, target, sched, openHour);
    var bars := Survivors(table);
    FramesNested(mid, target, openHour);
    ConvertIsOrdered(table, mid, sched, openHour);
    ConvertStripped(table, mid, sched, openHour);
    ConvertStripped(once, target, sched, openHour);
    ConvertStripped(table, target, sched, openHour);
    StripRoll(once, q);
    StripRoll(Roll(bars, p), q);
    RollTwice(bars, p, q);
    assert Strip(twice) == Strip(direct);
    forall k | 0 <= k < |twice|
      ensures twice[k] == direct[k]
    {
      assert Strip(twice)[k] == Strip(direct)[k];
      ConvertLabel(once, table, target, sched, openHour, k);
    }
  }

  function OneBar(t: int, s: Session): Bar {
    Bar(t, 1.0, 1.0, 1.0, 1.0, 1.0, 1.0, s, false)
  }

  lemma {:induction false} SingleGroup(bars: seq<Bar>, g: Grid, v: int)
    requires forall i :: 0 <= i < |bars| ==> Start(g, bars[i].t) == v
    ensures Group(bars, g, v) == bars
  {
    hide Start;
    if |bars| == 0 {
    } else {
      SingleGroup(bars[..|bars| - 1], g, v);
      GroupSnoc(bars, g, v);
    }
  }

  lemma {:induction false} SingleRow(bars: seq<Bar>, g: Grid, v: int)
    requires |bars| > 0 && forall i :: 0 <= i < |bars| ==> Start(g, bars[i].t) == v
    ensures |Roll(bars, g)| == 1 && Roll(bars, g)[0].t == v
  {
    hide Start, Push, Merge, Open;
    var before, b := Roll(bars[..|bars| - 1], g), bars[|bars| - 1];
    PushShape(before, g, b);
    OpenTime(g, b);
    if |bars| <= 1 {
    } else {
      SingleRow(bars[..|bars| - 1], g, v);
      MergeTime(before[0], b);
    }
  }

  /** A clean sorted table inside one period converts to one row. */
  lemma {:induction false} ConvertSinglePeriod(
    table: seq<Bar>, f: Frame, sched: Option<Schedule>, openHour: int, v: int)
    requires |table| > 0 && SortedByTime(table)
    requires forall i :: 0 <= i < |table| ==>
      !table[i].quarantined && Start(FrameGrid(f, openHour), table[i].t) == v
    ensures var out := Convert(table, f, sched, openHour);
      |out| == 1 && out[0].t == v && !out[0].quarantined && out[0].session == PeriodSession(f, table, v, sched)
  {
    hide PeriodSession, FrameGrid, Start;
    KeptAll(table);
    SortOfSorted(table);
    SingleGroup(table, FrameGrid(f, openHour), v);
    SingleRow(table, FrameGrid(f, openHour), v);
    ConvertTimes(table, f, sched, openHour);
  }

  /** A daily bar that opens at another hour starts before the forex week of its last
      hours: a bar at Sunday 22:00 goes to the previous week. */
  lemma {:induction false} MisalignedDay(sched: Option<Schedule>, openHour: int)
    requires 0 <= openHour < 24 && openHour != 22
    ensures var table := [OneBar(262 * HOUR_US, OffHours)];
      Convert(Convert(table, D1, sched, openHour), W, sched, openHour) != Convert(table, W, sched, openHour)
  {
    hide Convert;
    var table := [OneBar(262 * HOUR_US, OffHours)];
    var dayStart := Start(FrameGrid(D1, openHour), 262 * HOUR_US);
    ConvertSinglePeriod(table, D1, sched, openHour, dayStart);
    ConvertSinglePeriod(table, W, sched, openHour, 262 * HOUR_US);
    var day := Convert(table, D1, sched, openHour);
    assert dayStart < 262 * HOUR_US;
    ConvertSinglePeriod(day, W, sched, openHour, Start(FrameGrid(W, openHour), dayStart));
    var week := Start(FrameGrid(W, openHour), dayStart);
    assert week <= dayStart || week == 94 * HOUR_US;
  }

  const SPLIT_HOUR: seq<Bar> := [OneBar(0, Asian), OneBar(MINUTE_US, London), OneBar(2 * MINUTE_US, London)]

  lemma {:induction false} TwoToOne(labels: seq<Session>)
    requires labels == [Asian, London, London]
    ensures Majority(labels) == London
  {
    AllAlphabetical(London);
    SplitCount(labels, London);
    SplitCount(labels, Majority(labels));
  }

  lemma {:induction false} SplitCount(labels: seq<Session>, s: Session)
    requires labels == [Asian, London, London]
    ensures Count(labels, s) == (if s == Asian then 1 else 0) + (if s == London then 2 else 0)
  {
    assert labels[..2] == [Asian, London] && [Asian, London][..1] == [Asian] && [Asian][..0] == [];
    assert Count([Asian], s) == if s == Asian then 1 else 0;
    assert Count([Asian, London], s) == Count([Asian], s) + if s == London then 1 else 0;
  }

  lemma {:induction false} LoneLabel(labels: seq<Session>, s: Session)
    requires labels == [s]
    ensures Majority(labels) == s
  {
    AllAlphabetical(s);
    assert labels[..0] == [];
    assert Count(labels, Majority(labels)) == if Majority(labels) == s then 1 else 0;
  }

  /** Without a schedule an hourly label is a vote, and voting twice is not voting once. */
  lemma {:induction false} MajorityOfMajorities(openHour: int)
    ensures Convert(Convert(SPLIT_HOUR, M5, None, openHour), H1, None, openHour)
         != Convert(SPLIT_HOUR, H1, None, openHour)
  {
    hide Convert, Majority;
    ConvertSinglePeriod(SPLIT_HOUR, M5, None, openHour, 0);
    ConvertSinglePeriod(SPLIT_HOUR, H1, None, openHour, 0);
    var m5 := Convert(SPLIT_HOUR, M5, None, openHour);
    ConvertSinglePeriod(m5, H1, None, openHour, 0);
    TwoToOne(SessionsOf(SPLIT_HOUR));
    LoneLabel(SessionsOf(m5), Asian);
  }

  /** Exactly when two conversions equal one on every table: daily bars must open at
      22:00 to be rolled into forex weeks, and hourly labels need a session schedule. */
  lemma {:induction false} CompositionCharacterised(
    mid: Frame, target: Frame, sched: Option<Schedule>, openHour: int)
    requires 0 < Rank(mid) < Rank(target) && 0 <= openHour < 24
    ensures
      (forall table :: Convert(Convert(table, mid, sched, openHour), target, sched, openHour)
                    == Convert(table, target, sched, openHour))
      <==> (mid.D1? && target.W? ==> openHour == 22) && (target.H1? ==> sched.Some?)
  {
    hide Convert;
    if FramesNest(mid, target, openHour) && (target.H1? ==> sched.Some?) {
      forall table
        ensures Convert(Convert(table, mid, sched, openHour), target, sched, openHour)
             == Convert(table, target, sched, openHour)
      {
        TwoStepsAreOne(table, mid, target, sched, openHour);
      }
    } else if target.H1? {
      MajorityOfMajorities(openHour);
    } else {
      MisalignedDay(sched, openHour);
    }
  }

  // ----- what the output table holds -----

  /** The groups of these period starts, one after the other. */
  function Groups(bars: seq<Bar>, g: Grid, starts: seq<int>): seq<Bar> {
    if |starts| == 0 then []
    else Groups(bars, g, starts[..|starts| - 1]) + Group(bars, g, starts[|starts| - 1])
  }

  lemma {:induction false} GroupsWithout(bars: seq<Bar>, g: Grid, starts: seq<int>)
    requires |bars| > 0 && forall k :: 0 <= k < |starts| ==> starts[k] != Start(g, bars[|bars| - 1].t)
    ensures Groups(bars, g, starts) == Groups(bars[..|bars| - 1], g, starts)
  {
    hide Start;
    if |starts| == 0 {
    } else {
      var v := starts[|starts| - 1];
      GroupsWithout(bars, g, starts[..|starts| - 1]);
      GroupSnoc(bars, g, v);
      assert Group(bars, g, v) == Group(bars[..|bars| - 1], g, v);
    }
  }

  lemma {:induction false} LastPeriod(bars: seq<Bar>, g: Grid)
    requires SortedByTime(bars) && |bars| > 0
    ensures var starts, v := Times(Roll(bars, g)), Start(g, bars[|bars| - 1].t);
      && |starts| > 0 && starts[|starts| - 1] == v
      && forall k :: 0 <= k < |starts| - 1 ==> starts[k] != v
  {
    hide Start, Push;
    var rows := Roll(bars, g);
    RollIncreasing(bars, g);
    forall k | 0 <= k < |rows| - 1
      ensures rows[k].t != rows[|rows| - 1].t
    {
      assert rows[k].t < rows[|rows| - 1].t;
    }
  }

  lemma {:induction false} GroupsStep(bars: seq<Bar>, g: Grid, starts: seq<int>)
    requires |bars| > 0 && |starts| > 0
    requires starts[|starts| - 1] == Start(g, bars[|bars| - 1].t)
    requires forall k :: 0 <= k < |starts| - 1 ==> starts[k] != starts[|starts| - 1]
    ensures Groups(bars, g, starts) ==
      Groups(bars[..|bars| - 1], g, starts) + [bars[|bars| - 1]]
  {
    hide Start, Group;
    GroupsWithout(bars, g, starts[..|starts| - 1]);
    GroupSnoc(bars, g, starts[|starts| - 1]);
  }

  /** Laid end to end, the groups of the rows are the bars: every bar lands in exactly
      one row, in time order. */
  lemma {:induction false} GroupsPartition(bars: seq<Bar>, g: Grid)
    requires SortedByTime(bars)
    ensures Groups(bars, g, Times(Roll(bars, g))) == bars
  {
    hide Start, Push;
    if |bars| == 0 {
    } else {
      GroupsPartition(bars[..|bars| - 1], g);
      PartitionStep(bars, g, Times(Roll(bars[..|bars| - 1], g)), Times(Roll(bars, g)));
    }
  }

  lemma {:induction false} PartitionStep(bars: seq<Bar>, g: Grid, before: seq<int>, after: seq<int>)
    requires SortedByTime(bars) && |bars| > 0
    requires before == Times(Roll(bars[..|bars| - 1], g)) && after == Times(Roll(bars, g))
    requires Groups(bars[..|bars| - 1], g, before) == bars[..|bars| - 1]
    ensures Groups(bars, g, after) == bars
  {
    hide Start, Times, Group, SortedByTime;
    var head, b := bars[..|bars| - 1], bars[|bars| - 1];
    NewPeriodAtEnd(bars, g);
    LastPeriod(bars, g);
    GroupsStep(bars, g, after);
    if Start(g, b.t) !in before {
      NewGroup(bars, g);
    }
    assert Groups(head, g, after) == head;
    assert bars == head + [b];
  }

  lemma {:induction false} NewPeriodAtEnd(bars: seq<Bar>, g: Grid)
    requires SortedByTime(bars) && |bars| > 0
    ensures var before, after := Times(Roll(bars[..|bars| - 1], g)), Times(Roll(bars, g));
      var v := Start(g, bars[|bars| - 1].t);
      if v in before then after == before else after == before + [v]
  {
    hide Start, Push;
    NewPeriod(bars, g, |bars| - 1);
    assert bars[..|bars|] == bars;
  }

  lemma {:induction false} NewGroup(bars: seq<Bar>, g: Grid)
    requires SortedByTime(bars) && |bars| > 0
    requires Start(g, bars[|bars| - 1].t) !in Times(Roll(bars[..|bars| - 1], g))
    ensures Group(bars[..|bars| - 1], g, Start(g, bars[|bars| - 1].t)) == []
  {
    hide Start, Push;
    var before := Roll(bars[..|bars| - 1], g);
    assert forall k :: 0 <= k < |before| ==> Times(before)[k] == before[k].t;
    NoEarlierBar(bars, g);
  }

  /** Every surviving bar lands in exactly one output row, in time order. */
  lemma {:induction false} EveryBarLandsOnce(table: seq<Bar>, f: Frame, sched: Option<Schedule>, openHour: int)
    ensures Groups(Survivors(table), FrameGrid(f, openHour), Times(Convert(table, f, sched, openHour)))
         == Survivors(table)
    ensures multiset(Survivors(table)) == multiset(Kept(table))
  {
    hide Start, Push, PeriodSession, FrameGrid, Groups;
    var bars, g := Survivors(table), FrameGrid(f, openHour);
    SortIsPermutation(Kept(table));
    GroupsPartition(bars, g);
    assert Times(Convert(table, f, sched, openHour)) == Times(Roll(bars, g));
  }

  predicate Sane(b: Bar) {
    b.low <= b.open <= b.high && b.low <= b.close <= b.high
  }

  lemma {:induction false} RollSane(bars: seq<Bar>, g: Grid)
    requires forall i :: 0 <= i < |bars| ==> Sane(bars[i])
    ensures forall k :: 0 <= k < |Roll(bars, g)| ==> Sane(Roll(bars, g)[k])
  {
    hide Start;
    if |bars| == 0 {
    } else {
      RollSane(bars[..|bars| - 1], g);
    }
  }

  lemma {:induction false} KeptMembers(table: seq<Bar>)
    ensures forall b :: b in Kept(table) ==> b in table
  {
    if |table| == 0 {
    } else {
      KeptMembers(table[..|table| - 1]);
    }
  }

  /** low <= open, close <= high survives conversion. */
  lemma {:induction false} ConvertSane(table: seq<Bar>, f: Frame, sched: Option<Schedule>, openHour: int)
    requires forall i :: 0 <= i < |table| ==> Sane(table[i])
    ensures forall k :: 0 <= k < |Convert(table, f, sched, openHour)| ==> Sane(Convert(table, f, sched, openHour)[k])
  {
    hide Sane, Start, PeriodSession, FrameGrid;
    var bars := Survivors(table);
    SortIsPermutation(Kept(table));
    KeptMembers(table);
    forall i | 0 <= i < |bars|
      ensures Sane(bars[i])
    {
      assert bars[i] in multiset(bars);
      assert bars[i] in Kept(table);
    }
    RollSane(bars, FrameGrid(f, openHour));
    forall k | 0 <= k < |Convert(table, f, sched, openHour)|
      ensures Sane(Convert(table, f, sched, openHour)[k])
    {
      SaneRelabelled(Roll(bars, FrameGrid(f, openHour))[k], Convert(table, f, sched, openHour)[k].session);
    }
  }

  lemma SaneRelabelled(b: Bar, s: Session)
    ensures Sane(b.(session := s)) == Sane(b)
  {
  }
}
