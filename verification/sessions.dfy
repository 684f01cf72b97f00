/** Trading-session labels: first match, last write, and the majority label of an hour. */
module Sessions {
  import opened Wrappers
  import opened Bars

  const DAY_US := 1440 * MINUTE_US

  /** A wall-clock minute; `time(h, m)` admits no others. */
  type Minute = m: int | 0 <= m < 1440

  datatype Window = Window(start: Minute, end: Minute)

  datatype Schedule = Schedule(
    asian: Option<Window>, london: Option<Window>, newYork: Option<Window>,
    offHours: Option<Window>, overlap: Option<Window>)

  /** The four base sessions in the order every variant visits them. */
  const BASE: seq<Session> := [Asian, London, NewYork, OffHours]

  function WindowOf(sched: Schedule, s: Session): Option<Window> {
    match s
    case Asian => sched.asian
    case London => sched.london
    case NewYork => sched.newYork
    case OffHours => sched.offHours
    case LondonNyOverlap => sched.overlap
    case Mixed => None
  }

  /** A base session may wrap midnight; equal bounds cover the whole day. */
  predicate InBase(sched: Schedule, s: Session, m: int) {
    var w := WindowOf(sched, s);
    w.Some? &&
    if w.value.start < w.value.end then w.value.start <= m < w.value.end
    else m >= w.value.start || m < w.value.end
  }

  /** The overlap window never wraps. */
  predicate InOverlap(sched: Schedule, m: int) {
    sched.overlap.Some? && sched.overlap.value.start <= m < sched.overlap.value.end
  }

  function FirstOf(sched: Schedule, keys: seq<Session>, m: int): Session {
    if |keys| == 0 then OffHours
    else if InBase(sched, keys[0], m) then keys[0]
    else FirstOf(sched, keys[1..], m)
  }

  /** First match: the overlap, else the first base session that covers the minute. */
  function FirstMatch(sched: Schedule, m: int): Session {
    if InOverlap(sched, m) then LondonNyOverlap else FirstOf(sched, BASE, m)
  }

  function LastOf(sched: Schedule, keys: seq<Session>, m: int): Session {
    var n := |keys|;
    if n == 0 then OffHours
    else if InBase(sched, keys[n - 1], m) then keys[n - 1]
    else LastOf(sched, keys[..n - 1], m)
  }

  /** Last write: later base sessions overwrite earlier ones, the overlap overwrites all. */
  function LastWrite(sched: Schedule, m: int): Session {
    if InOverlap(sched, m) then LondonNyOverlap else LastOf(sched, BASE, m)
  }

  /** `assign_session` on a time of day with sub-minute precision. */
  method AssignSession(timeOfDayUs: int, sched: Schedule) returns (s: Session)
    requires 0 <= timeOfDayUs < DAY_US
    ensures s == FirstMatch(sched, timeOfDayUs / MINUTE_US)
  {
    if sched.overlap.Some? {
      var w := sched.overlap.value;
      if w.start * MINUTE_US <= timeOfDayUs < w.end * MINUTE_US {
        return LondonNyOverlap;
      }
    }
    for k := 0 to 4
      invariant FirstOf(sched, BASE, timeOfDayUs / MINUTE_US) == FirstOf(sched, BASE[k..], timeOfDayUs / MINUTE_US)
    {
      assert BASE[k..][0] == BASE[k] && BASE[k..][1..] == BASE[k + 1..];
      var window := WindowOf(sched, BASE[k]);
      if window.None? {
        continue;
      }
      var s, e := window.value.start * MINUTE_US, window.value.end * MINUTE_US;
      if s < e {
        if s <= timeOfDayUs < e {
          return BASE[k];
        }
      } else if timeOfDayUs >= s || timeOfDayUs < e {
        return BASE[k];
      }
    }
    s := OffHours;
  }

  /** `compute_session_for_timestamp`: epoch microseconds, floored to the minute of day. */
  function SessionForTimestamp(timestampUs: int, sched: Schedule): Session {
    var timeOfDaySeconds := (timestampUs / 1_000_000) % 86400;
    var hour := timeOfDaySeconds / 3600;
    var minute := (timeOfDaySeconds % 3600) / 60;
    FirstMatch(sched, hour * 60 + minute)
  }

  /** The timestamp variant labels every timestamp, before the epoch too, as first match
      labels its time of day. */
  lemma {:induction false} TimestampIsFirstMatch(timestampUs: int, sched: Schedule)
    ensures SessionForTimestamp(timestampUs, sched) == FirstMatch(sched, (timestampUs % DAY_US) / MINUTE_US)
  {
    hide FirstMatch;
    var tod := (timestampUs / 1_000_000) % 86400;
    SecondsOfDay(timestampUs);
  }

  lemma {:induction false} SecondsOfDay(timestampUs: int)
    ensures ((timestampUs / 1_000_000) % 86400) / 60 == (timestampUs % DAY_US) / MINUTE_US
  {
    var day, rest := timestampUs / DAY_US, timestampUs % DAY_US;
    var second, below := rest / 1_000_000, rest % 1_000_000;
    assert timestampUs == 1_000_000 * (86400 * day + second) + below;
    assert timestampUs / 1_000_000 == 86400 * day + second;
    assert (timestampUs / 1_000_000) % 86400 == second;
    assert second / 60 == rest / MINUTE_US;
  }

  /** `assign_sessions_bulk`: masked overwrites in base order, then the overlap. */
  method AssignSessionsBulk(minutes: seq<int>, sched: Schedule) returns (labels: seq<Session>)
    ensures |labels| == |minutes|
    ensures forall i :: 0 <= i < |minutes| ==> labels[i] == LastWrite(sched, minutes[i])
  {
    var result := new Session[|minutes|](_ => OffHours);
    for k := 0 to 4
      invariant forall i :: 0 <= i < |minutes| ==> result[i] == LastOf(sched, BASE[..k], minutes[i])
    {
      assert BASE[..k + 1][..k] == BASE[..k];
      if WindowOf(sched, BASE[k]).Some? {
        forall i | 0 <= i < |minutes| && InBase(sched, BASE[k], minutes[i]) {
          result[i] := BASE[k];
        }
      }
    }
    assert BASE[..4] == BASE;
    if sched.overlap.Some? {
      forall i | 0 <= i < |minutes| && InOverlap(sched, minutes[i]) {
        result[i] := LondonNyOverlap;
      }
    }
    labels := result[..];
  }

  /** A base window covers a minute of the day, counted clockwise from its opening; equal bounds
      cover the whole day. */
  predicate Covers(w: Option<Window>, m: Minute) {
    w.Some? &&
    (w.value.start == w.value.end || (m - w.value.start) % 1440 < (w.value.end - w.value.start) % 1440)
  }

  lemma {:induction false} InBaseCovers(sched: Schedule, s: Session, m: Minute)
    ensures InBase(sched, s, m) <==> Covers(WindowOf(sched, s), m)
  {
  }

  /** A single label is that of the overlap, else of the first of the Asian, the London, the New
      York and the off-hours window that covers the minute, else off-hours. */
  lemma {:induction false} FirstMatchMeans(sched: Schedule, m: Minute)
    ensures FirstMatch(sched, m) ==
      if sched.overlap.Some? && sched.overlap.value.start <= m < sched.overlap.value.end then LondonNyOverlap
      else if Covers(sched.asian, m) then Asian
      else if Covers(sched.london, m) then London
      else if Covers(sched.newYork, m) then NewYork
      else OffHours
  {
    hide InBase, Covers;
    FirstOfBase(sched, m);
    InBaseCovers(sched, Asian, m);
    InBaseCovers(sched, London, m);
    InBaseCovers(sched, NewYork, m);
  }

  /** A bulk label is that of the overlap, else of the last of these windows that covers it. */
  lemma {:induction false} LastWriteMeans(sched: Schedule, m: Minute)
    ensures LastWrite(sched, m) ==
      if sched.overlap.Some? && sched.overlap.value.start <= m < sched.overlap.value.end then LondonNyOverlap
      else if Covers(sched.offHours, m) then OffHours
      else if Covers(sched.newYork, m) then NewYork
      else if Covers(sched.london, m) then London
      else if Covers(sched.asian, m) then Asian
      else OffHours
  {
    hide InBase, Covers;
    LastOfBase(sched, m);
    InBaseCovers(sched, Asian, m);
    InBaseCovers(sched, London, m);
    InBaseCovers(sched, NewYork, m);
    InBaseCovers(sched, OffHours, m);
  }

  /** At most one base session covers the minute. */
  predicate AtMostOneBase(sched: Schedule, m: int) {
    forall s, u :: s in BASE && u in BASE && InBase(sched, s, m) && InBase(sched, u, m) ==> s == u
  }

  /** The two labellers agree at a minute exactly when it is inside the overlap window
      or in at most one base session. */
  lemma {:induction false} LabellersAgree(sched: Schedule, m: int)
    ensures FirstMatch(sched, m) == LastWrite(sched, m) <==> InOverlap(sched, m) || AtMostOneBase(sched, m)
  {
    hide InBase;
    FirstOfBase(sched, m);
    LastOfBase(sched, m);
  }

  lemma {:induction false} FirstOfBase(sched: Schedule, m: int)
    ensures FirstOf(sched, BASE, m) ==
      if InBase(sched, Asian, m) then Asian
      else if InBase(sched, London, m) then London
      else if InBase(sched, NewYork, m) then NewYork
      else OffHours
  {
    hide InBase;
    var b1: seq<Session>, b2: seq<Session>, b3: seq<Session> :=
      [London, NewYork, OffHours], [NewYork, OffHours], [OffHours];
    assert BASE[1..] == b1 && b1[1..] == b2 && b2[1..] == b3;
    assert FirstOf(sched, b3, m) == OffHours;
    assert FirstOf(sched, b2, m) == if InBase(sched, NewYork, m) then NewYork else OffHours;
    assert FirstOf(sched, b1, m) == if InBase(sched, London, m) then London else FirstOf(sched, b2, m);
  }

  lemma {:induction false} LastOfBase(sched: Schedule, m: int)
    ensures LastOf(sched, BASE, m) ==
      if InBase(sched, OffHours, m) then OffHours
      else if InBase(sched, NewYork, m) then NewYork
      else if InBase(sched, London, m) then London
      else if InBase(sched, Asian, m) then Asian
      else OffHours
  {
    hide InBase;
    var b3: seq<Session>, b2: seq<Session>, b1: seq<Session> :=
      [Asian, London, NewYork], [Asian, London], [Asian];
    assert BASE[..3] == b3 && b3[..2] == b2 && b2[..1] == b1;
    assert LastOf(sched, b1, m) == if InBase(sched, Asian, m) then Asian else OffHours;
    assert LastOf(sched, b2, m) == if InBase(sched, London, m) then London else LastOf(sched, b1, m);
    assert LastOf(sched, b3, m) == if InBase(sched, NewYork, m) then NewYork else LastOf(sched, b2, m);
  }

  // ----- the label of an hour -----

  /** Every label, in the alphabetical order of its name. */
  const ALPHABETICAL: seq<Session> := [Asian, London, LondonNyOverlap, Mixed, NewYork, OffHours]

  function Count(labels: seq<Session>, s: Session): nat {
    if |labels| == 0 then 0
    else Count(labels[..|labels| - 1], s) + if labels[|labels| - 1] == s then 1 else 0
  }

  /** The first label of `order` among those of greatest count. */
  function Top(labels: seq<Session>, order: seq<Session>): (r: Session)
    requires |order| > 0
    ensures r in order
    ensures forall u :: u in order ==> Count(labels, u) <= Count(labels, r)
  {
    var n := |order|;
    if n == 1 then order[0] else
      var best := Top(labels, order[..n - 1]);
      if Count(labels, order[n - 1]) > Count(labels, best) then order[n - 1] else best
  }

  lemma {:induction false} TopStep(labels: seq<Session>, order: seq<Session>)
    requires |order| > 1
    ensures var init, last := order[..|order| - 1], order[|order| - 1];
      && Top(labels, order) ==
           (if Count(labels, last) > Count(labels, Top(labels, init)) then last else Top(labels, init))
      && forall u | u in init :: Count(labels, u) <= Count(labels, Top(labels, init))
  {
    hide Count;
  }

  /** No earlier label of the order is as frequent. */
  lemma {:induction false} TopIsFirst(labels: seq<Session>, order: seq<Session>) returns (k: nat)
    requires |order| > 0
    ensures k < |order| && order[k] == Top(labels, order)
    ensures forall j | 0 <= j < k :: Count(labels, order[j]) < Count(labels, order[k])
  {
    hide Count;
    var n := |order|;
    if n == 1 {
      k := 0;
    } else {
      hide Top;
      var init := order[..n - 1];
      TopStep(labels, order);
      k := TopIsFirst(labels, init);
      if Count(labels, order[n - 1]) > Count(labels, Top(labels, init)) {
        assert forall j | 0 <= j < n - 1 :: order[j] in init;
        k := n - 1;
      } else {
        assert forall j | 0 <= j < k :: init[j] == order[j];
      }
    }
  }

  lemma AllAlphabetical(s: Session)
    ensures s in ALPHABETICAL
  {
  }

  /** `_majority_session`: the most frequent label, the first alphabetically on a tie. */
  function Majority(labels: seq<Session>): Session {
    Top(labels, ALPHABETICAL)
  }

  /** No label is more frequent than the majority, and none before it in the alphabet is as
      frequent. */
  lemma {:induction false} MajorityIsFirst(labels: seq<Session>, k: nat)
    requires k < |ALPHABETICAL| && ALPHABETICAL[k] == Majority(labels)
    ensures forall u :: Count(labels, u) <= Count(labels, Majority(labels))
    ensures forall j | 0 <= j < k :: Count(labels, ALPHABETICAL[j]) < Count(labels, Majority(labels))
  {
    hide Count;
    var first := TopIsFirst(labels, ALPHABETICAL);
    forall u
      ensures u in ALPHABETICAL
    {
      AllAlphabetical(u);
    }
    assert first == k;
  }

  /** The labels in the order of their first appearance: a dictionary's key order. */
  function FirstSeen(labels: seq<Session>): seq<Session> {
    if |labels| == 0 then [] else
      var seen := FirstSeen(labels[..|labels| - 1]);
      if labels[|labels| - 1] in seen then seen else seen + [labels[|labels| - 1]]
  }

  /** The session's own window opens within the hour. */
  predicate OpensWithin(sched: Schedule, s: Session, hourStart: int) {
    var w := WindowOf(sched, s);
    w.Some? && hourStart <= w.value.start < hourStart + 60
  }

  function FirstOpening(labels: seq<Session>, seen: seq<Session>, sched: Schedule, hourStart: int): Option<Session> {
    if |seen| == 0 then None
    else if Count(labels, seen[0]) == Count(labels, Majority(labels)) && OpensWithin(sched, seen[0], hourStart)
    then Some(seen[0])
    else FirstOpening(labels, seen[1..], sched, hourStart)
  }

  /** The labels of the sixty minutes of an hour. */
  function HourLabels(startUs: int, sched: Schedule): (r: seq<Session>)
    ensures |r| == 60
  {
    seq(60, m requires 0 <= m < 60 => SessionForTimestamp(startUs + m * MINUTE_US, sched))
  }

  function HourStart(startUs: int): int {
    ((startUs / 1_000_000) % 86400) / 60
  }

  /** `_recompute_h1_session`: among the most frequent labels the first seen one whose
      window opens in the hour, else the alphabetically first. */
  function H1Session(startUs: int, sched: Schedule): Session {
    OpeningMajority(HourLabels(startUs, sched), sched, HourStart(startUs))
  }

  /** The tie rule that prefers a session opening within the hour. */
  function OpeningMajority(labels: seq<Session>, sched: Schedule, hourStart: int): Session {
    var opening := FirstOpening(labels, FirstSeen(labels), sched, hourStart);
    if opening.Some? then opening.value else Majority(labels)
  }

  /** `_majority_session` is documented to use that rule and does not: an hour of two labels, the
      second of which opens within it, gets the other one. */
  lemma {:induction false} TieRulesDiffer(sched: Schedule, hourStart: int)
    requires OpensWithin(sched, London, hourStart) && !OpensWithin(sched, Asian, hourStart)
    ensures OpeningMajority([Asian, London], sched, hourStart) == London
    ensures Majority([Asian, London]) == Asian
  {
    hide OpensWithin;
    var labels := [Asian, London];
    assert labels[..1] == [Asian];
    forall u
      ensures Count(labels, u) == if u == Asian || u == London then 1 else 0
    {
      assert Count(labels[..1], u) == if u == Asian then 1 else 0;
    }
    assert FirstSeen(labels[..1]) == [Asian];
    assert FirstSeen(labels) == [Asian, London];
    TopOfTie(labels);
    assert Count(labels, London) == Count(labels, Majority(labels));
    assert FirstOpening(labels, [London], sched, hourStart) == Some(London);
    assert [Asian, London][1..] == [London];
    assert FirstOpening(labels, [Asian, London], sched, hourStart) == FirstOpening(labels, [London], sched, hourStart);
  }

  lemma {:induction false} TopOfTie(labels: seq<Session>)
    requires Count(labels, Asian) == Count(labels, London) >= 1
    requires forall u | u != Asian && u != London :: Count(labels, u) == 0
    ensures Majority(labels) == Asian
  {
    hide Count;
    var k := TopIsFirst(labels, ALPHABETICAL);
    assert Count(labels, ALPHABETICAL[0]) >= 1;
  }

  lemma {:induction false} FirstOpeningLeads(labels: seq<Session>, seen: seq<Session>, sched: Schedule, hourStart: int)
    ensures var r := FirstOpening(labels, seen, sched, hourStart);
      && (r.Some? ==>
           r.value in seen && Count(labels, r.value) == Count(labels, Majority(labels))
           && OpensWithin(sched, r.value, hourStart))
      && (r.None? ==> forall u :: u in seen && Count(labels, u) == Count(labels, Majority(labels)) ==>
           !OpensWithin(sched, u, hourStart))
  {
    hide Count, Majority, OpensWithin;
    if |seen| == 0 {
    } else {
      FirstOpeningLeads(labels, seen[1..], sched, hourStart);
    }
  }

  /** The label covers at least as many minutes of the hour as any other. */
  lemma {:induction false} H1SessionIsMajority(startUs: int, sched: Schedule, other: Session)
    ensures var labels := HourLabels(startUs, sched);
      Count(labels, other) <= Count(labels, H1Session(startUs, sched))
  {
    hide Count, HourLabels, FirstSeen;
    var labels := HourLabels(startUs, sched);
    AllAlphabetical(other);
    FirstOpeningLeads(labels, FirstSeen(labels), sched, HourStart(startUs));
  }

  /** The place of a label among the names in alphabetical order. */
  function NameOrder(s: Session): nat {
    match s
    case Asian => 0
    case London => 1
    case LondonNyOverlap => 2
    case Mixed => 3
    case NewYork => 4
    case OffHours => 5
  }

  /** Where a label first appears. */
  predicate FirstAt(labels: seq<Session>, s: Session, i: nat) {
    i < |labels| && labels[i] == s && forall j | 0 <= j < i :: labels[j] != s
  }

  /** The labels of an hour are those of its sixty minutes. */
  lemma {:induction false} HourLabelsMeans(startUs: int, sched: Schedule, m: nat)
    requires m < 60
    ensures HourLabels(startUs, sched)[m] == FirstMatch(sched, ((startUs + m * MINUTE_US) % DAY_US) / MINUTE_US)
  {
    TimestampIsFirstMatch(startUs + m * MINUTE_US, sched);
  }

  lemma {:induction false} MajorityIsGreatest(labels: seq<Session>, u: Session)
    ensures Count(labels, u) <= Count(labels, Majority(labels))
  {
    hide Count;
    AllAlphabetical(u);
  }

  /** Of the labels as frequent as the majority, it has the first name. */
  lemma {:induction false} MajorityLeadsAlphabet(labels: seq<Session>, u: Session)
    requires u != Majority(labels) && Count(labels, u) == Count(labels, Majority(labels))
    ensures NameOrder(Majority(labels)) < NameOrder(u)
  {
    hide Count, Majority;
    var k := NameOrder(Majority(labels));
    assert ALPHABETICAL[k] == Majority(labels);
    MajorityIsFirst(labels, k);
    assert ALPHABETICAL[NameOrder(u)] == u;
  }

  /** The labels seen are those that appear. */
  lemma {:induction false} SeenIff(labels: seq<Session>, u: Session)
    ensures u in FirstSeen(labels) <==> u in labels
  {
    if |labels| == 0 {
    } else {
      SeenIff(labels[..|labels| - 1], u);
      assert labels == labels[..|labels| - 1] + [labels[|labels| - 1]];
    }
  }

  /** Labels are seen in the order of their first appearance. */
  lemma {:induction false} SeenInOrder(labels: seq<Session>, p: nat, q: nat) returns (i: nat, j: nat)
    requires p < q < |FirstSeen(labels)|
    ensures FirstAt(labels, FirstSeen(labels)[p], i) && FirstAt(labels, FirstSeen(labels)[q], j) && i < j
  {
    var n := |labels|;
    var head := labels[..n - 1];
    var before := FirstSeen(head);
    if q < |before| {
      i, j := SeenInOrder(head, p, q);
    } else {
      SeenIff(head, before[p]);
      SeenIff(head, labels[n - 1]);
      i := FirstIndex(head, before[p]);
      j := n - 1;
    }
  }

  lemma {:induction false} FirstIndex(labels: seq<Session>, u: Session) returns (i: nat)
    requires u in labels
    ensures FirstAt(labels, u, i)
  {
    var n := |labels|;
    if u in labels[..n - 1] {
      i := FirstIndex(labels[..n - 1], u);
    } else {
      i := n - 1;
      assert labels == labels[..n - 1] + [labels[n - 1]];
      assert forall j | 0 <= j < n - 1 :: labels[j] == labels[..n - 1][j];
    }
  }

  /** The opening label chosen is the first of those seen. */
  lemma {:induction false} FirstOpeningIsFirst(
    labels: seq<Session>, seen: seq<Session>, sched: Schedule, hourStart: int, q: nat)
    returns (p: nat)
    requires q < |seen| && Count(labels, seen[q]) == Count(labels, Majority(labels))
    requires OpensWithin(sched, seen[q], hourStart)
    ensures p <= q && FirstOpening(labels, seen, sched, hourStart) == Some(seen[p])
  {
    hide Count, Majority, OpensWithin;
    if q == 0 || FirstOpening(labels, seen, sched, hourStart) == Some(seen[0]) {
      p := 0;
    } else {
      p := FirstOpeningIsFirst(labels, seen[1..], sched, hourStart, q - 1);
      p := p + 1;
    }
  }

  /** A label first appears in one place. */
  lemma FirstAtUnique(labels: seq<Session>, u: Session, i: nat, j: nat)
    requires FirstAt(labels, u, i) && FirstAt(labels, u, j)
    ensures i == j
  {
  }

  /** Which of the labels that cover most of the hour is taken: one whose window opens within the
      hour comes before one whose window does not, the first to appear among those that do, and
      the first in the alphabet when none does. */
  lemma {:induction false} H1TieBreak(startUs: int, sched: Schedule, u: Session, i: nat, j: nat)
    requires var labels, r := HourLabels(startUs, sched), H1Session(startUs, sched);
      && u != r && Count(labels, u) == Count(labels, r)
      && FirstAt(labels, r, i) && FirstAt(labels, u, j)
    ensures var hourStart, w, v := (startUs % DAY_US) / MINUTE_US,
              WindowOf(sched, H1Session(startUs, sched)), WindowOf(sched, u);
      && (v.Some? && hourStart <= v.value.start < hourStart + 60 ==>
            w.Some? && hourStart <= w.value.start < hourStart + 60 && i < j)
      && (!(w.Some? && hourStart <= w.value.start < hourStart + 60) ==>
            NameOrder(H1Session(startUs, sched)) < NameOrder(u))
  {
    hide Count, HourLabels, Majority, FirstSeen;
    var labels, r, at := HourLabels(startUs, sched), H1Session(startUs, sched), HourStart(startUs);
    SecondsOfDay(startUs);
    H1SessionIsMajority(startUs, sched, Majority(labels));
    MajorityIsGreatest(labels, r);
    FirstOpeningLeads(labels, FirstSeen(labels), sched, at);
    if OpensWithin(sched, u, at) {
      var seen := FirstSeen(labels);
      SeenIff(labels, u);
      var q: nat :| q < |seen| && seen[q] == u;
      var p := FirstOpeningIsFirst(labels, seen, sched, at, q);
      var i', j' := SeenInOrder(labels, p, q);
      FirstAtUnique(labels, r, i, i');
      FirstAtUnique(labels, u, j, j');
    } else if !OpensWithin(sched, r, at) {
      MajorityLeadsAlphabet(labels, u);
    }
  }

  /** The counting loop of `_recompute_h1_session`, over a dictionary that keeps the
      order in which its keys were inserted. */
  method RecomputeH1Session(startUs: int, sched: Schedule) returns (s: Session)
    ensures s == H1Session(startUs, sched)
  {
    hide SessionForTimestamp, Majority, OpensWithin;
    ghost var labels := HourLabels(startUs, sched);
    var counts: map<Session, nat> := map[];
    var keys: seq<Session> := [];
    for m := 0 to 60
      invariant keys == FirstSeen(labels[..m])
      invariant forall u :: u in keys <==> u in counts
      invariant forall u :: Count(labels[..m], u) == if u in counts then counts[u] else 0
    {
      var name := SessionForTimestamp(startUs + m * MINUTE_US, sched);
      assert labels[..m + 1][..m] == labels[..m] && labels[..m + 1][m] == name;
      if name !in counts {
        keys := keys + [name];
      }
      counts := counts[name := (if name in counts then counts[name] else 0) + 1];
    }
    assert labels[..60] == labels;
    var best := TopOfCounts(labels, counts);
    for k := 0 to |keys|
      invariant FirstOpening(labels, keys, sched, HourStart(startUs))
             == FirstOpening(labels, keys[k..], sched, HourStart(startUs))
    {
      assert keys[k..][0] == keys[k] && keys[k..][1..] == keys[k + 1..];
      if counts[keys[k]] == (if best in counts then counts[best] else 0)
         && OpensWithin(sched, keys[k], HourStart(startUs)) {
        return keys[k];
      }
    }
    s := best;
  }

  /** The alphabetically first key of greatest count. */
  method TopOfCounts(ghost labels: seq<Session>, counts: map<Session, nat>) returns (s: Session)
    requires forall u :: Count(labels, u) == if u in counts then counts[u] else 0
    ensures s == Majority(labels)
  {
    hide Count;
    s := ALPHABETICAL[0];
    for k := 1 to 6
      invariant s == Top(labels, ALPHABETICAL[..k])
    {
      assert ALPHABETICAL[..k + 1][..k] == ALPHABETICAL[..k];
      var u := ALPHABETICAL[k];
      if (if u in counts then counts[u] else 0) > (if s in counts then counts[s] else 0) {
        s := u;
      }
    }
    assert ALPHABETICAL[..6] == ALPHABETICAL;
  }
}
