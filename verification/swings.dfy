/** Fractal swing detection, lagged swing levels and market structure.
    One definition serves both sides: `High` swings beat their neighbours from
    above, `Low` swings from below. */
module Swings {
  import opened Wrappers
  import opened Series

  datatype Side = High | Low

  predicate Beats(side: Side, a: real, b: real) {
    match side
    case High => a > b
    case Low => a < b
  }

  /** The definition: bar i has n neighbours on each side and strictly beats all of them. */
  predicate IsSwing(side: Side, p: seq<real>, n: nat, i: int) {
    && 1 <= n <= i
    && i + n < |p|
    && forall k :: i - n <= k <= i + n && k != i ==> Beats(side, p[i], p[k])
  }

  function SwingMask(side: Side, p: seq<real>, n: nat): (m: seq<bool>)
    ensures |m| == |p|
    ensures forall i :: 0 <= i < |p| ==> m[i] == IsSwing(side, p, n, i)
  {
    seq(|p|, i requires 0 <= i < |p| => IsSwing(side, p, n, i))
  }

  /** What the mask holds after the shifts 1..m: i beats every bar at distance at most m. */
  ghost predicate Passed(side: Side, p: seq<real>, m: nat, i: int)
    requires 0 <= i < |p|
  {
    m > 0 ==>
      && m <= i < |p| - m
      && forall k :: i - m <= k <= i + m && k != i ==> Beats(side, p[i], p[k])
  }

  /** A slice bound as Python reads it on a sequence of length n. */
  function SliceBound(k: int, n: nat): nat {
    if k < 0 then (if n + k < 0 then 0 else n + k)
    else if k < n then k else n
  }

  /** One shift of the vectorised pass on one mask: the four slice statements for shift j. */
  method ShiftMask(side: Side, p: seq<real>, j: nat, mask: array<bool>)
    requires 1 <= j && mask.Length == |p|
    requires j <= |p| || |p| <= 1
    requires forall i :: 0 <= i < |p| ==> mask[i] == Passed(side, p, j - 1, i)
    modifies mask
    ensures forall i :: 0 <= i < |p| ==> mask[i] == Passed(side, p, j, i)
  {
    var len := |p|;
    var cut := SliceBound(len - j, len);
    var from := SliceBound(j, len);
    forall i | 0 <= i < cut {
      mask[i] := mask[i] && Beats(side, p[i], p[from + i]);
    }
    forall i | cut <= i < len {
      mask[i] := false;
    }
    forall i | from <= i < len {
      mask[i] := mask[i] && Beats(side, p[i], p[i - from]);
    }
    forall i | 0 <= i < from {
      mask[i] := false;
    }
    forall i | 0 <= i < |p|
      ensures mask[i] == Passed(side, p, j, i)
    {
    }
  }

  /** The edges of the pass. With n == 0 the slice `mask[-0:]` is the whole mask. */
  method ClearEdges(n: nat, mask: array<bool>)
    modifies mask
    ensures forall i :: 0 <= i < mask.Length ==>
      mask[i] == (old(mask[i]) && 1 <= n <= i < mask.Length - n)
  {
    var head := SliceBound(n, mask.Length);
    var back: int := n;
    var tail := SliceBound(-back, mask.Length);
    forall i | 0 <= i < head {
      mask[i] := false;
    }
    forall i | tail <= i < mask.Length {
      mask[i] := false;
    }
  }

  /** `_detect_swings`: in-place masks over shifted slices equal the definition.
      It raises (None) exactly when a slice pair cannot be broadcast. */
  method DetectSwings(h: seq<real>, l: seq<real>, n: nat) returns (r: Option<(seq<bool>, seq<bool>)>)
    requires |h| == |l|
    ensures r.None? <==> n > |h| >= 2
    ensures r.Some? ==> r.value == (SwingMask(High, h, n), SwingMask(Low, l, n))
  {
    var len := |h|;
    var sh := new bool[len](_ => true);
    var sl := new bool[len](_ => true);
    for j := 1 to n + 1
      invariant len >= 2 ==> j <= len + 1
      invariant forall i :: 0 <= i < len ==> sh[i] == Passed(High, h, j - 1, i)
      invariant forall i :: 0 <= i < len ==> sl[i] == Passed(Low, l, j - 1, i)
    {
      if SliceBound(len - j, len) != len - SliceBound(j, len) {
        return None;
      }
      ShiftMask(High, h, j, sh);
      ShiftMask(Low, l, j, sl);
    }
    ClearEdges(n, sh);
    ClearEdges(n, sl);
    assert sh[..] == SwingMask(High, h, n);
    assert sl[..] == SwingMask(Low, l, n);
    r := Some((sh[..], sl[..]));
  }

  /** A swing high is strictly higher than the n bars on each of its sides, a swing low strictly
      lower, and there are n bars, at least one, on each side. */
  lemma SwingMeans(p: seq<real>, n: nat, i: int)
    ensures IsSwing(High, p, n, i) <==>
      1 <= n <= i && i + n < |p| && forall k | i - n <= k <= i + n && k != i :: p[k] < p[i]
    ensures IsSwing(Low, p, n, i) <==>
      1 <= n <= i && i + n < |p| && forall k | i - n <= k <= i + n && k != i :: p[k] > p[i]
  {
  }

  /** Two swings on the same side are more than n bars apart. */
  lemma {:induction false} SwingsApart(side: Side, p: seq<real>, n: nat, a: int, b: int)
    requires IsSwing(side, p, n, a) && IsSwing(side, p, n, b) && a < b
    ensures b - a >= n + 1
  {
    var ahead, behind := p[a], p[b];
  }

  /** A swing at k with k + n <= i is decided by bars 0..i alone. */
  lemma SwingFromPrefix(side: Side, p: seq<real>, q: seq<real>, n: nat, k: nat, i: nat)
    requires i < |p| && i < |q| && p[..i + 1] == q[..i + 1]
    requires k + n <= i
    ensures IsSwing(side, p, n, k) == IsSwing(side, q, n, k)
  {
  }

  // ----- swing levels -----

  /** `price.where(mask).shift(lag)`. */
  function LaggedPrices(mask: seq<bool>, price: seq<real>, lag: nat): seq<Num>
    requires |mask| == |price|
  {
    Shift(seq(|price|, i requires 0 <= i < |price| => if mask[i] then Val(price[i]) else NaN), lag)
  }

  /** The "last" series of `_track_swing_levels`. */
  function LastLevel(mask: seq<bool>, price: seq<real>, lag: nat): (r: seq<Num>)
    requires |mask| == |price|
    ensures |r| == |price|
  {
    FFill(LaggedPrices(mask, price, lag))
  }

  /** `last_level.shift(1).where(lagged.notna())`. */
  function PrevAtSwing(mask: seq<bool>, price: seq<real>, lag: nat): (r: seq<Num>)
    requires |mask| == |price|
    ensures |r| == |price|
  {
    var lagged := LaggedPrices(mask, price, lag);
    var shifted := Shift(LastLevel(mask, price, lag), 1);
    seq(|price|, i requires 0 <= i < |price| => if lagged[i].Val? then shifted[i] else NaN)
  }

  /** The "previous" series of `_track_swing_levels`. */
  function PrevLevel(mask: seq<bool>, price: seq<real>, lag: nat): (r: seq<Num>)
    requires |mask| == |price|
    ensures |r| == |price|
  {
    FFill(PrevAtSwing(mask, price, lag))
  }

  /** The marked indices below m, ascending. */
  function Marked(mask: seq<bool>, m: nat): (r: seq<nat>)
    requires m <= |mask|
    ensures forall k :: 0 <= k < |r| ==> r[k] < m && mask[r[k]]
  {
    if m == 0 then [] else
      var r := Marked(mask, m - 1);
      if mask[m - 1] then r + [m - 1] else r
  }

  /** Marked is the strictly ascending list of all the marked indices below m. */
  lemma {:induction false} MarkedAscendingComplete(mask: seq<bool>, m: nat)
    requires m <= |mask|
    ensures forall j, k :: 0 <= j < k < |Marked(mask, m)| ==> Marked(mask, m)[j] < Marked(mask, m)[k]
    ensures forall i :: 0 <= i < m && mask[i] ==> i in Marked(mask, m)
  {
    if m == 0 {
    } else {
      MarkedAscendingComplete(mask, m - 1);
    }
  }

  /** How many bars a reader at bar i may treat as decided: those at index <= i - lag. */
  function Confirmed(i: nat, lag: nat): (m: nat)
    ensures m <= i + 1
  {
    if i < lag then 0 else i + 1 - lag
  }

  /** The price at the c-th marked index counted from the end, NaN if there are fewer. */
  function FromEnd(idx: seq<nat>, price: seq<real>, c: nat): Num
    requires 1 <= c
    requires forall k :: 0 <= k < |idx| ==> idx[k] < |price|
  {
    if |idx| >= c then Val(price[idx[|idx| - c]]) else NaN
  }

  /** Moving one bar on confirms at most one more swing, the one at i - lag. */
  lemma {:induction false} MarkedStep(mask: seq<bool>, lag: nat, i: nat)
    requires i < |mask|
    ensures Marked(mask, Confirmed(i, lag)) ==
      (if i == 0 then [] else Marked(mask, Confirmed(i - 1, lag))) +
      (if i >= lag && mask[i - lag] then [i - lag] else [])
  {
  }

  lemma {:induction false} LastLevelIsLast(mask: seq<bool>, price: seq<real>, lag: nat, i: nat)
    requires |mask| == |price| && i < |price|
    ensures LastLevel(mask, price, lag)[i] == FromEnd(Marked(mask, Confirmed(i, lag)), price, 1)
  {
    hide Marked;
    MarkedStep(mask, lag, i);
    if i == 0 {
    } else {
      LastLevelIsLast(mask, price, lag, i - 1);
    }
    assert LaggedPrices(mask, price, lag)[i] == if i >= lag && mask[i - lag] then Val(price[i - lag]) else NaN;
  }

  lemma {:induction false} PrevAtSwingAt(mask: seq<bool>, price: seq<real>, lag: nat, i: nat)
    requires |mask| == |price| && i < |price|
    ensures PrevAtSwing(mask, price, lag)[i] ==
      if i >= lag && mask[i - lag] && i > 0 then LastLevel(mask, price, lag)[i - 1] else NaN
  {
    hide LastLevel;
  }

  lemma {:induction false} PrevLevelIsSecondLast(mask: seq<bool>, price: seq<real>, lag: nat, i: nat)
    requires |mask| == |price| && i < |price|
    ensures PrevLevel(mask, price, lag)[i] == FromEnd(Marked(mask, Confirmed(i, lag)), price, 2)
  {
    hide Marked, LastLevel, PrevAtSwing, Confirmed;
    MarkedStep(mask, lag, i);
    PrevAtSwingAt(mask, price, lag, i);
    if i == 0 {
    } else {
      PrevLevelIsSecondLast(mask, price, lag, i - 1);
      LastLevelIsLast(mask, price, lag, i - 1);
    }
  }

  /** Shifting and forward filling yield exactly the last and the second-last
      marked price at index <= i - lag. */
  lemma {:induction false} LevelsAreLastTwo(mask: seq<bool>, price: seq<real>, lag: nat, i: nat)
    requires |mask| == |price| && i < |price|
    ensures LastLevel(mask, price, lag)[i] == FromEnd(Marked(mask, Confirmed(i, lag)), price, 1)
    ensures PrevLevel(mask, price, lag)[i] == FromEnd(Marked(mask, Confirmed(i, lag)), price, 2)
  {
    LastLevelIsLast(mask, price, lag, i);
    PrevLevelIsSecondLast(mask, price, lag, i);
  }

  // ----- market structure -----

  /** `_compute_market_structure_series`: 1 for higher high and higher low, -1 for
      lower low and lower high, else 0. */
  function Structure(h: seq<real>, l: seq<real>, n: nat): (r: seq<real>)
    requires |h| == |l|
    ensures |r| == |h|
  {
    var mh, ml := SwingMask(High, h, n), SwingMask(Low, l, n);
    var lastHigh, prevHigh := LastLevel(mh, h, n), PrevLevel(mh, h, n);
    var lastLow, prevLow := LastLevel(ml, l, n), PrevLevel(ml, l, n);
    seq(|h|, i requires 0 <= i < |h| =>
      if Less(lastLow[i], prevLow[i]) && Less(lastHigh[i], prevHigh[i]) then -1.0
      else if Less(prevHigh[i], lastHigh[i]) && Less(prevLow[i], lastLow[i]) then 1.0
      else 0.0)
  }

  /** The c-th last swing level a reader at bar i knows. */
  function Level(side: Side, p: seq<real>, n: nat, i: nat, c: nat): Num
    requires i < |p| && 1 <= c
  {
    FromEnd(Marked(SwingMask(side, p, n), Confirmed(i, n)), p, c)
  }

  /** The structure read off the swing sequence itself. */
  lemma {:induction false} StructureFromSwings(h: seq<real>, l: seq<real>, n: nat, i: nat)
    requires |h| == |l| && i < |h|
    ensures Structure(h, l, n)[i] == 1.0 <==>
            && Less(Level(High, h, n, i, 2), Level(High, h, n, i, 1))
            && Less(Level(Low, l, n, i, 2), Level(Low, l, n, i, 1))
    ensures Structure(h, l, n)[i] == -1.0 <==>
            && Less(Level(High, h, n, i, 1), Level(High, h, n, i, 2))
            && Less(Level(Low, l, n, i, 1), Level(Low, l, n, i, 2))
    ensures Structure(h, l, n)[i] in {-1.0, 0.0, 1.0}
  {
    LevelsAreLastTwo(SwingMask(High, h, n), h, n, i);
    LevelsAreLastTwo(SwingMask(Low, l, n), l, n, i);
  }

  lemma {:induction false} MarkedFromPrefix(a: seq<bool>, b: seq<bool>, m: nat)
    requires m <= |a| && m <= |b|
    requires forall k :: 0 <= k < m ==> a[k] == b[k]
    ensures Marked(a, m) == Marked(b, m)
  {
    if m == 0 {
    } else {
      MarkedFromPrefix(a, b, m - 1);
    }
  }

  /** Detection reads n bars ahead and masks by series length; the lag of n cancels both. */
  lemma {:induction false} LevelFromPrefix(side: Side, p: seq<real>, q: seq<real>, n: nat, i: nat, c: nat)
    requires i < |p| && i < |q| && p[..i + 1] == q[..i + 1] && 1 <= c
    ensures Level(side, p, n, i, c) == Level(side, q, n, i, c)
  {
    var m := Confirmed(i, n);
    forall k | 0 <= k < m
      ensures SwingMask(side, p, n)[k] == SwingMask(side, q, n)[k]
    {
      SwingFromPrefix(side, p, q, n, k, i);
    }
    MarkedFromPrefix(SwingMask(side, p, n), SwingMask(side, q, n), m);
    assert forall j :: 0 <= j <= i ==> p[j] == p[..i + 1][j] == q[j];
  }

  /** Market structure at bar i is a function of bars 0..i. */
  lemma {:induction false} StructureFromPrefix(h: seq<real>, l: seq<real>, h': seq<real>, l': seq<real>, n: nat, i: nat)
    requires |h| == |l| && |h'| == |l'| && i < |h| && i < |h'|
    requires h[..i + 1] == h'[..i + 1] && l[..i + 1] == l'[..i + 1]
    ensures Structure(h, l, n)[i] == Structure(h', l', n)[i]
  {
    StructureFromSwings(h, l, n, i);
    StructureFromSwings(h', l', n, i);
    LevelFromPrefix(High, h, h', n, i, 1);
    LevelFromPrefix(High, h, h', n, i, 2);
    LevelFromPrefix(Low, l, l', n, i, 1);
    LevelFromPrefix(Low, l, l', n, i, 2);
  }

  /** `_compute_market_structure_series` with the exception of the detector. */
  method MarketStructure(h: seq<real>, l: seq<real>, n: nat) returns (r: Option<seq<real>>)
    requires |h| == |l|
    ensures r.None? <==> n > |h| >= 2
    ensures r.Some? ==> r.value == Structure(h, l, n)
  {
    var masks := DetectSwings(h, l, n);
    if masks.None? {
      return None;
    }
    var (mh, ml) := masks.value;
    var lastHigh, prevHigh := LastLevel(mh, h, n), PrevLevel(mh, h, n);
    var lastLow, prevLow := LastLevel(ml, l, n), PrevLevel(ml, l, n);
    var structure := new real[|h|](_ => 0.0);
    forall i | 0 <= i < |h| && Less(prevHigh[i], lastHigh[i]) && Less(prevLow[i], lastLow[i]) {
      structure[i] := 1.0;
    }
    forall i | 0 <= i < |h| && Less(lastLow[i], prevLow[i]) && Less(lastHigh[i], prevHigh[i]) {
      structure[i] := -1.0;
    }
    assert structure[..] == Structure(h, l, n);
    r := Some(structure[..]);
  }
}
