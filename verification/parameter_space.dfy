/** Candidate vectors, grids and rounding: what is hashed against what is evaluated. */
module ParameterSpace {
  import opened IntegerArithmetic
  import opened RealArithmetic
  import opened Wrappers

  datatype ParamType = Continuous | Integer | Categorical

  datatype ParameterSpec = ParameterSpec(
    name: string, kind: ParamType, minVal: Option<real>, maxVal: Option<real>, step: Option<real>,
    choices: Option<seq<string>>)

  datatype Value = IntVal(i: int) | RealVal(x: real) | StrVal(s: string)

  // ----- rounding -----

  /** `int(x)`: towards zero. */
  function Trunc(x: real): int {
    if x >= 0.0 then x.Floor else -((-x).Floor)
  }

  /** Truncation drops the fraction, on either side of zero. */
  lemma TruncMeans(x: real)
    ensures x >= 0.0 ==> 0.0 <= Trunc(x) as real <= x < Trunc(x) as real + 1.0
    ensures x <= 0.0 ==> Trunc(x) as real - 1.0 < x <= Trunc(x) as real <= 0.0
  {
  }

  /** `round(x)`: to the nearest integer, halves to the even one. */
  function Round(x: real): int {
    var f := x.Floor;
    if x - f as real < 0.5 then f
    else if x - f as real > 0.5 then f + 1
    else if f % 2 == 0 then f else f + 1
  }

  /** Rounding gives the one integer nearer than a half, or the even one of two at a half. */
  lemma {:induction false} RoundMeans(x: real, n: int)
    ensures n == Round(x) <==>
      -0.5 < n as real - x < 0.5 || ((n as real - x == 0.5 || n as real - x == -0.5) && n % 2 == 0)
  {
    var f := x.Floor;
    if n <= f - 1 {
      assert n as real <= f as real - 1.0;
    } else if n >= f + 2 {
      assert n as real >= f as real + 2.0;
    }
  }

  lemma RoundNearest(x: real)
    ensures -0.5 <= Round(x) as real - x <= 0.5
    ensures x == x.Floor as real ==> Round(x) == x.Floor
  {
  }

  lemma RoundMonotone(x: real, y: real)
    requires x <= y
    ensures Round(x) <= Round(y)
  {
  }

  /** `round(k / step)` for integers. */
  function RoundDiv(k: int, step: int): int
    requires step >= 1
  {
    Round(k as real / step as real)
  }

  /** The rounded quotient, without reals: up past the half, and on the half to the even side. */
  lemma {:induction false} RoundDivMeans(k: int, step: int)
    requires step >= 1
    ensures RoundDiv(k, step) == if 2 * (k % step) < step || (2 * (k % step) == step && k / step % 2 == 0)
      then k / step else k / step + 1
  {
    var q, r, s := k / step, k % step, step as real;
    var x, frac := k as real / s, r as real / s;
    FractionSize(r, step);
    assert x == q as real + frac;
    assert x.Floor == q;
  }

  lemma {:induction false} FractionSize(r: int, step: int)
    requires 0 <= r < step
    ensures var f := r as real / step as real;
      0.0 <= f < 1.0 && (2 * r < step <==> f < 0.5) && (2 * r == step <==> f == 0.5)
  {
    var f, s := r as real / step as real, step as real;
    assert f * s == r as real;
    CompareScaled(f, 0.0, s);
    CompareScaled(f, 0.5, s);
    CompareScaled(f, 1.0, s);
  }

  // ----- one parameter -----

  predicate HasStep(spec: ParameterSpec) {
    spec.step.Some? && spec.step.value > 0.0
  }

  function Base(spec: ParameterSpec): int {
    if spec.minVal.Some? then Trunc(spec.minVal.value) else 0
  }

  /** Both rounding stages of an integer parameter; a step below one is a division by zero. */
  function GridInteger(v: real, spec: ParameterSpec): Option<int> {
    var rounded := Round(v);
    if !HasStep(spec) then Some(rounded)
    else
      var step := Trunc(spec.step.value);
      if step < 1 then None
      else Some(Base(spec) + RoundDiv(rounded - Base(spec), step) * step)
  }

  /** `np.clip(v, 0, n - 1)`; the upper bound wins when there are no choices. */
  function ClippedIndex(v: real, n: nat): int {
    var low := if v >= 0.0 then v else 0.0;
    Round(if low <= (n - 1) as real then low else (n - 1) as real)
  }

  function Choices(spec: ParameterSpec): seq<string> {
    if spec.choices.Some? then spec.choices.value else []
  }

  /** One entry of `decode_candidate`; None where it raises. */
  function DecodeValue(v: real, spec: ParameterSpec): Option<Value> {
    match spec.kind
    case Integer =>
      var g := GridInteger(v, spec);
      if g.None? then None else Some(IntVal(g.value))
    case Categorical =>
      if Choices(spec) == [] then None else
        Some(StrVal(Choices(spec)[ClippedIndex(v, |Choices(spec)|)]))
    case Continuous => Some(RealVal(v))
  }

  function ClampInt(n: int, spec: ParameterSpec): int {
    var m := if spec.minVal.Some? && n < Trunc(spec.minVal.value) then Trunc(spec.minVal.value) else n;
    if spec.maxVal.Some? && m > Trunc(spec.maxVal.value) then Trunc(spec.maxVal.value) else m
  }

  function ClampReal(x: real, spec: ParameterSpec): real {
    var y := if spec.minVal.Some? && x < spec.minVal.value then spec.minVal.value else x;
    if spec.maxVal.Some? && y > spec.maxVal.value then spec.maxVal.value else y
  }

  function GridReal(v: real, spec: ParameterSpec): real {
    if HasStep(spec) then Round(v / spec.step.value) as real * spec.step.value else v
  }

  /** `snap_to_grid`; None where it raises. */
  function Snap(v: real, spec: ParameterSpec): Option<Value> {
    match spec.kind
    case Integer =>
      var g := GridInteger(v, spec);
      if g.None? then None else Some(IntVal(ClampInt(g.value, spec)))
    case Continuous => Some(RealVal(ClampReal(GridReal(v, spec), spec)))
    case Categorical =>
      if Choices(spec) == [] then Some(StrVal("-1")) else
        Some(StrVal(Choices(spec)[ClippedIndex(v, |Choices(spec)|)]))
  }

  predicate InBounds(v: real, spec: ParameterSpec) {
    && (spec.minVal.Some? ==> spec.minVal.value <= v)
    && (spec.maxVal.Some? ==> v <= spec.maxVal.value)
  }

  /** An integer parameter as the strategies write it: integer bounds and a whole step. */
  predicate WholeGrid(spec: ParameterSpec, lo: int, hi: int, step: int) {
    && spec.kind == Integer && lo <= hi && step >= 1
    && spec.minVal == Some(lo as real) && spec.maxVal == Some(hi as real) && spec.step == Some(step as real)
  }

  lemma TruncWhole(n: int)
    ensures Trunc(n as real) == n
  {
  }

  lemma WholeGridDecode(v: real, spec: ParameterSpec, lo: int, hi: int, step: int)
    requires WholeGrid(spec, lo, hi, step)
    ensures GridInteger(v, spec) == Some(lo + RoundDiv(Round(v) - lo, step) * step)
    ensures DecodeValue(v, spec) == Some(IntVal(lo + RoundDiv(Round(v) - lo, step) * step))
    ensures Snap(v, spec) == Some(IntVal(ClampInt(lo + RoundDiv(Round(v) - lo, step) * step, spec)))
  {
  }

  /** An in-bounds value never rounds below the grid, and at most to the rounded upper bound. */
  lemma {:induction false} WholeGridRange(v: real, lo: int, hi: int, step: int)
    requires lo <= hi && step >= 1 && lo as real <= v <= hi as real
    ensures 0 <= RoundDiv(Round(v) - lo, step) <= RoundDiv(hi - lo, step)
  {
    RoundMonotone(lo as real, v);
    RoundMonotone(v, hi as real);
    RoundNearest(lo as real);
    RoundNearest(hi as real);
    RoundDivMonotone(0, Round(v) - lo, step);
    RoundDivMonotone(Round(v) - lo, hi - lo, step);
    RoundDivMeans(0, step);
  }

  lemma {:induction false} RoundDivMonotone(a: int, b: int, step: int)
    requires step >= 1 && a <= b
    ensures RoundDiv(a, step) <= RoundDiv(b, step)
  {
    var x, y := a as real / step as real, b as real / step as real;
    RealArithmetic.DivMonotone(a as real, b as real, step as real);
    RoundMonotone(x, y);
  }

  /** Rounding to the grid moves an integer by at most half a step. */
  lemma {:induction false} RoundDivNear(k: int, step: int)
    requires step >= 1
    ensures -step <= 2 * (RoundDiv(k, step) * step - k) <= step
  {
    RoundDivMeans(k, step);
    var q, r := k / step, k % step;
    assert k == q * step + r;
    assert (q + 1) * step == q * step + step;
  }

  lemma {:induction false} RoundDivExact(m: int, step: int)
    requires step >= 1
    ensures RoundDiv(m * step, step) == m
  {
    ExactQuotient((m * step) as real, step as real, m as real);
  }

  // ----- integers: hashed against evaluated -----

  /** The step is below one, so that both functions divide by zero. */
  predicate StepRaises(spec: ParameterSpec) {
    HasStep(spec) && Trunc(spec.step.value) < 1
  }

  predicate NoValue(spec: ParameterSpec) {
    spec.minVal.Some? && spec.maxVal.Some? && spec.minVal.value > spec.maxVal.value
  }

  /** Rounding a bound to the grid does not leave the integers that snapping clamps to. */
  predicate EndsFit(spec: ParameterSpec)
    requires !StepRaises(spec)
  {
    && (spec.minVal.Some? ==> Trunc(spec.minVal.value) <= GridInteger(spec.minVal.value, spec).value)
    && (spec.maxVal.Some? ==> GridInteger(spec.maxVal.value, spec).value <= Trunc(spec.maxVal.value))
  }

  lemma {:induction false} GridIntegerMonotone(v: real, w: real, spec: ParameterSpec)
    requires v <= w && !StepRaises(spec)
    ensures GridInteger(v, spec).value <= GridInteger(w, spec).value
  {
    hide Round, RoundDiv;
    RoundMonotone(v, w);
    if HasStep(spec) {
      var step := Trunc(spec.step.value);
      var a, b := Round(v) - Base(spec), Round(w) - Base(spec);
      RoundDivMonotone(a, b, step);
      assert (RoundDiv(b, step) - RoundDiv(a, step)) * step == RoundDiv(b, step) * step - RoundDiv(a, step) * step;
    }
  }

  lemma TruncMonotone(x: real, y: real)
    requires x <= y
    ensures Trunc(x) <= Trunc(y)
  {
  }

  ghost predicate AgreeInBounds(spec: ParameterSpec) {
    forall v | InBounds(v, spec) :: Snap(v, spec) == DecodeValue(v, spec)
  }

  /** For any integer parameter, with or without a step, with whole, fractional or missing
      bounds: `snap_to_grid` and `decode_candidate` give the same for every in-bounds value if
      and only if the two bounds round to the grid without leaving it (or no value is in bounds,
      or both raise). */
  lemma {:induction false} IntegerAgreement(spec: ParameterSpec)
    requires spec.kind == Integer
    ensures AgreeInBounds(spec) <==> StepRaises(spec) || NoValue(spec) || EndsFit(spec)
  {
    hide GridInteger, Trunc;
    if !StepRaises(spec) && !NoValue(spec) {
      GridIntegerDefined(spec);
      if EndsFit(spec) {
        forall v | InBounds(v, spec)
          ensures Snap(v, spec) == DecodeValue(v, spec)
        {
          FitsBetween(v, spec);
        }
      } else {
        EndsDisagree(spec);
      }
    } else if StepRaises(spec) {
      NeverDefined(spec);
    }
  }

  lemma GridIntegerDefined(spec: ParameterSpec)
    requires !StepRaises(spec)
    ensures forall v :: GridInteger(v, spec).Some?
  {
  }

  lemma NeverDefined(spec: ParameterSpec)
    requires StepRaises(spec)
    ensures forall v :: GridInteger(v, spec).None?
  {
  }

  lemma {:induction false} FitsBetween(v: real, spec: ParameterSpec)
    requires spec.kind == Integer && !StepRaises(spec) && EndsFit(spec) && InBounds(v, spec)
    ensures Snap(v, spec) == DecodeValue(v, spec)
  {
    hide GridInteger, Trunc;
    if spec.minVal.Some? {
      GridIntegerMonotone(spec.minVal.value, v, spec);
    }
    if spec.maxVal.Some? {
      GridIntegerMonotone(v, spec.maxVal.value, spec);
    }
  }

  lemma {:induction false} EndsDisagree(spec: ParameterSpec)
    requires spec.kind == Integer && !StepRaises(spec) && !NoValue(spec) && !EndsFit(spec)
    ensures !AgreeInBounds(spec)
  {
    hide GridInteger, Trunc;
    GridIntegerDefined(spec);
    if spec.minVal.Some? && spec.maxVal.Some? {
      TruncMonotone(spec.minVal.value, spec.maxVal.value);
    }
    if spec.minVal.Some? && GridInteger(spec.minVal.value, spec).value < Trunc(spec.minVal.value) {
      assert InBounds(spec.minVal.value, spec);
    } else {
      assert InBounds(spec.maxVal.value, spec);
    }
  }

  /** Without a step, whole bounds always fit: the source's default parameter agrees. */
  lemma {:induction false} StepFreeAgreement(spec: ParameterSpec, lo: int, hi: int)
    requires spec.kind == Integer && !HasStep(spec)
    requires spec.minVal == Some(lo as real) && spec.maxVal == Some(hi as real)
    ensures AgreeInBounds(spec)
  {
    TruncWhole(lo);
    TruncWhole(hi);
    RoundNearest(lo as real);
    RoundNearest(hi as real);
    IntegerAgreement(spec);
  }

  /** The condition on a whole grid: rounding the upper bound does not leave the bounds. */
  predicate UpperBoundRoundsDown(lo: int, hi: int, step: int)
    requires step >= 1
  {
    var r := (hi - lo) % step;
    2 * r < step || (2 * r == step && (hi - lo) / step % 2 == 0)
  }

  /** On a whole grid the condition is that the remainder of the range rounds down; in
      particular when the step divides the range. */
  lemma {:induction false} WholeGridAgreement(spec: ParameterSpec, lo: int, hi: int, step: int)
    requires WholeGrid(spec, lo, hi, step)
    ensures AgreeInBounds(spec) <==> UpperBoundRoundsDown(lo, hi, step)
    ensures (hi - lo) % step == 0 ==> UpperBoundRoundsDown(lo, hi, step)
  {
    hide RoundDiv, Round, UpperBoundRoundsDown, GridInteger, AgreeInBounds;
    IntegerAgreement(spec);
    WholeGridDecode(lo as real, spec, lo, hi, step);
    WholeGridDecode(hi as real, spec, lo, hi, step);
    RoundNearest(lo as real);
    RoundNearest(hi as real);
    RoundDivExact(0, step);
    PastTheEnd(lo, hi, step);
    TruncWhole(lo);
    TruncWhole(hi);
    TruncWhole(step);
    DividedRoundsDown(lo, hi, step);
  }

  lemma DividedRoundsDown(lo: int, hi: int, step: int)
    requires step >= 1
    ensures (hi - lo) % step == 0 ==> UpperBoundRoundsDown(lo, hi, step)
  {
  }

  lemma {:induction false} PastTheEnd(lo: int, hi: int, step: int)
    requires lo <= hi && step >= 1
    ensures UpperBoundRoundsDown(lo, hi, step) <==> lo + RoundDiv(hi - lo, step) * step <= hi
  {
    RoundDivMeans(hi - lo, step);
    var q, r := (hi - lo) / step, (hi - lo) % step;
    assert hi - lo == q * step + r;
    assert (q + 1) * step == q * step + step;
  }

  lemma {:induction false} AgreeBelow(v: real, spec: ParameterSpec, lo: int, hi: int, step: int)
    requires WholeGrid(spec, lo, hi, step) && InBounds(v, spec) && UpperBoundRoundsDown(lo, hi, step)
    ensures Snap(v, spec) == DecodeValue(v, spec)
    ensures DecodeValue(v, spec).Some? && DecodeValue(v, spec).value.IntVal?
    ensures lo <= DecodeValue(v, spec).value.i <= hi
  {
    hide RoundDiv, Round, UpperBoundRoundsDown, GridInteger;
    WholeGridDecode(v, spec, lo, hi, step);
    WholeGridRange(v, lo, hi, step);
    PastTheEnd(lo, hi, step);
    TruncWhole(lo);
    TruncWhole(hi);
  }

  /** On a grid that ends at the upper bound, snapping stays in bounds and on the grid, moves
      the value by at most (step + 1) / 2, and both it and decoding fix what was snapped. */
  lemma {:induction false} IntegerSnap(v: real, spec: ParameterSpec, lo: int, hi: int, step: int)
    requires WholeGrid(spec, lo, hi, step) && UpperBoundRoundsDown(lo, hi, step) && InBounds(v, spec)
    ensures exists n: int ::
      && Snap(v, spec) == Some(IntVal(n))
      && lo <= n <= hi && (n - lo) % step == 0
      && -((step + 1) as real) <= 2.0 * (n as real - v) <= (step + 1) as real
      && Snap(n as real, spec) == Some(IntVal(n)) == DecodeValue(n as real, spec)
  {
    hide RoundDiv, Round, UpperBoundRoundsDown, GridInteger, Snap, DecodeValue, InBounds;
    var m := RoundDiv(Round(v) - lo, step);
    var n := lo + m * step;
    AgreeBelow(v, spec, lo, hi, step);
    WholeGridDecode(v, spec, lo, hi, step);
    SnapMoves(v, lo, step);
    Multiple(m, step);
    GridPointFixed(m, n, spec, lo, hi, step);
  }

  lemma {:induction false} SnapMoves(v: real, lo: int, step: int)
    requires step >= 1
    ensures var n := lo + RoundDiv(Round(v) - lo, step) * step;
      -((step + 1) as real) <= 2.0 * (n as real - v) <= (step + 1) as real
  {
    hide RoundDiv, Round;
    RoundNearest(v);
    RoundDivNear(Round(v) - lo, step);
  }

  lemma {:induction false} GridPointFixed(m: int, n: int, spec: ParameterSpec, lo: int, hi: int, step: int)
    requires WholeGrid(spec, lo, hi, step) && UpperBoundRoundsDown(lo, hi, step)
    requires n == lo + m * step && lo <= n <= hi
    ensures Snap(n as real, spec) == Some(IntVal(n)) == DecodeValue(n as real, spec)
  {
    hide RoundDiv, Round, UpperBoundRoundsDown, GridInteger;
    RoundNearest(n as real);
    RoundDivExact(m, step);
    WholeGridDecode(n as real, spec, lo, hi, step);
    AgreeBelow(n as real, spec, lo, hi, step);
  }

  lemma {:induction false} Multiple(m: int, step: int)
    requires step >= 1
    ensures m * step % step == 0
  {
    DivUnique(m * step, step, m);
  }

  // ----- the other kinds -----

  /** Categorical parameters with choices are snapped and decoded alike, for any value; without
      choices decoding raises and snapping invents the name "-1". */
  lemma CategoricalAgreement(v: real, spec: ParameterSpec)
    requires spec.kind == Categorical
    ensures Snap(v, spec) == DecodeValue(v, spec) <==> |Choices(spec)| > 0
    ensures DecodeValue(v, spec).Some? ==>
      DecodeValue(v, spec).value.StrVal? && DecodeValue(v, spec).value.s in Choices(spec)
  {
  }

  /** The bounds leave room for two different values. */
  predicate Roomy(spec: ParameterSpec) {
    spec.minVal.Some? && spec.maxVal.Some? ==> spec.minVal.value < spec.maxVal.value
  }

  /** A continuous parameter is evaluated as it is and hashed on its grid: the two agree on all
      in-bounds values if and only if there is no step, or at most one value is in bounds. */
  lemma {:induction false} ContinuousAgreement(spec: ParameterSpec)
    requires spec.kind == Continuous
    ensures AgreeInBounds(spec) <==> !HasStep(spec) || !Roomy(spec)
  {
    if HasStep(spec) && Roomy(spec) {
      var lo := if spec.minVal.Some? then spec.minVal.value
      else if spec.maxVal.Some? then spec.maxVal.value - 1.0 else 0.0;
      var hi := if spec.maxVal.Some? then spec.maxVal.value else lo + 1.0;
      var v := BetweenGridPoints(lo, hi, spec.step.value);
      assert GridReal(v, spec) != v;
      assert InBounds(v, spec);
    } else if HasStep(spec) {
      hide GridReal;
    }
  }

  /** Every interval holds a value that its grid rounds away. */
  lemma {:induction false} BetweenGridPoints(lo: real, hi: real, step: real) returns (v: real)
    requires lo < hi && step > 0.0
    ensures lo < v < hi && Round(v / step) as real * step != v
  {
    hide Round;
    var mid := (lo + hi) / 2.0;
    if Round(mid / step) as real * step != mid {
      return mid;
    }
    var quarter, half := (hi - lo) / 4.0, step / 2.0;
    v := mid + if quarter < half then quarter else half;
    var m, n := Round(mid / step), Round(v / step);
    if n as real * step == v {
      NoGridPointBetween(m, n, step, v);
    }
  }

  lemma {:induction false} NoGridPointBetween(m: int, n: int, step: real, v: real)
    requires step > 0.0 && m as real * step < v < m as real * step + step
    ensures n as real * step != v
  {
    if n <= m {
      CompareScaled(n as real, m as real, step);
    } else {
      assert (m + 1) as real * step == m as real * step + step;
      CompareScaled((m + 1) as real, n as real, step);
    }
  }

  // ----- what decoding and snapping give -----

  /** A decoded integer: the rounded value, or on a grid of whole steps from the truncated lower
      bound a point within half a step of it. A positive step below one raises. */
  lemma {:induction false} IntegerDecodeMeans(v: real, spec: ParameterSpec)
    requires spec.kind == Integer
    ensures DecodeValue(v, spec).None? <==> spec.step.Some? && 0.0 < spec.step.value < 1.0
    ensures DecodeValue(v, spec).Some? ==> DecodeValue(v, spec).value.IntVal?
    ensures DecodeValue(v, spec).Some? && (spec.step.None? || spec.step.value <= 0.0) ==>
      DecodeValue(v, spec).value.i == Round(v)
    ensures DecodeValue(v, spec).Some? && spec.step.Some? && spec.step.value >= 1.0 ==>
      var n, step := DecodeValue(v, spec).value.i, spec.step.value.Floor;
      && (n - (if spec.minVal.Some? then Trunc(spec.minVal.value) else 0)) % step == 0
      && -step <= 2 * (n - Round(v)) <= step
  {
    hide Round, RoundDiv;
    if spec.step.Some? && spec.step.value >= 1.0 {
      var k, step := Round(v) - Base(spec), spec.step.value.Floor;
      assert Trunc(spec.step.value) == step;
      RoundDivNear(k, step);
      Multiple(RoundDiv(k, step), step);
    }
  }

  /** `to` is `from` moved into the bounds; the upper one wins when they cross. */
  predicate Clamped(from: real, to: real, lo: Option<real>, hi: Option<real>) {
    && (hi.Some? ==> to <= hi.value)
    && (lo.Some? && (hi.None? || lo.value <= hi.value) ==> to >= lo.value)
    && (to > from ==> lo.Some? && to <= lo.value)
    && (to < from ==> hi.Some? && to == hi.value)
    && (lo.Some? && hi.Some? && lo.value > hi.value ==> to == hi.value)
  }

  function Whole(bound: Option<real>): Option<real> {
    if bound.Some? then Some(Trunc(bound.value) as real) else None
  }

  /** A snapped integer is the decoded one, moved into the truncated bounds. */
  lemma {:induction false} IntegerSnapMeans(v: real, spec: ParameterSpec)
    requires spec.kind == Integer
    ensures Snap(v, spec).Some? <==> DecodeValue(v, spec).Some?
    ensures Snap(v, spec).Some? ==>
      && Snap(v, spec).value.IntVal? && DecodeValue(v, spec).value.IntVal?
      && Clamped(DecodeValue(v, spec).value.i as real, Snap(v, spec).value.i as real,
                 Whole(spec.minVal), Whole(spec.maxVal))
  {
    hide GridInteger, Trunc;
  }

  /** A snapped continuous value is a nearest multiple of the step, moved into the bounds; a
      decoded one is left as it is. */
  lemma {:induction false} ContinuousSnapMeans(v: real, spec: ParameterSpec) returns (near: real, k: int)
    requires spec.kind == Continuous
    ensures DecodeValue(v, spec) == Some(RealVal(v))
    ensures if spec.step.Some? && spec.step.value > 0.0 then
        && near == k as real * spec.step.value
        && var off := k as real - v / spec.step.value;
        && -0.5 <= off <= 0.5 && (off == 0.5 || off == -0.5 ==> k % 2 == 0)
      else
        near == v
    ensures Snap(v, spec).Some? && Snap(v, spec).value.RealVal?
    ensures Clamped(near, Snap(v, spec).value.x, spec.minVal, spec.maxVal)
  {
    near, k := GridReal(v, spec), 0;
    if HasStep(spec) {
      hide Round;
      var step := spec.step.value;
      k := Round(v / step);
      RoundNearest(v / step);
      RoundMeans(v / step, k);
    }
  }

  /** A categorical value picks the choice at the rounded value, or the first or last one beyond
      them. */
  lemma {:induction false} CategoricalDecodeMeans(v: real, spec: ParameterSpec)
    requires spec.kind == Categorical
    ensures DecodeValue(v, spec).None? <==> Choices(spec) == []
    ensures Choices(spec) == [] ==> Snap(v, spec) == Some(StrVal("-1"))
    ensures Choices(spec) != [] ==>
      var n := |Choices(spec)|;
      var i := if v <= 0.0 then 0 else if v >= (n - 1) as real then n - 1 else Round(v);
      0 <= i < n && DecodeValue(v, spec) == Some(StrVal(Choices(spec)[i])) == Snap(v, spec)
  {
    hide Round;
    RoundNearest(0.0);
    var n := |Choices(spec)|;
    if n > 0 {
      RoundNearest((n - 1) as real);
      if 0.0 < v < (n - 1) as real {
        RoundMonotone(0.0, v);
        RoundMonotone(v, (n - 1) as real);
      }
    }
  }

  // ----- whole candidates -----

  function Names(space: seq<ParameterSpec>): set<string> {
    set p | p in space :: p.name
  }

  /** The dictionary built so far; a raise anywhere is a raise. */
  function Decoded(candidate: seq<real>, space: seq<ParameterSpec>): Option<map<string, Value>> {
    if |space| == 0 then Some(map[]) else
      var n := |space| - 1;
      var init := Decoded(candidate, space[..n]);
      if init.None? || n >= |candidate| || DecodeValue(candidate[n], space[n]).None? then None
      else Some(init.value[space[n].name := DecodeValue(candidate[n], space[n]).value])
  }

  /** `decode_candidate`. */
  method DecodeCandidate(candidate: seq<real>, space: seq<ParameterSpec>) returns (r: Option<map<string, Value>>)
    ensures r == Decoded(candidate, space)
  {
    var result := map[];
    for i := 0 to |space|
      invariant Decoded(candidate, space[..i]) == Some(result)
    {
      assert space[..i + 1][..i] == space[..i];
      if i >= |candidate| {
        DecodedRaises(candidate, space, i + 1);
        return None;
      }
      var val := DecodeValue(candidate[i], space[i]);
      if val.None? {
        DecodedRaises(candidate, space, i + 1);
        return None;
      }
      result := result[space[i].name := val.value];
    }
    assert space[..|space|] == space;
    r := Some(result);
  }

  lemma {:induction false} DecodedRaises(candidate: seq<real>, space: seq<ParameterSpec>, n: nat)
    requires n <= |space| && Decoded(candidate, space[..n]).None?
    ensures Decoded(candidate, space).None?
    decreases |space|
  {
    if n < |space| {
      assert space[..|space| - 1][..n] == space[..n];
      DecodedRaises(candidate, space[..|space| - 1], n);
    } else {
      assert space[..n] == space;
    }
  }

  /** Decoding raises exactly when the candidate is too short or an entry raises. */
  lemma {:induction false} DecodedIff(candidate: seq<real>, space: seq<ParameterSpec>)
    ensures Decoded(candidate, space).None? <==>
      |candidate| < |space| || exists i | 0 <= i < |space| :: DecodeValue(candidate[i], space[i]).None?
    ensures Decoded(candidate, space).Some? ==> Decoded(candidate, space).value.Keys == Names(space)
  {
    hide DecodeValue;
    if |space| == 0 {
    } else {
      DecodedIff(candidate, space[..|space| - 1]);
      assert space == space[..|space| - 1] + [space[|space| - 1]];
    }
  }

  /** No later parameter has the name of this one. */
  predicate LastOfName(space: seq<ParameterSpec>, i: nat) {
    i < |space| && forall j | i < j < |space| :: space[j].name != space[i].name
  }

  /** Each name carries the decoded value of the last parameter of that name. */
  lemma {:induction false} DecodedLast(candidate: seq<real>, space: seq<ParameterSpec>, i: nat)
    requires LastOfName(space, i) && Decoded(candidate, space).Some?
    ensures i < |candidate| && DecodeValue(candidate[i], space[i]).Some?
    ensures space[i].name in Decoded(candidate, space).value
    ensures Decoded(candidate, space).value[space[i].name] == DecodeValue(candidate[i], space[i]).value
    decreases |space|
  {
    hide DecodeValue;
    var n := |space| - 1;
    if i >= n {
    } else {
      DecodedLast(candidate, space[..n], i);
    }
  }

  function IndexOf(s: string, choices: seq<string>): (i: nat)
    requires s in choices
    ensures i < |choices| && choices[i] == s && s !in choices[..i]
  {
    if choices[0] == s then 0 else
      assert choices[1..][..IndexOf(s, choices[1..])] == choices[1..IndexOf(s, choices[1..]) + 1];
      1 + IndexOf(s, choices[1..])
  }

  /** One entry of `encode_params`; None where `float(val)` raises. How Python reads a string as a
      number is a parameter. */
  function EncodeValue(val: Option<Value>, spec: ParameterSpec, float: string -> Option<real>): Option<real> {
    match val
    case None => Some(0.0)
    case Some(v) =>
      if spec.kind.Categorical? then
        Some(if v.StrVal? && v.s in Choices(spec) then IndexOf(v.s, Choices(spec)) as real else 0.0)
      else if v.StrVal? then float(v.s)
      else Number(v)
  }

  function Number(v: Value): Option<real> {
    match v
    case IntVal(i) => Some(i as real)
    case RealVal(x) => Some(x)
    case StrVal(_) => None
  }

  /** Equality of values: an integer equals the float of the same number. */
  predicate Same(a: Value, b: Value) {
    a == b || (Number(a).Some? && Number(a) == Number(b))
  }

  function Lookup(params: map<string, Value>, name: string): Option<Value> {
    if name in params then Some(params[name]) else None
  }

  /** A missing value and an unlisted choice are encoded as zero, a listed choice as its first
      index, a number as itself; only a string that is no number raises, outside categories. */
  lemma {:induction false} EncodeMeans(val: Option<Value>, spec: ParameterSpec, float: string -> Option<real>)
    ensures val.None? ==> EncodeValue(val, spec, float) == Some(0.0)
    ensures val.Some? && spec.kind != Categorical ==>
      EncodeValue(val, spec, float) == NumberOr(val.value, float)
    ensures val.Some? && spec.kind == Categorical && !Listed(val.value, spec) ==>
      EncodeValue(val, spec, float) == Some(0.0)
    ensures forall i: nat | val.Some? && spec.kind == Categorical && FirstChoice(val.value, spec, i) ::
      EncodeValue(val, spec, float) == Some(i as real)
  {
    forall i: nat | val.Some? && spec.kind == Categorical && FirstChoice(val.value, spec, i)
      ensures EncodeValue(val, spec, float) == Some(i as real)
    {
      var s, choices := val.value.s, spec.choices.value;
      var k := IndexOf(s, choices);
      assert forall j | 0 <= j < k :: choices[..k][j] != s;
    }
  }

  function NumberOr(v: Value, float: string -> Option<real>): Option<real> {
    match v
    case IntVal(i) => Some(i as real)
    case RealVal(x) => Some(x)
    case StrVal(s) => float(s)
  }

  predicate Listed(v: Value, spec: ParameterSpec) {
    v.StrVal? && spec.choices.Some? && v.s in spec.choices.value
  }

  predicate FirstChoice(v: Value, spec: ParameterSpec, i: nat) {
    v.StrVal? && spec.choices.Some? && i < |spec.choices.value| && spec.choices.value[i] == v.s
    && forall j | 0 <= j < i :: spec.choices.value[j] != v.s
  }

  /** The vector built so far; a raise anywhere is a raise. */
  function Encoded(
    params: map<string, Value>, space: seq<ParameterSpec>, float: string -> Option<real>): (r: Option<seq<real>>)
    ensures r.Some? ==> |r.value| == |space|
  {
    if |space| == 0 then Some([]) else
      var n := |space| - 1;
      var init, last := Encoded(params, space[..n], float), EncodeValue(Lookup(params, space[n].name), space[n], float);
      if init.None? || last.None? then None else Some(init.value + [last.value])
  }

  /** Encoding raises exactly when an entry does; else every position holds its entry. */
  lemma {:induction false} EncodedMeans(
    params: map<string, Value>, space: seq<ParameterSpec>, float: string -> Option<real>)
    ensures Encoded(params, space, float).None? <==>
      exists i | 0 <= i < |space| :: EncodeValue(Lookup(params, space[i].name), space[i], float).None?
    ensures Encoded(params, space, float).Some? ==>
      forall i | 0 <= i < |space| ::
        Some(Encoded(params, space, float).value[i]) == EncodeValue(Lookup(params, space[i].name), space[i], float)
  {
    hide EncodeValue, Lookup;
    if |space| == 0 {
    } else {
      var n := |space| - 1;
      EncodedMeans(params, space[..n], float);
      assert space == space[..n] + [space[n]];
    }
  }

  /** `encode_params`: a zero vector filled position by position. */
  method EncodeParams(params: map<string, Value>, space: seq<ParameterSpec>, float: string -> Option<real>)
    returns (raised: bool, vec: array<real>)
    ensures fresh(vec) && vec.Length == |space|
    ensures raised <==> Encoded(params, space, float).None?
    ensures !raised ==> Some(vec[..]) == Encoded(params, space, float)
  {
    raised, vec := false, new real[|space|](_ => 0.0);
    for i := 0 to |space|
      invariant Encoded(params, space[..i], float) == Some(vec[..i])
    {
      assert space[..i + 1][..i] == space[..i];
      var entry := EncodeValue(Lookup(params, space[i].name), space[i], float);
      if entry.None? {
        EncodedRaises(params, space, float, i + 1);
        raised := true;
        return;
      }
      vec[i] := entry.value;
      assert vec[..i + 1] == vec[..i] + [entry.value];
    }
    assert space[..|space|] == space && vec[..|space|] == vec[..];
  }

  lemma {:induction false} EncodedRaises(
    params: map<string, Value>, space: seq<ParameterSpec>, float: string -> Option<real>, n: nat)
    requires n <= |space| && Encoded(params, space[..n], float).None?
    ensures Encoded(params, space, float).None?
    decreases |space|
  {
    if n < |space| {
      assert space[..|space| - 1][..n] == space[..n];
      EncodedRaises(params, space[..|space| - 1], float, n);
    } else {
      assert space[..n] == space;
    }
  }

  /** A value its parameter can take: a whole number on the integer grid, a listed choice, any
      number. */
  predicate Admissible(val: Value, spec: ParameterSpec) {
    match spec.kind
    case Integer =>
      && Number(val).Some? && Number(val).value == Number(val).value.Floor as real
      && !StepRaises(spec)
      && (HasStep(spec) ==> (Number(val).value.Floor - Base(spec)) % Trunc(spec.step.value) == 0)
    case Categorical => val.StrVal? && val.s in Choices(spec)
    case Continuous => Number(val).Some?
  }

  /** Encoding and then decoding gives any value back if and only if its parameter can take it. */
  lemma {:induction false} ValueRoundTrip(val: Value, spec: ParameterSpec, float: string -> Option<real>)
    ensures var e := EncodeValue(Some(val), spec, float);
      Admissible(val, spec) <==>
        e.Some? && DecodeValue(e.value, spec).Some? && Same(DecodeValue(e.value, spec).value, val)
  {
    match spec.kind
    case Continuous =>
    case Categorical =>
      if val.StrVal? && val.s in Choices(spec) {
      } else {
        CategoricalAgreement(0.0, spec);
      }
    case Integer =>
      if Number(val).Some? {
        NumberRoundTrip(Number(val).value, spec);
      }
  }

  /** A number survives the integer grid exactly when it is a whole one on the grid. */
  lemma {:induction false} NumberRoundTrip(x: real, spec: ParameterSpec)
    ensures GridInteger(x, spec).Some? && GridInteger(x, spec).value as real == x <==>
      x == x.Floor as real && !StepRaises(spec)
      && (HasStep(spec) ==> (x.Floor - Base(spec)) % Trunc(spec.step.value) == 0)
  {
    hide Round, RoundDiv;
    RoundNearest(x);
    if HasStep(spec) && Trunc(spec.step.value) >= 1 && x == x.Floor as real {
      GridFixes(x.Floor - Base(spec), Trunc(spec.step.value));
    }
  }

  lemma {:induction false} GridFixes(k: int, step: int)
    requires step >= 1
    ensures RoundDiv(k, step) * step == k <==> k % step == 0
  {
    if k % step == 0 {
      assert k == k / step * step;
      RoundDivExact(k / step, step);
    } else {
      Multiple(RoundDiv(k, step), step);
    }
  }

  /** The dictionaries are equal as Python compares them. */
  predicate SameParams(a: map<string, Value>, b: map<string, Value>) {
    a.Keys == b.Keys && forall k | k in a :: Same(a[k], b[k])
  }

  /** Decoding undoes encoding, for every admissible setting of exactly the space's names. */
  lemma {:induction false} RoundTrip(
    params: map<string, Value>, space: seq<ParameterSpec>, float: string -> Option<real>)
    requires params.Keys == Names(space)
    requires forall p | p in space :: p.name in params && Admissible(params[p.name], p)
    ensures var vec := Encoded(params, space, float);
      vec.Some? && Decoded(vec.value, space).Some? && SameParams(Decoded(vec.value, space).value, params)
  {
    RoundTripPrefix(params, space, float);
  }

  lemma {:induction false} RoundTripPrefix(
    params: map<string, Value>, space: seq<ParameterSpec>, float: string -> Option<real>)
    requires forall p | p in space :: p.name in params && Admissible(params[p.name], p)
    ensures var vec := Encoded(params, space, float);
      && vec.Some? && Decoded(vec.value, space).Some?
      && var r := Decoded(vec.value, space).value;
      && r.Keys == Names(space) && forall k | k in r :: k in params && Same(r[k], params[k])
  {
    hide Admissible, Same, EncodeValue, DecodeValue;
    if |space| == 0 {
    } else {
      var n := |space| - 1;
      var p := space[n];
      RoundTripPrefix(params, space[..n], float);
      var vec := Encoded(params, space[..n], float).value;
      var e := EncodeOne(params, p, float);
      DecodedFrame(vec, vec + [e], space[..n]);
      assert space[..|space|] == space;
    }
  }

  lemma {:induction false} EncodeOne(params: map<string, Value>, p: ParameterSpec, float: string -> Option<real>)
    returns (e: real)
    requires p.name in params && Admissible(params[p.name], p)
    ensures EncodeValue(Lookup(params, p.name), p, float) == Some(e)
    ensures DecodeValue(e, p).Some? && Same(DecodeValue(e, p).value, params[p.name])
  {
    ValueRoundTrip(params[p.name], p, float);
    e := EncodeValue(Lookup(params, p.name), p, float).value;
  }

  /** Decoding looks at as many entries as there are parameters. */
  lemma {:induction false} DecodedFrame(a: seq<real>, b: seq<real>, space: seq<ParameterSpec>)
    requires |space| <= |a| <= |b| && a == b[..|a|]
    ensures Decoded(a, space) == Decoded(b, space)
  {
    hide DecodeValue;
    if |space| == 0 {
    } else {
      DecodedFrame(a, b, space[..|space| - 1]);
    }
  }

  // ----- the group key -----

  /** `extract_params_by_indices`: the snapped values of some positions. */
  function Extracted(candidate: seq<real>, space: seq<ParameterSpec>, indices: seq<nat>): Option<map<string, Value>> {
    if |indices| == 0 then Some(map[]) else
      var n := |indices| - 1;
      var init, i := Extracted(candidate, space, indices[..n]), indices[n];
      if init.None? || i >= |space| || i >= |candidate| || Snap(candidate[i], space[i]).None? then None
      else Some(init.value[space[i].name := Snap(candidate[i], space[i]).value])
  }

  method ExtractParamsByIndices(candidate: seq<real>, space: seq<ParameterSpec>, indices: seq<nat>)
    returns (r: Option<map<string, Value>>)
    ensures r == Extracted(candidate, space, indices)
  {
    var result := map[];
    for n := 0 to |indices|
      invariant Extracted(candidate, space, indices[..n]) == Some(result)
    {
      assert indices[..n + 1][..n] == indices[..n];
      var i := indices[n];
      if i >= |space| || i >= |candidate| || Snap(candidate[i], space[i]).None? {
        ExtractedRaises(candidate, space, indices, n + 1);
        return None;
      }
      result := result[space[i].name := Snap(candidate[i], space[i]).value];
    }
    assert indices[..|indices|] == indices;
    r := Some(result);
  }

  lemma {:induction false} ExtractedRaises(
    candidate: seq<real>, space: seq<ParameterSpec>, indices: seq<nat>, n: nat)
    requires n <= |indices| && Extracted(candidate, space, indices[..n]).None?
    ensures Extracted(candidate, space, indices).None?
    decreases |indices|
  {
    if n < |indices| {
      assert indices[..|indices| - 1][..n] == indices[..n];
      ExtractedRaises(candidate, space, indices[..|indices| - 1], n);
    } else {
      assert indices[..n] == indices;
    }
  }

  /** Extraction raises exactly when an index is out of range or its entry raises. */
  lemma {:induction false} ExtractedIff(candidate: seq<real>, space: seq<ParameterSpec>, indices: seq<nat>)
    ensures Extracted(candidate, space, indices).None? <==>
      exists i | i in indices :: i >= |space| || i >= |candidate| || Snap(candidate[i], space[i]).None?
    ensures Extracted(candidate, space, indices).Some? ==>
      Extracted(candidate, space, indices).value.Keys == set i | i in indices :: space[i].name
  {
    hide Snap;
    if |indices| == 0 {
    } else {
      var n := |indices| - 1;
      ExtractedIff(candidate, space, indices[..n]);
      assert indices == indices[..n] + [indices[n]];
      assert forall i :: i in indices <==> i in indices[..n] || i == indices[n];
    }
  }

  /** No later index refers to a parameter of this name. */
  predicate LastIndexOfName(space: seq<ParameterSpec>, indices: seq<nat>, k: nat) {
    && k < |indices| && indices[k] < |space|
    && forall j | k < j < |indices| && indices[j] < |space| :: space[indices[j]].name != space[indices[k]].name
  }

  /** Each name carries the snapped value of the last index of that name. */
  lemma {:induction false} ExtractedLast(candidate: seq<real>, space: seq<ParameterSpec>, indices: seq<nat>, k: nat)
    requires LastIndexOfName(space, indices, k) && Extracted(candidate, space, indices).Some?
    ensures var i := indices[k];
      && i < |candidate| && Snap(candidate[i], space[i]).Some?
      && space[i].name in Extracted(candidate, space, indices).value
      && Extracted(candidate, space, indices).value[space[i].name] == Snap(candidate[i], space[i]).value
    decreases |indices|
  {
    hide Snap;
    var n := |indices| - 1;
    if k >= n {
    } else {
      ExtractedLast(candidate, space, indices[..n], k);
    }
  }

  predicate DistinctNames(space: seq<ParameterSpec>) {
    forall i, j | 0 <= i < j < |space| :: space[i].name != space[j].name
  }

  /** A parameter whose specification lets its hashed and evaluated values agree. */
  predicate HashedAsEvaluated(spec: ParameterSpec) {
    match spec.kind
    case Integer => !StepRaises(spec) && EndsFit(spec)
    case Categorical => |Choices(spec)| > 0
    case Continuous => !HasStep(spec) || !Roomy(spec)
  }

  lemma {:induction false} AgreementOfKind(v: real, spec: ParameterSpec)
    requires HashedAsEvaluated(spec) && InBounds(v, spec)
    ensures Snap(v, spec) == DecodeValue(v, spec) && Snap(v, spec).Some?
  {
    hide Snap, DecodeValue, EndsFit, Roomy;
    match spec.kind
    case Integer =>
      IntegerAgreement(spec);
      IntegerDecodes(v, spec);
    case Categorical =>
      CategoricalAgreement(v, spec);
      ChoiceDecodes(v, spec);
    case Continuous =>
      ContinuousAgreement(spec);
      ContinuousDecodes(v, spec);
  }

  lemma IntegerDecodes(v: real, spec: ParameterSpec)
    requires spec.kind == Integer && !StepRaises(spec)
    ensures DecodeValue(v, spec).Some?
  {
  }

  lemma ChoiceDecodes(v: real, spec: ParameterSpec)
    requires spec.kind == Categorical && |Choices(spec)| > 0
    ensures DecodeValue(v, spec).Some?
  {
  }

  lemma ContinuousDecodes(v: real, spec: ParameterSpec)
    requires spec.kind == Continuous
    ensures DecodeValue(v, spec).Some?
  {
  }

  /** What is hashed is what is evaluated: on in-bounds values of such parameters, the extracted
      dictionary is the decoded one restricted to the extracted names. */
  lemma {:induction false} KeyMatchesEvaluation(candidate: seq<real>, space: seq<ParameterSpec>, indices: seq<nat>)
    requires DistinctNames(space) && |candidate| == |space| && Decoded(candidate, space).Some?
    requires forall i | i in indices :: i < |space| && HashedAsEvaluated(space[i]) && InBounds(candidate[i], space[i])
    ensures var key := Extracted(candidate, space, indices);
      && key.Some?
      && key.value.Keys == (set i | i in indices :: space[i].name)
      && forall name | name in key.value ::
        name in Decoded(candidate, space).value && key.value[name] == Decoded(candidate, space).value[name]
  {
    hide Snap, DecodeValue, DistinctNames, HashedAsEvaluated, InBounds;
    if |indices| == 0 {
    } else {
      var n := |indices| - 1;
      var i := indices[n];
      assert i in indices && forall j | j in indices[..n] :: j in indices;
      KeyMatchesEvaluation(candidate, space, indices[..n]);
      AgreementOfKind(candidate[i], space[i]);
      DecodedEntry(candidate, space, i);
      assert indices == indices[..n] + [i];
    }
  }

  /** With distinct names, every position's value is in the decoded dictionary. */
  lemma {:induction false} DecodedEntry(candidate: seq<real>, space: seq<ParameterSpec>, i: nat)
    requires DistinctNames(space) && i < |space| && Decoded(candidate, space).Some?
    ensures i < |candidate| && DecodeValue(candidate[i], space[i]).Some?
    ensures space[i].name in Decoded(candidate, space).value
    ensures Decoded(candidate, space).value[space[i].name] == DecodeValue(candidate[i], space[i]).value
  {
    DecodedLast(candidate, space, i);
  }
}
