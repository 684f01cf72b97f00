/** Splitting a batch over the branches of a conditional parameter. */
module BranchBudget {
  import opened RealArithmetic

  /** A UCB1 score never weighs less than this. */
  const FLOOR_WEIGHT := 0.01

  function Weight(score: real): real {
    if score >= FLOOR_WEIGHT then score else FLOOR_WEIGHT
  }

  function TotalWeight(scores: seq<real>): real {
    if |scores| == 0 then 0.0 else TotalWeight(scores[..|scores| - 1]) + Weight(scores[|scores| - 1])
  }

  function Sum(xs: seq<int>): int {
    if |xs| == 0 then 0 else Sum(xs[..|xs| - 1]) + xs[|xs| - 1]
  }

  /** The exact part of the batch that a weight earns. */
  function Quota(totalBatch: int, weight: real, totalWeight: real): real
    requires totalWeight > 0.0
  {
    totalBatch as real * weight / totalWeight
  }

  function Share(totalBatch: int, score: real, totalWeight: real): (share: int)
    requires totalWeight > 0.0
    ensures share >= 1
  {
    var share := Quota(totalBatch, Weight(score), totalWeight).Floor;
    if share >= 1 then share else 1
  }

  /** The branches in dictionary order, with their visit counts; scoring is a parameter. */
  class BranchManager {
    var visitCounts: seq<nat>

    constructor (n: nat)
      requires n >= 1
      ensures visitCounts == seq(n, _ => 0)
    {
      visitCounts := seq(n, _ => 0);
    }

    /** `tell_all`, as far as the budget looks at it: every known branch among the keys of the
        results counts one visit more. */
    method TellAll(told: seq<nat>)
      requires forall i, j | 0 <= i < j < |told| :: told[i] != told[j]
      modifies this
      ensures |visitCounts| == |old(visitCounts)|
      ensures forall b | 0 <= b < |visitCounts| ::
        visitCounts[b] == old(visitCounts)[b] + if b in told then 1 else 0
      ensures (forall b: nat | b < |visitCounts| :: b in told) ==> 0 !in visitCounts
    {
      for i := 0 to |told|
        invariant |visitCounts| == |old(visitCounts)|
        invariant forall b | 0 <= b < |visitCounts| ::
          visitCounts[b] == old(visitCounts)[b] + if b in told[..i] then 1 else 0
      {
        assert told[..i + 1] == told[..i] + [told[i]];
        if told[i] < |visitCounts| {
          visitCounts := visitCounts[told[i] := visitCounts[told[i]] + 1];
        }
      }
      assert told[..|told|] == told;
    }

    /** `allocate_budget`, for arbitrary real UCB scores. */
    method AllocateBudget(totalBatch: int, ucb: seq<real>) returns (alloc: seq<int>)
      requires 1 <= |visitCounts| == |ucb|
      ensures |alloc| == |ucb|
      ensures |ucb| == 1 ==> alloc == [totalBatch]
      ensures |ucb| > 1 && 0 in visitCounts ==> alloc == EvenSplit(totalBatch, |ucb|)
      ensures |ucb| > 1 && 0 !in visitCounts ==> alloc == UcbSplit(totalBatch, ucb)
    {
      var n := |visitCounts|;
      if n == 1 {
        return [totalBatch];
      }
      if 0 in visitCounts {
        var perBranch := totalBatch / n;
        var remainder := totalBatch - perBranch * n;
        alloc := seq(n, _ => perBranch);
        for i := 0 to n
          invariant |alloc| == n
          invariant forall k :: 0 <= k < n ==> alloc[k] == if k < i && k < remainder then perBranch + 1 else perBranch
        {
          if i < remainder {
            alloc := alloc[i := alloc[i] + 1];
          }
        }
        return;
      }
      TotalWeightPositive(ucb);
      var total := TotalWeight(ucb);
      var remaining := totalBatch;
      alloc := [];
      for i := 0 to n - 1
        invariant |alloc| == i
        invariant forall k :: 0 <= k < i ==> alloc[k] == Share(totalBatch, ucb[k], total)
        invariant remaining == totalBatch - Sum(alloc)
      {
        var share := Share(totalBatch, ucb[i], total);
        alloc := alloc + [share];
        remaining := remaining - share;
      }
      assert alloc == Shares(totalBatch, ucb);
      alloc := alloc + [if remaining >= 1 then remaining else 1];
    }
  }

  /** While a branch is unvisited: the quotient each, the remainder to the first branches. */
  function EvenSplit(totalBatch: int, n: nat): (r: seq<int>)
    requires n >= 1
    ensures |r| == n
  {
    seq(n, i requires 0 <= i < n => totalBatch / n + if i < totalBatch - totalBatch / n * n then 1 else 0)
  }

  /** The shares of all branches but the last. */
  function Shares(totalBatch: int, ucb: seq<real>): (r: seq<int>)
    requires |ucb| >= 1
    ensures |r| == |ucb| - 1
  {
    TotalWeightPositive(ucb);
    seq(|ucb| - 1, i requires 0 <= i < |ucb| - 1 => Share(totalBatch, ucb[i], TotalWeight(ucb)))
  }

  /** The last branch takes what the others left, but at least one. */
  function UcbSplit(totalBatch: int, ucb: seq<real>): (r: seq<int>)
    requires |ucb| >= 1
    ensures |r| == |ucb|
  {
    var shares := Shares(totalBatch, ucb);
    var remaining := totalBatch - Sum(shares);
    shares + [if remaining >= 1 then remaining else 1]
  }

  lemma {:induction false} TotalWeightPositive(scores: seq<real>)
    ensures |scores| >= 1 ==> TotalWeight(scores) > 0.0
    ensures TotalWeight(scores) >= 0.0
  {
    if |scores| >= 1 {
      TotalWeightPositive(scores[..|scores| - 1]);
    }
  }

  // ----- the even split -----

  lemma {:induction false} EvenPrefixSum(n: nat, q: int, rem: int, m: nat)
    requires m <= n && 0 <= rem < n
    ensures var xs := seq(n, i requires 0 <= i < n => q + if i < rem then 1 else 0);
      Sum(xs[..m]) == q * m + if m <= rem then m else rem
  {
    var xs := seq(n, i requires 0 <= i < n => q + if i < rem then 1 else 0);
    if m > 0 {
      EvenPrefixSum(n, q, rem, m - 1);
      assert xs[..m][..m - 1] == xs[..m - 1];
      assert q * m == q * (m - 1) + q;
    } else {
      assert xs[..0] == [];
    }
  }

  /** While any branch is unvisited the total is exact, shares differ by at most one, and the
      larger ones come first. */
  lemma {:induction false} EvenSplitExact(totalBatch: int, n: nat)
    requires n >= 1
    ensures Sum(EvenSplit(totalBatch, n)) == totalBatch
    ensures forall i, j :: 0 <= i < n && 0 <= j < n ==>
      EvenSplit(totalBatch, n)[i] - EvenSplit(totalBatch, n)[j] <= 1
    ensures forall i, j :: 0 <= i < j < n ==> EvenSplit(totalBatch, n)[i] >= EvenSplit(totalBatch, n)[j]
  {
    hide Sum;
    var q := totalBatch / n;
    var rem := totalBatch - q * n;
    EvenPrefixSum(n, q, rem, n);
    var xs := EvenSplit(totalBatch, n);
    assert xs == seq(n, i requires 0 <= i < n => q + if i < rem then 1 else 0);
    assert xs[..n] == xs;
  }

  // ----- the UCB split -----

  /** The floors of the exact shares of the first m branches. */
  function FloorSum(totalBatch: int, scores: seq<real>, total: real): int
    requires total > 0.0
  {
    if |scores| == 0 then 0 else
      FloorSum(totalBatch, scores[..|scores| - 1], total)
      + Quota(totalBatch, Weight(scores[|scores| - 1]), total).Floor
  }

  lemma QuotaAdd(totalBatch: int, x: real, y: real, total: real)
    requires total > 0.0
    ensures Quota(totalBatch, x + y, total) == Quota(totalBatch, x, total) + Quota(totalBatch, y, total)
  {
  }

  lemma QuotaZero(totalBatch: int, total: real)
    requires total > 0.0
    ensures Quota(totalBatch, 0.0, total) == 0.0
  {
  }

  lemma {:induction false} FloorSumBound(totalBatch: int, scores: seq<real>, total: real)
    requires total > 0.0
    ensures FloorSum(totalBatch, scores, total) as real <= Quota(totalBatch, TotalWeight(scores), total)
  {
    hide Weight, Quota;
    var n := |scores|;
    if n == 0 {
      QuotaZero(totalBatch, total);
    } else {
      var head, w := scores[..n - 1], Weight(scores[n - 1]);
      FloorSumBound(totalBatch, head, total);
      QuotaAdd(totalBatch, TotalWeight(head), w, total);
      FloorStep(Quota(totalBatch, TotalWeight(head), total), Quota(totalBatch, w, total),
        FloorSum(totalBatch, head, total));
    }
  }

  lemma FloorStep(x: real, y: real, f: int)
    requires f as real <= x
    ensures (f + y.Floor) as real <= x + y
  {
  }

  /** Each share exceeds its floor by at most one, and is at least one. */
  lemma {:induction false} ShareSum(totalBatch: int, scores: seq<real>, total: real, shares: seq<int>)
    requires total > 0.0 && totalBatch >= 1 && |shares| == |scores|
    requires forall k :: 0 <= k < |scores| ==> shares[k] == Share(totalBatch, scores[k], total)
    ensures Sum(shares) <= FloorSum(totalBatch, scores, total) + |scores|
  {
    hide Weight, Quota, Share;
    var n := |scores|;
    if n == 0 {
    } else {
      ShareSum(totalBatch, scores[..n - 1], total, shares[..n - 1]);
      ShareAboveFloor(totalBatch, scores[n - 1], total);
    }
  }

  lemma ShareAboveFloor(totalBatch: int, score: real, total: real)
    requires total > 0.0 && totalBatch >= 1
    ensures 1 <= Share(totalBatch, score, total) <= Quota(totalBatch, Weight(score), total).Floor + 1
  {
  }

  lemma {:induction false} BelowWhole(totalBatch: int, part: real, total: real)
    requires totalBatch >= 1 && 0.0 <= part < total
    ensures Quota(totalBatch, part, total) < totalBatch as real
  {
    var b := totalBatch as real;
    CompareScaled(part, total, b);
    CompareScaled(Quota(totalBatch, part, total), b, total);
  }

  /** The floors of all branches but the last leave at least one row. */
  lemma {:induction false} FloorsLeaveOne(totalBatch: int, ucb: seq<real>)
    requires |ucb| >= 2 && totalBatch >= 1
    ensures TotalWeight(ucb) > 0.0
    ensures FloorSum(totalBatch, ucb[..|ucb| - 1], TotalWeight(ucb)) <= totalBatch - 1
  {
    hide Quota, Weight;
    var n, total := |ucb|, TotalWeight(ucb);
    var head := ucb[..n - 1];
    WeightPositive(ucb[n - 1]);
    TotalWeightPositive(ucb);
    TotalWeightPositive(head);
    FloorSumBound(totalBatch, head, total);
    BelowWhole(totalBatch, TotalWeight(head), total);
  }

  lemma WeightPositive(score: real)
    ensures Weight(score) > 0.0
  {
  }

  /** Once every branch was visited, for arbitrary scores: every branch gets at least one
      row, and the total is the batch or up to n - 1 rows more. */
  lemma {:induction false} UcbSplitBounds(totalBatch: int, ucb: seq<real>)
    requires |ucb| >= 2 && totalBatch >= 1
    ensures forall k :: 0 <= k < |ucb| ==> UcbSplit(totalBatch, ucb)[k] >= 1
    ensures totalBatch <= Sum(UcbSplit(totalBatch, ucb)) <= totalBatch + |ucb| - 1
  {
    hide Weight, Quota, Share;
    var n, total := |ucb|, TotalWeight(ucb);
    FloorsLeaveOne(totalBatch, ucb);
    var head, shares := ucb[..n - 1], Shares(totalBatch, ucb);
    ShareSum(totalBatch, head, total, shares);
    var remaining := totalBatch - Sum(shares);
  }

  // ----- what a score earns -----

  function RealSum(xs: seq<real>): real {
    if |xs| == 0 then 0.0 else RealSum(xs[..|xs| - 1]) + xs[|xs| - 1]
  }

  /** Scores raised to the least weight. */
  predicate Raised(weights: seq<real>, ucb: seq<real>) {
    && |weights| == |ucb|
    && forall i | 0 <= i < |ucb| ::
         weights[i] >= ucb[i] && weights[i] >= 0.01 && (weights[i] == ucb[i] || weights[i] == 0.01)
  }

  lemma {:induction false} RaisedTotal(weights: seq<real>, ucb: seq<real>)
    requires Raised(weights, ucb)
    ensures TotalWeight(ucb) == RealSum(weights)
  {
    var n := |ucb|;
    if n == 0 {
    } else {
      RaisedTotal(weights[..n - 1], ucb[..n - 1]);
      assert weights[n - 1] == Weight(ucb[n - 1]);
    }
  }

  /** A quota is the rational it stands for. */
  lemma {:induction false} QuotaBounds(totalBatch: int, weight: real, total: real, share: int)
    requires total > 0.0 && share == Quota(totalBatch, weight, total).Floor
    ensures share as real * total <= totalBatch as real * weight < (share + 1) as real * total
  {
    var quota := Quota(totalBatch, weight, total);
    QuotientTimes(totalBatch as real * weight, total);
    hide Quota;
    Between(quota, total, share, totalBatch as real * weight);
  }

  lemma {:induction false} Between(quota: real, total: real, share: int, earned: real)
    requires total > 0.0 && share == quota.Floor && quota * total == earned
    ensures share as real * total <= earned < (share + 1) as real * total
  {
    CompareScaled(quota, (share + 1) as real, total);
    CompareScaled(quota, share as real, total);
  }

  lemma {:induction false} QuotaMonotone(totalBatch: int, x: real, y: real, total: real)
    requires total > 0.0 && totalBatch >= 1 && x <= y
    ensures Quota(totalBatch, x, total) <= Quota(totalBatch, y, total)
  {
    assert totalBatch as real * x <= totalBatch as real * y;
    DivMonotone(totalBatch as real * x, totalBatch as real * y, total);
  }

  /** Every branch but the last gets the whole rows its part of the total weight earns, or one row;
      the last gets what these leave, or one row. */
  lemma {:induction false} ShareIsProportional(totalBatch: int, ucb: seq<real>, weights: seq<real>, i: nat)
    requires |ucb| >= 2 && totalBatch >= 1 && Raised(weights, ucb) && i < |ucb|
    ensures var split, total := UcbSplit(totalBatch, ucb), RealSum(weights);
      var left := totalBatch - Sum(split[..|ucb| - 1]);
      if i < |ucb| - 1 then
        && split[i] >= 1
        && (split[i] == 1 || split[i] as real * total <= totalBatch as real * weights[i])
        && totalBatch as real * weights[i] < (split[i] + 1) as real * total
      else
        split[i] >= 1 && split[i] >= left && (split[i] == 1 || split[i] == left)
  {
    hide Quota, Weight;
    var total, split := TotalWeight(ucb), UcbSplit(totalBatch, ucb);
    TotalWeightPositive(ucb);
    RaisedTotal(weights, ucb);
    assert split[..|ucb| - 1] == Shares(totalBatch, ucb);
    if i < |ucb| - 1 {
      WeightIsRaised(weights, ucb, i);
      var earned := Quota(totalBatch, weights[i], total).Floor;
      QuotaBounds(totalBatch, weights[i], total, earned);
      if earned < 1 {
        CompareScaled((earned + 1) as real, 2.0, total);
      }
    }
  }

  lemma WeightIsRaised(weights: seq<real>, ucb: seq<real>, i: nat)
    requires Raised(weights, ucb) && i < |ucb|
    ensures Weight(ucb[i]) == weights[i]
  {
  }

  /** Of two branches before the last, the one with the higher score never gets fewer rows. */
  lemma {:induction false} HigherScoreNoFewer(totalBatch: int, ucb: seq<real>, i: nat, j: nat)
    requires |ucb| >= 2 && totalBatch >= 1 && i < |ucb| - 1 && j < |ucb| - 1
    requires ucb[i] >= ucb[j]
    ensures UcbSplit(totalBatch, ucb)[i] >= UcbSplit(totalBatch, ucb)[j]
  {
    hide Quota;
    TotalWeightPositive(ucb);
    QuotaMonotone(totalBatch, Weight(ucb[j]), Weight(ucb[i]), TotalWeight(ucb));
  }
}
