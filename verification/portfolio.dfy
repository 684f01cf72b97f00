/** The portfolio: one batch is asked from all instances, and scores are routed back. */
module Portfolio {
  import opened IntegerArithmetic

  datatype Kind = Cmaes | De | Sobol

  datatype Allocation = Allocation(instance: nat, kind: Kind, start: nat, count: nat)

  // ----- the Sobol draw -----

  function Pow2(p: nat): (r: nat)
    ensures r >= 1
  {
    if p == 0 then 1 else 2 * Pow2(p - 1)
  }

  /** The least p with 2^p >= m: `ceil(log2(m))` for m >= 1. */
  function CeilLog2(m: nat): (p: nat)
    ensures Pow2(p) >= m
    ensures p > 0 ==> Pow2(p - 1) < m
    decreases m
  {
    if m <= 1 then 0 else
      1 + CeilLog2((m + 1) / 2)
  }

  function SobolPower(n: nat): nat {
    var power := CeilLog2(if n >= 1 then n else 1);
    if power >= 1 then power else 1
  }

  /** A Sobol draw is a power of two that covers the request, and less than twice it; at least
      two samples are drawn. */
  lemma SobolCovers(n: nat)
    ensures Pow2(SobolPower(n)) >= n
    ensures n >= 2 ==> Pow2(SobolPower(n)) < 2 * n
    ensures n < 2 ==> Pow2(SobolPower(n)) == 2
  {
  }

  /** `SobolExplorer.ask`: a power of two is drawn and the first n samples are kept. */
  method SobolAsk<V>(stream: seq<V>, n: nat) returns (samples: seq<V>, drawn: nat)
    requires |stream| >= Pow2(SobolPower(n))
    ensures |samples| == n && samples == stream[..n]
    ensures drawn == Pow2(SobolPower(n))
  {
    SobolCovers(n);
    drawn := Pow2(SobolPower(n));
    samples := stream[..drawn][..n];
  }

  // ----- the batch -----

  /** How many rows the Sobol explorer contributes. */
  function SobolCount(batchSize: int, fraction: real): int {
    var share := (batchSize as real * fraction).Floor;
    if share >= 1 then share else 1
  }

  /** What each algorithm instance is asked for, at most. */
  function PerInstance(algoBudget: int, nAlgo: nat): int {
    var share := algoBudget / (if nAlgo >= 1 then nAlgo else 1);
    if share >= 1 then share else 1
  }

  /** The rows the algorithm instances contribute together. */
  function AlgoTotal(algoBudget: int, nAlgo: nat): int {
    if algoBudget <= 0 then 0
    else if nAlgo * PerInstance(algoBudget, nAlgo) <= algoBudget then nAlgo * PerInstance(algoBudget, nAlgo)
    else algoBudget
  }

  /** An algorithm instance gets its share, or what the instances before it left of the budget. */
  predicate Granted(a: Allocation, per: int, algoBudget: int) {
    if a.start + per <= algoBudget then a.count == per else a.start + a.count == algoBudget
  }

  /** Instance rows: whatever the algorithm, n rows for a request of n. */
  type Draw<!V> = (nat, nat) -> seq<V>

  ghost predicate Exact<V>(draw: Draw<V>) {
    forall i: nat, n: nat :: |draw(i, n)| == n
  }

  /** Allocations cover rows 0..total without gap or overlap, in order. */
  predicate Tiles(allocs: seq<Allocation>, total: nat) {
    && (|allocs| == 0 ==> total == 0)
    && (|allocs| > 0 ==>
          (allocs[0].start == 0 && allocs[|allocs| - 1].start + allocs[|allocs| - 1].count == total))
    && (forall k :: 0 <= k < |allocs| - 1 ==> allocs[k].start + allocs[k].count == allocs[k + 1].start)
    && (forall k :: 0 <= k < |allocs| ==> allocs[k].count >= 1 && allocs[k].start + allocs[k].count <= total)
  }

  /** Each allocation's rows are what its instance produced. */
  ghost predicate Produced<V>(batch: seq<V>, allocs: seq<Allocation>, draw: Draw<V>) {
    forall k :: 0 <= k < |allocs| ==>
      && allocs[k].start + allocs[k].count <= |batch|
      && batch[allocs[k].start..allocs[k].start + allocs[k].count] == draw(allocs[k].instance, allocs[k].count)
  }

  function Slice<T>(s: seq<T>, lo: nat, hi: nat): seq<T>
    requires lo <= hi
  {
    s[(if lo <= |s| then lo else |s|)..(if hi <= |s| then hi else |s|)]
  }

  /** One call of an instance's `tell`. */
  datatype TellCall<V, S> = TellCall(instance: nat, rows: seq<V>, scores: seq<S>)

  lemma TilesSnoc(allocs: seq<Allocation>, total: nat, a: Allocation)
    requires Tiles(allocs, total) && a.start == total && a.count >= 1
    ensures Tiles(allocs + [a], total + a.count)
  {
  }

  lemma ProducedSnoc<V>(
    batch: seq<V>, allocs: seq<Allocation>, draw: Draw<V>, a: Allocation, rows: seq<V>)
    requires Produced(batch, allocs, draw)
    requires a.start == |batch| && a.count == |rows| && rows == draw(a.instance, a.count)
    ensures Produced(batch + rows, allocs + [a], draw)
  {
  }

  lemma StepTotal(i: nat, per: int)
    ensures (i + 1) * per == i * per + per
  {
  }

  class PortfolioManager<V> {
    /** The kinds of the algorithm instances; the Sobol explorer comes after them. */
    const kinds: seq<Kind>
    const sobolFraction: real
    var allocations: seq<Allocation>
    /** The size of the last batch. */
    ghost var total: nat

    predicate Tiled(rows: nat)
      reads this
    {
      Tiles(allocations, rows)
    }

    ghost predicate Valid()
      reads this
    {
      Tiled(total)
    }

    constructor (kinds: seq<Kind>, fraction: real)
      ensures this.kinds == kinds && sobolFraction == fraction && allocations == [] && Valid()
    {
      this.kinds := kinds;
      sobolFraction := fraction;
      allocations := [];
      total := 0;
    }

    /** `ask_batch`. */
    method AskBatch(batchSize: int, draw: Draw<V>) returns (batch: seq<V>)
      requires Exact(draw)
      modifies this
      ensures Valid() && total == |batch|
      ensures Tiles(allocations, |batch|) && Produced(batch, allocations, draw)
      ensures |batch| ==
        AlgoTotal(batchSize - SobolCount(batchSize, sobolFraction), |kinds|) + SobolCount(batchSize, sobolFraction)
      ensures 1 <= |allocations| <= |kinds| + 1
      ensures forall k :: 0 <= k < |allocations| - 1 ==>
        allocations[k].instance == k && allocations[k].kind == kinds[k]
      ensures allocations[|allocations| - 1].instance == |kinds| && allocations[|allocations| - 1].kind == Sobol
      ensures allocations[|allocations| - 1].count == SobolCount(batchSize, sobolFraction)
      ensures var algoBudget := batchSize - SobolCount(batchSize, sobolFraction);
        forall k :: 0 <= k < |allocations| - 1 ==>
          Granted(allocations[k], PerInstance(algoBudget, |kinds|), algoBudget)
    {
      hide PerInstance, SobolCount, Tiles, Produced;
      var sobolCount := SobolCount(batchSize, sobolFraction);
      var algoBudget := batchSize - sobolCount;
      var perInstance := PerInstance(algoBudget, |kinds|);
      assert perInstance >= 1 && sobolCount >= 1 by { AtLeastOne(batchSize, sobolFraction, algoBudget, |kinds|); }
      allocations := [];
      batch := [];
      NothingYet(draw);
      var i := 0;
      while i < |kinds| && batchSize - |batch| - sobolCount > 0
        invariant 0 <= i <= |kinds| && |allocations| == i
        invariant Tiles(allocations, |batch|) && Produced(batch, allocations, draw)
        invariant |batch| == i * perInstance || (algoBudget >= 0 && |batch| == algoBudget < i * perInstance)
        invariant |batch| > 0 ==> |batch| <= algoBudget
        invariant forall k :: 0 <= k < i ==> allocations[k].instance == k && allocations[k].kind == kinds[k]
        invariant forall k :: 0 <= k < i ==> Granted(allocations[k], perInstance, algoBudget)
      {
        var left := batchSize - |batch| - sobolCount;
        var count := if perInstance <= left then perInstance else left;
        StepTotal(i, perInstance);
        batch := AskInstance(i, kinds[i], count, draw, batch);
        i := i + 1;
      }
      assert |batch| == AlgoTotal(algoBudget, |kinds|) by {
        LoopTotal(algoBudget, |kinds|, i, |batch|);
      }
      batch := AskInstance(|kinds|, Sobol, sobolCount, draw, batch);
      total := |batch|;
    }

    /** One `ask` of an instance, with its allocation record. */
    method AskInstance(i: nat, kind: Kind, count: nat, draw: Draw<V>, before: seq<V>) returns (batch: seq<V>)
      requires Exact(draw) && count >= 1
      requires Tiles(allocations, |before|) && Produced(before, allocations, draw)
      modifies this`allocations
      ensures allocations == old(allocations) + [Allocation(i, kind, |before|, count)]
      ensures |batch| == |before| + count
      ensures Tiles(allocations, |batch|) && Produced(batch, allocations, draw)
    {
      hide Tiles, Produced;
      var candidates := draw(i, count);
      var a := Allocation(i, kind, |before|, |candidates|);
      TilesSnoc(allocations, |before|, a);
      ProducedSnoc(before, allocations, draw, a, candidates);
      batch := before + candidates;
      allocations := allocations + [a];
    }

    /** `tell_batch`: the calls it makes, in order. */
    method TellBatch<S>(candidates: seq<V>, scores: seq<S>) returns (calls: seq<TellCall<V, S>>)
      ensures Tiles(allocations, |candidates|) && |scores| == |candidates| ==>
        calls == Calls(allocations, candidates, scores)
    {
      calls := [];
      for k := 0 to |allocations|
        invariant Tiles(allocations, |candidates|) && |scores| == |candidates| ==>
          calls == Calls(allocations, candidates, scores)[..k]
      {
        var a := allocations[k];
        var c := Slice(candidates, a.start, a.start + a.count);
        var s := Slice(scores, a.start, a.start + a.count);
        if |c| > 0 {
          calls := calls + [TellCall(a.instance, c, s)];
        }
      }
    }

    /** `get_candidate_instance_types`: one label per row of the last batch. */
    method CandidateKinds() returns (labels: seq<Kind>)
      ensures labels == KindsOf(allocations)
    {
      labels := [];
      for k := 0 to |allocations|
        invariant labels == KindsOf(allocations[..k])
      {
        var a := allocations[k];
        assert allocations[..k + 1][..k] == allocations[..k];
        labels := labels + seq(a.count, _ => a.kind);
      }
      assert allocations[..|allocations|] == allocations;
    }
  }

  function KindsOf(allocs: seq<Allocation>): seq<Kind> {
    if |allocs| == 0 then [] else
      var last := allocs[|allocs| - 1];
      KindsOf(allocs[..|allocs| - 1]) + seq(last.count, _ => last.kind)
  }

  /** Row r of the batch carries the kind of the instance that produced it. */
  lemma {:induction false} KindOfRow(allocs: seq<Allocation>, total: nat, k: nat, r: nat)
    requires Tiles(allocs, total) && k < |allocs|
    requires allocs[k].start <= r < allocs[k].start + allocs[k].count
    ensures |KindsOf(allocs)| == total && r < total && KindsOf(allocs)[r] == allocs[k].kind
    decreases |allocs|
  {
    var n := |allocs|;
    var head, last := allocs[..n - 1], allocs[n - 1];
    AllTiles(allocs, total);
    NextTile(allocs, total, 0);
    if n <= 1 {
      assert KindsOf(head) == [];
    } else {
      hide Tiles;
      TilesPrefix(allocs, total);
      EndsBeforeLast(allocs, total, n - 1);
      NextTile(head, last.start, 0);
      if k < n - 1 {
        KindOfRow(head, last.start, k, r);
      } else {
        KindOfRow(head, last.start, 0, 0);
      }
    }
  }

  lemma {:induction false} TilesPrefix(allocs: seq<Allocation>, total: nat)
    requires Tiles(allocs, total) && |allocs| > 1
    ensures Tiles(allocs[..|allocs| - 1], allocs[|allocs| - 1].start)
    decreases |allocs|
  {
    var n := |allocs|;
    assert allocs[n - 2].start + allocs[n - 2].count == allocs[n - 1].start;
    EndsBeforeLast(allocs, total, n - 1);
  }

  lemma {:induction false} EndsBeforeLast(allocs: seq<Allocation>, total: nat, k: nat)
    requires Tiles(allocs, total) && k < |allocs|
    ensures forall j :: 0 <= j < k ==> allocs[j].start + allocs[j].count <= allocs[k].start
  {
    if k == 0 {
    } else {
      EndsBeforeLast(allocs, total, k - 1);
      assert allocs[k - 1].start + allocs[k - 1].count == allocs[k].start;
    }
  }

  lemma NothingYet<V>(draw: Draw<V>)
    ensures Tiles([], 0) && Produced([], [], draw)
  {
  }

  lemma AtLeastOne(batchSize: int, fraction: real, algoBudget: int, nAlgo: nat)
    ensures PerInstance(algoBudget, nAlgo) >= 1 && SobolCount(batchSize, fraction) >= 1
  {
  }

  lemma LoopTotal(algoBudget: int, nAlgo: nat, i: nat, total: nat)
    requires i <= nAlgo
    requires total == i * PerInstance(algoBudget, nAlgo)
      || (algoBudget >= 0 && total == algoBudget < i * PerInstance(algoBudget, nAlgo))
    requires total > 0 ==> total <= algoBudget
    requires i == nAlgo || algoBudget - total <= 0
    ensures total == AlgoTotal(algoBudget, nAlgo)
  {
  }

  // ----- size of the batch -----

  /** The Sobol explorer gets the whole rows of its fraction of the batch, or one row. */
  lemma SobolShare(batchSize: int, fraction: real)
    ensures var n, part := SobolCount(batchSize, fraction), batchSize as real * fraction;
      n >= 1 && (n == 1 || n as real <= part) && part < n as real + 1.0
  {
  }

  /** Each algorithm instance gets the whole rows of an equal part of the budget; with fewer rows
      than instances it is one row each. */
  lemma {:induction false} InstanceShare(algoBudget: int, nAlgo: nat)
    requires nAlgo >= 1
    ensures var per := PerInstance(algoBudget, nAlgo);
      if algoBudget >= nAlgo then
        nAlgo * per <= algoBudget < nAlgo * (per + 1)
      else
        per == 1
  {
    DivBounds(algoBudget, nAlgo);
    if algoBudget >= nAlgo {
      DivMonotone(nAlgo, algoBudget, nAlgo);
      DivUnique(nAlgo, nAlgo, 1);
    } else if algoBudget >= 0 {
      DivUnique(algoBudget, nAlgo, 0);
    } else {
      DivMonotone(algoBudget, 0, nAlgo);
      DivUnique(0, nAlgo, 0);
    }
  }

  lemma SobolWithin(batchSize: int, fraction: real)
    requires batchSize >= 1 && 0.0 <= fraction <= 1.0
    ensures 1 <= SobolCount(batchSize, fraction) <= batchSize
  {
  }

  /** The batch never exceeds the request. It falls short by the remainder of splitting
      the algorithm budget evenly, which is less than the number of instances; with
      fewer rows than instances, or none to spare, it does not fall short at all. */
  lemma {:induction false} BatchSize(batchSize: int, fraction: real, nAlgo: nat)
    requires batchSize >= 1 && 0.0 <= fraction <= 1.0
    ensures var sobol := SobolCount(batchSize, fraction);
      var total := AlgoTotal(batchSize - sobol, nAlgo) + sobol;
      && sobol <= total <= batchSize
      && (nAlgo >= 1 ==>
            (batchSize - total == if batchSize - sobol >= nAlgo then (batchSize - sobol) % nAlgo else 0))
      && (nAlgo >= 1 ==> batchSize - total < nAlgo)
      && (nAlgo == 0 ==> total == sobol)
  {
    SobolWithin(batchSize, fraction);
    var algo := batchSize - SobolCount(batchSize, fraction);
    hide SobolCount;
    if nAlgo >= 1 {
      DivBounds(algo, nAlgo);
      if algo >= nAlgo {
        DivMonotone(nAlgo, algo, nAlgo);
        DivUnique(nAlgo, nAlgo, 1);
        assert nAlgo * (algo / nAlgo) + algo % nAlgo == algo;
      } else {
        DivUnique(algo, nAlgo, 0);
      }
    }
  }

  // ----- round trip -----

  /** All parts, one after the other. */
  function Joined<T>(parts: seq<seq<T>>): seq<T> {
    if |parts| == 0 then [] else Joined(parts[..|parts| - 1]) + parts[|parts| - 1]
  }

  function RowsTold<V, S>(calls: seq<TellCall<V, S>>): seq<V> {
    Joined(seq(|calls|, k requires 0 <= k < |calls| => calls[k].rows))
  }

  function ScoresTold<V, S>(calls: seq<TellCall<V, S>>): seq<S> {
    Joined(seq(|calls|, k requires 0 <= k < |calls| => calls[k].scores))
  }

  /** The calls `tell_batch` makes for these allocations. */
  function Calls<V, S>(allocs: seq<Allocation>, candidates: seq<V>, scores: seq<S>): (r: seq<TellCall<V, S>>)
    requires |scores| == |candidates|
    requires forall k :: 0 <= k < |allocs| ==> allocs[k].start + allocs[k].count <= |candidates|
    ensures |r| == |allocs|
  {
    seq(|allocs|, k requires 0 <= k < |allocs| =>
      TellCall(allocs[k].instance, candidates[allocs[k].start..allocs[k].start + allocs[k].count],
               scores[allocs[k].start..allocs[k].start + allocs[k].count]))
  }

  /** Every instance is told exactly the rows it produced, and all calls together hand
      over every row and every score of the batch once, in order. */
  lemma {:induction false} AskTellConserves<V, S>(
    allocs: seq<Allocation>, batch: seq<V>, draw: Draw<V>, scores: seq<S>)
    requires Tiles(allocs, |batch|) && Produced(batch, allocs, draw) && |scores| == |batch|
    ensures forall k :: 0 <= k < |allocs| ==>
      Calls(allocs, batch, scores)[k].rows == draw(allocs[k].instance, allocs[k].count)
    ensures RowsTold(Calls(allocs, batch, scores)) == batch
    ensures ScoresTold(Calls(allocs, batch, scores)) == scores
  {
    hide Tiles, EndOf;
    AllTiles(allocs, |batch|);
    var calls := Calls(allocs, batch, scores);
    var rows, told := Parts(allocs, batch), Parts(allocs, scores);
    assert rows == seq(|calls|, k requires 0 <= k < |calls| => calls[k].rows);
    assert told == seq(|calls|, k requires 0 <= k < |calls| => calls[k].scores);
    SlicesJoin(allocs, batch, |allocs|);
    SlicesJoin(allocs, scores, |allocs|);
    assert rows[..|allocs|] == rows && told[..|allocs|] == told;
    assert batch[..|batch|] == batch && scores[..|scores|] == scores;
  }

  /** What the allocations cut out of a sequence. */
  function Parts<T>(allocs: seq<Allocation>, s: seq<T>): (r: seq<seq<T>>)
    requires forall k :: 0 <= k < |allocs| ==> allocs[k].start + allocs[k].count <= |s|
    ensures |r| == |allocs|
  {
    seq(|allocs|, k requires 0 <= k < |allocs| => s[allocs[k].start..allocs[k].start + allocs[k].count])
  }

  function EndOf(allocs: seq<Allocation>, m: nat): nat
    requires m <= |allocs|
  {
    if m == 0 then 0 else allocs[m - 1].start + allocs[m - 1].count
  }

  /** A tile starts where those before it end. */
  lemma {:induction false} NextTile(allocs: seq<Allocation>, total: nat, k: nat)
    requires Tiles(allocs, total) && k < |allocs|
    ensures allocs[k].start == EndOf(allocs, k)
    ensures forall j :: 0 <= j < |allocs| ==> allocs[j].start + allocs[j].count <= total
  {
    if k > 0 {
      assert allocs[k - 1].start + allocs[k - 1].count == allocs[k].start;
    }
  }

  lemma AllTiles(allocs: seq<Allocation>, total: nat)
    requires Tiles(allocs, total)
    ensures EndOf(allocs, |allocs|) == total
    ensures forall j :: 0 <= j < |allocs| ==> allocs[j].start + allocs[j].count <= total
  {
  }

  lemma {:induction false} SlicesJoin<T>(allocs: seq<Allocation>, s: seq<T>, m: nat)
    requires Tiles(allocs, |s|) && m <= |allocs|
    ensures EndOf(allocs, m) <= |s|
    ensures forall k :: 0 <= k < |allocs| ==> allocs[k].start + allocs[k].count <= |s|
    ensures Joined(Parts(allocs, s)[..m]) == s[..EndOf(allocs, m)]
  {
    hide Tiles;
    AllTiles(allocs, |s|);
    var parts := Parts(allocs, s);
    if m == 0 {
    } else {
      hide Parts;
      NextTile(allocs, |s|, m - 1);
      SlicesJoin(allocs, s, m - 1);
      JoinedSnoc(parts, m);
      SliceJoin(s, EndOf(allocs, m - 1), EndOf(allocs, m));
      PartAt(allocs, s, m - 1);
    }
  }

  lemma PartAt<T>(allocs: seq<Allocation>, s: seq<T>, k: nat)
    requires forall j :: 0 <= j < |allocs| ==> allocs[j].start + allocs[j].count <= |s|
    requires k < |allocs|
    ensures Parts(allocs, s)[k] == s[allocs[k].start..allocs[k].start + allocs[k].count]
  {
  }

  lemma {:induction false} JoinedSnoc<T>(parts: seq<seq<T>>, m: nat)
    requires 1 <= m <= |parts|
    ensures Joined(parts[..m]) == Joined(parts[..m - 1]) + parts[m - 1]
  {
    assert parts[..m][..m - 1] == parts[..m - 1];
  }

  lemma SliceJoin<T>(s: seq<T>, lo: nat, hi: nat)
    requires lo <= hi <= |s|
    ensures s[..lo] + s[lo..hi] == s[..hi]
  {
  }
}
