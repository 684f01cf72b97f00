/** One CMA-ES instance: buffered tell, stagnation, alternating restarts, convergence. */
module CmaEs {
  import opened RealArithmetic

  /** A score a fold may report; failed folds report minus infinity. */
  datatype Score = NegInf | Fin(v: real)

  /** The negated score that the minimising library is told. */
  datatype Cost = PosInf | Cost(v: real)

  function Negate(s: Score): Cost {
    match s
    case NegInf => PosInf
    case Fin(v) => Cost(-v)
  }

  datatype Pair<V> = Pair(candidate: V, score: Score)

  /** The library object: it accepts only batches of exactly its population size. */
  datatype Optimizer<V> = Optimizer(seed: int, popSize: nat, told: seq<seq<(V, Cost)>>)

  datatype Config = Config(seed: int, tolfun: real, stagnationLimit: int, maxRestarts: int)

  datatype State<V> = State(
    popSize: nat, stagnation: nat, best: Score, converged: bool,
    generation: nat, restarts: nat, pending: seq<Pair<V>>, optimizer: Optimizer<V>)

  function Better(a: Score, b: Score): bool {
    a.Fin? && (b.NegInf? || a.v > b.v)
  }

  function MaxScore<V>(batch: seq<Pair<V>>): Score
    requires |batch| > 0
  {
    var n := |batch|;
    if n == 1 then batch[0].score else
      var m := MaxScore(batch[..n - 1]);
      if Better(batch[n - 1].score, m) then batch[n - 1].score else m
  }

  /** `score > best + tolfun`, in floating-point infinities. */
  predicate Improves(s: Score, best: Score, tolfun: real) {
    s.Fin? && (best.NegInf? || s.v > best.v + tolfun)
  }

  function Solutions<V>(batch: seq<Pair<V>>): (r: seq<(V, Cost)>)
    ensures |r| == |batch|
  {
    seq(|batch|, i requires 0 <= i < |batch| => (batch[i].candidate, Negate(batch[i].score)))
  }

  function NextPopulation(popSize: nat, restarts: nat): nat {
    if restarts % 2 == 0 then (if popSize * 2 <= 4096 then popSize * 2 else 4096)
    else if popSize / 2 >= 16 then popSize / 2 else 16
  }

  /** `_restart`: a fresh library object, an empty buffer, an unset best score. */
  function Restart<V>(c: Config, s: State<V>): State<V> {
    var r := s.restarts + 1;
    var pop := NextPopulation(s.popSize, r);
    s.(restarts := r, popSize := pop, stagnation := 0, best := NegInf, pending := [],
       optimizer := Optimizer(c.seed + r * 1000, pop, []))
  }

  /** One flushed generation, before the stagnation test. */
  function Flush<V>(c: Config, s: State<V>): State<V>
    requires 1 <= s.popSize <= |s.pending|
  {
    var batch := s.pending[..s.popSize];
    var best := MaxScore(batch);
    var up := Improves(best, s.best, c.tolfun);
    s.(pending := s.pending[s.popSize..],
       optimizer := s.optimizer.(told := s.optimizer.told + [Solutions(batch)]),
       generation := s.generation + 1,
       best := if up then best else s.best,
       stagnation := if up then 0 else s.stagnation + 1)
  }

  function Settle<V>(c: Config, s: State<V>): State<V> {
    if s.stagnation < c.stagnationLimit then s
    else if s.restarts >= c.maxRestarts then s.(converged := true)
    else Restart(c, s)
  }

  /** The flush loop of `tell`. */
  function FlushAll<V>(c: Config, s: State<V>): (e: State<V>)
    requires s.popSize >= 1
    ensures e.popSize >= 1 && |e.pending| < e.popSize
    decreases |s.pending|
  {
    if |s.pending| < s.popSize then s else FlushAll(c, Settle(c, Flush(c, s)))
  }

  /** `zip(candidates, scores)`. */
  function Zip<V>(candidates: seq<V>, scores: seq<Score>): (r: seq<Pair<V>>)
    ensures |r| <= |candidates| && |r| <= |scores| && (|r| == |candidates| || |r| == |scores|)
    ensures forall i | 0 <= i < |r| :: r[i].candidate == candidates[i] && r[i].score == scores[i]
  {
    var n := if |candidates| <= |scores| then |candidates| else |scores|;
    seq(n, i requires 0 <= i < n => Pair(candidates[i], scores[i]))
  }

  function Told<V>(c: Config, s: State<V>, pairs: seq<Pair<V>>): (e: State<V>)
    requires s.popSize >= 1
    ensures e.popSize >= 1
  {
    FlushAll(c, s.(pending := s.pending + pairs))
  }

  function Initial<V>(c: Config, popSize: nat): State<V> {
    State(popSize, 0, NegInf, false, 0, 0, [], Optimizer(c.seed, popSize, []))
  }

  lemma FlushMeans<V>(c: Config, s: State<V>)
    requires 1 <= s.popSize <= |s.pending|
    ensures var batch := s.pending[..s.popSize];
      var up := Improves(MaxScore(batch), s.best, c.tolfun);
      Flush(c, s) == State(
        s.popSize, if up then 0 else s.stagnation + 1, if up then MaxScore(batch) else s.best, s.converged,
        s.generation + 1, s.restarts, s.pending[s.popSize..],
        s.optimizer.(told := s.optimizer.told + [Solutions(batch)]))
  {
  }

  lemma FlushAllStep<V>(c: Config, s: State<V>)
    requires 1 <= s.popSize <= |s.pending|
    ensures Settle(c, Flush(c, s)).popSize >= 1
    ensures FlushAll(c, s) == FlushAll(c, Settle(c, Flush(c, s)))
  {
  }

  lemma FlushAllDone<V>(c: Config, s: State<V>)
    requires |s.pending| < s.popSize
    ensures FlushAll(c, s) == s
  {
  }

  /** The instance as the source keeps it: fields that `tell` updates. */
  class CmaEsInstance<V> {
    const config: Config
    var popSize: nat
    var stagnationCount: nat
    var bestScore: Score
    var converged: bool
    var generation: nat
    var restartCount: nat
    var pending: seq<Pair<V>>
    var optimizer: Optimizer<V>

    function View(): State<V>
      reads this
    {
      State(popSize, stagnationCount, bestScore, converged, generation, restartCount, pending, optimizer)
    }

    predicate Valid()
      reads this
    {
      popSize >= 1 && optimizer.popSize == popSize
    }

    constructor (c: Config, population: nat)
      requires population >= 1
      ensures config == c && Valid() && View() == Initial(c, population)
    {
      config := c;
      popSize, stagnationCount, bestScore, converged := population, 0, NegInf, false;
      generation, restartCount, pending := 0, 0, [];
      optimizer := Optimizer(c.seed, population, []);
    }

    /** The library call asserts that the batch has exactly its population size. */
    method OptimizerTell(solutions: seq<(V, Cost)>)
      requires |solutions| == optimizer.popSize
      modifies this`optimizer
      ensures optimizer == old(optimizer).(told := old(optimizer).told + [solutions])
    {
      optimizer := optimizer.(told := optimizer.told + [solutions]);
    }

    method Tell(candidates: seq<V>, scores: seq<Score>)
      requires Valid()
      modifies this
      ensures Valid() && View() == Told(config, old(View()), Zip(candidates, scores))
    {
      hide Flush, Settle, FlushAll;
      pending := pending + Zip(candidates, scores);
      ghost var goal := FlushAll(config, View());
      while |pending| >= popSize
        invariant Valid() && FlushAll(config, View()) == goal
        decreases |pending|
      {
        FlushAllStep(config, View());
        FlushGeneration();
      }
      FlushAllDone(config, View());
    }

    /** The body of the flush loop: one generation, then the stagnation test. */
    method FlushGeneration()
      requires Valid() && |pending| >= popSize
      modifies this
      ensures Valid() && |pending| < |old(pending)|
      ensures View() == Settle(config, Flush(config, old(View())))
    {
      hide MaxScore, Improves, NextPopulation;
      var batch := pending[..popSize];
      pending := pending[popSize..];
      OptimizerTell(Solutions(batch));
      generation := generation + 1;
      var bestThisGen := MaxScore(batch);
      if Improves(bestThisGen, bestScore, config.tolfun) {
        bestScore := bestThisGen;
        stagnationCount := 0;
      } else {
        stagnationCount := stagnationCount + 1;
      }
      assert View() == Flush(config, old(View()));
      if stagnationCount >= config.stagnationLimit {
        if restartCount >= config.maxRestarts {
          converged := true;
        } else {
          RestartInPlace();
        }
      }
    }

    method RestartInPlace()
      requires Valid()
      modifies this
      ensures Valid() && View() == Restart(config, old(View()))
    {
      restartCount := restartCount + 1;
      var pop := NextPopulation(popSize, restartCount);
      optimizer := Optimizer(config.seed + restartCount * 1000, pop, []);
      popSize, stagnationCount, bestScore, pending := pop, 0, NegInf, [];
    }
  }

  // ----- whole runs -----

  /** The state after a sequence of tell calls. */
  function Run<V>(c: Config, s: State<V>, calls: seq<seq<Pair<V>>>): (e: State<V>)
    requires s.popSize >= 1
    ensures e.popSize >= 1
  {
    if |calls| == 0 then s
    else Told(c, Run(c, s, calls[..|calls| - 1]), calls[|calls| - 1])
  }

  /** What every call keeps: the buffer stays shorter than one population, the population
      stays in range and equal to the library's, and convergence is never undone. */
  ghost predicate Kept<V>(s: State<V>, e: State<V>) {
    && |e.pending| < e.popSize
    && (16 <= s.popSize <= 4096 ==> 16 <= e.popSize <= 4096)
    && (s.optimizer.popSize == s.popSize ==> e.optimizer.popSize == e.popSize)
    && (s.converged ==> e.converged)
    && s.generation <= e.generation
  }

  lemma {:induction false} FlushAllKeeps<V>(c: Config, s: State<V>)
    requires s.popSize >= 1
    ensures Kept(s, FlushAll(c, s))
    decreases |s.pending|
  {
    hide MaxScore, Improves;
    if |s.pending| < s.popSize {
    } else {
      FlushAllKeeps(c, Settle(c, Flush(c, s)));
    }
  }

  lemma {:induction false} RunKeeps<V>(c: Config, s: State<V>, calls: seq<seq<Pair<V>>>)
    requires s.popSize >= 1 && |s.pending| < s.popSize
    ensures Kept(s, Run(c, s, calls))
  {
    hide FlushAll;
    if |calls| == 0 {
    } else {
      RunKeeps(c, s, calls[..|calls| - 1]);
      var mid := Run(c, s, calls[..|calls| - 1]);
      FlushAllKeeps(c, mid.(pending := mid.pending + calls[|calls| - 1]));
    }
  }

  // ----- conservation -----

  datatype Event<V> = Flushed(batch: seq<Pair<V>>) | Discarded(rest: seq<Pair<V>>)

  function Payload<V>(e: Event<V>): seq<Pair<V>> {
    match e
    case Flushed(batch) => batch
    case Discarded(rest) => rest
  }

  function Payloads<V>(events: seq<Event<V>>): seq<Pair<V>> {
    if |events| == 0 then [] else Payload(events[0]) + Payloads(events[1..])
  }

  function Flushes<V>(events: seq<Event<V>>): nat {
    if |events| == 0 then 0 else (if events[0].Flushed? then 1 else 0) + Flushes(events[1..])
  }

  /** The history of one flush loop: generations handed to the library and buffers a
      restart threw away. */
  function History<V>(c: Config, s: State<V>): seq<Event<V>>
    requires s.popSize >= 1
    decreases |s.pending|
  {
    if |s.pending| < s.popSize then [] else
      var flushed := Flush(c, s);
      var settled := Settle(c, flushed);
      [Flushed(s.pending[..s.popSize])]
      + (if settled.restarts != flushed.restarts then [Discarded(flushed.pending)] else [])
      + History(c, settled)
  }

  lemma {:induction false} PayloadsSplit<V>(a: seq<Event<V>>, b: seq<Event<V>>)
    ensures Payloads(a + b) == Payloads(a) + Payloads(b)
    ensures Flushes(a + b) == Flushes(a) + Flushes(b)
  {
    if |a| > 0 {
      PayloadsSplit(a[1..], b);
      assert (a + b)[1..] == a[1..] + b;
    } else {
      assert a + b == b;
    }
  }

  lemma FlushParts<V>(c: Config, s: State<V>)
    requires 1 <= s.popSize <= |s.pending|
    ensures s.pending == s.pending[..s.popSize] + Flush(c, s).pending
    ensures Flush(c, s).generation == s.generation + 1 && Flush(c, s).restarts == s.restarts
    ensures Flush(c, s).popSize == s.popSize
  {
  }

  lemma SettleParts<V>(c: Config, s: State<V>)
    ensures Settle(c, s).generation == s.generation
    ensures Settle(c, s).pending == if Settle(c, s).restarts != s.restarts then [] else s.pending
    ensures s.popSize >= 1 ==> Settle(c, s).popSize >= 1
  {
  }

  lemma {:induction false} HistoryHead<V>(e: Event<V>, rest: seq<Event<V>>)
    ensures Payloads([e] + rest) == Payload(e) + Payloads(rest)
    ensures Flushes([e] + rest) == (if e.Flushed? then 1 else 0) + Flushes(rest)
  {
    assert ([e] + rest)[1..] == rest;
  }

  lemma {:induction false} HistoryStep<V>(c: Config, s: State<V>)
    requires 1 <= s.popSize <= |s.pending|
    ensures var flushed := Flush(c, s);
      var settled := Settle(c, flushed);
      && settled.popSize >= 1
      && Payloads(History(c, s)) == s.pending[..s.popSize]
           + (if settled.restarts != flushed.restarts then flushed.pending else [])
           + Payloads(History(c, settled))
      && Flushes(History(c, s)) == 1 + Flushes(History(c, settled))
  {
    hide Flush, Settle, Payloads, Flushes;
    var flushed := Flush(c, s);
    FlushParts(c, s);
    SettleParts(c, flushed);
    var settled := Settle(c, flushed);
    var batch, rest := s.pending[..s.popSize], History(c, settled);
    var gone := if settled.restarts != flushed.restarts then [Discarded(flushed.pending)] else [];
    assert History(c, s) == [Flushed(batch)] + gone + rest;
    PayloadsSplit([Flushed(batch)] + gone, rest);
    HistoryHead(Flushed(batch), gone);
    if settled.restarts != flushed.restarts {
      HistoryHead(Discarded(flushed.pending), []);
      assert gone + [] == gone;
    }
    NoHistory<V>();
  }

  /** Nothing told is lost or invented: in order, the buffer is the flushed generations,
      the discarded buffers and what is still pending. */
  lemma {:induction false} FlushAllConserves<V>(c: Config, s: State<V>)
    requires s.popSize >= 1
    ensures Payloads(History(c, s)) + FlushAll(c, s).pending == s.pending
    ensures FlushAll(c, s).generation == s.generation + Flushes(History(c, s))
    decreases |s.pending|, 1
  {
    if |s.pending| < s.popSize {
      NoHistory<V>();
    } else {
      FlushStepConserves(c, s);
    }
  }

  lemma {:induction false} FlushStepConserves<V>(c: Config, s: State<V>)
    requires 1 <= s.popSize <= |s.pending|
    ensures Payloads(History(c, s)) + FlushAll(c, s).pending == s.pending
    ensures FlushAll(c, s).generation == s.generation + Flushes(History(c, s))
    decreases |s.pending|, 0
  {
    hide Flush, Settle, Payloads, Flushes, History, FlushAll;
    var flushed := Flush(c, s);
    FlushParts(c, s);
    SettleParts(c, flushed);
    HistoryStep(c, s);
    FlushAllStep(c, s);
    var settled := Settle(c, flushed);
    FlushAllConserves(c, settled);
    var batch, now, e := s.pending[..s.popSize], Payloads(History(c, settled)), FlushAll(c, settled).pending;
    if settled.restarts != flushed.restarts {
      assert now == [] && e == [];
      assert (batch + flushed.pending + now) + e == batch + flushed.pending;
    } else {
      assert (batch + [] + now) + e == batch + (now + e);
    }
  }

  lemma NoHistory<V>()
    ensures Payloads<V>([]) == [] && Flushes<V>([]) == 0
  {
  }

  function RunHistory<V>(c: Config, s: State<V>, calls: seq<seq<Pair<V>>>): seq<Event<V>>
    requires s.popSize >= 1
  {
    if |calls| == 0 then [] else
      var mid := Run(c, s, calls[..|calls| - 1]);
      RunHistory(c, s, calls[..|calls| - 1])
      + History(c, mid.(pending := mid.pending + calls[|calls| - 1]))
  }

  function Concat<V>(calls: seq<seq<Pair<V>>>): seq<Pair<V>> {
    if |calls| == 0 then [] else Concat(calls[..|calls| - 1]) + calls[|calls| - 1]
  }

  lemma {:induction false} Regroup<T>(a: seq<T>, b: seq<T>, c: seq<T>, d: seq<T>, e: seq<T>)
    requires b + c == d + e
    ensures (a + b) + c == (a + d) + e
  {
    assert (a + b) + c == a + (b + c);
    assert (a + d) + e == a + (d + e);
  }

  /** Over a whole run the told pairs are, in order, the flushed, the discarded and the
      pending ones, and the generation counter counts the flushes. */
  lemma {:induction false} RunConserves<V>(c: Config, s: State<V>, calls: seq<seq<Pair<V>>>)
    requires s.popSize >= 1 && s.pending == [] && s.generation == 0
    ensures Payloads(RunHistory(c, s, calls)) + Run(c, s, calls).pending == Concat(calls)
    ensures Run(c, s, calls).generation == Flushes(RunHistory(c, s, calls))
  {
    hide Payloads, Flushes;
    if |calls| == 0 {
      NoHistory<V>();
    } else {
      var front, last := calls[..|calls| - 1], calls[|calls| - 1];
      RunConserves(c, s, front);
      var mid, e := Run(c, s, front), Run(c, s, calls);
      var loaded := mid.(pending := mid.pending + last);
      FlushAllConserves(c, loaded);
      PayloadsSplit(RunHistory(c, s, front), History(c, loaded));
      var past, now := Payloads(RunHistory(c, s, front)), Payloads(History(c, loaded));
      Regroup(past, now, e.pending, mid.pending, last);
    }
  }

  /** What the present library object was told are generations of its own size. */
  ghost predicate GenerationsComplete<V>(s: State<V>) {
    s.optimizer.popSize == s.popSize
    && forall k :: 0 <= k < |s.optimizer.told| ==> |s.optimizer.told[k]| == s.popSize
  }

  lemma {:induction false} FlushAllComplete<V>(c: Config, s: State<V>)
    requires s.popSize >= 1 && GenerationsComplete(s)
    ensures GenerationsComplete(FlushAll(c, s))
    decreases |s.pending|
  {
    hide MaxScore, Improves;
    if |s.pending| < s.popSize {
    } else {
      FlushAllComplete(c, Settle(c, Flush(c, s)));
    }
  }

  /** The population size and the number of restarts after these events: each buffer thrown away
      is a restart. */
  function InForce<V>(popSize: nat, restarts: nat, events: seq<Event<V>>): (nat, nat)
    decreases |events|
  {
    if |events| == 0 then (popSize, restarts)
    else if events[0].Flushed? then InForce(popSize, restarts, events[1..])
    else InForce(NextPopulation(popSize, restarts + 1), restarts + 1, events[1..])
  }

  /** Every generation flushed has the population size in force when it is. */
  ghost predicate WholeGenerations<V>(popSize: nat, restarts: nat, events: seq<Event<V>>) {
    forall i | 0 <= i < |events| && events[i].Flushed? :: |events[i].batch| == InForce(popSize, restarts, events[..i]).0
  }

  lemma {:induction false} InForceHead<V>(popSize: nat, restarts: nat, e: Event<V>, rest: seq<Event<V>>)
    ensures var (pop, r) := InForce(popSize, restarts, [e]);
      InForce(popSize, restarts, [e] + rest) == InForce(pop, r, rest)
  {
    assert ([e] + rest)[1..] == rest;
  }

  lemma {:induction false} WholeHead<V>(popSize: nat, restarts: nat, e: Event<V>, rest: seq<Event<V>>)
    requires e.Flushed? ==> |e.batch| == popSize
    requires var (pop, r) := InForce(popSize, restarts, [e]); WholeGenerations(pop, r, rest)
    ensures WholeGenerations(popSize, restarts, [e] + rest)
    ensures var (pop, r) := InForce(popSize, restarts, [e]);
      InForce(popSize, restarts, [e] + rest) == InForce(pop, r, rest)
  {
    InForceHead(popSize, restarts, e, rest);
    forall i | 0 <= i < |[e] + rest| && ([e] + rest)[i].Flushed?
      ensures |([e] + rest)[i].batch| == InForce(popSize, restarts, ([e] + rest)[..i]).0
    {
      if i > 0 {
        assert ([e] + rest)[..i] == [e] + rest[..i - 1];
        InForceHead(popSize, restarts, e, rest[..i - 1]);
        assert rest[i - 1].Flushed?;
      }
    }
  }

  lemma {:induction false} WholeSplit<V>(popSize: nat, restarts: nat, a: seq<Event<V>>, b: seq<Event<V>>)
    requires WholeGenerations(popSize, restarts, a)
    requires var (pop, r) := InForce(popSize, restarts, a); WholeGenerations(pop, r, b)
    ensures WholeGenerations(popSize, restarts, a + b)
    ensures var (pop, r) := InForce(popSize, restarts, a);
      InForce(popSize, restarts, a + b) == InForce(pop, r, b)
    decreases |a|
  {
    hide WholeGenerations;
    if |a| == 0 {
      assert a + b == b;
    } else {
      WholeTail(popSize, restarts, a);
      var (pop, r) := InForce(popSize, restarts, [a[0]]);
      WholeSplit(pop, r, a[1..], b);
      WholeHead(popSize, restarts, a[0], a[1..] + b);
      assert a + b == [a[0]] + (a[1..] + b);
    }
  }

  lemma {:induction false} WholeTail<V>(popSize: nat, restarts: nat, a: seq<Event<V>>)
    requires |a| > 0 && WholeGenerations(popSize, restarts, a)
    ensures a[0].Flushed? ==> |a[0].batch| == popSize
    ensures var (pop, r) := InForce(popSize, restarts, [a[0]]);
      WholeGenerations(pop, r, a[1..]) && InForce(popSize, restarts, a) == InForce(pop, r, a[1..])
  {
    if a[0].Flushed? {
      assert |a[0].batch| == InForce(popSize, restarts, a[..0]).0;
    }
    var (pop, r) := InForce(popSize, restarts, [a[0]]);
    InForceHead(popSize, restarts, a[0], a[1..]);
    assert a == [a[0]] + a[1..];
    forall i | 0 <= i < |a[1..]| && a[1..][i].Flushed?
      ensures |a[1..][i].batch| == InForce(pop, r, a[1..][..i]).0
    {
      var next := i + 1;
      assert a[next].Flushed? && |a[next].batch| == InForce(popSize, restarts, a[..next]).0;
      assert a[..next] == [a[0]] + a[1..][..i];
      InForceHead(popSize, restarts, a[0], a[1..][..i]);
    }
  }

  lemma {:induction false} FlushAllWhole<V>(c: Config, s: State<V>)
    requires s.popSize >= 1
    ensures WholeGenerations(s.popSize, s.restarts, History(c, s))
    ensures InForce(s.popSize, s.restarts, History(c, s)) == (FlushAll(c, s).popSize, FlushAll(c, s).restarts)
    decreases |s.pending|
  {
    hide MaxScore, Improves, NextPopulation, WholeGenerations;
    if |s.pending| < s.popSize {
      NothingWhole<V>(s.popSize, s.restarts);
    } else {
      var flushed := Flush(c, s);
      var settled := Settle(c, flushed);
      SettleParts(c, flushed);
      FlushAllWhole(c, settled);
      var head: Event<V> := Flushed(s.pending[..s.popSize]);
      var rest := History(c, settled);
      if settled.restarts != flushed.restarts {
        WholeHead(s.popSize, s.restarts, Discarded(flushed.pending), rest);
        WholeHead(s.popSize, s.restarts, head, [Discarded(flushed.pending)] + rest);
        assert History(c, s) == [head] + ([Discarded(flushed.pending)] + rest);
      } else {
        WholeHead(s.popSize, s.restarts, head, rest);
        assert History(c, s) == [head] + rest;
      }
    }
  }

  lemma NothingWhole<V>(popSize: nat, restarts: nat)
    ensures WholeGenerations<V>(popSize, restarts, [])
  {
  }

  /** Over any sequence of tells, every batch that any library object was ever told has the
      population size in force, batches told to objects that a restart replaced included; and
      what the present object was told are whole generations of its own size. */
  lemma {:induction false} RunComplete<V>(c: Config, s: State<V>, calls: seq<seq<Pair<V>>>)
    requires s.popSize >= 1
    ensures WholeGenerations(s.popSize, s.restarts, RunHistory(c, s, calls))
    ensures InForce(s.popSize, s.restarts, RunHistory(c, s, calls)) ==
      (Run(c, s, calls).popSize, Run(c, s, calls).restarts)
    ensures GenerationsComplete(s) ==> GenerationsComplete(Run(c, s, calls))
  {
    hide WholeGenerations, History, FlushAll;
    if |calls| == 0 {
      NothingWhole<V>(s.popSize, s.restarts);
    } else {
      var front, last := calls[..|calls| - 1], calls[|calls| - 1];
      RunComplete(c, s, front);
      var mid := Run(c, s, front);
      var loaded := mid.(pending := mid.pending + last);
      FlushAllWhole(c, loaded);
      WholeSplit(s.popSize, s.restarts, RunHistory(c, s, front), History(c, loaded));
      if GenerationsComplete(s) {
        FlushAllComplete(c, loaded);
      }
    }
  }

  // ----- what the library is told -----

  /** The library minimises; an infinite cost is the greatest. */
  predicate Cheaper(a: Cost, b: Cost) {
    a.Cost? && (b.PosInf? || a.v < b.v)
  }

  lemma NegateReverses(a: Score, b: Score)
    ensures Cheaper(Negate(a), Negate(b)) <==> Better(a, b)
    ensures Negate(a) == Negate(b) <==> a == b
  {
  }

  /** The library was told these candidates, in this order, and finds one cheaper than another
      exactly if it scored better; so its cheapest ones are the ones of greatest score. */
  ghost predicate ToldFor<V>(solutions: seq<(V, Cost)>, batch: seq<Pair<V>>) {
    && |solutions| == |batch|
    && (forall i | 0 <= i < |batch| :: solutions[i].0 == batch[i].candidate)
    && (forall i, j | 0 <= i < |batch| && 0 <= j < |batch| ::
          Cheaper(solutions[i].1, solutions[j].1) <==> Better(batch[i].score, batch[j].score))
  }

  /** The generations flushed since the last restart. */
  function SinceRestart<V>(before: seq<seq<Pair<V>>>, events: seq<Event<V>>): seq<seq<Pair<V>>>
    decreases |events|
  {
    if |events| == 0 then before
    else if events[0].Flushed? then SinceRestart(before + [events[0].batch], events[1..])
    else SinceRestart([], events[1..])
  }

  ghost predicate AllToldFor<V>(told: seq<seq<(V, Cost)>>, batches: seq<seq<Pair<V>>>) {
    |told| == |batches| && forall k | 0 <= k < |told| :: ToldFor(told[k], batches[k])
  }

  lemma {:induction false} SolutionsToldFor<V>(batch: seq<Pair<V>>)
    ensures ToldFor(Solutions(batch), batch)
  {
    hide Negate, Better, Cheaper;
    forall i, j | 0 <= i < |batch| && 0 <= j < |batch|
      ensures Cheaper(Solutions(batch)[i].1, Solutions(batch)[j].1) <==> Better(batch[i].score, batch[j].score)
    {
      NegateReverses(batch[i].score, batch[j].score);
    }
  }

  lemma {:induction false} SinceSplit<V>(before: seq<seq<Pair<V>>>, a: seq<Event<V>>, b: seq<Event<V>>)
    ensures SinceRestart(before, a + b) == SinceRestart(SinceRestart(before, a), b)
    decreases |a|
  {
    if |a| == 0 {
      assert a + b == b;
    } else {
      assert (a + b)[1..] == a[1..] + b;
      SinceSplit(if a[0].Flushed? then before + [a[0].batch] else [], a[1..], b);
    }
  }

  lemma {:induction false} FlushAllTold<V>(c: Config, s: State<V>, before: seq<seq<Pair<V>>>)
    requires s.popSize >= 1 && AllToldFor(s.optimizer.told, before)
    ensures AllToldFor(FlushAll(c, s).optimizer.told, SinceRestart(before, History(c, s)))
    decreases |s.pending|
  {
    hide MaxScore, Improves, NextPopulation, ToldFor, Solutions;
    if |s.pending| < s.popSize {
    } else {
      var flushed := Flush(c, s);
      var settled := Settle(c, flushed);
      SettleParts(c, flushed);
      var batch := s.pending[..s.popSize];
      SolutionsToldFor(batch);
      var now := before + [batch];
      var head: seq<Event<V>> := [Flushed(batch)];
      var gone: seq<Event<V>> := if settled.restarts != flushed.restarts then [Discarded(flushed.pending)] else [];
      FlushAllTold(c, settled, if settled.restarts != flushed.restarts then [] else now);
      SinceSplit(before, head + gone, History(c, settled));
      SinceSplit(before, head, gone);
      SinceOne(before, Flushed(batch));
      if settled.restarts != flushed.restarts {
        SinceOne(now, Discarded(flushed.pending));
      }
    }
  }

  lemma SinceOne<V>(before: seq<seq<Pair<V>>>, e: Event<V>)
    ensures SinceRestart(before, [e]) == if e.Flushed? then before + [e.batch] else []
  {
  }

  /** Over any sequence of tells, what the present library object was told are the generations
      flushed since the last restart, each with its candidates in order and its scores in
      reversed order. */
  lemma {:induction false} RunTold<V>(c: Config, pop: nat, calls: seq<seq<Pair<V>>>)
    requires pop >= 1
    ensures AllToldFor(Run(c, Initial(c, pop), calls).optimizer.told,
                       SinceRestart([], RunHistory(c, Initial(c, pop), calls)))
  {
    hide AllToldFor, History, FlushAll, SinceRestart;
    var s := Initial<V>(c, pop);
    if |calls| == 0 {
      NothingTold<V>();
    } else {
      var front, last := calls[..|calls| - 1], calls[|calls| - 1];
      RunTold(c, pop, front);
      var mid := Run(c, s, front);
      var loaded := mid.(pending := mid.pending + last);
      FlushAllTold(c, loaded, SinceRestart([], RunHistory(c, s, front)));
      SinceSplit([], RunHistory(c, s, front), History(c, loaded));
    }
  }

  lemma NothingTold<V>()
    ensures AllToldFor<V>([], SinceRestart<V>([], []))
  {
  }

  // ----- one generation -----

  lemma {:induction false} MaxIsGreatest<V>(batch: seq<Pair<V>>)
    requires |batch| > 0
    ensures exists k :: 0 <= k < |batch| && batch[k].score == MaxScore(batch)
    ensures forall k | 0 <= k < |batch| :: !Better(batch[k].score, MaxScore(batch))
  {
    var n := |batch|;
    if n == 1 {
      assert batch[0].score == MaxScore(batch);
    } else {
      MaxIsGreatest(batch[..n - 1]);
      var k :| 0 <= k < n - 1 && batch[..n - 1][k].score == MaxScore(batch[..n - 1]);
      assert batch[k].score == MaxScore(batch[..n - 1]);
      assert MaxScore(batch) in {batch[k].score, batch[n - 1].score};
      forall j | 0 <= j < n
        ensures !Better(batch[j].score, MaxScore(batch))
      {
        if j < n - 1 {
          assert batch[j] == batch[..n - 1][j];
        }
      }
    }
  }

  /** What one flushed generation does, by its best score: a finite one that is more than tolfun
      above the best remembered, or the first, is remembered and ends the stagnation; any other
      generation stagnates. At the limit the instance converges if it has no restart left, and
      else restarts with a fresh library object, an odd restart with half the population and an
      even one with twice, between 16 and 4096. */
  lemma {:induction false} GenerationMeans<V>(c: Config, s: State<V>, top: Score)
    requires 1 <= s.popSize <= |s.pending|
    requires exists k :: 0 <= k < s.popSize && s.pending[k].score == top
    requires forall k | 0 <= k < s.popSize :: !Better(s.pending[k].score, top)
    ensures var e := Settle(c, Flush(c, s));
      var gains := top.Fin? && (s.best.Fin? ==> top.v - s.best.v > c.tolfun);
      var stagnation := if gains then 0 else s.stagnation + 1;
      && e.generation == s.generation + 1
      && (stagnation < c.stagnationLimit ==>
            && e.stagnation == stagnation && e.best == (if gains then top else s.best)
            && e.restarts == s.restarts && e.converged == s.converged && e.popSize == s.popSize
            && e.pending == s.pending[s.popSize..] && |e.optimizer.told| == |s.optimizer.told| + 1
            && e.optimizer.seed == s.optimizer.seed && e.optimizer.popSize == s.optimizer.popSize)
      && (stagnation >= c.stagnationLimit && s.restarts >= c.maxRestarts ==>
            && e.converged && e.restarts == s.restarts && e.popSize == s.popSize
            && e.stagnation == stagnation && e.best == (if gains then top else s.best)
            && e.pending == s.pending[s.popSize..] && |e.optimizer.told| == |s.optimizer.told| + 1)
      && (stagnation >= c.stagnationLimit && s.restarts < c.maxRestarts ==>
            && e.restarts == s.restarts + 1 && e.converged == s.converged
            && e.stagnation == 0 && e.best == NegInf && e.pending == [] && e.optimizer.told == []
            && e.optimizer.seed == c.seed + 1000 * e.restarts && e.optimizer.popSize == e.popSize
            && (e.restarts % 2 == 1 ==> if s.popSize < 32 then e.popSize == 16 else e.popSize == s.popSize / 2)
            && (e.restarts % 2 == 0 ==> if s.popSize > 2048 then e.popSize == 4096 else e.popSize == 2 * s.popSize))
  {
    hide MaxScore;
    var batch := s.pending[..s.popSize];
    MaxIsGreatest(batch);
    var k :| 0 <= k < s.popSize && s.pending[k].score == top;
    assert batch[k].score == top;
    var j :| 0 <= j < |batch| && batch[j].score == MaxScore(batch);
    assert !Better(s.pending[j].score, top);
    assert MaxScore(batch) == top;
  }

  /** Restarts come in pairs: from an even population between 32 and 4096 the odd ones halve it
      and the even ones restore it. */
  lemma {:induction false} PopulationAlternates(popSize: nat, restarts: nat)
    requires 32 <= popSize <= 4096 && popSize % 2 == 0 && restarts % 2 == 0
    ensures NextPopulation(popSize, restarts + 1) * 2 == popSize
    ensures NextPopulation(NextPopulation(popSize, restarts + 1), restarts + 2) == popSize
  {
  }

  /** Convergence is not early either: it takes the stagnation limit in generations before every
      restart and once more. */
  lemma {:induction false} ConvergenceIsEarned<V>(c: Config, pop: nat, calls: seq<seq<Pair<V>>>)
    requires pop >= 1 && c.stagnationLimit >= 1 && c.maxRestarts >= 0
    ensures var e := Run(c, Initial(c, pop), calls);
      e.converged ==> e.generation >= (c.maxRestarts + 1) * c.stagnationLimit
  {
    RunEarned(c, pop, calls);
  }

  ghost predicate Earned<V>(c: Config, s: State<V>) {
    && s.restarts <= c.maxRestarts
    && s.generation >= s.restarts * c.stagnationLimit + s.stagnation
    && (s.converged ==> s.generation >= (c.maxRestarts + 1) * c.stagnationLimit)
  }

  lemma {:induction false} FlushEarned<V>(c: Config, s: State<V>)
    requires c.stagnationLimit >= 1 && 1 <= s.popSize <= |s.pending| && Earned(c, s)
    ensures Earned(c, Settle(c, Flush(c, s)))
  {
    hide MaxScore, Improves, NextPopulation;
    var f := Flush(c, s);
    FlushMeans(c, s);
    assert Earned(c, f);
    assert (f.restarts + 1) * c.stagnationLimit == f.restarts * c.stagnationLimit + c.stagnationLimit;
    if f.stagnation >= c.stagnationLimit && f.restarts >= c.maxRestarts {
      assert f.restarts == c.maxRestarts;
    }
  }

  lemma {:induction false} FlushAllEarned<V>(c: Config, s: State<V>)
    requires c.stagnationLimit >= 1 && s.popSize >= 1 && Earned(c, s)
    ensures Earned(c, FlushAll(c, s))
    decreases |s.pending|
  {
    hide Flush, Settle, Earned;
    if |s.pending| < s.popSize {
      FlushAllDone(c, s);
    } else {
      FlushEarned(c, s);
      FlushParts(c, s);
      SettleParts(c, Flush(c, s));
      FlushAllStep(c, s);
      FlushAllEarned(c, Settle(c, Flush(c, s)));
    }
  }

  lemma {:induction false} RunEarned<V>(c: Config, pop: nat, calls: seq<seq<Pair<V>>>)
    requires pop >= 1 && c.stagnationLimit >= 1 && c.maxRestarts >= 0
    ensures Earned(c, Run(c, Initial(c, pop), calls))
  {
    hide FlushAll;
    if |calls| == 0 {
    } else {
      RunEarned(c, pop, calls[..|calls| - 1]);
      var mid := Run(c, Initial(c, pop), calls[..|calls| - 1]);
      FlushAllEarned(c, mid.(pending := mid.pending + calls[|calls| - 1]));
    }
  }

  // ----- bounded convergence -----

  /** The score range of a run; with `failures` a score may also be minus infinity. */
  datatype Range = Range(low: real, high: real, failures: bool)

  predicate InRange(r: Range, s: Score) {
    if s.Fin? then r.low <= s.v <= r.high else r.failures
  }

  predicate AllInRange<V>(r: Range, pairs: seq<Pair<V>>) {
    forall k :: 0 <= k < |pairs| ==> InRange(r, pairs[k].score)
  }

  predicate Tuned(c: Config, r: Range) {
    c.tolfun > 0.0 && c.stagnationLimit >= 1 && c.maxRestarts >= 0 && r.low <= r.high
  }

  /** How often a best score of `b` can still be improved. */
  function Climbs(c: Config, r: Range, b: real): int
    requires c.tolfun > 0.0
  {
    ((r.high - b) / c.tolfun).Floor
  }

  /** The largest number of improvements between two restarts. */
  function MaxClimbs(c: Config, r: Range): int
    requires c.tolfun > 0.0
  {
    1 + Climbs(c, r, r.low)
  }

  /** The longest possible stretch between two restarts, in generations. */
  function EraBound(c: Config, r: Range): int
    requires c.tolfun > 0.0
  {
    if r.failures then (MaxClimbs(c, r) + 1) * c.stagnationLimit
    else MaxClimbs(c, r) * c.stagnationLimit + 1
  }

  function EraLeft<V>(c: Config, r: Range, s: State<V>): int
    requires c.tolfun > 0.0
  {
    if s.best.Fin? then Climbs(c, r, s.best.v) * c.stagnationLimit + c.stagnationLimit - s.stagnation
    else if r.failures then MaxClimbs(c, r) * c.stagnationLimit + c.stagnationLimit - s.stagnation
    else MaxClimbs(c, r) * c.stagnationLimit + 1
  }

  /** An upper bound on the generations left until convergence. */
  function Left<V>(c: Config, r: Range, s: State<V>): int
    requires c.tolfun > 0.0
  {
    (c.maxRestarts - s.restarts) * EraBound(c, r) + EraLeft(c, r, s)
  }

  ghost predicate Searching<V>(c: Config, r: Range, s: State<V>) {
    && s.restarts <= c.maxRestarts
    && s.stagnation < c.stagnationLimit
    && InRange(r, if s.best.Fin? then s.best else Fin(r.low))
    && (s.best.NegInf? && !r.failures ==> s.stagnation == 0)
  }

  lemma {:induction false} MaxInRange<V>(r: Range, batch: seq<Pair<V>>)
    requires |batch| > 0 && AllInRange(r, batch)
    ensures InRange(r, MaxScore(batch))
  {
    if |batch| <= 1 {
    } else {
      MaxInRange(r, batch[..|batch| - 1]);
    }
  }

  /** A gain of more than tolfun uses up at least one climb. */
  lemma {:induction false} ClimbsDrop(c: Config, r: Range, before: real, after: real)
    requires c.tolfun > 0.0 && after > before + c.tolfun
    ensures Climbs(c, r, after) <= Climbs(c, r, before) - 1
  {
    var t := c.tolfun;
    DivMonotone(r.high - after, r.high - before - t, t);
    assert ((r.high - before) / t - 1.0) * t == r.high - before - t;
    ExactQuotient(r.high - before - t, t, (r.high - before) / t - 1.0);
  }

  lemma {:induction false} ClimbsNonNegative(c: Config, r: Range, b: real)
    requires c.tolfun > 0.0 && r.low <= b <= r.high
    ensures 0 <= Climbs(c, r, b) <= Climbs(c, r, r.low)
  {
    DivMonotone(0.0, r.high - b, c.tolfun);
    DivMonotone(r.high - b, r.high - r.low, c.tolfun);
  }

  lemma TimesMonotone(a: int, b: int, k: int)
    requires a <= b && k >= 0
    ensures a * k <= b * k
  {
  }

  lemma {:induction false} OneClimb(a: int, b: int, k: int)
    requires a <= b - 1 && k >= 0
    ensures a * k + k <= b * k
  {
    TimesMonotone(a, b - 1, k);
    assert (b - 1) * k == b * k - k;
  }

  lemma {:induction false} ImprovementSpends<V>(c: Config, r: Range, s: State<V>, m: real)
    requires Tuned(c, r) && Searching(c, r, s) && InRange(r, Fin(m)) && Improves(Fin(m), s.best, c.tolfun)
    ensures Climbs(c, r, m) * c.stagnationLimit + c.stagnationLimit <= EraLeft(c, r, s) - 1
  {
    hide Climbs;
    ClimbsNonNegative(c, r, m);
    if s.best.Fin? {
      ClimbsDrop(c, r, s.best.v, m);
      OneClimb(Climbs(c, r, m), Climbs(c, r, s.best.v), c.stagnationLimit);
    } else {
      OneClimb(Climbs(c, r, m), MaxClimbs(c, r), c.stagnationLimit);
    }
  }

  lemma StagnationSpends<V>(c: Config, r: Range, s: State<V>, f: State<V>)
    requires Tuned(c, r) && Searching(c, r, s) && (s.best.NegInf? ==> r.failures)
    requires f.best == s.best && f.stagnation == s.stagnation + 1 && f.restarts == s.restarts
    ensures EraLeft(c, r, f) == EraLeft(c, r, s) - 1
    ensures f.stagnation < c.stagnationLimit ==> Searching(c, r, f)
    ensures f.stagnation == c.stagnationLimit ==> EraLeft(c, r, f) >= 0
  {
  }

  lemma {:induction false} FlushSpends<V>(c: Config, r: Range, s: State<V>)
    requires Tuned(c, r) && Searching(c, r, s)
    requires 1 <= s.popSize <= |s.pending| && AllInRange(r, s.pending)
    ensures var f := Flush(c, s);
      && EraLeft(c, r, f) <= EraLeft(c, r, s) - 1
      && f.stagnation <= c.stagnationLimit
      && (f.stagnation < c.stagnationLimit ==> Searching(c, r, f))
      && (f.stagnation == c.stagnationLimit ==> EraLeft(c, r, f) >= 0)
  {
    hide Climbs, MaxScore, Flush;
    var f := Flush(c, s);
    var m := MaxScore(s.pending[..s.popSize]);
    FlushMeans(c, s);
    MaxInRange(r, s.pending[..s.popSize]);
    if Improves(m, s.best, c.tolfun) {
      ImprovementSpends(c, r, s, m.v);
    } else {
      StagnationSpends(c, r, s, f);
    }
  }

  /** A generation that does not bring convergence spends at least one unit of the bound. */
  lemma {:induction false} SettleSpends<V>(c: Config, r: Range, s: State<V>)
    requires Tuned(c, r) && Searching(c, r, s) && !s.converged
    requires 1 <= s.popSize <= |s.pending| && AllInRange(r, s.pending)
    ensures var e := Settle(c, Flush(c, s));
      e.converged || (Searching(c, r, e) && Left(c, r, e) <= Left(c, r, s) - 1)
  {
    hide Climbs, MaxScore, Improves;
    FlushSpends(c, r, s);
    var f := Flush(c, s);
    if f.stagnation == c.stagnationLimit && f.restarts < c.maxRestarts {
      var b := EraBound(c, r);
      assert (c.maxRestarts - f.restarts) * b == (c.maxRestarts - f.restarts - 1) * b + b;
      ClimbsNonNegative(c, r, r.low);
      assert (MaxClimbs(c, r) + 1) * c.stagnationLimit
          == MaxClimbs(c, r) * c.stagnationLimit + c.stagnationLimit;
    }
  }

  /** The bound on generations holds as long as the instance has not converged. */
  ghost predicate OnBudget<V>(c: Config, r: Range, s: State<V>)
    requires c.tolfun > 0.0
  {
    s.converged || (Searching(c, r, s) && s.generation + Left(c, r, s) <= (c.maxRestarts + 1) * EraBound(c, r))
  }

  lemma {:induction false} FlushAllOnBudget<V>(c: Config, r: Range, s: State<V>)
    requires Tuned(c, r) && s.popSize >= 1 && AllInRange(r, s.pending) && OnBudget(c, r, s)
    ensures OnBudget(c, r, FlushAll(c, s)) && AllInRange(r, FlushAll(c, s).pending)
    decreases |s.pending|
  {
    hide MaxScore, Improves, Left, Searching;
    if |s.pending| < s.popSize {
    } else {
      if !s.converged {
        SettleSpends(c, r, s);
      }
      FlushAllOnBudget(c, r, Settle(c, Flush(c, s)));
    }
  }

  lemma {:induction false} RunOnBudget<V>(c: Config, r: Range, pop: nat, calls: seq<seq<Pair<V>>>)
    requires Tuned(c, r) && pop >= 1 && forall k :: 0 <= k < |calls| ==> AllInRange(r, calls[k])
    ensures var e := Run(c, Initial(c, pop), calls);
      OnBudget(c, r, e) && AllInRange(r, e.pending)
  {
    hide FlushAll;
    if |calls| == 0 {
    } else {
      RunOnBudget(c, r, pop, calls[..|calls| - 1]);
      var mid := Run(c, Initial(c, pop), calls[..|calls| - 1]);
      FlushAllOnBudget(c, r, mid.(pending := mid.pending + calls[|calls| - 1]));
    }
  }

  /** Bounded convergence: with all scores in [low, high], an instance that is only told
      has converged once it has flushed (max_restarts + 1) eras, of M * stagnation_limit + 1
      generations each, or (M + 1) * stagnation_limit if folds may fail, where
      M = 1 + floor((high - low) / tolfun). */
  lemma {:induction false} BoundedConvergence<V>(c: Config, r: Range, pop: nat, calls: seq<seq<Pair<V>>>)
    requires Tuned(c, r) && pop >= 1 && forall k :: 0 <= k < |calls| ==> AllInRange(r, calls[k])
    ensures var m := 1 + ((r.high - r.low) / c.tolfun).Floor;
      var era := if r.failures then (m + 1) * c.stagnationLimit else m * c.stagnationLimit + 1;
      var e := Run(c, Initial(c, pop), calls);
      e.generation >= (c.maxRestarts + 1) * era ==> e.converged
  {
    hide Run;
    RunOnBudget(c, r, pop, calls);
    var e := Run(c, Initial(c, pop), calls);
    if !e.converged {
      TimesMonotone(0, c.maxRestarts - e.restarts, EraBound(c, r));
    }
  }
}
