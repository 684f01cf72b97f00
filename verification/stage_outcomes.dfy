/** What one call of the runner does, as a function of what its executors do. */
module StageOutcomes {
  import opened PipelineRuns
  import opened PipelineState
  import opened Wrappers

  /** What one call of an executor does. */
  datatype Attempt =
    | Raises(error: PipelineError)
    | Returns(outcome: Outcome, reported: Option<PipelineError>)

  datatype Config = Config(executors: set<Stage>, maxAttempts: nat)

  /** What happens around one call of the runner: every attempt at every stage, and whether the
      stage's artifact is found valid. A call attempts and checks a stage at most once. */
  datatype World = World(attempt: (Stage, nat) -> Attempt, valid: Stage -> bool)

  /** The state in memory and the state file. */
  datatype Copies = Copies(mem: State, file: State)

  /** `handle_error`: record and save; resource pressure is then forgiven, in memory only. */
  function Handled(c: Copies, e: PipelineError): Copies {
    Copies(
      c.mem.(error := if e.category == ResourcePressure then None else Some(e)),
      c.mem.(error := Some(e)))
  }

  predicate Retried(e: PipelineError) {
    e.category == ResourcePressure || e.category == ExternalFailure
  }

  /** The attempts at a stage from number a on. */
  function Tried(k: Config, w: World, a: nat, c: Copies): Copies
    decreases k.maxAttempts - a
  {
    match w.attempt(c.mem.current, a)
    case Raises(e) =>
      if Retried(e) && a < k.maxAttempts then Tried(k, w, a + 1, Handled(c, e)) else Handled(c, e)
    case Returns(outcome, reported) => Finished(outcome, reported, c)
  }

  /** After the attempts: an error reported is handled; a failure reported with it is saved. */
  function Finished(outcome: Outcome, reported: Option<PipelineError>, c: Copies): Copies {
    if reported.None? then c.(mem := Completing(c.mem, outcome))
    else if outcome != Failed then Handled(c, reported.value)
    else Both(Completing(Handled(c, reported.value).mem, Failed))
  }

  /** `_execute_stage`. */
  function Executed(k: Config, w: World, c: Copies): Copies {
    if c.mem.current !in k.executors then c.(mem := Completing(c.mem, Skipped)) else Tried(k, w, 0, c)
  }

  /** `_execute_stages`. */
  function Reaches(k: Config, w: World, c: Copies): Copies
    decreases 13 - Index(c.mem.current)
  {
    if Gated(c.mem.current) then Copies(c.mem, c.mem) else
      var e := Executed(k, w, c);
      ExecutedStays(k, w, c);
      if e.mem.error.Some? then e
      else if !CanMove(e.mem, w.valid(e.mem.current)) then Copies(e.mem, e.mem)
      else
        TargetIsNext(e.mem.current);
        Reaches(k, w, Both(Move(e.mem)))
  }

  function Both(s: State): Copies {
    Copies(s, s)
  }

  // ----- one stage -----

  /** The errors that attempts at a stage meet, raised or reported, in order. */
  function Errors(k: Config, w: World, stage: Stage, a: nat): seq<PipelineError>
    decreases k.maxAttempts - a
  {
    match w.attempt(stage, a)
    case Raises(e) => [e] + if Retried(e) && a < k.maxAttempts then Errors(k, w, stage, a + 1) else []
    case Returns(_, None) => []
    case Returns(_, Some(e)) => [e]
  }

  /** The completion that the attempts end with, if any. */
  function Result(k: Config, w: World, stage: Stage, a: nat): Option<Outcome>
    decreases k.maxAttempts - a
  {
    match w.attempt(stage, a)
    case Raises(e) => if Retried(e) && a < k.maxAttempts then Result(k, w, stage, a + 1) else None
    case Returns(outcome, None) => Some(outcome)
    case Returns(outcome, Some(e)) => if outcome == Failed then Some(Failed) else None
  }

  function ErrorsOf(k: Config, w: World, stage: Stage): seq<PipelineError> {
    if stage in k.executors then Errors(k, w, stage, 0) else []
  }

  function ResultOf(k: Config, w: World, stage: Stage): Option<Outcome> {
    if stage in k.executors then Result(k, w, stage, 0) else Some(Skipped)
  }

  /** The error that a sequence of errors leaves. */
  function ErrorAfter(before: Option<PipelineError>, errors: seq<PipelineError>): Option<PipelineError> {
    if |errors| == 0 then before
    else if errors[|errors| - 1].category == ResourcePressure then None
    else Some(errors[|errors| - 1])
  }

  function WithResult(s: State, r: Option<Outcome>): State {
    if r.None? then s else Completing(s, r.value)
  }

  /** Memory after the attempts: the error is the last one met, unless that was resource
      pressure; the completion is the result of the last attempt. */
  lemma {:induction false} TriedMeans(k: Config, w: World, a: nat, c: Copies)
    ensures Tried(k, w, a, c).mem ==
      WithResult(c.mem, Result(k, w, c.mem.current, a)).(
        error := ErrorAfter(c.mem.error, Errors(k, w, c.mem.current, a)))
    decreases k.maxAttempts - a
  {
    match w.attempt(c.mem.current, a)
    case Raises(e) =>
      if Retried(e) && a < k.maxAttempts {
        TriedMeans(k, w, a + 1, Handled(c, e));
      }
    case Returns(_, _) =>
  }

  lemma {:induction false} ExecutedMeans(k: Config, w: World, c: Copies)
    ensures Executed(k, w, c).mem ==
      WithResult(c.mem, ResultOf(k, w, c.mem.current)).(
        error := ErrorAfter(c.mem.error, ErrorsOf(k, w, c.mem.current)))
  {
    if c.mem.current in k.executors {
      TriedMeans(k, w, 0, c);
    }
  }

  lemma {:induction false} ExecutedStays(k: Config, w: World, c: Copies)
    ensures Executed(k, w, c).mem.current == c.mem.current
  {
    ExecutedMeans(k, w, c);
  }

  /** Exactly when executing a stage leaves no error: none was met and none stood, or the last one
      met was resource pressure. */
  predicate Clean(before: Option<PipelineError>, errors: seq<PipelineError>) {
    if |errors| == 0 then before.None? else errors[|errors| - 1].category == ResourcePressure
  }

  lemma {:induction false} ErrorFreeIff(k: Config, w: World, c: Copies)
    ensures Executed(k, w, c).mem.error.None? <==> Clean(c.mem.error, ErrorsOf(k, w, c.mem.current))
  {
    ExecutedMeans(k, w, c);
  }

  // ----- one stage: the attempt that ends it -----

  /** Attempt a is the last one made: all before it met errors that are retried, and it returned,
      met one that is not, or was the last one allowed. */
  ghost predicate LastMade(k: Config, w: World, stage: Stage, a: nat) {
    && a <= k.maxAttempts
    && (forall j | 0 <= j < a ::
          w.attempt(stage, j).Raises? && w.attempt(stage, j).error.category in {ResourcePressure, ExternalFailure})
    && (a == k.maxAttempts || w.attempt(stage, a).Returns?
        || w.attempt(stage, a).error.category !in {ResourcePressure, ExternalFailure})
  }

  /** There is exactly one. */
  lemma {:induction false} SomeLastMade(k: Config, w: World, stage: Stage, from: nat) returns (a: nat)
    requires from <= k.maxAttempts
    requires forall j | 0 <= j < from ::
      w.attempt(stage, j).Raises? && w.attempt(stage, j).error.category in {ResourcePressure, ExternalFailure}
    ensures LastMade(k, w, stage, a)
    ensures forall b | LastMade(k, w, stage, b) :: b == a
    decreases k.maxAttempts - from
  {
    var last := w.attempt(stage, from);
    if from == k.maxAttempts || last.Returns? || last.error.category !in {ResourcePressure, ExternalFailure} {
      a := from;
    } else {
      a := SomeLastMade(k, w, stage, from + 1);
    }
  }

  /** A state with this error met and, in memory, forgiven if it was resource pressure. */
  function Met(s: State, e: PipelineError): Copies {
    Copies(if e.category == ResourcePressure then s.(error := None) else s.(error := Some(e)), s.(error := Some(e)))
  }

  /** What executing a stage leaves depends on the last attempt made and the one before it only. An
      error raised stands alone; a result without an error adds its completion in memory to what
      the attempt before left; a result with an error leaves that error and, if it is a failure,
      a failed completion, saved. A stage without an executor is skipped. */
  lemma {:induction false} ExecutedByLastAttempt(k: Config, w: World, c: Copies, a: nat)
    requires LastMade(k, w, c.mem.current, a)
    ensures c.mem.current !in k.executors ==>
      Executed(k, w, c) == c.(mem := c.mem.(completed := c.mem.completed + [CompletedStage(c.mem.current, Skipped)]))
    ensures c.mem.current in k.executors ==>
      var left := if a == 0 then c else Met(c.mem, w.attempt(c.mem.current, a - 1).error);
      var r := Executed(k, w, c);
      match w.attempt(c.mem.current, a)
      case Raises(e) => r == Met(c.mem, e)
      case Returns(outcome, None) =>
        && r.file == left.file
        && r.mem == left.mem.(completed := c.mem.completed + [CompletedStage(c.mem.current, outcome)])
      case Returns(Failed, Some(e)) =>
        r.file == r.mem == Met(c.mem, e).mem.(completed := c.mem.completed + [CompletedStage(c.mem.current, Failed)])
      case Returns(_, Some(e)) => r == Met(c.mem, e)
  {
    if c.mem.current in k.executors {
      TriedUpTo(k, w, c, 0, a);
    }
  }

  /** The retried attempts before the last one leave nothing but the last of their errors. */
  lemma {:induction false} TriedUpTo(k: Config, w: World, c: Copies, b: nat, a: nat)
    requires b <= a && LastMade(k, w, c.mem.current, a)
    ensures Tried(k, w, b, c) ==
      Tried(k, w, a, if a == b then c else Met(c.mem, w.attempt(c.mem.current, a - 1).error))
    decreases a - b
  {
    if a == b {
    } else {
      var e := w.attempt(c.mem.current, b).error;
      assert Tried(k, w, b, c) == Tried(k, w, b + 1, Met(c.mem, e));
      TriedUpTo(k, w, Met(c.mem, e), b + 1, a);
    }
  }

  /** An error that is not retried ends the call at its stage, saved, whatever later attempts or
      stages would do. */
  lemma {:induction false} OtherErrorsStop(k: Config, w: World, c: Copies, a: nat)
    requires c.mem.current in k.executors && !Gated(c.mem.current) && LastMade(k, w, c.mem.current, a)
    requires w.attempt(c.mem.current, a).Raises? && w.attempt(c.mem.current, a).error.category in {DataLogic, Other}
    ensures Reaches(k, w, c) == Executed(k, w, c) == Both(c.mem.(error := Some(w.attempt(c.mem.current, a).error)))
  {
    ExecutedByLastAttempt(k, w, c, a);
  }

  // ----- one stage: when the runner goes on -----

  /** After these results the latest completion of the stage is there and did not fail. */
  predicate DoneWith(completed: seq<CompletedStage>, stage: Stage, r: Option<Outcome>) {
    if r.None? then Done(completed, stage) else r.value != Failed
  }

  /** What a stage needs to be passed, read off the inputs alone. */
  predicate Passes(k: Config, w: World, stage: Stage, completed: seq<CompletedStage>, before: Option<PipelineError>) {
    && Clean(before, ErrorsOf(k, w, stage))
    && DoneWith(completed, stage, ResultOf(k, w, stage))
    && w.valid(stage)
  }

  lemma {:induction false} PassesMeans(k: Config, w: World, c: Copies)
    requires !Gated(c.mem.current)
    ensures Passes(k, w, c.mem.current, c.mem.completed, c.mem.error) <==>
      Executed(k, w, c).mem.error.None? && CanMove(Executed(k, w, c).mem, w.valid(c.mem.current))
  {
    hide LastCompleted, ErrorsOf, ResultOf, Executed;
    ExecutedMeans(k, w, c);
    var r := ResultOf(k, w, c.mem.current);
    if r.Some? {
      LastCompletedSnoc(c.mem.completed, CompletedStage(c.mem.current, r.value), c.mem.current);
    }
  }

  /** The stage after a call that passes the current one. */
  lemma {:induction false} PassedOn(k: Config, w: World, c: Copies) returns (next: State)
    requires !Gated(c.mem.current) && Passes(k, w, c.mem.current, c.mem.completed, c.mem.error)
    ensures Reaches(k, w, c) == Reaches(k, w, Both(next))
    ensures next.current == Target(c.mem.current) && next.error.None? && next.decisions == c.mem.decisions
    ensures Index(next.current) == Index(c.mem.current) + 1
    ensures next.completed == WithResult(c.mem, ResultOf(k, w, c.mem.current)).completed
  {
    hide ErrorsOf, ResultOf, Executed, Passes, CanMove, Index, ComputePending;
    PassesMeans(k, w, c);
    ExecutedMeans(k, w, c);
    TargetIsNext(c.mem.current);
    next := Move(Executed(k, w, c).mem);
  }

  /** A call that does not pass the current stage ends there, with what executing it left. */
  lemma {:induction false} NotPassed(k: Config, w: World, c: Copies)
    requires !Gated(c.mem.current) && !Passes(k, w, c.mem.current, c.mem.completed, c.mem.error)
    ensures Reaches(k, w, c).mem == Executed(k, w, c).mem
    ensures Reaches(k, w, c).mem.current == c.mem.current
  {
    hide Passes, CanMove, Executed;
    PassesMeans(k, w, c);
    ExecutedStays(k, w, c);
  }

  // ----- how far a call gets -----

  /** The gate at or after a stage. */
  function NextGate(s: Stage): (g: Stage)
    ensures Gated(g) && Index(s) <= Index(g)
    ensures forall h | Gated(h) && Index(s) <= Index(h) :: Index(g) <= Index(h)
  {
    if Index(s) <= 4 then ReviewPending else if Index(s) <= 11 then ScoringComplete else SelectionComplete
  }

  lemma SameGate(s: Stage)
    requires !Gated(s)
    ensures NextGate(Target(s)) == NextGate(s)
  {
  }

  /** No call goes back, passes a gate or decides at one. */
  lemma {:induction false} ReachesForward(k: Config, w: World, c: Copies)
    ensures var r := Reaches(k, w, c).mem;
      && Index(c.mem.current) <= Index(r.current) <= Index(NextGate(c.mem.current))
      && r.decisions == c.mem.decisions
    decreases 13 - Index(c.mem.current)
  {
    hide Index, NextGate, Passes, Executed, CanMove;
    if Gated(c.mem.current) {
    } else {
      if Passes(k, w, c.mem.current, c.mem.completed, c.mem.error) {
        var next := PassedOn(k, w, c);
        SameGate(c.mem.current);
        ReachesForward(k, w, Both(next));
      } else {
        NotPassed(k, w, c);
        ExecutedMeans(k, w, c);
      }
    }
  }

  /** What a stage on the way to the gate finds: the standing error meets the first one only. */
  predicate PassesOnTheWay(k: Config, w: World, s: State, stage: Stage) {
    Passes(k, w, stage, s.completed, if stage == s.current then s.error else None)
  }

  /** Every stage from the current one up to another passes. */
  ghost predicate AllPass(k: Config, w: World, s: State, to: Stage) {
    forall stage | Index(s.current) <= Index(stage) < Index(to) :: PassesOnTheWay(k, w, s, stage)
  }

  /** How far a call gets, exactly: up to the gate it gets to a stage, or beyond, if and only if
      every stage before it passes. */
  lemma {:induction false} ReachesIff(k: Config, w: World, c: Copies, to: Stage)
    requires Index(to) <= Index(NextGate(c.mem.current))
    ensures Index(to) <= Index(Reaches(k, w, c).mem.current) <==> AllPass(k, w, c.mem, to)
    decreases 13 - Index(c.mem.current)
  {
    hide Index, NextGate, Passes, Executed, CanMove, Gated, AllPass, Reaches;
    var now := c.mem.current;
    if Index(to) <= Index(now) {
      ReachesForward(k, w, c);
      NothingToPass(k, w, c.mem, to);
    } else {
      if Passes(k, w, now, c.mem.completed, c.mem.error) {
        var next := PassedOn(k, w, c);
        SameGate(now);
        ReachesIff(k, w, Both(next), to);
        AllPassStep(k, w, c.mem, next, to);
      } else {
        NotPassed(k, w, c);
        FirstDoesNotPass(k, w, c.mem, to);
      }
    }
  }

  lemma NothingToPass(k: Config, w: World, s: State, to: Stage)
    requires Index(to) <= Index(s.current)
    ensures AllPass(k, w, s, to)
  {
  }

  lemma {:induction false} FirstDoesNotPass(k: Config, w: World, s: State, to: Stage)
    requires Index(s.current) < Index(to) && !Passes(k, w, s.current, s.completed, s.error)
    ensures !AllPass(k, w, s, to)
  {
    hide Index, Passes;
    assert !PassesOnTheWay(k, w, s, s.current);
  }

  lemma {:induction false} AllPassStep(k: Config, w: World, s: State, next: State, to: Stage)
    requires Passes(k, w, s.current, s.completed, s.error)
    requires next.completed == WithResult(s, ResultOf(k, w, s.current)).completed && next.error.None?
    requires Index(next.current) == Index(s.current) + 1
    ensures AllPass(k, w, s, to) <==> AllPass(k, w, next, to)
  {
    hide Index, Passes, ResultOf;
    forall stage | Index(s.current) <= Index(stage)
      ensures if stage == s.current then PassesOnTheWay(k, w, s, stage)
        else PassesOnTheWay(k, w, s, stage) <==> PassesOnTheWay(k, w, next, stage)
      ensures stage != s.current <==> Index(next.current) <= Index(stage)
    {
      TargetIsNext(s.current);
      if stage != s.current {
        OtherStage(k, w, s, next, stage);
      }
    }
  }

  /** A completion of another stage is no matter. */
  lemma {:induction false} OtherStage(k: Config, w: World, s: State, next: State, stage: Stage)
    requires next.completed == WithResult(s, ResultOf(k, w, s.current)).completed && next.error.None?
    requires stage != s.current
    ensures PassesOnTheWay(k, w, s, stage) <==> PassesOnTheWay(k, w, next, stage)
  {
    hide LastCompleted, ErrorsOf, ResultOf, Clean;
    var r := ResultOf(k, w, s.current);
    if r.Some? {
      LastCompletedSnoc(s.completed, CompletedStage(s.current, r.value), stage);
    }
  }

  // ----- executors that succeed -----

  /** The executor, if there is one, succeeds at once, and its artifact is valid. */
  predicate Succeeds(k: Config, w: World, stage: Stage) {
    && w.valid(stage)
    && (stage in k.executors ==>
          w.attempt(stage, 0).Returns? && w.attempt(stage, 0).reported.None? && w.attempt(stage, 0).outcome != Failed)
  }

  ghost predicate AllSucceed(k: Config, w: World) {
    forall stage :: Succeeds(k, w, stage)
  }

  /** A call in which all executors succeed ends at the next gate, without an error and saved. */
  lemma {:induction false} SuccessReachesGate(k: Config, w: World, c: Copies)
    requires AllSucceed(k, w) && c.mem.error.None?
    ensures Reaches(k, w, c) == Both(Reaches(k, w, c).mem)
    ensures Reaches(k, w, c).mem.current == NextGate(c.mem.current)
    ensures Reaches(k, w, c).mem.error.None? && Reaches(k, w, c).mem.decisions == c.mem.decisions
    decreases 13 - Index(c.mem.current)
  {
    hide Index, NextGate, Passes, Executed, CanMove;
    if Gated(c.mem.current) {
    } else {
      SuccessPasses(k, w, c.mem.current, c.mem.completed);
      var next := PassedOn(k, w, c);
      SameGate(c.mem.current);
      SuccessReachesGate(k, w, Both(next));
    }
  }

  lemma {:induction false} SuccessPasses(k: Config, w: World, stage: Stage, completed: seq<CompletedStage>)
    requires AllSucceed(k, w)
    ensures Passes(k, w, stage, completed, None)
  {
    assert Succeeds(k, w, stage);
  }

  /** The file after the operator accepted a gate and the runner went on. */
  function AcceptedOn(k: Config, w: World, s: State): State
    requires Gated(s.current)
  {
    Reaches(k, w, Both(Decided(s, Accept).value)).file
  }

  lemma {:induction false} AcceptReachesNextGate(k: Config, w: World, s: State)
    requires AllSucceed(k, w) && Gated(s.current) && s.error.None?
    ensures var t := AcceptedOn(k, w, s);
      && t.current == NextGate(Target(s.current)) && t.error.None?
      && t.decisions == s.decisions + [GateDecision(s.current, Accept)]
  {
    hide Reaches, AllSucceed, NextGate;
    SuccessReachesGate(k, w, Both(Decided(s, Accept).value));
  }

  /** With executors that succeed, a new run and two accepts go through the whole pipeline. */
  lemma {:induction false} WholePipeline(k: Config, w0: World, w1: World, w2: World)
    requires AllSucceed(k, w0) && AllSucceed(k, w1) && AllSucceed(k, w2)
    ensures var s0 := Reaches(k, w0, Both(Initial())).file;
      && s0.current == ReviewPending
      && var s1 := AcceptedOn(k, w1, s0);
      && s1.current == ScoringComplete
      && var s2 := AcceptedOn(k, w2, s1);
      && s2.current == SelectionComplete && s2.error.None?
      && s2.decisions == [GateDecision(ReviewPending, Accept), GateDecision(ScoringComplete, Accept)]
  {
    hide Reaches, AllSucceed, AcceptedOn;
    SuccessReachesGate(k, w0, Both(Initial()));
    var s0 := Reaches(k, w0, Both(Initial())).file;
    AcceptReachesNextGate(k, w1, s0);
    AcceptReachesNextGate(k, w2, AcceptedOn(k, w1, s0));
  }

  // ----- executors that do not -----

  /** An external failure, then success: the completion is appended in memory, the error stands,
      the run stops at the stage, and the file has the error and not the completion. */
  lemma {:induction false} SuccessfulRetryStops(k: Config, w: World, c: Copies, e: PipelineError)
    requires c.mem.current in k.executors && !Gated(c.mem.current) && k.maxAttempts >= 1
    requires w.attempt(c.mem.current, 0) == Raises(e) && e.category == ExternalFailure
    requires w.attempt(c.mem.current, 1) == Returns(Success, None)
    ensures Reaches(k, w, c) ==
      Copies(Completing(c.mem.(error := Some(e)), Success), c.mem.(error := Some(e)))
  {
    assert Tried(k, w, 1, Handled(c, e)) ==
      Copies(Completing(c.mem.(error := Some(e)), Success), c.mem.(error := Some(e)));
    assert Executed(k, w, c) == Tried(k, w, 1, Handled(c, e));
  }

  /** The same failure, then resource pressure, then success: the pressure clears the failure,
      and the run goes on. */
  lemma {:induction false} PressureForgivesFailure(k: Config, w: World, c: Copies, e: PipelineError, p: PipelineError)
    requires c.mem.current in k.executors && !Gated(c.mem.current) && k.maxAttempts >= 2
    requires w.attempt(c.mem.current, 0) == Raises(e) && e.category == ExternalFailure
    requires w.attempt(c.mem.current, 1) == Raises(p) && p.category == ResourcePressure
    requires w.attempt(c.mem.current, 2) == Returns(Success, None) && w.valid(c.mem.current)
    ensures Index(Reaches(k, w, c).mem.current) > Index(c.mem.current)
  {
    hide Index, Executed, CanMove, Reaches;
    var stage := c.mem.current;
    assert Errors(k, w, stage, 1) == [p] + Errors(k, w, stage, 2) == [p];
    assert Errors(k, w, stage, 0) == [e, p];
    assert Result(k, w, stage, 1) == Some(Success);
    assert Result(k, w, stage, 0) == Some(Success);
    var next := PassedOn(k, w, c);
    ReachesForward(k, w, Both(next));
  }

  /** Resuming does not recover from an error: it stands through a call whose executors all
      succeed, and the run stays at its stage. */
  lemma {:induction false} ResumeDoesNotRecover(k: Config, w: World, c: Copies)
    requires AllSucceed(k, w) && c.mem.error.Some? && !Gated(c.mem.current)
    ensures Reaches(k, w, c).mem.current == c.mem.current && Reaches(k, w, c).mem.error == c.mem.error
  {
    hide Executed, CanMove, Reaches;
    assert Succeeds(k, w, c.mem.current);
    NotPassed(k, w, c);
    ExecutedMeans(k, w, c);
  }

  /** All attempts meet resource pressure. */
  ghost predicate UnderPressure(w: World, stage: Stage) {
    forall a :: w.attempt(stage, a).Raises? && w.attempt(stage, a).error.category == ResourcePressure
  }

  lemma {:induction false} PressureLeavesNothing(k: Config, w: World, stage: Stage, a: nat)
    requires UnderPressure(w, stage)
    ensures Result(k, w, stage, a).None? && |Errors(k, w, stage, a)| > 0 && Clean(None, Errors(k, w, stage, a))
    decreases k.maxAttempts - a
  {
    assert w.attempt(stage, a).Raises?;
    if a >= k.maxAttempts {
    } else {
      PressureLeavesNothing(k, w, stage, a + 1);
      var rest := Errors(k, w, stage, a + 1);
      var all := Errors(k, w, stage, a);
      assert all[|all| - 1] == rest[|rest| - 1];
    }
  }

  /** A stage that never executes is passed if and only if an earlier round completed it: under
      resource pressure to the last attempt neither an error nor a completion is left. */
  lemma {:induction false} PressurePassesIff(k: Config, w: World, c: Copies)
    requires c.mem.current in k.executors && !Gated(c.mem.current) && UnderPressure(w, c.mem.current)
    ensures Index(Reaches(k, w, c).mem.current) > Index(c.mem.current) <==>
      Done(c.mem.completed, c.mem.current) && w.valid(c.mem.current)
  {
    hide Index, Executed, CanMove, Reaches, Done;
    PressureLeavesNothing(k, w, c.mem.current, 0);
    if Passes(k, w, c.mem.current, c.mem.completed, c.mem.error) {
      var next := PassedOn(k, w, c);
      ReachesForward(k, w, Both(next));
    } else {
      NotPassed(k, w, c);
    }
  }
}
