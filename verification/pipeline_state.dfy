/** The pipeline's stages, its saved state, and the gate manager's decisions on that state. */
module PipelineState {
  import opened Wrappers

  datatype Stage =
    | DataReady | StrategyReady | BacktestRunning | BacktestComplete | ReviewPending
    | Reviewed | Optimizing | OptimizationComplete | Validating | ValidationComplete
    | Scoring | ScoringComplete | Selecting | SelectionComplete

  /** `STAGE_ORDER`. */
  const ORDER: seq<Stage> := [
    DataReady, StrategyReady, BacktestRunning, BacktestComplete, ReviewPending,
    Reviewed, Optimizing, OptimizationComplete, Validating, ValidationComplete,
    Scoring, ScoringComplete, Selecting, SelectionComplete]

  function Index(s: Stage): (i: nat)
    ensures i < 14 && ORDER[i] == s
  {
    match s
    case DataReady => 0
    case StrategyReady => 1
    case BacktestRunning => 2
    case BacktestComplete => 3
    case ReviewPending => 4
    case Reviewed => 5
    case Optimizing => 6
    case OptimizationComplete => 7
    case Validating => 8
    case ValidationComplete => 9
    case Scoring => 10
    case ScoringComplete => 11
    case Selecting => 12
    case SelectionComplete => 13
  }

  /** The transition types of `STAGE_GRAPH`. */
  predicate Gated(s: Stage) {
    s in {ReviewPending, ScoringComplete, SelectionComplete}
  }

  /** The targets of `STAGE_GRAPH`; the last stage loops to itself. */
  function Target(s: Stage): Stage {
    match s
    case DataReady => StrategyReady
    case StrategyReady => BacktestRunning
    case BacktestRunning => BacktestComplete
    case BacktestComplete => ReviewPending
    case ReviewPending => Reviewed
    case Reviewed => Optimizing
    case Optimizing => OptimizationComplete
    case OptimizationComplete => Validating
    case Validating => ValidationComplete
    case ValidationComplete => Scoring
    case Scoring => ScoringComplete
    case ScoringComplete => Selecting
    case Selecting => SelectionComplete
    case SelectionComplete => SelectionComplete
  }

  /** The graph follows the order: every target is the next stage, but for the final loop. */
  lemma TargetIsNext(s: Stage)
    ensures s != SelectionComplete ==> Index(Target(s)) == Index(s) + 1
    ensures Target(s) == s <==> s == SelectionComplete
    ensures forall t :: Index(t) == Index(s) <==> t == s
  {
  }

  datatype Verdict = Accept | Reject | Refine

  datatype GateDecision = GateDecision(stage: Stage, verdict: Verdict)

  datatype Outcome = Success | Skipped | Failed

  datatype CompletedStage = CompletedStage(stage: Stage, outcome: Outcome)

  datatype Category = ResourcePressure | DataLogic | ExternalFailure | Other

  datatype PipelineError = PipelineError(category: Category, recoverable: bool)

  datatype State = State(
    current: Stage, completed: seq<CompletedStage>, pending: seq<Stage>,
    decisions: seq<GateDecision>, error: Option<PipelineError>)

  /** `compute_pending`. */
  function ComputePending(s: Stage): seq<Stage> {
    ORDER[Index(s) + 1..]
  }

  function Initial(): State {
    State(DataReady, [], ORDER[1..], [], None)
  }

  /** `_last_completed_for_stage`: the reversed scan. */
  function LastCompleted(completed: seq<CompletedStage>, s: Stage): (r: Option<CompletedStage>)
    ensures r.Some? ==> r.value in completed && r.value.stage == s
    ensures r.None? ==> forall c | c in completed :: c.stage != s
  {
    if |completed| == 0 then None
    else if completed[|completed| - 1].stage == s then Some(completed[|completed| - 1])
    else LastCompleted(completed[..|completed| - 1], s)
  }

  /** Entry k is the latest of its stage. */
  predicate LatestCompletion(completed: seq<CompletedStage>, k: nat)
    requires k < |completed|
  {
    forall j | k < j < |completed| :: completed[j].stage != completed[k].stage
  }

  /** The reversed scan finds exactly the latest entry of the stage, if there is any. */
  lemma {:induction false} LastCompletedMeans(completed: seq<CompletedStage>, s: Stage, c: CompletedStage)
    ensures LastCompleted(completed, s) == Some(c) <==>
      c.stage == s && exists k: nat :: k < |completed| && completed[k] == c && LatestCompletion(completed, k)
    ensures LastCompleted(completed, s).None? <==> forall e | e in completed :: e.stage != s
  {
    hide LatestCompletion;
    if LastCompleted(completed, s) == Some(c) {
      var k := LastCompletedAt(completed, s);
    } else if k: nat :| c.stage == s && k < |completed| && completed[k] == c && LatestCompletion(completed, k) {
      LatestCompletionFound(completed, k);
    }
  }

  lemma {:induction false} LastCompletedAt(completed: seq<CompletedStage>, s: Stage) returns (k: nat)
    requires LastCompleted(completed, s).Some?
    ensures k < |completed| && LastCompleted(completed, s) == Some(completed[k]) && LatestCompletion(completed, k)
  {
    var n := |completed| - 1;
    if completed[n].stage == s {
      k := n;
    } else {
      k := LastCompletedAt(completed[..n], s);
    }
  }

  lemma {:induction false} LatestCompletionFound(completed: seq<CompletedStage>, k: nat)
    requires k < |completed| && LatestCompletion(completed, k)
    ensures LastCompleted(completed, completed[k].stage) == Some(completed[k])
  {
    if k < |completed| - 1 {
      LatestCompletionFound(completed[..|completed| - 1], k);
    }
  }

  /** `_last_gate_decision`: the reversed scan. */
  function LastGateDecision(decisions: seq<GateDecision>, s: Stage): (r: Option<GateDecision>)
    ensures r.Some? ==> r.value in decisions && r.value.stage == s
    ensures r.None? ==> forall d | d in decisions :: d.stage != s
  {
    if |decisions| == 0 then None
    else if decisions[|decisions| - 1].stage == s then Some(decisions[|decisions| - 1])
    else LastGateDecision(decisions[..|decisions| - 1], s)
  }

  lemma {:induction false} LastCompletedSnoc(completed: seq<CompletedStage>, c: CompletedStage, s: Stage)
    ensures LastCompleted(completed + [c], s) == if c.stage == s then Some(c) else LastCompleted(completed, s)
  {
    assert (completed + [c])[..|completed|] == completed;
  }

  /** A stage whose latest completion did not fail. */
  predicate Done(completed: seq<CompletedStage>, s: Stage) {
    LastCompleted(completed, s).Some? && LastCompleted(completed, s).value.outcome != Failed
  }

  /** `check_preconditions`; what the file system says about the artifact is a parameter. */
  predicate CheckPreconditions(s: State, stage: Stage, artifactValid: bool) {
    if Gated(stage) then
      var last := LastGateDecision(s.decisions, stage);
      last.Some? && last.value.verdict != Reject
    else
      Done(s.completed, stage) && artifactValid && s.error.None?
  }

  /** Decision k is the latest on its gate. */
  predicate LatestDecision(decisions: seq<GateDecision>, k: nat)
    requires k < |decisions|
  {
    forall j | k < j < |decisions| :: decisions[j].stage != decisions[k].stage
  }

  lemma {:induction false} LastGateDecisionMeans(decisions: seq<GateDecision>, s: Stage, d: GateDecision)
    ensures LastGateDecision(decisions, s) == Some(d) <==>
      d.stage == s && exists k: nat :: k < |decisions| && decisions[k] == d && LatestDecision(decisions, k)
  {
    hide LatestDecision;
    if LastGateDecision(decisions, s) == Some(d) {
      var k := LastGateDecisionAt(decisions, s);
    } else if k: nat :| d.stage == s && k < |decisions| && decisions[k] == d && LatestDecision(decisions, k) {
      LatestDecisionFound(decisions, k);
    }
  }

  lemma {:induction false} LastGateDecisionAt(decisions: seq<GateDecision>, s: Stage) returns (k: nat)
    requires LastGateDecision(decisions, s).Some?
    ensures k < |decisions| && LastGateDecision(decisions, s) == Some(decisions[k]) && LatestDecision(decisions, k)
  {
    var n := |decisions| - 1;
    if decisions[n].stage == s {
      k := n;
    } else {
      k := LastGateDecisionAt(decisions[..n], s);
    }
  }

  lemma {:induction false} LatestDecisionFound(decisions: seq<GateDecision>, k: nat)
    requires k < |decisions| && LatestDecision(decisions, k)
    ensures LastGateDecision(decisions, decisions[k].stage) == Some(decisions[k])
  {
    if k < |decisions| - 1 {
      LatestDecisionFound(decisions[..|decisions| - 1], k);
    }
  }

  /** A gate lets pass what its latest decision accepts or refines; an automatic stage, when its
      latest completion succeeded or was skipped, its artifact is valid and no error stands. */
  lemma {:induction false} PreconditionsMeans(s: State, stage: Stage, artifactValid: bool)
    ensures Gated(stage) ==>
      (CheckPreconditions(s, stage, artifactValid) <==>
       exists k: nat :: k < |s.decisions| && LatestDecision(s.decisions, k)
                        && s.decisions[k].stage == stage && s.decisions[k].verdict in {Accept, Refine})
    ensures !Gated(stage) ==>
      (CheckPreconditions(s, stage, artifactValid) <==>
       && artifactValid && s.error.None?
       && exists k: nat :: k < |s.completed| && LatestCompletion(s.completed, k)
                           && s.completed[k].stage == stage && s.completed[k].outcome in {Success, Skipped})
  {
    hide LatestDecision, LatestCompletion;
    if Gated(stage) {
      forall d
        ensures LastGateDecision(s.decisions, stage) == Some(d) <==>
          d.stage == stage
          && exists k: nat :: k < |s.decisions| && s.decisions[k] == d && LatestDecision(s.decisions, k)
      {
        LastGateDecisionMeans(s.decisions, stage, d);
      }
    } else {
      forall c
        ensures LastCompleted(s.completed, stage) == Some(c) <==>
          c.stage == stage
          && exists k: nat :: k < |s.completed| && s.completed[k] == c && LatestCompletion(s.completed, k)
      {
        LastCompletedMeans(s.completed, stage, c);
      }
    }
  }

  /** `GateManager.advance`; None where it raises. */
  function Advance(s: State, d: GateDecision): Option<State> {
    if !Gated(s.current) then None else
      var recorded := s.(decisions := s.decisions + [d]);
      match d.verdict
      case Accept => Some(recorded.(current := Target(s.current), pending := ComputePending(Target(s.current))))
      case Reject => Some(recorded)
      case Refine => Some(recorded.(current := StrategyReady, pending := ComputePending(StrategyReady)))
  }

  /** Every decision is recorded, and moves to the next stage, nowhere, or back to the strategy;
      completions and errors stay. */
  lemma {:induction false} AdvanceMeans(s: State, verdict: Verdict)
    ensures Advance(s, GateDecision(s.current, verdict)).Some? <==>
      s.current in {ReviewPending, ScoringComplete, SelectionComplete}
    ensures Advance(s, GateDecision(s.current, verdict)).Some? ==>
      var t := Advance(s, GateDecision(s.current, verdict)).value;
      && t.decisions == s.decisions + [GateDecision(s.current, verdict)]
      && t.completed == s.completed && t.error == s.error
      && (verdict == Reject ==> t.current == s.current && t.pending == s.pending)
      && (verdict != Reject ==> t.pending == ORDER[Index(t.current) + 1..])
      && (verdict == Refine ==> t.current == StrategyReady)
      && (verdict == Accept ==>
            t.current == if s.current == SelectionComplete then s.current else ORDER[Index(s.current) + 1])
  {
    hide Target, Index;
    TargetInOrder(s.current);
  }

  lemma TargetInOrder(s: Stage)
    ensures Target(s) == if s == SelectionComplete then s else ORDER[Index(s) + 1]
  {
  }

  /** The automatic transition of `_execute_stages`. */
  function Move(s: State): State {
    s.(current := Target(s.current), pending := ComputePending(Target(s.current)), error := None)
  }

  // ----- what every state, in memory or saved, keeps -----

  /** The latest decision on a gate is an accept, and no refine came after it. */
  predicate AcceptedSinceRefine(decisions: seq<GateDecision>, gate: Stage) {
    if |decisions| == 0 then false else
      var last := decisions[|decisions| - 1];
      last.verdict != Refine &&
      (if last.stage == gate then last.verdict == Accept
       else AcceptedSinceRefine(decisions[..|decisions| - 1], gate))
  }

  predicate AcceptedAt(decisions: seq<GateDecision>, gate: Stage, k: nat)
    requires k < |decisions|
  {
    && decisions[k] == GateDecision(gate, Accept)
    && (forall j | k < j < |decisions| :: decisions[j].verdict != Refine && decisions[j].stage != gate)
  }

  /** The same without recursion: an accept of the gate, followed by no refine and by no other
      decision on that gate. */
  lemma {:induction false} AcceptedMeans(decisions: seq<GateDecision>, gate: Stage)
    ensures AcceptedSinceRefine(decisions, gate) <==> exists k: nat :: k < |decisions| && AcceptedAt(decisions, gate, k)
  {
    if |decisions| == 0 {
    } else {
      var n := |decisions| - 1;
      var init, last := decisions[..n], decisions[n];
      AcceptedMeans(init, gate);
      if AcceptedSinceRefine(decisions, gate) {
        if last.stage == gate {
          assert AcceptedAt(decisions, gate, n);
        } else {
          var k: nat :| k < n && AcceptedAt(init, gate, k);
          assert AcceptedAt(decisions, gate, k);
        }
      } else if k: nat :| k < |decisions| && AcceptedAt(decisions, gate, k) {
        if k < n {
          assert AcceptedAt(init, gate, k);
        }
      }
    }
  }

  /** Every gate passed was accepted since the last refine. */
  ghost predicate GatesRespected(s: State) {
    forall g | Gated(g) && Index(g) < Index(s.current) :: AcceptedSinceRefine(s.decisions, g)
  }

  /** Every automatic stage passed has a latest completion that did not fail. */
  ghost predicate WorkDone(s: State) {
    forall g | !Gated(g) && Index(g) < Index(s.current) :: Done(s.completed, g)
  }

  /** A justified snapshot. */
  ghost predicate Justified(s: State) {
    s.pending == ORDER[Index(s.current) + 1..] && GatesRespected(s) && WorkDone(s)
  }

  lemma InitialJustified()
    ensures Justified(Initial())
  {
  }

  lemma AcceptedSnoc(decisions: seq<GateDecision>, d: GateDecision, gate: Stage)
    ensures AcceptedSinceRefine(decisions + [d], gate) <==>
      d.verdict != Refine && (if d.stage == gate then d.verdict == Accept else AcceptedSinceRefine(decisions, gate))
  {
  }

  /** Operator decisions on the current stage keep a snapshot justified, whatever they are. */
  lemma {:induction false} AdvanceKeepsJustified(s: State, verdict: Verdict)
    requires Justified(s)
    ensures var r := Advance(s, GateDecision(s.current, verdict));
      && (r.Some? <==> Gated(s.current))
      && (r.Some? ==> Justified(r.value) && r.value.completed == s.completed && r.value.error == s.error)
  {
    if Gated(s.current) {
      match verdict
      case Accept => AcceptKeepsJustified(s);
      case Reject => RejectKeepsJustified(s);
      case Refine => RefineKeepsJustified(s);
    }
  }

  lemma {:induction false} AcceptKeepsJustified(s: State)
    requires Justified(s) && Gated(s.current)
    ensures Justified(Advance(s, GateDecision(s.current, Accept)).value)
  {
    hide Index;
    var d := GateDecision(s.current, Accept);
    TargetIsNext(s.current);
    forall g | Index(g) < Index(Target(s.current))
      ensures Gated(g) ==> AcceptedSinceRefine(s.decisions + [d], g)
      ensures !Gated(g) ==> Done(s.completed, g)
    {
      AcceptedSnoc(s.decisions, d, g);
      TargetIsNext(g);
    }
  }

  lemma {:induction false} RejectKeepsJustified(s: State)
    requires Justified(s) && Gated(s.current)
    ensures Justified(Advance(s, GateDecision(s.current, Reject)).value)
  {
    hide Index;
    forall g | Gated(g) && Index(g) < Index(s.current)
      ensures AcceptedSinceRefine(s.decisions + [GateDecision(s.current, Reject)], g)
    {
      AcceptedSnoc(s.decisions, GateDecision(s.current, Reject), g);
    }
  }

  lemma {:induction false} RefineKeepsJustified(s: State)
    requires Justified(s) && Gated(s.current)
    ensures Justified(Advance(s, GateDecision(s.current, Refine)).value)
  {
    forall g | Index(g) < Index(StrategyReady)
      ensures !Gated(g) && Done(s.completed, g)
    {
      TargetIsNext(g);
    }
  }

  /** So does an automatic transition whose preconditions hold. */
  lemma {:induction false} MoveKeepsJustified(s: State, artifactValid: bool)
    requires Justified(s) && !Gated(s.current) && CheckPreconditions(s, s.current, artifactValid)
    ensures Justified(Move(s))
  {
    TargetIsNext(s.current);
    forall g | Index(g) < Index(Target(s.current))
      ensures Gated(g) ==> AcceptedSinceRefine(s.decisions, g)
      ensures !Gated(g) ==> Done(s.completed, g)
    {
      TargetIsNext(g);
    }
  }

  /** A completion of the current stage says nothing about the stages passed. */
  lemma CompleteKeepsJustified(s: State, outcome: Outcome)
    requires Justified(s)
    ensures Justified(s.(completed := s.completed + [CompletedStage(s.current, outcome)]))
  {
  }

  /** A refine does not make work stale: for every justified state at a gate, the completions
      from before the refine already meet the preconditions of all stages that were passed,
      beginning with the one re-entered. */
  lemma OldCompletionsSuffice(s: State, stage: Stage)
    requires Justified(s) && Gated(s.current) && s.error.None?
    requires !Gated(stage) && Index(stage) < Index(s.current)
    ensures var refined := Advance(s, GateDecision(s.current, Refine)).value;
      refined.current == StrategyReady && CheckPreconditions(refined, stage, true)
    ensures CheckPreconditions(Advance(s, GateDecision(s.current, Refine)).value, StrategyReady, true)
  {
  }
}
