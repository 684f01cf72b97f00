/** Every run of the pipeline: runner, operator and crashes as labelled steps. */
module PipelineRuns {
  import opened PipelineState
  import opened Wrappers

  /** The runner's state in memory, while it is running, and the state file. */
  datatype Sys = Sys(mem: Option<State>, disk: Option<State>)

  datatype Step =
    | Run                       // a new run: initial state, saved
    | Resume                    // load, and save again
    | RejectOnResume            // the last artifact failed verification: an error is saved
    | RecordError(e: PipelineError)
    | ClearError                // a resource-pressure error is taken back, in memory
    | Complete(outcome: Outcome)
    | Transition(artifactValid: bool)
    | Save
    | Halt                      // the runner returns, or crashes: memory is lost
    | Decide(verdict: Verdict)  // the operator, on the state file
    | Reset                     // a new backtest discards a state with a non-recoverable error

  const UNVERIFIED := PipelineError(DataLogic, false)

  ghost predicate Next(s: Sys, step: Step, t: Sys) {
    match step
    case Run => s.mem.None? && t == Sys(Some(Initial()), Some(Initial()))
    case Resume => s.mem.None? && s.disk.Some? && t == Sys(s.disk, s.disk)
    case RejectOnResume =>
      s.mem.None? && s.disk.Some? && t == Sys(None, Some(s.disk.value.(error := Some(UNVERIFIED))))
    case RecordError(e) =>
      s.mem.Some? && t == Sys(Some(s.mem.value.(error := Some(e))), Some(s.mem.value.(error := Some(e))))
    case ClearError =>
      s.mem.Some? && CanClear(s.mem.value) && t == s.(mem := Some(s.mem.value.(error := None)))
    case Complete(outcome) =>
      s.mem.Some? && !Gated(s.mem.value.current) && t == s.(mem := Some(Completing(s.mem.value, outcome)))
    case Transition(artifactValid) =>
      s.mem.Some? && CanMove(s.mem.value, artifactValid) && t == s.(mem := Some(Move(s.mem.value)))
    case Save => s.mem.Some? && t == s.(disk := s.mem)
    case Halt => t == s.(mem := None)
    case Decide(verdict) =>
      s.disk.Some? && Gated(s.disk.value.current) && t == s.(disk := Decided(s.disk.value, verdict))
    case Reset =>
      s.mem.None? && s.disk.Some? && Unrecoverable(s.disk.value) && t == Sys(None, None)
  }

  predicate CanClear(s: State) {
    s.error.Some? && s.error.value.category == ResourcePressure
  }

  predicate CanMove(s: State, artifactValid: bool) {
    !Gated(s.current) && CheckPreconditions(s, s.current, artifactValid)
  }

  predicate Unrecoverable(s: State) {
    s.error.Some? && !s.error.value.recoverable
  }

  function Completing(s: State, outcome: Outcome): State {
    s.(completed := s.completed + [CompletedStage(s.current, outcome)])
  }

  /** The operator's decision is always recorded for the current stage. */
  function Decided(s: State, verdict: Verdict): Option<State> {
    Advance(s, GateDecision(s.current, verdict))
  }

  /** A run from nothing: no file, no runner. */
  ghost predicate IsRun(states: seq<Sys>, steps: seq<Step>) {
    && |states| == |steps| + 1
    && states[0] == Sys(None, None)
    && forall i | 0 <= i < |steps| :: Next(states[i], steps[i], states[i + 1])
  }

  ghost predicate AllJustified(s: Sys) {
    (s.mem.Some? ==> Justified(s.mem.value)) && (s.disk.Some? ==> Justified(s.disk.value))
  }

  lemma {:induction false} StepKeepsJustified(s: Sys, step: Step, t: Sys)
    requires Next(s, step, t) && AllJustified(s)
    ensures AllJustified(t)
  {
    hide Justified;
    match step
    case Run => InitialJustified();
    case Complete(outcome) => CompleteKeepsJustified(s.mem.value, outcome);
    case Transition(artifactValid) => MoveKeepsJustified(s.mem.value, artifactValid);
    case Decide(verdict) => AdvanceKeepsJustified(s.disk.value, verdict);
    case RecordError(e) => ErrorsAside(s.mem.value, Some(e));
    case ClearError => ErrorsAside(s.mem.value, None);
    case RejectOnResume => ErrorsAside(s.disk.value, Some(UNVERIFIED));
    case _ =>
  }

  lemma ErrorsAside(s: State, error: Option<PipelineError>)
    requires Justified(s)
    ensures Justified(s.(error := error))
  {
  }

  /** Safety over all runs: whatever the runner, the operator and crashes do, and in whatever
      order, every state in memory and every saved state is justified: each gate passed was
      accepted since the last refine, each automatic stage passed has a latest completion that
      did not fail, and the pending stages are the rest of the order. */
  lemma {:induction false} RunsAreJustified(states: seq<Sys>, steps: seq<Step>, i: nat)
    requires IsRun(states, steps) && i < |states|
    ensures AllJustified(states[i])
  {
    if i == 0 {
    } else {
      RunsAreJustified(states, steps, i - 1);
      StepKeepsJustified(states[i - 1], steps[i - 1], states[i]);
    }
  }

  // ----- errors -----

  /** An error is in the file, and in memory if a runner is active. */
  predicate Blocked(s: Sys) {
    && s.disk.Some? && s.disk.value.error.Some?
    && (s.mem.Some? ==> s.mem.value.error.Some?)
  }

  predicate Unblocks(step: Step) {
    step.ClearError? || step.Run? || step.Reset?
  }

  lemma StepStaysBlocked(s: Sys, step: Step, t: Sys)
    requires Next(s, step, t) && Blocked(s) && !Unblocks(step)
    ensures Blocked(t) && !step.Transition?
  {
  }

  /** Once an error stands, no automatic transition happens, through any number of resumes,
      retries, crashes and operator decisions, until resource pressure clears it or a new run
      replaces the state. */
  lemma {:induction false} ErrorBlocks(states: seq<Sys>, steps: seq<Step>, from: nat, to: nat)
    requires IsRun(states, steps) && from <= to < |states| && Blocked(states[from])
    requires forall i | from <= i < to :: !Unblocks(steps[i])
    ensures Blocked(states[to])
    ensures forall i | from <= i < to :: !steps[i].Transition?
  {
    hide Next, Blocked;
    if from == to {
    } else {
      ErrorBlocks(states, steps, from, to - 1);
      StepStaysBlocked(states[to - 1], steps[to - 1], states[to]);
    }
  }

  /** A runner takes an error back only when it was resource pressure, and only in memory. */
  lemma OnlyPressureIsForgiven(s: Sys, step: Step, t: Sys)
    requires Next(s, step, t) && s.mem.Some? && t.mem.Some?
    requires s.mem.value.error.Some? && t.mem.value.error.None?
    ensures s.mem.value.error.value.category == ResourcePressure
    ensures t == s.(mem := Some(s.mem.value.(error := None)))
  {
  }

  // ----- saved progress -----

  predicate NotAhead(s: Sys) {
    s.mem.Some? ==> s.disk.Some? && Index(s.disk.value.current) <= Index(s.mem.value.current)
  }

  predicate Retreats(step: Step) {
    step.Run? || step.Reset? || step == Decide(Refine)
  }

  lemma StrategyBeforeGates(gate: Stage)
    ensures Index(DataReady) == 0
    ensures Gated(gate) ==> Index(StrategyReady) < Index(gate)
  {
  }

  /** The operator accepts a gate at which a runner still is: it will save the gate again. */
  predicate Overtakes(s: Sys, step: Step) {
    && step == Decide(Accept) && s.mem.Some? && s.disk.Some?
    && s.mem.value.current == s.disk.value.current != SelectionComplete
  }

  /** The file gets ahead of the memory in exactly one way: an accept that overtakes a runner
      standing at the same gate. */
  lemma {:induction false} StepNotAhead(s: Sys, step: Step, t: Sys)
    requires Next(s, step, t) && NotAhead(s)
    ensures NotAhead(t) <==> !Overtakes(s, step)
  {
    hide CheckPreconditions, ComputePending, Index;
    if step.Transition? {
      TargetIsNext(s.mem.value.current);
    } else if step.Decide? {
      TargetIsNext(s.disk.value.current);
      StrategyBeforeGates(s.disk.value.current);
      if s.mem.Some? {
        TargetIsNext(s.mem.value.current);
      }
    }
  }

  /** As long as it is not ahead, the saved stage only goes back by a refine, a reset or a new
      run. */
  lemma {:induction false} StepKeepsStage(s: Sys, step: Step, t: Sys)
    requires Next(s, step, t) && NotAhead(s) && s.disk.Some? && !Retreats(step)
    ensures t.disk.Some? && Index(s.disk.value.current) <= Index(t.disk.value.current)
  {
    hide CheckPreconditions, ComputePending, Index;
    if step.Decide? {
      TargetIsNext(s.disk.value.current);
    }
  }

  /** What overtaking costs: the next save of that runner takes the accept back. */
  lemma {:induction false} OvertakenAcceptIsLost(s: Sys, step: Step, t: Sys, u: Sys)
    requires Overtakes(s, step) && Next(s, step, t) && Next(t, Save, u)
    ensures u.disk == s.mem
    ensures Index(u.disk.value.current) < Index(t.disk.value.current)
  {
    hide CheckPreconditions, ComputePending, Index;
    TargetIsNext(s.disk.value.current);
  }

  lemma {:induction false} SavedNeverAhead(states: seq<Sys>, steps: seq<Step>, i: nat)
    requires IsRun(states, steps) && i < |states|
    requires forall k | 0 <= k < i :: !Overtakes(states[k], steps[k])
    ensures NotAhead(states[i])
  {
    hide Next, Overtakes;
    if i == 0 {
    } else {
      SavedNeverAhead(states, steps, i - 1);
      StepNotAhead(states[i - 1], steps[i - 1], states[i]);
    }
  }

  /** In a run without overtaking accepts the saved stage is never ahead of the one in memory,
      and it only ever goes back by a refine, a reset or a new run: no crash loses it. The
      operator may otherwise decide at any time. */
  lemma {:induction false} SavedProgress(states: seq<Sys>, steps: seq<Step>, from: nat, to: nat)
    requires IsRun(states, steps) && from <= to < |states|
    requires forall k | 0 <= k < to :: !Overtakes(states[k], steps[k])
    requires states[from].disk.Some?
    requires forall i | from <= i < to :: !Retreats(steps[i])
    ensures states[to].disk.Some? && NotAhead(states[to])
    ensures Index(states[from].disk.value.current) <= Index(states[to].disk.value.current)
  {
    hide Next, NotAhead, Index, Overtakes;
    SavedNeverAhead(states, steps, to);
    if from == to {
    } else {
      SavedProgress(states, steps, from, to - 1);
      StepKeepsStage(states[to - 1], steps[to - 1], states[to]);
    }
  }

  // ----- a lost accept -----

  lemma {:induction false} Extend(states: seq<Sys>, steps: seq<Step>, step: Step, t: Sys)
    requires IsRun(states, steps) && Next(states[|steps|], step, t)
    ensures IsRun(states + [t], steps + [step])
  {
    hide Next;
  }

  /** One stage done: completion, transition, save. */
  lemma {:induction false} OneStage(states: seq<Sys>, steps: seq<Step>, m: State)
    returns (states': seq<Sys>, steps': seq<Step>, m': State)
    requires IsRun(states, steps) && states[|steps|] == Sys(Some(m), Some(m))
    requires !Gated(m.current) && m.error.None?
    ensures IsRun(states', steps') && states'[|steps'|] == Sys(Some(m'), Some(m'))
    ensures m'.current == Target(m.current) && m'.error.None? && m'.decisions == m.decisions
  {
    hide IsRun;
    var done := Completing(m, Success);
    LastCompletedSnoc(m.completed, CompletedStage(m.current, Success), m.current);
    m' := Move(done);
    Extend(states, steps, Complete(Success), Sys(Some(done), Some(m)));
    var s1, p1 := states + [Sys(Some(done), Some(m))], steps + [Complete(Success)];
    LengthsMatch(states, steps);
    LengthsMatch(s1, p1);
    Extend(s1, p1, Transition(true), Sys(Some(m'), Some(m)));
    var s2, p2 := s1 + [Sys(Some(m'), Some(m))], p1 + [Transition(true)];
    LengthsMatch(s2, p2);
    Extend(s2, p2, Save, Sys(Some(m'), Some(m')));
    states', steps' := s2 + [Sys(Some(m'), Some(m'))], p2 + [Save];
  }

  lemma LengthsMatch(states: seq<Sys>, steps: seq<Step>)
    requires IsRun(states, steps)
    ensures |states| == |steps| + 1
  {
  }

  /** The loss is reachable: a new run comes to the first gate and saves; before it saves once
      more and returns, the operator accepts; the second save takes the accept back. */
  lemma {:induction false} LostAccept() returns (states: seq<Sys>, steps: seq<Step>)
    ensures IsRun(states, steps) && |steps| >= 2
    ensures var n := |steps|;
      && Overtakes(states[n - 2], steps[n - 2]) && steps[n - 2] == Decide(Accept) && steps[n - 1] == Save
      && states[n - 1].disk.Some? && states[n - 1].disk.value.current == Reviewed
      && states[n].disk.Some? && states[n].disk.value.current == ReviewPending
  {
    hide IsRun, Next;
    var m: State;
    states, steps, m := AtFirstGate();
    LengthsMatch(states, steps);
    var accepted := Sys(Some(m), Decided(m, Accept));
    NextAccept(m);
    Extend(states, steps, Decide(Accept), accepted);
    states, steps := states + [accepted], steps + [Decide(Accept)];
    LengthsMatch(states, steps);
    Extend(states, steps, Save, Sys(Some(m), Some(m)));
    states, steps := states + [Sys(Some(m), Some(m))], steps + [Save];
  }

  lemma NextAccept(m: State)
    requires m.current == ReviewPending
    ensures Next(Sys(Some(m), Some(m)), Decide(Accept), Sys(Some(m), Decided(m, Accept)))
    ensures Decided(m, Accept).Some? && Decided(m, Accept).value.current == Reviewed
    ensures Next(Sys(Some(m), Decided(m, Accept)), Save, Sys(Some(m), Some(m)))
  {
  }

  lemma {:induction false} AtFirstGate() returns (states: seq<Sys>, steps: seq<Step>, m: State)
    ensures IsRun(states, steps) && states[|steps|] == Sys(Some(m), Some(m)) && m.current == ReviewPending
    ensures m.decisions == [] && m.error.None?
  {
    hide Move, Completing;
    m := Initial();
    states, steps := [Sys(None, None), Sys(Some(m), Some(m))], [Run];
    assert IsRun(states, steps);
    hide IsRun;
    states, steps, m := OneStage(states, steps, m);
    states, steps, m := OneStage(states, steps, m);
    states, steps, m := OneStage(states, steps, m);
    states, steps, m := OneStage(states, steps, m);
  }

  // ----- gates -----

  /** Neither the file nor the memory is behind the gate. */
  predicate Before(s: Sys, gate: Stage) {
    && (s.disk.Some? ==> Index(s.disk.value.current) <= Index(gate))
    && (s.mem.Some? ==> Index(s.mem.value.current) <= Index(gate))
  }

  predicate Accepts(s: Sys, step: Step, gate: Stage) {
    step == Decide(Accept) && s.disk.Some? && s.disk.value.current == gate
  }

  lemma {:induction false} StepStaysBefore(s: Sys, step: Step, t: Sys, gate: Stage)
    requires Next(s, step, t) && Gated(gate) && Before(s, gate) && !Accepts(s, step, gate)
    ensures Before(t, gate)
  {
    hide CheckPreconditions, ComputePending, Index;
    StrategyBeforeGates(gate);
    if step.Transition? {
      TargetIsNext(s.mem.value.current);
      TargetIsNext(gate);
    } else if step.Decide? {
      TargetIsNext(s.disk.value.current);
      TargetIsNext(gate);
    }
  }

  /** Only the operator opens a gate: however runner, operator and crashes interleave, between
      a state in front of a gate and one behind it lies an accept decided at that gate. */
  lemma {:induction false} GatesNeedTheOperator(states: seq<Sys>, steps: seq<Step>, from: nat, to: nat, gate: Stage)
    requires IsRun(states, steps) && from <= to < |states| && Gated(gate)
    requires Before(states[from], gate) && !Before(states[to], gate)
    ensures exists i :: from <= i < to && Accepts(states[i], steps[i], gate)
  {
    hide Next, Before, Accepts;
    if !Before(states[to - 1], gate) {
      GatesNeedTheOperator(states, steps, from, to - 1, gate);
    } else if !Accepts(states[to - 1], steps[to - 1], gate) {
      StepStaysBefore(states[to - 1], steps[to - 1], states[to], gate);
    }
  }

  /** A refine closes all gates again. For a saved state behind a gate, some accept of that gate
      follows the last refine, unless a runner that stood behind the gate was active then. */
  lemma {:induction false} RefineNeedsNewAccept(states: seq<Sys>, steps: seq<Step>, r: nat, to: nat, gate: Stage)
    requires IsRun(states, steps) && r < to < |states| && Gated(gate) && steps[r] == Decide(Refine)
    requires states[to].disk.Some? && Index(states[to].disk.value.current) > Index(gate)
    ensures (exists i :: r < i < to && Accepts(states[i], steps[i], gate))
      || (states[r].mem.Some? && Index(states[r].mem.value.current) > Index(gate))
  {
    hide Index, Next, Accepts;
    if !(states[r].mem.Some? && Index(states[r].mem.value.current) > Index(gate)) {
      RefinedIsBefore(states[r], states[r + 1], gate);
      GatesNeedTheOperator(states, steps, r + 1, to, gate);
    }
  }

  lemma {:induction false} RefinedIsBefore(s: Sys, t: Sys, gate: Stage)
    requires Next(s, Decide(Refine), t) && Gated(gate)
    requires s.mem.Some? ==> Index(s.mem.value.current) <= Index(gate)
    ensures Before(t, gate)
  {
    hide Index;
    AdvanceMeans(s.disk.value, Refine);
    StrategyBeforeGates(gate);
  }

  /** The exception is reachable: a runner that comes to the second gate, a refine there, and the
      runner's second save of it, which takes the refine back. */
  lemma {:induction false} LostRefine() returns (states: seq<Sys>, steps: seq<Step>)
    ensures IsRun(states, steps) && |steps| >= 2
    ensures var n := |steps|;
      && steps[n - 2] == Decide(Refine) && steps[n - 1] == Save
      && states[n - 1].disk.Some? && states[n - 1].disk.value.current == StrategyReady
      && states[n].disk.Some? && states[n].disk.value.current == ScoringComplete
      && states[n].disk.value.decisions == [GateDecision(ReviewPending, Accept)]
  {
    hide IsRun, Next;
    var m: State;
    states, steps, m := AtSecondGate();
    LengthsMatch(states, steps);
    var refined := Sys(Some(m), Decided(m, Refine));
    NextRefine(m);
    Extend(states, steps, Decide(Refine), refined);
    states, steps := states + [refined], steps + [Decide(Refine)];
    LengthsMatch(states, steps);
    Extend(states, steps, Save, Sys(Some(m), Some(m)));
    states, steps := states + [Sys(Some(m), Some(m))], steps + [Save];
  }

  lemma NextRefine(m: State)
    requires m.current == ScoringComplete
    ensures Next(Sys(Some(m), Some(m)), Decide(Refine), Sys(Some(m), Decided(m, Refine)))
    ensures Decided(m, Refine).Some? && Decided(m, Refine).value.current == StrategyReady
    ensures Next(Sys(Some(m), Decided(m, Refine)), Save, Sys(Some(m), Some(m)))
  {
  }

  /** The first gate accepted while no runner is active, and the work up to the second one. */
  lemma {:induction false} AtSecondGate() returns (states: seq<Sys>, steps: seq<Step>, m: State)
    ensures IsRun(states, steps) && states[|steps|] == Sys(Some(m), Some(m)) && m.current == ScoringComplete
    ensures m.decisions == [GateDecision(ReviewPending, Accept)]
  {
    hide IsRun, Next;
    states, steps, m := AtFirstGate();
    LengthsMatch(states, steps);
    var accepted := Decided(m, Accept).value;
    NextResumed(m);
    Extend(states, steps, Halt, Sys(None, Some(m)));
    states, steps := states + [Sys(None, Some(m))], steps + [Halt];
    LengthsMatch(states, steps);
    Extend(states, steps, Decide(Accept), Sys(None, Some(accepted)));
    states, steps := states + [Sys(None, Some(accepted))], steps + [Decide(Accept)];
    LengthsMatch(states, steps);
    Extend(states, steps, Resume, Sys(Some(accepted), Some(accepted)));
    states, steps, m := states + [Sys(Some(accepted), Some(accepted))], steps + [Resume], accepted;
    states, steps, m := OneStage(states, steps, m);
    states, steps, m := OneStage(states, steps, m);
    states, steps, m := OneStage(states, steps, m);
    states, steps, m := OneStage(states, steps, m);
    states, steps, m := OneStage(states, steps, m);
    states, steps, m := OneStage(states, steps, m);
  }

  lemma NextResumed(m: State)
    requires m.current == ReviewPending && m.error.None? && m.decisions == []
    ensures Next(Sys(Some(m), Some(m)), Halt, Sys(None, Some(m)))
    ensures Decided(m, Accept).Some?
    ensures var a := Decided(m, Accept).value;
      && a.current == Reviewed && a.error.None? && a.decisions == [GateDecision(ReviewPending, Accept)]
      && Next(Sys(None, Some(m)), Decide(Accept), Sys(None, Some(a)))
      && Next(Sys(None, Some(a)), Resume, Sys(Some(a), Some(a)))
  {
  }
}
