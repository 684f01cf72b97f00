/** The stage runner and the operator actions as they are written, each proved to take only
    steps of the pipeline. */
module StageRunning {
  import opened PipelineRuns
  import opened PipelineState
  import opened StageOutcomes
  import opened Wrappers

  /** One strategy's pipeline: the state file, the runner's state while it runs, and what
      happened so far. What executors do and what the file system says of their artifacts is an
      input of each call. */
  class StageRunner {
    const config: Config

    var running: bool
    var state: State
    var disk: Option<State>
    ghost var states: seq<Sys>
    ghost var steps: seq<Step>

    ghost function Now(): Sys
      reads this
    {
      Sys(if running then Some(state) else None, disk)
    }

    /** The history is a run, and it has led here. */
    ghost predicate Valid()
      reads this
    {
      IsRun(states, steps) && states[|steps|] == Now()
    }

    /** The history only grows. */
    twostate predicate Continues()
      reads this
    {
      old(steps) <= steps && old(states) <= states
    }

    /** The file is at the runner's stage and has the runner's decisions. */
    predicate InStep()
      reads this
    {
      running && disk.Some? && disk.value.current == state.current && disk.value.decisions == state.decisions
    }

    /** Fixed while a stage executes, in memory and in the file. */
    predicate Executing(s: State)
      reads this
    {
      InStep() && state.current == s.current && state.pending == s.pending && state.decisions == s.decisions
    }

    constructor (config: Config)
      ensures Valid() && !running && disk.None? && steps == [] && this.config == config
    {
      this.config := config;
      running, state, disk := false, Initial(), None;
      states, steps := [Sys(None, None)], [];
    }

    /** Records that the present state was reached by a step. */
    ghost method Take(step: Step)
      requires IsRun(states, steps) && Next(states[|steps|], step, Now())
      modifies this`states, this`steps
      ensures Valid() && Continues()
      ensures steps == old(steps) + [step] && states == old(states) + [Now()]
    {
      states, steps := states + [Now()], steps + [step];
    }

    /** `state.save`. */
    method SaveState()
      requires Valid() && running
      modifies this`disk, this`states, this`steps
      ensures Valid() && Continues() && disk == Some(state)
    {
      disk := Some(state);
      Take(Save);
    }

    /** `handle_error`: record and save; resource pressure is then forgiven, in memory only. */
    method HandleError(error: PipelineError)
      requires Valid() && running
      modifies this`state, this`disk, this`states, this`steps
      ensures Valid() && Continues()
      ensures state == old(state).(error := if error.category == ResourcePressure then None else Some(error))
      ensures disk == Some(old(state).(error := Some(error)))
    {
      state := state.(error := Some(error));
      disk := Some(state);
      Take(RecordError(error));
      if error.category == ResourcePressure {
        state := state.(error := None);
        Take(ClearError);
      }
    }

    method AppendCompletion(outcome: Outcome)
      requires Valid() && running && !Gated(state.current)
      modifies this`state, this`states, this`steps
      ensures Valid() && Continues() && state == Completing(old(state), outcome)
    {
      state := Completing(state, outcome);
      Take(Complete(outcome));
    }

    predicate EndsFailed(s: State) {
      |s.completed| > 0 && s.completed[|s.completed| - 1].outcome == Failed
    }

    /** At most one completion, of the current stage, was appended. */
    predicate MayComplete(before: State, after: State) {
      after.completed == before.completed
      || exists outcome :: after.completed == before.completed + [CompletedStage(before.current, outcome)]
    }

    /** Memory and file are as the specification says. */
    predicate Holds(c: Copies)
      reads this
    {
      running && disk == Some(c.file) && state == c.mem
    }

    /** `_execute_stage`: exactly the reference outcome, in memory and in the file. So the error
        left is the last one met, raised or reported, unless that was resource pressure; a
        completion is appended or not; and only a completion reported as failed is saved here. */
    method ExecuteStage(w: World)
      requires Valid() && InStep() && !Gated(state.current) && disk.value.completed == state.completed
      modifies this`state, this`disk, this`states, this`steps
      ensures Valid() && Continues() && Executing(old(state))
      ensures Holds(Executed(config, w, old(Copies(state, disk.value))))
      ensures MayComplete(old(state), state)
      ensures state.error == ErrorAfter(old(state).error, ErrorsOf(config, w, state.current))
      ensures state.completed == WithResult(old(state), ResultOf(config, w, state.current)).completed
      ensures state.completed == old(state).completed ==> |ErrorsOf(config, w, state.current)| > 0
      ensures disk.value.completed == old(state).completed || (disk == Some(state) && EndsFailed(state))
    {
      hide IsRun, Next, Gated;
      ghost var start := Copies(state, disk.value);
      ExecutedMeans(config, w, start);
      if state.current !in config.executors {
        AppendCompletion(Skipped);
        return;
      }
      var attempt := 0;
      while true
        invariant Valid() && Continues() && Executing(old(state))
        invariant state.completed == old(state).completed == disk.value.completed
        invariant attempt <= config.maxAttempts
        invariant Tried(config, w, attempt, Copies(state, disk.value)) == Executed(config, w, start)
        decreases config.maxAttempts - attempt
      {
        var result := w.attempt(state.current, attempt);
        if result.Returns? {
          FinishStage(result);
          return;
        }
        HandleError(result.error);
        if !Retried(result.error) || attempt >= config.maxAttempts {
          return;
        }
        attempt := attempt + 1;
      }
    }

    /** The part of `_execute_stage` after the attempts. */
    method FinishStage(result: Attempt)
      requires Valid() && InStep() && !Gated(state.current) && result.Returns?
      requires disk.value.completed == state.completed
      modifies this`state, this`disk, this`states, this`steps
      ensures Valid() && Continues() && Executing(old(state))
      ensures MayComplete(old(state), state)
      ensures Holds(Finished(result.outcome, result.reported, old(Copies(state, disk.value))))
      ensures disk.value.completed == old(state).completed || (disk == Some(state) && EndsFailed(state))
    {
      hide IsRun, Next, Gated;
      if result.reported.Some? {
        HandleError(result.reported.value);
        if result.outcome == Failed {
          AppendCompletion(Failed);
          SaveState();
        }
        return;
      }
      AppendCompletion(result.outcome);
    }

    /** Why `_execute_stages` stops: an error stands, or the operator is awaited, or a stage
        did not meet its preconditions; in the last two cases everything is saved. */
    predicate Stopped(w: World)
      reads this
    {
      || (state.error.Some? && !Gated(state.current))
      || (disk == Some(state) && !CanMove(state, w.valid(state.current)))
    }

    /** `_execute_stages`: exactly the reference run, in memory and in the file. The loop ends
        because every turn moves one stage up the order; the final stage's loop to itself is gated
        and never taken here. Stages are only gained, no gate is passed, and the stage on return
        is the one on disk. */
    method ExecuteStages(w: World)
      requires Valid() && InStep() && disk.value.completed == state.completed
      modifies this`state, this`disk, this`states, this`steps
      ensures Valid() && Continues() && InStep() && Stopped(w)
      ensures Holds(Reaches(config, w, old(Copies(state, disk.value))))
      ensures Index(state.current) >= Index(old(state).current) && state.decisions == old(state).decisions
      ensures forall g | Gated(g) && Index(old(state).current) <= Index(g) :: Index(state.current) <= Index(g)
    {
      hide IsRun, Next, CheckPreconditions, MayComplete, Gated, Index, Executed, ErrorsOf, ResultOf;
      ghost var start := Copies(state, disk.value);
      while true
        invariant Valid() && Continues() && InStep() && disk.value.completed == state.completed
        invariant Reaches(config, w, Copies(state, disk.value)) == Reaches(config, w, start)
        invariant Index(state.current) >= Index(old(state).current) && state.decisions == old(state).decisions
        invariant forall g | Gated(g) && Index(old(state).current) <= Index(g) :: Index(state.current) <= Index(g)
        decreases 13 - Index(state.current)
      {
        if Gated(state.current) {
          SaveState();
          break;
        }
        ExecuteStage(w);
        if state.error.Some? {
          break;
        }
        var artifactValid := w.valid(state.current);
        if !CheckPreconditions(state, state.current, artifactValid) {
          SaveState();
          break;
        }
        MoveOn(artifactValid);
        SaveState();
      }
    }

    /** The transition in the middle of `_execute_stages`. */
    method MoveOn(artifactValid: bool)
      requires Valid() && running && CanMove(state, artifactValid)
      modifies this`state, this`states, this`steps
      ensures Valid() && Continues()
      ensures state == Move(old(state)) && Index(state.current) == Index(old(state).current) + 1
      ensures forall g | Gated(g) && Index(old(state).current) <= Index(g) :: Index(state.current) <= Index(g)
    {
      TargetIsNext(state.current);
      forall g | Gated(g) && Index(state.current) <= Index(g)
        ensures Index(state.current) < Index(g)
      {
        TargetIsNext(g);
      }
      state := Move(state);
      Take(Transition(artifactValid));
    }

    /** What a finished call leaves behind: a justified file, and nothing running. */
    ghost predicate Settled()
      reads this
    {
      Valid() && !running && (disk.Some? ==> Justified(disk.value))
    }

    lemma {:induction false} ValidIsJustified()
      requires Valid()
      ensures disk.Some? ==> Justified(disk.value)
      ensures running ==> Justified(state)
    {
      RunsAreJustified(states, steps, |steps|);
    }

    /** The runner returns, or the process dies: what is only in memory is gone. */
    method Stop()
      requires Valid()
      modifies this`running, this`states, this`steps
      ensures Settled() && Continues()
    {
      running := false;
      Take(Halt);
      ValidIsJustified();
    }

    /** `run`: a fresh state, saved, and as far as its stages pass; at most to the first gate, and
        to it if all executors succeed. */
    method StartRun(w: World)
      requires Settled()
      modifies this
      ensures Settled() && Continues()
      ensures disk == Some(Reaches(config, w, Both(Initial())).file)
      ensures AllSucceed(config, w) ==> disk.Some? && disk.value.current == ReviewPending && disk.value.error.None?
      ensures disk.Some? && disk.value.decisions == [] && Index(disk.value.current) <= Index(ReviewPending)
    {
      state, disk, running := Initial(), Some(Initial()), true;
      Take(Run);
      ExecuteStages(w);
      if AllSucceed(config, w) {
        SuccessReachesGate(config, w, Both(Initial()));
      }
      Stop();
    }

    /** `resume`: load, refuse if the last artifact does not verify, else save and go on. */
    method ResumeRun(artifactVerifies: bool, w: World) returns (found: bool)
      requires Settled()
      modifies this
      ensures Settled() && Continues() && (found <==> old(disk).Some?)
      ensures !found ==> disk == old(disk)
      ensures found && !artifactVerifies ==>
        disk == Some(old(disk).value.(error := Some(PipelineError(DataLogic, false))))
      ensures found && artifactVerifies ==> disk == Some(Reaches(config, w, Both(old(disk).value)).file)
      ensures found ==> disk.Some? && Index(disk.value.current) >= Index(old(disk).value.current)
      ensures found ==> forall g | Gated(g) && Index(old(disk).value.current) <= Index(g) ::
        Index(disk.value.current) <= Index(g)
    {
      if disk.None? {
        return false;
      }
      found := true;
      if !artifactVerifies {
        disk := Some(disk.value.(error := Some(UNVERIFIED)));
        Take(RejectOnResume);
        ValidIsJustified();
        return;
      }
      state, running := disk.value, true;
      Take(Resume);
      ExecuteStages(w);
      Stop();
    }

    /** `advance_stage`, `reject_stage`, `refine_stage`: load, decide on the current stage, save.
        False where the action raises: no state file, or a stage without a gate. */
    method OperatorDecides(verdict: Verdict) returns (ok: bool)
      requires Settled()
      modifies this`disk, this`states, this`steps
      ensures Settled() && Continues()
      ensures ok <==> old(disk).Some? && Gated(old(disk).value.current)
      ensures !ok ==> disk == old(disk)
      ensures ok ==> disk == Decided(old(disk).value, verdict)
      ensures ok ==> disk.Some?
      ensures ok ==>
        var s, t := old(disk).value, disk.value;
        && t.decisions == s.decisions + [GateDecision(s.current, verdict)]
        && t.completed == s.completed && t.error == s.error
        && (verdict == Reject ==> t.current == s.current)
        && (verdict == Refine ==> t.current == StrategyReady)
        && (verdict == Accept ==>
              t.current == if s.current == SelectionComplete then s.current else ORDER[Index(s.current) + 1])
    {
      if disk.None? || !Gated(disk.value.current) {
        return false;
      }
      AdvanceMeans(disk.value, verdict);
      disk := Decided(disk.value, verdict);
      Take(Decide(verdict));
      ValidIsJustified();
      ok := true;
    }

    /** `run_backtest`: a state with a non-recoverable error is discarded; then resume or run. */
    method RunBacktest(artifactVerifies: bool, w: World)
      requires Settled()
      modifies this
      ensures Settled() && Continues() && disk.Some?
      ensures old(disk).Some? && old(disk).value.error.Some? && !old(disk).value.error.value.recoverable ==>
        disk.value == Reaches(config, w, Both(Initial())).file && disk.value.decisions == []
      ensures old(disk).None? ==> disk.value == Reaches(config, w, Both(Initial())).file
      ensures
        (artifactVerifies && old(disk).Some?
         && (old(disk).value.error.None? || old(disk).value.error.value.recoverable)) ==>
        disk.value == Reaches(config, w, Both(old(disk).value)).file
    {
      if disk.Some? && Unrecoverable(disk.value) {
        disk := None;
        Take(Reset);
      }
      if disk.Some? {
        var found := ResumeRun(artifactVerifies, w);
      } else {
        StartRun(w);
      }
    }
  }
}
