/** The judge activities: one stage runs under a lease, and the lease may be given up only
    once the stage's sandbox resources are gone. Every outside call is an input that says how
    it turns out, so that each path of the try/catch/finally is covered. */
module JudgeStage {
  import opened Basics

  type Token = nat

  datatype RunState =
    | Queued | WaitingCapacity | RunningState | Recovering | Blocked | Finalizing | Completed | Cancelled

  predicate Settled(state: RunState) { state == Cancelled || state == Completed }

  datatype ErrorName =
    | SandboxBackpressureError
    | SandboxTransientInfrastructureError
    | SandboxAdmissionError
    | SandboxInfeasibleError
    | SandboxImagePullError
    | SandboxCleanupError
    | JudgeResultSystemError
    | ConflictError
    | OtherError

  /** The error names after which no sandbox resources remain. */
  predicate NothingCreated(e: ErrorName) {
    || e == SandboxBackpressureError
    || e == SandboxTransientInfrastructureError
    || e == SandboxAdmissionError
    || e == SandboxInfeasibleError
    || e == SandboxImagePullError
  }

  /** How a call turns out; a failed database call may or may not have been committed. */
  datatype Call = Works | FailsUndone(error: ErrorName) | FailsDone(error: ErrorName) {
    predicate TakesEffect() { !FailsUndone? }
  }

  datatype Completion<T> = Returned(value: T) | Threw(error: ErrorName)

  /** What running the sandbox gives: a result or an error, whether a cleanup record was
      handed over, and whether resources are left behind. */
  datatype Execution =
    | Produced(systemError: bool, compilationError: bool, deferred: bool, leftBehind: bool)
    | Failed(error: ErrorName, deferred: bool, leftBehind: bool)
  {
    /** A submission that does not compile gets no further stages. */
    predicate Breaks() { Produced? && compilationError }
  }

  /** What the executor promises. */
  predicate Honest(e: Execution, deferCleanup: bool) {
    && (e.deferred ==> deferCleanup)
    && (e.Produced? && !e.deferred ==> !e.leftBehind)
    && (e.Failed? && NothingCreated(e.error) ==> !e.leftBehind)
  }

  datatype StageStatus = Obsolete | CleanupNeeded | Finished | Saved

  /** The activity's result; `cleanup` carries the lease token of a deferred cleanup. */
  datatype StageResult = StageResult(status: StageStatus, cleanup: Option<Token>)

  /** How each call of one `executeJudgeStage` turns out. */
  datatype Script = Script(
    claim: Call,
    load: Call,
    setFinalizing: Call,
    execution: Execution,
    cleanupInTry: Call,
    save: Call,
    cleanupInCatch: Call,
    release: Call)
  {
    /** A path on which nothing of a claimed stage is left for certain when the activity ends:
        nothing was created, or what was deferred has been cleaned up. */
    predicate CleansUp(index: nat, total: nat) {
      if !load.Works? then NothingCreated(load.error)
      else if index >= total then true
      else if execution.deferred then
        cleanupInCatch.Works? || (execution.Produced? && execution.systemError && cleanupInTry.Works?)
      else execution.Produced? || NothingCreated(execution.error)
    }
  }

  /** One judge execution: its row, the saved stages, each by whether it carries a compilation
      error, and the leases under which sandbox resources exist. A random lease token is a
      number not drawn before; `released` lists the leases given up. */
  class JudgeRun {
    var state: RunState
    var owned: bool
    var lease: Option<Token>
    var stages: seq<bool>
    var resources: set<Token>
    var nextToken: Token
    var released: seq<Token>

    /** Resources live only under a lease, and no lease has been given up twice. */
    ghost predicate Valid()
      reads this
    {
      && (lease.Some? ==> lease.value < nextToken && lease.value !in released)
      && (forall i :: 0 <= i < |released| ==> released[i] < nextToken)
      && (forall i, j :: 0 <= i < j < |released| ==> released[i] != released[j])
      && (forall t :: t in resources ==> lease == Some(t))
    }

    constructor (state: RunState, owned: bool)
      ensures Valid() && lease == None && resources == {} && released == [] && stages == []
      ensures this.state == state && this.owned == owned
    {
      this.state, this.owned := state, owned;
      lease, stages, resources, nextToken, released := None, [], {}, 0, [];
    }

    /** Takes the lease of a run that is current and has none. */
    method ClaimLease(outcome: Call) returns (r: Completion<StageResult>, token: Option<Token>)
      requires Valid()
      modifies this`state, this`lease, this`nextToken
      ensures Valid()
      ensures token.Some? ==>
        && owned && !Settled(old(state)) && state == RunningState
        && old(lease).None? && lease == token && token.value == old(nextToken)
      ensures token.None? && r.Returned? ==>
        && lease == old(lease) && r.value.cleanup.None?
        && if !owned || Settled(old(state)) then r.value.status == Obsolete
           else r.value.status == CleanupNeeded && lease.Some?
      ensures r.Threw? ==> token.None?
      ensures outcome.Works? && nextToken != old(nextToken) ==> token.Some?
      ensures lease == old(lease) || (!Settled(old(state)) && old(lease).None? && lease == Some(old(nextToken)))
      ensures nextToken == if lease == old(lease) then old(nextToken) else old(nextToken) + 1
      ensures state == if lease == old(lease) then old(state) else RunningState
    {
      token := None;
      if outcome.FailsUndone? {
        return Threw(outcome.error), None;
      }
      if !owned || Settled(state) {
        return Returned(StageResult(Obsolete, None)), None;
      }
      if lease.Some? {
        return Returned(StageResult(CleanupNeeded, None)), None;
      }
      state, lease, nextToken := RunningState, Some(nextToken), nextToken + 1;
      if outcome.FailsDone? {
        return Threw(outcome.error), None;
      }
      return Returned(StageResult(Saved, None)), lease;
    }

    /** `releaseJudgeStage`: clears the lease if it is still this one and the row still belongs to
        this workflow. It may be called only when no resources of that lease remain. */
    method ReleaseLease(t: Token, outcome: Call) returns (r: Completion<()>)
      requires Valid() && t !in resources
      modifies this`lease, this`released
      ensures Valid()
      ensures if outcome.TakesEffect() && owned && old(lease) == Some(t)
              then lease == None && released == old(released) + [t]
              else lease == old(lease) && released == old(released)
      ensures r == if outcome.Works? then Returned(()) else Threw(outcome.error)
    {
      if outcome.TakesEffect() && owned && lease == Some(t) {
        lease, released := None, released + [t];
      }
      return if outcome.Works? then Returned(()) else Threw(outcome.error);
    }

    /** `saveJudgeStage`: fenced by the lease and by the stage count; keeps the lease only
        when asked to. */
    method SaveStage(index: nat, breaks: bool, t: Token, terminal: bool, retainLease: bool, outcome: Call)
      returns (r: Completion<()>)
      requires Valid() && (!retainLease ==> t !in resources)
      modifies this`state, this`lease, this`stages, this`released
      ensures Valid()
      ensures retainLease ==> lease == old(lease) && released == old(released)
      ensures !retainLease ==>
        || (lease == old(lease) && released == old(released))
        || (old(lease) == Some(t) && lease == None && released == old(released) + [t])
      ensures r.Returned? ==> stages != old(stages)
      ensures if stages == old(stages) then state == old(state)
              else
                && old(lease) == Some(t) && index == |old(stages)| && stages == old(stages) + [breaks]
                && state == if terminal then Finalizing else Queued
    {
      if outcome.FailsUndone? {
        return Threw(outcome.error);
      }
      if !owned || lease != Some(t) || state == Cancelled || index != |stages| {
        return Threw(ConflictError);
      }
      stages, state := stages + [breaks], if terminal then Finalizing else Queued;
      if !retainLease {
        lease, released := None, released + [t];
      }
      return if outcome.FailsDone? then Threw(outcome.error) else Returned(());
    }

    /** `cleanupStage` of the executor: when it returns, the resources are gone. */
    method CleanupStage(t: Token, outcome: Call) returns (r: Completion<()>)
      requires Valid()
      modifies this`resources
      ensures Valid()
      ensures resources == if outcome.TakesEffect() then old(resources) - {t} else old(resources)
      ensures r == if outcome.Works? then Returned(()) else Threw(outcome.error)
    {
      if outcome.TakesEffect() {
        resources := resources - {t};
      }
      return if outcome.Works? then Returned(()) else Threw(outcome.error);
    }

    /** Running the sandbox under the lease. */
    method Execute(t: Token, e: Execution)
      requires Valid() && lease == Some(t) && t !in resources
      modifies this`resources
      ensures Valid() && (t in resources <==> e.leftBehind)
    {
      if e.leftBehind {
        resources := resources + {t};
      }
    }

    /** The `try` block, with the lease `t` just claimed. */
    method TryStage(t: Token, index: nat, total: nat, deferCleanup: bool, s: Script)
      returns (r: Completion<StageResult>, deferred: bool, cleanupConfirmed: bool)
      requires Valid() && lease == Some(t) && t !in resources && owned && state == RunningState
      requires Honest(s.execution, deferCleanup)
      modifies this`state, this`lease, this`stages, this`released, this`resources
      ensures Valid()
      ensures cleanupConfirmed ==> t !in resources
      ensures r.Threw? && s.CleansUp(index, total) && !cleanupConfirmed ==>
        if deferred then s.cleanupInCatch.Works? else NothingCreated(r.error)
      ensures lease == Some(t) || (lease == None && released == old(released) + [t])
      ensures lease == Some(t) ==> released == old(released)
      ensures r.Returned? ==>
        && (r.value.status == Finished || r.value.status == Saved)
        && (if r.value.cleanup.Some?
            then r.value.cleanup == Some(t) && lease == Some(t) && !cleanupConfirmed
            else cleanupConfirmed)
      // the stage goes on the record in its turn, and the row is final with the last one only
      ensures r.Returned? ==>
        && (r.value.status == Finished <==> index + 1 >= total || s.execution.Breaks())
        && state == (if r.value.status == Finished then Finalizing else Queued)
        && (stages == old(stages) <==> index >= total)
      ensures stages != old(stages) ==>
        && index == |old(stages)| && index < total && stages == old(stages) + [s.execution.Breaks()]
        && s.execution.Produced? && !s.execution.systemError
        && state == (if index + 1 >= total || s.execution.Breaks() then Finalizing else Queued)
      ensures stages == old(stages) ==> state == RunningState || (index >= total && state == Finalizing)
      ensures r.Threw? && t in resources && !deferred ==> !NothingCreated(r.error)
    {
      deferred, cleanupConfirmed := false, false;
      if !s.load.Works? {
        return Threw(s.load.error), deferred, cleanupConfirmed;
      }
      if index >= total {
        cleanupConfirmed := true;
        if s.setFinalizing.TakesEffect() && owned && !Settled(state) {
          state := Finalizing;
        }
        if !s.setFinalizing.Works? {
          return Threw(s.setFinalizing.error), deferred, cleanupConfirmed;
        }
        return Returned(StageResult(Finished, None)), deferred, cleanupConfirmed;
      }
      Execute(t, s.execution);
      deferred := s.execution.deferred;
      if s.execution.Failed? {
        return Threw(s.execution.error), deferred, cleanupConfirmed;
      }
      var systemError := s.execution.systemError;
      if deferred && systemError {
        var cleaned := CleanupStage(t, s.cleanupInTry);
        if cleaned.Threw? {
          return Threw(cleaned.error), deferred, cleanupConfirmed;
        }
      }
      cleanupConfirmed := !deferred || systemError;
      if systemError {
        return Threw(JudgeResultSystemError), deferred, cleanupConfirmed;
      }
      var terminal := s.execution.compilationError || index + 1 >= total;
      var saved := SaveStage(index, s.execution.Breaks(), t, terminal, deferred, s.save);
      if saved.Threw? {
        return Threw(saved.error), deferred, cleanupConfirmed;
      }
      var status := if terminal then Finished else Saved;
      return Returned(StageResult(status, if deferred then Some(t) else None)), deferred, cleanupConfirmed;
    }

    /** The `catch` block: a cleanup not yet confirmed is done here, and the error may itself
        say that there is nothing to clean. */
    method CatchStage(t: Token, error: ErrorName, deferred: bool, cleanupConfirmed: bool, s: Script)
      returns (thrown: ErrorName, confirmed: bool)
      requires Valid() && (cleanupConfirmed ==> t !in resources)
      requires t in resources && !deferred ==> !NothingCreated(error)
      modifies this`resources
      ensures Valid()
      ensures confirmed ==> t !in resources
      ensures cleanupConfirmed ==> confirmed
      ensures (if deferred then s.cleanupInCatch.Works? else NothingCreated(error)) ==> confirmed
    {
      confirmed := cleanupConfirmed;
      if deferred && !confirmed {
        var cleaned := CleanupStage(t, s.cleanupInCatch);
        if cleaned.Threw? {
          return cleaned.error, confirmed;
        }
        confirmed := true;
      }
      if NothingCreated(error) {
        confirmed := true;
      }
      return error, confirmed;
    }

    /** `executeJudgeStage` on every path. A lease that has been given up had no resources left;
        a lease that is kept either goes to the workflow in the cleanup record or stays for
        reconciliation; and no lease is given up twice (`Valid`). */
    method ExecuteJudgeStage(index: nat, total: nat, deferCleanup: bool, s: Script)
      returns (r: Completion<StageResult>)
      requires Valid() && Honest(s.execution, deferCleanup)
      modifies this
      ensures Valid()
      ensures released == old(released)
        || (old(lease).None? && released == old(released) + [old(nextToken)] && lease == None)
      ensures old(lease).Some? ==> lease == old(lease) && resources == old(resources) && released == old(released)
      ensures old(lease).None? && lease.Some? ==> lease == Some(old(nextToken))
      ensures owned == old(owned)
      ensures nextToken == old(nextToken)
        || (old(lease).None? && !Settled(old(state)) && nextToken == old(nextToken) + 1)
      ensures nextToken == old(nextToken) ==> lease == old(lease) && resources == old(resources)
      ensures r.Returned? ==>
        (nextToken == old(nextToken) <==> r.value.status == Obsolete || r.value.status == CleanupNeeded)
      ensures r.Returned? && r.value.cleanup.Some? ==>
        lease == r.value.cleanup && released == old(released) && old(lease).None?
      ensures r.Returned? && (r.value.status == Finished || r.value.status == Saved) && r.value.cleanup.None? ==>
        lease == None && resources == {}
      ensures r.Returned? && r.value.status == CleanupNeeded ==> lease.Some? && lease == old(lease)
      ensures r.Returned? ==>
        (r.value.status == Obsolete <==> !owned || Settled(old(state)))
      ensures r.Returned? && r.value.status == Obsolete ==> lease == old(lease)
      // a lease whose resources are certainly gone is given up, if the call to give it up works
      ensures nextToken != old(nextToken) && s.claim.Works? && s.CleansUp(index, total) && s.release.TakesEffect() ==>
        lease == None || (r.Returned? && r.value.cleanup == lease)
      // the stage goes on the record in its turn, and the row is final with the last one only
      ensures r.Returned? && (r.value.status == Finished || r.value.status == Saved) ==>
        && (r.value.status == Finished <==> index + 1 >= total || s.execution.Breaks())
        && state == (if r.value.status == Finished then Finalizing else Queued)
        && (stages == old(stages) <==> index >= total)
      ensures stages != old(stages) ==>
        && index == |old(stages)| && index < total && stages == old(stages) + [s.execution.Breaks()]
        && s.execution.Produced? && !s.execution.systemError
        && state == (if index + 1 >= total || s.execution.Breaks() then Finalizing else Queued)
      ensures stages == old(stages) && nextToken != old(nextToken) ==>
        state == RunningState || (index >= total && state == Finalizing)
      ensures nextToken == old(nextToken) ==> state == old(state) && stages == old(stages)
    {
      var token;
      r, token := ClaimLease(s.claim);
      if token.None? {
        return;
      }
      var t := token.value;
      var deferred, confirmed;
      r, deferred, confirmed := TryStage(t, index, total, deferCleanup, s);
      if r.Threw? {
        var thrown;
        thrown, confirmed := CatchStage(t, r.error, deferred, confirmed, s);
        r := Threw(thrown);
      }
      if confirmed {
        var gone := ReleaseLease(t, s.release);
        if gone.Threw? {
          r := Threw(gone.error);
        }
      }
    }

    /** `cleanupJudgeStage`: cleans first, releases afterwards. A row that has gone to another
        workflow keeps its lease. */
    method CleanupJudgeStage(t: Token, cleanup: Call, release: Call) returns (r: Completion<()>)
      requires Valid()
      modifies this`lease, this`released, this`resources
      ensures Valid()
      ensures r.Returned? ==> t !in resources && (owned ==> lease != Some(t))
      ensures lease == old(lease)
        || (owned && old(lease) == Some(t) && lease == None && released == old(released) + [t])
      ensures lease == old(lease) ==> released == old(released)
      ensures resources == old(resources) || resources == old(resources) - {t}
    {
      r := CleanupStage(t, cleanup);
      if r.Threw? {
        return;
      }
      r := ReleaseLease(t, release);
    }

    /** `reconcileJudgeStage`: an expired lease is given up once the executor reports that
        nothing of it is left. `true` means this lease no longer stands in the way. */
    method ReconcileJudgeStage(t: Token, expired: bool, safe: Call, nothingLeft: bool, release: Call)
      returns (r: Completion<bool>)
      requires Valid()
      modifies this`lease, this`released, this`resources
      ensures Valid()
      ensures r == Returned(true) && owned ==> lease != Some(t)
      ensures lease == old(lease)
        || (owned && old(lease) == Some(t) && lease == None && released == old(released) + [t])
      ensures lease == old(lease) ==> released == old(released)
      ensures r == Returned(false) ==> lease == old(lease) && resources == old(resources)
      ensures expired && safe.Works? && nothingLeft && release.Works? ==> r == Returned(true)
      ensures !owned || (old(lease) == Some(t) && !expired) ==> lease == old(lease) && resources == old(resources)
      ensures resources == old(resources) || (expired && resources == old(resources) - {t})
    {
      if !owned || lease != Some(t) {
        return Returned(true);
      }
      if !expired {
        return Returned(false);
      }
      if !safe.Works? {
        return Threw(safe.error);
      }
      if nothingLeft {
        resources := resources - {t};
        var gone := ReleaseLease(t, release);
        if gone.Threw? {
          return Threw(gone.error);
        }
      }
      return Returned(nothingLeft);
    }
  }

  // ---------------------------------------------------------------- combining the stages

  /** The parts of a stage result that the combining loop looks at. */
  datatype SandboxResult = SandboxResult(
    compilationError: Option<string>, pipelineError: Option<string>,
    testcases: seq<int>, rawRuns: Option<seq<int>>)

  const EMPTY_RESULT := SandboxResult(None, None, [], None)

  /** An empty message does not count as a compilation error. */
  predicate Broken(stage: SandboxResult) {
    stage.compilationError.Some? && stage.compilationError.value != ""
  }

  /** What the stages mean together: the first compilation error speaks for the submission;
      otherwise all testcases and runs in order, other fields as the last stage to set them. */
  function FirstBroken(stages: seq<SandboxResult>): Option<SandboxResult> {
    if |stages| == 0 then None
    else if Broken(stages[0]) then Some(stages[0])
    else FirstBroken(stages[1..])
  }

  function AllTestcases(stages: seq<SandboxResult>): seq<int> {
    if |stages| == 0 then []
    else AllTestcases(stages[..|stages| - 1]) + stages[|stages| - 1].testcases
  }

  function AllRuns(stages: seq<SandboxResult>): Option<seq<int>> {
    if |stages| == 0 then None
    else
      var before, last := AllRuns(stages[..|stages| - 1]), stages[|stages| - 1].rawRuns;
      if last.None? then before
      else Some((if before.Some? then before.value else []) + last.value)
  }

  /** A field as the last stage to set it has it. */
  function LastSet(stages: seq<SandboxResult>, field: SandboxResult -> Option<string>): Option<string> {
    if |stages| == 0 then None
    else
      var last := field(stages[|stages| - 1]);
      if last.Some? then last else LastSet(stages[..|stages| - 1], field)
  }

  lemma {:induction false} FirstBrokenAt(stages: seq<SandboxResult>, k: nat)
    requires k < |stages| && Broken(stages[k])
    requires forall i :: 0 <= i < k ==> !Broken(stages[i])
    ensures FirstBroken(stages) == Some(stages[k])
    decreases k
  {
    if k > 0 {
      FirstBrokenAt(stages[1..], k - 1);
    }
  }

  lemma {:induction false} NoneBroken(stages: seq<SandboxResult>)
    requires forall i :: 0 <= i < |stages| ==> !Broken(stages[i])
    ensures FirstBroken(stages) == None
  {
    if |stages| > 0 {
      NoneBroken(stages[1..]);
    }
  }

  method Combine(stages: seq<SandboxResult>) returns (combined: SandboxResult)
    ensures match FirstBroken(stages)
      case Some(broken) => combined == broken
      case None =>
        && combined.compilationError == LastSet(stages, (r: SandboxResult) => r.compilationError)
        && combined.pipelineError == LastSet(stages, (r: SandboxResult) => r.pipelineError)
        && combined.testcases == AllTestcases(stages)
        && combined.rawRuns == AllRuns(stages)
  {
    combined := EMPTY_RESULT;
    var compilation, pipeline := (r: SandboxResult) => r.compilationError, (r: SandboxResult) => r.pipelineError;
    for k := 0 to |stages|
      invariant forall i :: 0 <= i < k ==> !Broken(stages[i])
      invariant combined.compilationError == LastSet(stages[..k], compilation)
      invariant combined.pipelineError == LastSet(stages[..k], pipeline)
      invariant combined.testcases == AllTestcases(stages[..k])
      invariant combined.rawRuns == AllRuns(stages[..k])
    {
      var stage := stages[k];
      if Broken(stage) {
        FirstBrokenAt(stages, k);
        return stage;
      }
      assert stages[..k + 1][..k] == stages[..k];
      combined := SandboxResult(
        if stage.compilationError.Some? then stage.compilationError else combined.compilationError,
        if stage.pipelineError.Some? then stage.pipelineError else combined.pipelineError,
        combined.testcases + stage.testcases,
        if stage.rawRuns.Some?
        then Some((if combined.rawRuns.Some? then combined.rawRuns.value else []) + stage.rawRuns.value)
        else combined.rawRuns);
    }
    NoneBroken(stages);
    assert stages[..|stages|] == stages;
  }
}
