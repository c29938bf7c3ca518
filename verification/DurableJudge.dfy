/** `durableJudgeWorkflow` as a state machine: one state per awaited call, one event per way a
    call can turn out, and the judge execution's row that the activities act on. */
module DurableJudge {
  import opened Basics
  import opened JudgeStage

  /** The promise held in the loop's `cleanup` variable. */
  datatype CleanupPromise = NoCleanup | InFlight(token: Token) | Fulfilled | Rejected

  datatype Cause = Capacity | NeedsOperator | NeverStarted | Infrastructure

  datatype Pc =
    | LoopHead
    | AwaitStatus
    | AwaitReconcile(token: Token, seen: RunState)
    | AwaitBlockedRecord
    | AwaitBlockedSleep
    | AwaitQueuedRecord
    | AwaitStage
    | AwaitBackoffSleep
    | AwaitCleanupThenNext
    | AwaitComplete
    | AwaitEffects(left: nat)
    | AwaitCleanupThenFinish
    | AwaitFinish
    | AwaitCleanupInCatch(cause: Cause)
    | AwaitRecoveryRecord(cause: Cause)
    | AwaitDelay(ms: nat)
    | Returned
    | Cancelled

  /** The execution's row: how many stages the submission has, the saved stages, each by whether it
      has a compilation error, the state, the lease, whether resources exist under that lease, and
      the next token to be drawn. */
  datatype Row = Row(
    total: nat, stages: seq<bool>, state: RunState, lease: Option<Token>, resources: bool, nextToken: Token)
  {
    /** A cancelled or completed run keeps its state. */
    function Touch(next: RunState): Row {
      if Settled(state) then this else this.(state := next)
    }

    /** `setJudgeExecutionState`: a finalizing run stays finalizing, too. */
    function Record(next: RunState): Row {
      if state == Finalizing then this else Touch(next)
    }

    /** `finishJudgeExecution` clears the lease together with completing the run. */
    function Finish(): Row {
      if state == RunState.Cancelled then this else this.(state := Completed, lease := None)
    }

    /** A stage activity that drew a lease: the lease is kept or has been given up with nothing left
        behind, and the stage has been saved, or there was none left to run, or the activity failed
        before that. That this is what the activity does is proved in `StageIsEvent`. */
    function AfterActivity(index: nat, saved: bool, breaks: bool, leaseKept: bool, leftBehind: bool): Row {
      Progressed(index, saved, breaks)
        .(nextToken := nextToken + 1, lease := if leaseKept then Some(nextToken) else None,
          resources := leaseKept && leftBehind)
    }

    /** The resources of a lease are gone, or the lease has been given up, which comes afterwards. */
    function GivenUp(token: Token, cleaned: bool, released: bool): Row {
      if lease != Some(token) then this
      else this.(lease := if released then None else lease, resources := resources && !cleaned && !released)
    }

    function Progressed(index: nat, saved: bool, breaks: bool): Row {
      if !saved then Touch(RunningState)
      else if index >= total then Touch(Finalizing)
      else Touch(if breaks || index + 1 >= total then Finalizing else Queued).(stages := stages + [breaks])
    }

    /** All stages are saved, or the last saved one has a compilation error. */
    predicate Judged() {
      |stages| == total || Stopped()
    }

    predicate Stopped() {
      |stages| > 0 && stages[|stages| - 1]
    }

    /** No stage follows a compilation error, and a finalizing row is judged. */
    predicate Valid() {
      && |stages| <= total
      && (forall i :: 0 <= i < |stages| - 1 ==> !stages[i])
      && (state == Finalizing ==> Judged())
      && (!Over(state) ==> !Stopped())
    }
  }

  predicate Over(state: RunState) {
    state == Finalizing || Settled(state)
  }

  datatype World = World(
    pc: Pc,
    iteration: nat,
    failures: nat,
    published: bool,
    finalizing: bool,
    index: nat,
    cleanup: CleanupPromise,
    row: Row,
    // what happened in this iteration and in this run
    cleared: bool,
    resultsOut: bool,
    deferredOut: bool)

  /** How the awaited call turns out; a failed activity may have taken effect. */
  datatype Event =
    | Goes
    | StageReturns(status: StageStatus, breaks: bool, deferred: bool, leftBehind: bool)
    | StageThrows(cause: Cause, claimed: bool, saved: bool, breaks: bool, leaseKept: bool, leftBehind: bool)
    | ReconcileSays(safe: bool)
    | ReconcileThrows(cause: Cause, cleaned: bool, released: bool)
    | Completes(effects: nat)
    | Throws(cause: Cause, tookEffect: bool)
    | CancelRequested
    | CleanupSettles(works: bool, cleaned: bool, released: bool)
    | ExecutionCancelled
    | ContinueSuggested

  // ---------------------------------------------------------------- recovery policy

  function Pow2(n: nat): nat {
    if n == 0 then 1 else 2 * Pow2(n - 1)
  }

  function Min(a: int, b: int): int {
    if a < b then a else b
  }

  function JudgeRecoveryDelayMs(attempt: nat): nat {
    Min(300_000, 5_000 * Pow2(Min(attempt, 6)))
  }

  function RecoveryDelayMs(capacity: bool, blocked: bool, failures: nat): nat
    requires failures > 0
  {
    if capacity then 30_000 else if blocked then 900_000 else JudgeRecoveryDelayMs(failures - 1)
  }

  function RecoveryState(finalizing: bool, capacity: bool, blocked: bool): RunState {
    if finalizing then Finalizing
    else if capacity then WaitingCapacity
    else if blocked then Blocked
    else Recovering
  }

  predicate IsBlocked(cause: Cause, failures: nat) {
    cause != Capacity && (cause == NeedsOperator || failures >= 3)
  }

  /** Since the third failure blocks, the doubling delay never gets past ten seconds: every
      delay is five or ten seconds, half a minute or a quarter of an hour, and unless the results are
      in already the state recorded tells which. */
  lemma RecoveryDelays(cause: Cause, failures: nat)
    requires failures > 0
    ensures var ms := RecoveryDelayMs(cause == Capacity, IsBlocked(cause, failures), failures);
      && (ms == 30_000 <==> cause == Capacity)
      && (ms == 900_000 <==> IsBlocked(cause, failures))
      && (ms == 5_000 <==> cause != Capacity && !IsBlocked(cause, failures) && failures == 1)
      && (ms == 10_000 <==> cause != Capacity && !IsBlocked(cause, failures) && failures == 2)
      && (ms == 30_000 || ms == 900_000 || ms == 5_000 || ms == 10_000)
      && var state := RecoveryState(false, cause == Capacity, IsBlocked(cause, failures));
         && (ms == 30_000 <==> state == WaitingCapacity) && (ms == 900_000 <==> state == Blocked)
         && (ms == 5_000 || ms == 10_000 <==> state == Recovering)
    ensures RecoveryState(true, cause == Capacity, IsBlocked(cause, failures)) == Finalizing
  {
    assert Pow2(0) == 1 && Pow2(1) == 2;
  }

  /** The doubling delay itself: it doubles up to its cap and stays there. */
  lemma RecoveryDelayDoubles(attempt: nat)
    ensures JudgeRecoveryDelayMs(attempt) ==
      if attempt == 0 then 5_000 else Min(300_000, 2 * JudgeRecoveryDelayMs(attempt - 1))
  {
    assert Pow2(6) == 64 by {
      assert Pow2(3) == 8;
    }
  }

  // ---------------------------------------------------------------- the workflow's steps

  function Record(w: World, state: RunState): World {
    w.(row := w.row.Record(state))
  }

  /** An error reaches the `catch` block. */
  function Raise(w: World, cause: Cause): World {
    if w.cleanup.InFlight? then w.(pc := AwaitCleanupInCatch(cause)) else Recover(w, cause)
  }

  /** The part of the `catch` block after the cleanup has settled. */
  function Recover(w: World, cause: Cause): World {
    if cause == NeverStarted then w.(pc := LoopHead)
    else w.(failures := w.failures + 1, pc := AwaitRecoveryRecord(cause))
  }

  /** Publishing, or straight on to the cleanup when that has been done before. */
  function ToPublish(w: World): World {
    if w.published then ToFinish(w) else w.(pc := AwaitComplete)
  }

  function ToFinish(w: World): World {
    match w.cleanup
    case NoCleanup => w.(pc := AwaitFinish)
    case InFlight(_) => w.(pc := AwaitCleanupThenFinish)
    case Fulfilled => w.(pc := AwaitFinish)
    case Rejected => Recover(w, Infrastructure)
  }

  /** All effects are out. */
  function Published(w: World): World {
    ToFinish(w.(published := w.cleanup != NoCleanup, resultsOut := true,
                deferredOut := w.deferredOut || w.cleanup != NoCleanup))
  }

  function AfterLeaseCheck(w: World, seen: RunState): World {
    if Settled(seen) then w.(pc := Pc.Returned)
    else if w.finalizing then ToPublish(w)
    else w.(pc := AwaitQueuedRecord)
  }

  /** A stage is done and clean. */
  function Onward(w: World): World {
    w.(failures := 0, pc := LoopHead)
  }

  /** The stage has been saved, or found finished; a deferred cleanup starts with its lease. */
  function AfterSaved(w: World, breaks: bool, deferred: bool, leftBehind: bool): World {
    var v := w.(row := w.row.AfterActivity(w.index, true, breaks, deferred, leftBehind));
    if deferred then v.(cleanup := InFlight(w.row.nextToken)) else v
  }

  /** `executeJudgeStage` has come back; it reports the status that the record calls for. */
  function AfterStage(w: World, status: StageStatus, breaks: bool, deferred: bool, leftBehind: bool): World {
    match status
    case Obsolete => w.(pc := Pc.Returned)
    case CleanupNeeded => if w.row.lease.None? then w else w.(pc := AwaitBackoffSleep)
    case _ =>
      if w.row.lease.Some? || ((status == Finished) != (breaks || w.index + 1 >= w.row.total)) then w
      else
        var v := AfterSaved(w, breaks, deferred, leftBehind);
        if status == Finished then ToPublish(v.(finalizing := true))
        else if deferred then v.(pc := AwaitCleanupThenNext)
        else Onward(v)
  }

  /** `executeJudgeStage` has thrown: the lease was never taken, or has been given up with
      nothing left behind, or is kept; and the stage may have been saved before the error. */
  function StageFails(w: World, claimed: bool, saved: bool, breaks: bool, leaseKept: bool, leftBehind: bool): World {
    if w.row.lease.None? && claimed
    then w.(row := w.row.AfterActivity(w.index, saved, breaks, leaseKept, leftBehind))
    else w
  }

  /** `cleanupJudgeStage` has settled: see `JudgeRun.CleanupJudgeStage`. */
  function SettleCleanup(w: World, works: bool, cleaned: bool, released: bool): World
    requires w.cleanup.InFlight?
  {
    w.(row := w.row.GivenUp(w.cleanup.token, cleaned || works, released || works),
       cleanup := if works then Fulfilled else Rejected)
  }

  /** Where the workflow awaited the cleanup, it goes on. */
  function AfterSettled(w: World, works: bool): World {
    match w.pc
    case AwaitCleanupThenNext => if works then Onward(w) else Recover(w, Infrastructure)
    case AwaitCleanupThenFinish => ToFinish(w)
    case AwaitCleanupInCatch(cause) => Recover(w, cause)
    case _ => w
  }

  /** `reconcileJudgeStage` has thrown, before or after cleaning and releasing. */
  function AfterReconcileThrew(w: World, cause: Cause, cleaned: bool, released: bool): World {
    if w.pc.AwaitReconcile? then Raise(w.(row := w.row.GivenUp(w.pc.token, cleaned, released)), cause) else w
  }

  function Next(w: World, e: Event): World {
    if w.pc == Pc.Returned || w.pc == Pc.Cancelled then w
    else
      match e
      case ExecutionCancelled => w.(row := w.row.(state := RunState.Cancelled))
      case CancelRequested => w.(pc := Pc.Cancelled)
      case ContinueSuggested => if w.pc == LoopHead then FreshRun(w) else w
      case CleanupSettles(works, cleaned, released) =>
        if !w.cleanup.InFlight? then w
        else
          AfterSettled(SettleCleanup(w, works, cleaned, released), works)
      case Throws(cause, tookEffect) =>
        (match w.pc
         case AwaitStatus => Raise(w, cause)
         case AwaitBlockedRecord => Raise(w, cause)
         case AwaitQueuedRecord => Raise(w, cause)
         case AwaitComplete => Raise(w, cause)
         case AwaitEffects(_) => Raise(w, cause)
         case AwaitFinish =>
           Raise(if tookEffect then w.(row := w.row.Finish()) else w, cause)
         case AwaitRecoveryRecord(first) => w.(pc := AwaitDelay(DelayAfter(w, first)))
         case _ => w)
      case StageThrows(cause, claimed, saved, breaks, leaseKept, leftBehind) =>
        if w.pc == AwaitStage then Raise(StageFails(w, claimed, saved, breaks, leaseKept, leftBehind), cause) else w
      case StageReturns(status, breaks, deferred, leftBehind) =>
        if w.pc == AwaitStage then AfterStage(w, status, breaks, deferred, leftBehind) else w
      case ReconcileSays(safe) =>
        (match w.pc
         case AwaitReconcile(token, seen) =>
           if safe then AfterLeaseCheck(w.(row := w.row.GivenUp(token, true, true), cleared := true), seen)
           else w.(pc := AwaitBlockedRecord)
         case _ => w)
      case ReconcileThrows(cause, cleaned, released) => AfterReconcileThrew(w, cause, cleaned, released)
      case Completes(effects) =>
        if w.pc != AwaitComplete then w
        else if effects == 0 then Published(w)
        else w.(pc := AwaitEffects(effects))
      case Goes =>
        (match w.pc
         case LoopHead =>
           if w.iteration >= 100 then FreshRun(w)
           else
             w.(iteration := w.iteration + 1, finalizing := false, cleanup := NoCleanup, cleared := false,
                pc := AwaitStatus)
         case AwaitStatus =>
           var v := w.(finalizing := w.row.state == Finalizing, index := |w.row.stages|);
           if w.row.lease.Some? then v.(pc := AwaitReconcile(w.row.lease.value, w.row.state))
           else AfterLeaseCheck(v.(cleared := true), w.row.state)
         case AwaitBlockedRecord => Record(w, Blocked).(pc := AwaitBlockedSleep)
         case AwaitBlockedSleep => w.(pc := LoopHead)
         case AwaitQueuedRecord => Record(w, Queued).(pc := AwaitStage)
         case AwaitBackoffSleep => w.(pc := LoopHead)
         case AwaitEffects(left) => if left <= 1 then Published(w) else w.(pc := AwaitEffects(left - 1))
         case AwaitFinish => w.(row := w.row.Finish()).(pc := Pc.Returned)
         case AwaitRecoveryRecord(cause) =>
           Record(w, RecoveryState(w.finalizing, cause == Capacity, IsBlocked(cause, w.failures)))
             .(pc := AwaitDelay(DelayAfter(w, cause)))
         case AwaitDelay(_) => w.(pc := LoopHead)
         case _ => w)
  }

  function DelayAfter(w: World, cause: Cause): nat {
    if w.failures == 0 then 0 else RecoveryDelayMs(cause == Capacity, IsBlocked(cause, w.failures), w.failures)
  }

  /** Continue-as-new: the loop's variables start over, the row stays. */
  function FreshRun(w: World): World {
    World(LoopHead, 0, 0, false, false, 0, NoCleanup, w.row, false, false, false)
  }

  function Exec(w: World, events: seq<Event>): World
    decreases |events|
  {
    if |events| == 0 then w else Exec(Next(w, events[0]), events[1..])
  }

  // ---------------------------------------------------------------- invariant

  predicate Publishing(pc: Pc) { pc.AwaitComplete? || pc.AwaitEffects? }

  predicate BeforeLeaseCheck(pc: Pc) {
    || pc.LoopHead? || pc.AwaitStatus? || pc.AwaitReconcile? || pc.AwaitBlockedRecord? || pc.AwaitBlockedSleep?
    || pc.AwaitBackoffSleep? || pc.AwaitRecoveryRecord? || pc.AwaitDelay?
  }

  /** States in which the lease is known to be free unless a deferred cleanup holds it. */
  predicate PastLeaseCheck(pc: Pc) {
    || pc.AwaitQueuedRecord? || pc.AwaitStage? || pc.AwaitComplete? || pc.AwaitEffects?
    || pc.AwaitCleanupThenFinish? || pc.AwaitFinish? || pc.AwaitCleanupThenNext?
  }

  /** What holds wherever the workflow stands. */
  predicate Core(w: World) {
    && (w.row.resources ==> w.row.lease.Some?)
    && (w.row.lease.Some? ==> w.row.lease.value < w.row.nextToken)
    && (w.cleanup.InFlight? ==>
          w.cleanup.token < w.row.nextToken && (w.row.lease.Some? ==> w.row.lease == Some(w.cleanup.token)))
    && (w.deferredOut <==> w.published)
    && (w.published ==> w.resultsOut)
  }

  predicate LeaseKnown(w: World) {
    && (BeforeLeaseCheck(w.pc) ==> !w.cleanup.InFlight?)
    && (PastLeaseCheck(w.pc) ==> w.cleared)
    && (PastLeaseCheck(w.pc) && (w.cleanup == NoCleanup || w.cleanup == Fulfilled) ==> w.row.lease.None?)
    && (w.pc.AwaitReconcile? ==> w.row.lease == Some(w.pc.token))
  }

  predicate CleanupKnown(w: World) {
    && (w.pc.AwaitStatus? || w.pc.AwaitReconcile? || w.pc.AwaitStage? || w.pc.AwaitQueuedRecord? ==>
          w.cleanup == NoCleanup)
    && (w.pc.AwaitCleanupThenNext? || w.pc.AwaitCleanupThenFinish? || w.pc.AwaitCleanupInCatch? ==> w.cleanup.InFlight?)
    && (w.pc.AwaitFinish? ==> w.cleanup == NoCleanup || w.cleanup == Fulfilled)
  }

  predicate PublicationKnown(w: World) {
    && (w.pc.AwaitFinish? || w.pc.AwaitCleanupThenFinish? ==> w.resultsOut)
    && (Publishing(w.pc) ==> !w.published)
    && (w.pc.AwaitRecoveryRecord? ==> w.failures > 0)
  }

  predicate Inv(w: World) {
    Core(w) && LeaseKnown(w) && CleanupKnown(w) && PublicationKnown(w)
  }

  lemma RecoverKeeps(w: World, cause: Cause)
    requires Core(w) && !w.cleanup.InFlight?
    ensures Inv(Recover(w, cause))
  {
  }

  lemma RaiseKeeps(w: World, cause: Cause)
    requires Core(w)
    ensures Inv(Raise(w, cause))
  {
    hide Recover;
    if !w.cleanup.InFlight? {
      RecoverKeeps(w, cause);
    }
  }

  lemma ToFinishKeeps(w: World)
    requires Core(w) && w.cleared && w.resultsOut
    requires w.cleanup == NoCleanup || w.cleanup == Fulfilled ==> w.row.lease.None?
    ensures Inv(ToFinish(w))
  {
    hide Recover;
    if w.cleanup == Rejected {
      RecoverKeeps(w, Infrastructure);
    }
  }

  lemma ToPublishKeeps(w: World)
    requires Core(w) && w.cleared
    requires w.cleanup == NoCleanup || w.cleanup == Fulfilled ==> w.row.lease.None?
    ensures Inv(ToPublish(w))
  {
    hide ToFinish;
    if w.published {
      ToFinishKeeps(w);
    }
  }

  lemma PublishedKeeps(w: World)
    requires Core(w) && w.cleared && !w.published
    requires w.cleanup == NoCleanup || w.cleanup == Fulfilled ==> w.row.lease.None?
    ensures Inv(Published(w))
  {
    hide ToFinish;
    ToFinishKeeps(w.(published := w.cleanup != NoCleanup, resultsOut := true,
                     deferredOut := w.deferredOut || w.cleanup != NoCleanup));
  }

  lemma AfterLeaseCheckKeeps(w: World, seen: RunState)
    requires Core(w) && w.cleared && w.cleanup == NoCleanup && w.row.lease.None?
    ensures Inv(AfterLeaseCheck(w, seen))
  {
    hide ToPublish;
    if w.finalizing && !Settled(seen) {
      ToPublishKeeps(w);
    }
  }

  lemma StageKeeps(w: World, status: StageStatus, breaks: bool, deferred: bool, leftBehind: bool)
    requires Inv(w) && w.pc == AwaitStage
    ensures Inv(AfterStage(w, status, breaks, deferred, leftBehind))
  {
    hide ToPublish;
    var v := AfterSaved(w, breaks, deferred, leftBehind);
    if status == Finished {
      ToPublishKeeps(v.(finalizing := true));
    }
  }

  lemma SettleKeepsCore(w: World, works: bool, cleaned: bool, released: bool)
    requires Core(w) && w.cleanup.InFlight?
    ensures var v := SettleCleanup(w, works, cleaned, released);
      && Core(v) && !v.cleanup.InFlight? && v.cleanup != NoCleanup
      && (v.cleanup == Fulfilled ==> v.row.lease.None?)
      && v == w.(cleanup := v.cleanup, row := v.row)
  {
  }

  lemma SettleKeeps(w: World, works: bool, cleaned: bool, released: bool)
    requires Inv(w) && w.cleanup.InFlight?
    ensures Inv(AfterSettled(SettleCleanup(w, works, cleaned, released), works))
  {
    hide SettleCleanup, ToFinish, Recover;
    SettleKeepsCore(w, works, cleaned, released);
    var v := SettleCleanup(w, works, cleaned, released);
    match w.pc
    case AwaitCleanupThenNext => if !works { RecoverKeeps(v, Infrastructure); }
    case AwaitCleanupThenFinish => ToFinishKeeps(v);
    case AwaitCleanupInCatch(cause) => RecoverKeeps(v, cause);
    case _ =>
  }

  lemma StatusKeeps(w: World)
    requires Inv(w) && w.pc == AwaitStatus
    ensures Inv(Next(w, Goes))
  {
    hide AfterLeaseCheck;
    if w.row.lease.None? {
      AfterLeaseCheckKeeps(
        w.(finalizing := w.row.state == Finalizing, index := |w.row.stages|, cleared := true), w.row.state);
    }
  }

  lemma RecordSame(row: Row, state: RunState)
    ensures row.Record(state) == row.(state := row.Record(state).state)
  {
  }

  lemma GoesKeeps(w: World)
    requires Inv(w) && !w.pc.Returned? && !w.pc.Cancelled?
    ensures Inv(Next(w, Goes))
  {
    hide AfterLeaseCheck, Published, RecoveryState, DelayAfter, Row.Record, IsBlocked;
    match w.pc
    case AwaitStatus => StatusKeeps(w);
    case AwaitEffects(_) => PublishedKeeps(w);
    case AwaitBlockedRecord => RecordSame(w.row, Blocked);
    case AwaitQueuedRecord => RecordSame(w.row, Queued);
    case AwaitRecoveryRecord(cause) =>
      RecordSame(w.row, RecoveryState(w.finalizing, cause == Capacity, IsBlocked(cause, w.failures)));
    case _ =>
  }

  lemma ThrowsKeeps(w: World, cause: Cause, tookEffect: bool)
    requires Inv(w) && !w.pc.Returned? && !w.pc.Cancelled?
    ensures Inv(Next(w, Throws(cause, tookEffect)))
  {
    hide Raise, DelayAfter;
    RaiseKeeps(w, cause);
    if w.pc == AwaitFinish {
      RaiseKeeps(w.(row := w.row.Finish()), cause);
    }
  }

  lemma ReconcileThrowsKeeps(w: World, cause: Cause, cleaned: bool, released: bool)
    requires Inv(w)
    ensures Inv(AfterReconcileThrew(w, cause, cleaned, released))
  {
    hide Raise;
    if w.pc.AwaitReconcile? {
      RaiseKeeps(w.(row := w.row.GivenUp(w.pc.token, cleaned, released)), cause);
    }
  }

  lemma StageThrowsKeeps(
    w: World, cause: Cause, claimed: bool, saved: bool, breaks: bool, leaseKept: bool, leftBehind: bool)
    requires Inv(w) && w.pc == AwaitStage
    ensures Inv(Next(w, StageThrows(cause, claimed, saved, breaks, leaseKept, leftBehind)))
  {
    hide Raise;
    RaiseKeeps(StageFails(w, claimed, saved, breaks, leaseKept, leftBehind), cause);
  }

  lemma ReconcileKeeps(w: World, safe: bool)
    requires Inv(w) && !w.pc.Returned? && !w.pc.Cancelled?
    ensures Inv(Next(w, ReconcileSays(safe)))
  {
    hide AfterLeaseCheck;
    if w.pc.AwaitReconcile? && safe {
      AfterLeaseCheckKeeps(w.(row := w.row.GivenUp(w.pc.token, true, true), cleared := true), w.pc.seen);
    }
  }

  lemma CompletesKeeps(w: World, effects: nat)
    requires Inv(w)
    ensures Inv(Next(w, Completes(effects)))
  {
    hide Published;
    if w.pc == AwaitComplete {
      PublishedKeeps(w);
    }
  }

  lemma NextKeeps(w: World, e: Event)
    requires Inv(w)
    ensures Inv(Next(w, e))
  {
    match e
    case CancelRequested =>
    case ExecutionCancelled =>
    case ContinueSuggested =>
    case Completes(effects) => CompletesKeeps(w, effects);
    case _ => CallKeeps(w, e);
  }

  lemma CallKeeps(w: World, e: Event)
    requires Inv(w)
    requires !e.CancelRequested? && !e.ExecutionCancelled? && !e.ContinueSuggested? && !e.Completes?
    ensures Inv(Next(w, e))
  {
    hide Inv, AfterStage, Raise, AfterLeaseCheck, Published, SettleCleanup, AfterSettled, ToFinish,
      Recover, AfterReconcileThrew;
    if !w.pc.Returned? && !w.pc.Cancelled? {
      match e {
        case Goes => GoesKeeps(w);
        case CleanupSettles(works, cleaned, released) =>
          if w.cleanup.InFlight? { SettleKeeps(w, works, cleaned, released); }
        case Throws(cause, tookEffect) => ThrowsKeeps(w, cause, tookEffect);
        case StageReturns(status, breaks, deferred, leftBehind) =>
          if w.pc == AwaitStage { StageKeeps(w, status, breaks, deferred, leftBehind); }
        case StageThrows(cause, claimed, saved, breaks, leaseKept, leftBehind) =>
          if w.pc == AwaitStage { StageThrowsKeeps(w, cause, claimed, saved, breaks, leaseKept, leftBehind); }
        case ReconcileSays(safe) => ReconcileKeeps(w, safe);
        case ReconcileThrows(cause, cleaned, released) => ReconcileThrowsKeeps(w, cause, cleaned, released);
      }
    }
  }

  lemma {:induction false} ExecKeeps(w: World, events: seq<Event>)
    requires Inv(w)
    ensures Inv(Exec(w, events))
    decreases |events|
  {
    hide Inv, Next;
    if |events| > 0 {
      NextKeeps(w, events[0]);
      ExecKeeps(Next(w, events[0]), events[1..]);
    }
  }

  // ---------------------------------------------------------------- which stages are on the record

  /** What the workflow has learned about the row. */
  predicate ProgressKnown(w: World) {
    && (w.finalizing || w.resultsOut || Publishing(w.pc) ==> w.row.Judged())
    && (w.pc.AwaitQueuedRecord? || w.pc.AwaitStage? ==> w.index == |w.row.stages| && !w.row.Stopped())
    && (w.pc.AwaitReconcile? ==>
          && w.index == |w.row.stages|
          && (w.finalizing <==> w.pc.seen == Finalizing) && (!Over(w.pc.seen) ==> !w.row.Stopped()))
  }

  predicate Progress(w: World) { w.row.Valid() && ProgressKnown(w) }

  /** Enough for the places from which no stage is started and no result published directly. */
  predicate ProgressHeld(w: World) {
    w.row.Valid() && (w.finalizing || w.resultsOut ==> w.row.Judged())
  }

  lemma RecordValid(row: Row, state: RunState)
    requires row.Valid() && (state == Finalizing ==> row.Judged())
    ensures var next := row.Record(state);
      && next.Valid() && next == row.(state := next.state)
      && (next.Stopped() <==> row.Stopped()) && (next.Judged() <==> row.Judged())
  {
  }

  lemma FinishValid(row: Row)
    requires row.Valid()
    ensures var next := row.Finish();
      && next.Valid() && next.stages == row.stages
      && (next.Stopped() <==> row.Stopped()) && (next.Judged() <==> row.Judged())
  {
  }

  lemma GivenUpValid(row: Row, token: Token, cleaned: bool, released: bool)
    requires row.Valid()
    ensures var next := row.GivenUp(token, cleaned, released);
      && next.Valid() && next.stages == row.stages
      && (next.Stopped() <==> row.Stopped()) && (next.Judged() <==> row.Judged())
  {
  }

  lemma ActivityValid(row: Row, saved: bool, breaks: bool, leaseKept: bool, leftBehind: bool)
    requires row.Valid() && !row.Stopped()
    ensures var next := row.AfterActivity(|row.stages|, saved, breaks, leaseKept, leftBehind);
      && next.Valid() && (row.Judged() ==> next.Judged())
      && (saved && (breaks || |row.stages| + 1 >= row.total) ==> next.Judged())
  {
  }

  lemma RaiseProgress(w: World, cause: Cause)
    requires ProgressHeld(w)
    ensures Progress(Raise(w, cause)) && Progress(Recover(w, cause))
  {
    hide Row.Valid, Row.Judged, Row.Stopped;
  }

  lemma ToFinishProgress(w: World)
    requires ProgressHeld(w)
    ensures Progress(ToFinish(w))
  {
    hide Row.Valid, Row.Judged, Row.Stopped, Recover, Raise;
    RaiseProgress(w, Infrastructure);
  }

  lemma ToPublishProgress(w: World)
    requires ProgressHeld(w) && w.row.Judged()
    ensures Progress(ToPublish(w)) && Progress(Published(w))
  {
    hide Row.Valid, Row.Judged, Row.Stopped, ToFinish;
    ToFinishProgress(w);
    ToFinishProgress(w.(published := w.cleanup != NoCleanup, resultsOut := true,
                        deferredOut := w.deferredOut || w.cleanup != NoCleanup));
  }

  lemma AfterLeaseCheckProgress(w: World, seen: RunState)
    requires ProgressHeld(w) && w.index == |w.row.stages|
    requires (w.finalizing <==> seen == Finalizing) && (!Over(seen) ==> !w.row.Stopped())
    ensures Progress(AfterLeaseCheck(w, seen))
  {
    hide Row.Valid, Row.Judged, Row.Stopped, ToPublish;
    if w.finalizing {
      ToPublishProgress(w);
    }
  }

  lemma StageProgress(w: World, status: StageStatus, breaks: bool, deferred: bool, leftBehind: bool)
    requires Progress(w) && w.pc == AwaitStage
    ensures Progress(AfterStage(w, status, breaks, deferred, leftBehind))
  {
    hide ToPublish, Row.Valid, Row.Judged, Row.Stopped, Row.AfterActivity;
    ActivityValid(w.row, true, breaks, deferred, leftBehind);
    var v := AfterSaved(w, breaks, deferred, leftBehind);
    if status == Finished && w.row.lease.None? && (breaks || w.index + 1 >= w.row.total) {
      ToPublishProgress(v.(finalizing := true));
    }
  }

  lemma StageThrowsProgress(
    w: World, cause: Cause, claimed: bool, saved: bool, breaks: bool, leaseKept: bool, leftBehind: bool)
    requires Progress(w) && w.pc == AwaitStage
    ensures Progress(Next(w, StageThrows(cause, claimed, saved, breaks, leaseKept, leftBehind)))
  {
    hide Raise, Recover, Row.Valid, Row.Judged, Row.Stopped, Row.AfterActivity;
    ActivityValid(w.row, saved, breaks, leaseKept, leftBehind);
    RaiseProgress(StageFails(w, claimed, saved, breaks, leaseKept, leftBehind), cause);
  }

  lemma SettleProgress(w: World, works: bool, cleaned: bool, released: bool)
    requires Progress(w) && w.cleanup.InFlight?
    ensures Progress(AfterSettled(SettleCleanup(w, works, cleaned, released), works))
  {
    hide ToFinish, Recover, Raise, Row.GivenUp, Row.Valid, Row.Judged, Row.Stopped;
    var v := SettleCleanup(w, works, cleaned, released);
    GivenUpValid(w.row, w.cleanup.token, cleaned || works, released || works);
    match w.pc
    case AwaitCleanupThenFinish => ToFinishProgress(v);
    case AwaitCleanupThenNext => RaiseProgress(v, Infrastructure);
    case AwaitCleanupInCatch(cause) => RaiseProgress(v, cause);
    case _ =>
  }

  lemma StatusProgress(w: World)
    requires Progress(w) && w.pc == AwaitStatus
    ensures Progress(Next(w, Goes))
  {
    hide AfterLeaseCheck;
    if w.row.lease.None? {
      AfterLeaseCheckProgress(
        w.(finalizing := w.row.state == Finalizing, index := |w.row.stages|, cleared := true), w.row.state);
    }
  }

  lemma RecordedProgress(w: World)
    requires Progress(w)
    requires w.pc.AwaitFinish? || w.pc.AwaitBlockedRecord? || w.pc.AwaitQueuedRecord? || w.pc.AwaitRecoveryRecord?
    ensures Progress(Next(w, Goes))
  {
    hide DelayAfter, Row.Record, Row.Finish, Row.Valid, Row.Judged, Row.Stopped, IsBlocked;
    match w.pc
    case AwaitFinish => FinishValid(w.row);
    case AwaitBlockedRecord => RecordValid(w.row, Blocked);
    case AwaitQueuedRecord => RecordValid(w.row, Queued);
    case AwaitRecoveryRecord(cause) =>
      RecordValid(w.row, RecoveryState(w.finalizing, cause == Capacity, IsBlocked(cause, w.failures)));
  }

  lemma GoesProgress(w: World)
    requires Progress(w) && !w.pc.Returned? && !w.pc.Cancelled?
    ensures Progress(Next(w, Goes))
  {
    hide AfterLeaseCheck, Published, DelayAfter, Record, Row.Valid, Row.Judged, Row.Stopped,
      IsBlocked, RecoveryState;
    match w.pc
    case AwaitStatus => StatusProgress(w);
    case AwaitEffects(_) => ToPublishProgress(w);
    case AwaitFinish => RecordedProgress(w);
    case AwaitBlockedRecord => RecordedProgress(w);
    case AwaitQueuedRecord => RecordedProgress(w);
    case AwaitRecoveryRecord(_) => RecordedProgress(w);
    case _ =>
  }

  lemma ThrowsProgress(w: World, cause: Cause, tookEffect: bool)
    requires Progress(w)
    ensures Progress(Next(w, Throws(cause, tookEffect)))
  {
    hide Raise, Recover, DelayAfter, AfterStage, StageFails, AfterLeaseCheck, Published, FreshRun, SettleCleanup,
      Row.Finish, Row.Valid, Row.Judged, Row.Stopped;
    RaiseProgress(w, cause);
    if w.pc == AwaitFinish {
      FinishValid(w.row);
      RaiseProgress(w.(row := w.row.Finish()), cause);
    }
  }

  lemma ReconcileProgress(w: World, e: Event)
    requires Progress(w) && (e.ReconcileSays? || e.ReconcileThrows?)
    ensures Progress(Next(w, e))
  {
    hide AfterLeaseCheck, Raise, Recover, Row.GivenUp, Row.Valid, Row.Judged, Row.Stopped;
    if w.pc.AwaitReconcile? && e.ReconcileThrows? {
      GivenUpValid(w.row, w.pc.token, e.cleaned, e.released);
      RaiseProgress(w.(row := w.row.GivenUp(w.pc.token, e.cleaned, e.released)), e.cause);
    } else if w.pc.AwaitReconcile? && e.safe {
      GivenUpValid(w.row, w.pc.token, true, true);
      AfterLeaseCheckProgress(w.(row := w.row.GivenUp(w.pc.token, true, true), cleared := true), w.pc.seen);
    }
  }

  lemma CancelProgress(w: World)
    requires Progress(w)
    ensures Progress(w.(row := w.row.(state := RunState.Cancelled)))
  {
  }

  lemma NextProgress(w: World, e: Event)
    requires Progress(w)
    ensures Progress(Next(w, e))
  {
    hide Progress, AfterStage, Raise, AfterLeaseCheck, Published, SettleCleanup, AfterSettled, ToFinish, Recover,
      AfterReconcileThrew, Record, FreshRun;
    if !w.pc.Returned? && !w.pc.Cancelled? {
      match e {
        case CancelRequested => PlainProgress(w, e);
        case ContinueSuggested => PlainProgress(w, e);
        case ExecutionCancelled => CancelProgress(w);
        case Completes(_) => CompletesProgress(w, e);
        case Goes => GoesProgress(w);
        case CleanupSettles(works, cleaned, released) =>
          if w.cleanup.InFlight? { SettleProgress(w, works, cleaned, released); }
        case Throws(cause, tookEffect) => ThrowsProgress(w, cause, tookEffect);
        case StageReturns(status, breaks, deferred, leftBehind) =>
          if w.pc == AwaitStage { StageProgress(w, status, breaks, deferred, leftBehind); }
        case StageThrows(cause, claimed, saved, breaks, leaseKept, leftBehind) =>
          if w.pc == AwaitStage { StageThrowsProgress(w, cause, claimed, saved, breaks, leaseKept, leftBehind); }
        case ReconcileSays(_) => ReconcileProgress(w, e);
        case ReconcileThrows(_, _, _) => ReconcileProgress(w, e);
      }
    }
  }

  lemma PlainProgress(w: World, e: Event)
    requires Progress(w) && (e.CancelRequested? || e.ContinueSuggested?)
    ensures Progress(Next(w, e))
  {
    hide Row.Valid, Row.Judged, Row.Stopped;
  }

  lemma CompletesProgress(w: World, e: Event)
    requires Progress(w) && e.Completes?
    ensures Progress(Next(w, e))
  {
    hide Published, Row.Valid, Row.Judged, Row.Stopped;
    if w.pc == AwaitComplete {
      ToPublishProgress(w);
    }
  }

  lemma {:induction false} ExecProgress(w: World, events: seq<Event>)
    requires Progress(w)
    ensures Progress(Exec(w, events))
    decreases |events|
  {
    hide Progress, Next;
    if |events| > 0 {
      NextProgress(w, events[0]);
      ExecProgress(Next(w, events[0]), events[1..]);
    }
  }

  /** A new execution: no lease, no resources, nothing published. */
  predicate NewRun(w: World) {
    w == FreshRun(w) && w.row.lease.None? && !w.row.resources
  }

  // ---------------------------------------------------------------- what holds in every run

  /** At each loop head no earlier deferred cleanup is still in flight. */
  lemma NoCleanupAtHead(w: World, events: seq<Event>)
    requires NewRun(w)
    ensures var v := Exec(w, events); v.pc == LoopHead ==> !v.cleanup.InFlight?
  {
    ExecKeeps(w, events);
  }

  /** A stage executes only in an iteration that saw no lease or got a safe reconcile, and
      then no lease is held and no resources exist. */
  lemma StageOnlyWhenCleared(w: World, events: seq<Event>)
    requires NewRun(w)
    ensures var v := Exec(w, events);
      v.pc == AwaitStage ==> v.cleared && v.row.lease.None? && !v.row.resources && v.cleanup == NoCleanup
  {
    ExecKeeps(w, events);
  }

  /** The execution is finished only after the results and all their effects are out in this
      run and the deferred cleanup, if there was one, has fulfilled; clearing the lease then
      clears nothing. */
  lemma FinishOnlyWhenClean(w: World, events: seq<Event>)
    requires NewRun(w)
    ensures var v := Exec(w, events);
      v.pc == AwaitFinish ==>
        && v.resultsOut && (v.cleanup == NoCleanup || v.cleanup == Fulfilled)
        && v.row.lease.None? && !v.row.resources
  {
    ExecKeeps(w, events);
  }

  /** Results that went out while a cleanup was deferred are not published a second time; those
      that went out without one are, if finishing the execution then fails. */
  lemma PublishedOnce(w: World, events: seq<Event>)
    requires NewRun(w)
    ensures var v := Exec(w, events);
      (v.deferredOut ==> !Publishing(v.pc)) && (v.published <==> v.deferredOut)
  {
    ExecKeeps(w, events);
  }

  /** Results go out only after every stage is saved, or the last saved one has a compilation
      error; and no stage is ever saved after a compilation error or beyond the last one. The row
      with which the workflow starts may be new or left by an earlier workflow. */
  lemma ResultsOnlyAfterAllStages(w: World, events: seq<Event>)
    requires NewRun(w) && w.row.Valid()
    ensures var v := Exec(w, events);
      && (Publishing(v.pc) || v.resultsOut || v.row.state == Finalizing ==>
            |v.row.stages| == v.row.total || (|v.row.stages| > 0 && v.row.stages[|v.row.stages| - 1]))
      && |v.row.stages| <= v.row.total
      && (forall i :: 0 <= i < |v.row.stages| - 1 ==> !v.row.stages[i])
  {
    ExecProgress(w, events);
  }

  /** Resources never outlive their lease, so reconciliation can always find them. */
  lemma ResourcesUnderLease(w: World, events: seq<Event>)
    requires NewRun(w)
    ensures var v := Exec(w, events); v.row.resources ==> v.row.lease.Some?
  {
    ExecKeeps(w, events);
  }

  /** From `w` to `v` the count of failures moves as it should: the steps that go to record a
      recovery, and no others, raise it, by one; it goes back only to zero, at a loop head. */
  predicate Counted(w: World, v: World) {
    && (v.failures > w.failures <==> v.pc.AwaitRecoveryRecord? && !w.pc.AwaitRecoveryRecord?)
    && v.failures <= w.failures + 1
    && (v.failures > w.failures ==> v.pc.cause != NeverStarted)
    && (v.failures < w.failures ==> v.failures == 0 && v.pc == LoopHead)
  }

  lemma RecoverCounted(w: World, x: World, cause: Cause)
    requires x.failures == w.failures && !w.pc.AwaitRecoveryRecord? && !x.pc.AwaitRecoveryRecord?
    ensures Counted(w, Recover(x, cause)) && Counted(w, Raise(x, cause))
  {
  }

  lemma ToPublishCounted(w: World, x: World)
    requires x.failures == w.failures && !w.pc.AwaitRecoveryRecord? && !x.pc.AwaitRecoveryRecord?
    ensures Counted(w, ToPublish(x)) && Counted(w, ToFinish(x)) && Counted(w, Published(x))
  {
    hide Recover;
    RecoverCounted(w, x, Infrastructure);
    RecoverCounted(w, x.(published := x.cleanup != NoCleanup, resultsOut := true,
                         deferredOut := x.deferredOut || x.cleanup != NoCleanup), Infrastructure);
  }

  lemma AfterLeaseCheckCounted(w: World, x: World, seen: RunState)
    requires x.failures == w.failures && !w.pc.AwaitRecoveryRecord? && !x.pc.AwaitRecoveryRecord?
    ensures Counted(w, AfterLeaseCheck(x, seen))
  {
    hide ToPublish;
    ToPublishCounted(w, x);
  }

  lemma StageThrowsCounted(w: World, e: Event)
    requires w.pc == AwaitStage && e.StageThrows?
    ensures Counted(w, Next(w, e))
  {
    hide Raise, Row.AfterActivity;
    RecoverCounted(w, StageFails(w, e.claimed, e.saved, e.breaks, e.leaseKept, e.leftBehind), e.cause);
  }

  lemma StageReturnsCounted(w: World, status: StageStatus, breaks: bool, deferred: bool, leftBehind: bool)
    requires w.pc == AwaitStage
    ensures var v := AfterStage(w, status, breaks, deferred, leftBehind);
      Counted(w, v) && (v.pc == LoopHead ==> v.failures == 0)
  {
    hide ToPublish, AfterSaved, Row.AfterActivity;
    match status
    case Obsolete =>
    case CleanupNeeded =>
    case Saved => AfterSavedSame(w, breaks, deferred, leftBehind);
    case Finished =>
      AfterSavedSame(w, breaks, deferred, leftBehind);
      var x := AfterSaved(w, breaks, deferred, leftBehind).(finalizing := true);
      ToPublishCounted(w, x);
      ToPublishNotHead(x);
  }

  lemma AfterSavedSame(w: World, breaks: bool, deferred: bool, leftBehind: bool)
    ensures var x := AfterSaved(w, breaks, deferred, leftBehind);
      && x.failures == w.failures && x.pc == w.pc
      && x.row == w.row.AfterActivity(w.index, true, breaks, deferred, leftBehind)
  {
    hide Row.AfterActivity;
  }

  lemma ToPublishNotHead(w: World)
    ensures ToPublish(w).pc != LoopHead
  {
  }

  lemma SettledCounted(w: World, e: Event)
    requires e.CleanupSettles? && !w.pc.Returned? && !w.pc.Cancelled?
    ensures Counted(w, Next(w, e))
  {
    hide ToFinish, Recover, SettleCleanup;
    if w.cleanup.InFlight? {
      var x := SettleCleanup(w, e.works, e.cleaned, e.released);
      SettleKeepsRest(w, e.works, e.cleaned, e.released);
      if !w.pc.AwaitRecoveryRecord? {
        ToPublishCounted(w, x);
        RecoverCounted(w, x, if w.pc.AwaitCleanupInCatch? then w.pc.cause else Infrastructure);
      }
    }
  }

  lemma SettleKeepsRest(w: World, works: bool, cleaned: bool, released: bool)
    requires w.cleanup.InFlight?
    ensures var x := SettleCleanup(w, works, cleaned, released); x.failures == w.failures && x.pc == w.pc
  {
  }

  lemma GoesCounted(w: World)
    requires !w.pc.Returned? && !w.pc.Cancelled?
    ensures Counted(w, Next(w, Goes))
  {
    hide AfterLeaseCheck, Published, RecoveryState, DelayAfter, IsBlocked, Row.Record, Row.Finish;
    if w.pc == AwaitStatus {
      AfterLeaseCheckCounted(w, w.(finalizing := w.row.state == Finalizing, index := |w.row.stages|, cleared := true),
                             w.row.state);
    } else if w.pc.AwaitEffects? {
      ToPublishCounted(w, w);
    }
  }

  lemma ThrowsCounted(w: World, e: Event)
    requires e.Throws? && !w.pc.Returned? && !w.pc.Cancelled?
    ensures Counted(w, Next(w, e))
  {
    hide Raise, DelayAfter, Row.Finish;
    if !w.pc.AwaitRecoveryRecord? {
      RecoverCounted(w, w, e.cause);
      RecoverCounted(w, w.(row := w.row.Finish()), e.cause);
    }
  }

  lemma ReconcileCounted(w: World, e: Event)
    requires w.pc.AwaitReconcile? && (e.ReconcileSays? || e.ReconcileThrows?)
    ensures Counted(w, Next(w, e))
  {
    hide AfterLeaseCheck, Raise, Row.GivenUp;
    if e.ReconcileThrows? {
      RecoverCounted(w, w.(row := w.row.GivenUp(w.pc.token, e.cleaned, e.released)), e.cause);
    } else {
      AfterLeaseCheckCounted(w, w.(row := w.row.GivenUp(w.pc.token, true, true), cleared := true), w.pc.seen);
    }
  }

  /** What counts as a failure: every step moves the count as it should, and a stage that is saved
      and leaves nothing to clean up takes it back to zero. */
  lemma FailuresCount(w: World, e: Event)
    ensures Counted(w, Next(w, e))
    ensures w.pc == AwaitStage && e.StageReturns? && Next(w, e).pc == LoopHead ==> Next(w, e).failures == 0
  {
    hide AfterStage, StageFails, Raise, AfterLeaseCheck, Published, SettleCleanup, AfterSettled, ToFinish, Recover;
    if !w.pc.Returned? && !w.pc.Cancelled? {
      match e {
        case Goes => GoesCounted(w);
        case Throws(_, _) => ThrowsCounted(w, e);
        case CleanupSettles(_, _, _) => SettledCounted(w, e);
        case StageReturns(status, breaks, deferred, leftBehind) =>
          if w.pc == AwaitStage { StageReturnsCounted(w, status, breaks, deferred, leftBehind); }
        case StageThrows(_, _, _, _, _, _) => if w.pc == AwaitStage { StageThrowsCounted(w, e); }
        case ReconcileSays(_) => if w.pc.AwaitReconcile? { ReconcileCounted(w, e); }
        case ReconcileThrows(_, _, _) => if w.pc.AwaitReconcile? { ReconcileCounted(w, e); }
        case Completes(_) => if w.pc == AwaitComplete { ToPublishCounted(w, w); }
        case _ =>
      }
    }
  }

  /** Why a step from `w` may end the workflow: the execution has just been finished, the row was
      seen cancelled or completed once its lease was checked, or a stage found the row gone. */
  predicate MayReturn(w: World, e: Event, v: World) {
    || (w.pc == AwaitFinish && e == Goes && Settled(v.row.state))
    || (w.pc == AwaitStatus && e == Goes && w.row.lease.None? && Settled(w.row.state))
    || (w.pc.AwaitReconcile? && e == ReconcileSays(true) && Settled(w.pc.seen))
    || (w.pc == AwaitStage && e.StageReturns? && e.status == Obsolete)
  }

  lemma GoesOn(w: World, cause: Cause)
    requires !w.pc.Returned?
    ensures !Recover(w, cause).pc.Returned? && !Raise(w, cause).pc.Returned?
    ensures !ToFinish(w).pc.Returned? && !ToPublish(w).pc.Returned? && !Published(w).pc.Returned?
  {
  }

  lemma StageGoesOn(w: World, status: StageStatus, breaks: bool, deferred: bool, leftBehind: bool)
    requires w.pc == AwaitStage
    ensures AfterStage(w, status, breaks, deferred, leftBehind).pc.Returned? <==> status == Obsolete
  {
    hide ToPublish, AfterSaved, Row.AfterActivity;
    match status
    case Obsolete =>
    case CleanupNeeded =>
    case Saved => AfterSavedSame(w, breaks, deferred, leftBehind);
    case Finished =>
      AfterSavedSame(w, breaks, deferred, leftBehind);
      GoesOn(AfterSaved(w, breaks, deferred, leftBehind).(finalizing := true), Infrastructure);
  }

  lemma LeaseCheckGoesOn(w: World, seen: RunState)
    requires !w.pc.Returned?
    ensures AfterLeaseCheck(w, seen).pc.Returned? <==> Settled(seen)
  {
    hide ToPublish;
    GoesOn(w, Infrastructure);
  }

  lemma SettledGoesOn(w: World, works: bool, cleaned: bool, released: bool)
    requires w.cleanup.InFlight? && !w.pc.Returned?
    ensures !AfterSettled(SettleCleanup(w, works, cleaned, released), works).pc.Returned?
  {
    hide ToFinish, Recover, SettleCleanup;
    SettleKeepsRest(w, works, cleaned, released);
    var x := SettleCleanup(w, works, cleaned, released);
    GoesOn(x, if w.pc.AwaitCleanupInCatch? then w.pc.cause else Infrastructure);
  }

  lemma GoesReturns(w: World)
    requires !w.pc.Returned? && !w.pc.Cancelled?
    ensures Next(w, Goes).pc.Returned? <==> MayReturn(w, Goes, Next(w, Goes))
  {
    hide AfterLeaseCheck, Published, DelayAfter, RecoveryState, IsBlocked, Row.Record, FreshRun;
    if w.pc.AwaitEffects? {
      GoesOn(w, Infrastructure);
    } else if w.pc.AwaitStatus? {
      LeaseCheckGoesOn(w.(finalizing := w.row.state == Finalizing, index := |w.row.stages|, cleared := true),
                       w.row.state);
    } else if w.pc.LoopHead? {
      FreshRunGoesOn(w);
    }
  }

  lemma FreshRunGoesOn(w: World)
    ensures FreshRun(w).pc == LoopHead
  {
  }

  lemma ThrownGoesOn(w: World, e: Event)
    requires !w.pc.Returned? && (e.Throws? || e.StageThrows? || e.ReconcileThrows?)
    ensures !Next(w, e).pc.Returned?
  {
    hide StageFails, Raise, DelayAfter, Row.GivenUp, Row.Finish;
    if e.StageThrows? {
      StageFailsPc(w, e.claimed, e.saved, e.breaks, e.leaseKept, e.leftBehind);
      GoesOn(StageFails(w, e.claimed, e.saved, e.breaks, e.leaseKept, e.leftBehind), e.cause);
    } else if e.Throws? {
      GoesOn(w, e.cause);
      GoesOn(w.(row := w.row.Finish()), e.cause);
    } else if w.pc.AwaitReconcile? {
      GoesOn(w.(row := w.row.GivenUp(w.pc.token, e.cleaned, e.released)), e.cause);
    }
  }

  /** The workflow ends for exactly these reasons. */
  lemma ReturnsExactly(w: World, e: Event)
    requires !w.pc.Returned?
    ensures Next(w, e).pc.Returned? <==> MayReturn(w, e, Next(w, e))
  {
    hide AfterStage, StageFails, Raise, AfterLeaseCheck, Published, SettleCleanup, AfterSettled, DelayAfter,
      RecoveryState, IsBlocked, Row.Record, Row.GivenUp;
    if !w.pc.Cancelled? {
      match e {
        case Goes => GoesReturns(w);
        case Throws(_, _) => ThrownGoesOn(w, e);
        case CleanupSettles(works, cleaned, released) =>
          if w.cleanup.InFlight? { SettledGoesOn(w, works, cleaned, released); }
        case StageReturns(status, breaks, deferred, leftBehind) =>
          if w.pc == AwaitStage { StageGoesOn(w, status, breaks, deferred, leftBehind); }
        case StageThrows(_, _, _, _, _, _) => ThrownGoesOn(w, e);
        case ReconcileSays(_) =>
          if w.pc.AwaitReconcile? {
            LeaseCheckGoesOn(w.(row := w.row.GivenUp(w.pc.token, true, true), cleared := true), w.pc.seen);
          }
        case ReconcileThrows(_, _, _) => ThrownGoesOn(w, e);
        case Completes(_) => GoesOn(w, Infrastructure);
        case _ =>
      }
    }
  }

  lemma StageFailsPc(w: World, claimed: bool, saved: bool, breaks: bool, leaseKept: bool, leftBehind: bool)
    ensures StageFails(w, claimed, saved, breaks, leaseKept, leftBehind).pc == w.pc
  {
    hide Row.AfterActivity;
  }

  // ---------------------------------------------------------------- the activities behind the events

  /** The row and the resources that the workflow's world describes. A row goes to another
      workflow only when this one is no longer running. */
  ghost predicate Describes(w: World, run: JudgeRun)
    reads run
  {
    && run.owned && w.row.lease == run.lease && (w.row.resources <==> run.resources != {})
    && w.row.nextToken == run.nextToken && w.row.state == run.state && w.row.stages == run.stages
  }

  /** Every path of the stage activity is one of the events of the model, with its effect. */
  method StageIsEvent(run: JudgeRun, s: Script, w: World) returns (r: Completion<StageResult>, e: Event)
    requires run.Valid() && Honest(s.execution, true)
    requires Describes(w, run) && Inv(w) && w.pc == AwaitStage
    modifies run
    ensures match r
      case Returned(value) =>
        e == StageReturns(value.status, s.execution.Breaks(), value.cleanup.Some?, run.resources != {})
      case Threw(_) => e.StageThrows?
    ensures Describes(Next(w, e), run)
  {
    hide Next, StageFails, AfterStage, PublicationKnown;
    r := run.ExecuteJudgeStage(w.index, w.row.total, true, s);
    var breaks, leftBehind := s.execution.Breaks(), run.resources != {};
    if r.Threw? {
      var saved := run.stages != w.row.stages || run.state == Finalizing;
      e := StageThrows(Infrastructure, run.nextToken != w.row.nextToken, saved, breaks, run.lease.Some?, leftBehind);
    } else {
      e := StageReturns(r.value.status, breaks, r.value.cleanup.Some?, leftBehind);
    }
    StageRow(w, e);
  }

  /** What the stage events do to the row. */
  lemma StageRow(w: World, e: Event)
    requires w.pc == AwaitStage && (e.StageThrows? || e.StageReturns?) && w.row.lease.None?
    requires e.StageReturns? && (e.status == Finished || e.status == Saved) ==>
      (e.status == Finished <==> e.breaks || w.index + 1 >= w.row.total)
    ensures Next(w, e).row ==
      if e.StageThrows?
      then if e.claimed then w.row.AfterActivity(w.index, e.saved, e.breaks, e.leaseKept, e.leftBehind) else w.row
      else if e.status == Finished || e.status == Saved
           then w.row.AfterActivity(w.index, true, e.breaks, e.deferred, e.leftBehind)
           else w.row
  {
    hide AfterStage, Raise, Row.AfterActivity;
    if e.StageThrows? {
      RaiseSame(StageFails(w, e.claimed, e.saved, e.breaks, e.leaseKept, e.leftBehind), e.cause);
    } else {
      StageReturnsRow(w, e.status, e.breaks, e.deferred, e.leftBehind);
    }
  }

  lemma StageReturnsRow(w: World, status: StageStatus, breaks: bool, deferred: bool, leftBehind: bool)
    requires w.row.lease.None?
    requires status == Finished || status == Saved ==> (status == Finished <==> breaks || w.index + 1 >= w.row.total)
    ensures AfterStage(w, status, breaks, deferred, leftBehind).row ==
      if status == Finished || status == Saved then w.row.AfterActivity(w.index, true, breaks, deferred, leftBehind)
      else w.row
  {
    hide ToPublish, AfterSaved, Row.AfterActivity;
    AfterSavedSame(w, breaks, deferred, leftBehind);
    ToPublishSame(AfterSaved(w, breaks, deferred, leftBehind).(finalizing := true));
  }

  /** So is every path of the deferred cleanup. */
  method CleanupIsEvent(run: JudgeRun, cleanup: Call, release: Call, w: World)
    returns (r: Completion<()>, e: Event)
    requires run.Valid() && Describes(w, run) && Inv(w) && w.cleanup.InFlight?
    modifies run
    ensures e.CleanupSettles? && e.works == r.Returned?
    ensures Describes(SettleCleanup(w, e.works, e.cleaned, e.released), run)
  {
    r := run.CleanupJudgeStage(w.cleanup.token, cleanup, release);
    e := CleanupSettles(r.Returned?, run.resources == {}, run.lease != w.row.lease);
  }

  /** And every path of reconciling. */
  method ReconcileIsEvent(run: JudgeRun, expired: bool, safe: Call, nothingLeft: bool, release: Call, w: World)
    returns (r: Completion<bool>, e: Event)
    requires run.Valid() && Describes(w, run) && Inv(w) && w.pc.AwaitReconcile?
    modifies run
    ensures match r case Returned(value) => e == ReconcileSays(value) case Threw(_) => e.ReconcileThrows?
    ensures Describes(Next(w, e), run)
  {
    hide Next, CleanupKnown, PublicationKnown;
    r := run.ReconcileJudgeStage(w.pc.token, expired, safe, nothingLeft, release);
    e := if r.Threw? then ReconcileThrows(Infrastructure, run.resources == {}, run.lease != w.row.lease)
         else ReconcileSays(r.value);
    ReconcileRow(w, e);
  }

  /** What the reconcile events do to the row. */
  lemma ReconcileRow(w: World, e: Event)
    requires w.pc.AwaitReconcile? && (e.ReconcileSays? || e.ReconcileThrows?)
    ensures Next(w, e).row ==
      if e.ReconcileThrows? then w.row.GivenUp(w.pc.token, e.cleaned, e.released)
      else if e.safe then w.row.GivenUp(w.pc.token, true, true)
      else w.row
  {
    hide AfterLeaseCheck, Raise, Row.GivenUp;
    if e.ReconcileThrows? {
      RaiseSame(w.(row := w.row.GivenUp(w.pc.token, e.cleaned, e.released)), e.cause);
    } else {
      AfterLeaseCheckSame(w.(row := w.row.GivenUp(w.pc.token, true, true), cleared := true), w.pc.seen);
    }
  }

  lemma RaiseSame(w: World, cause: Cause)
    ensures Raise(w, cause).row == w.row
  {
  }

  lemma AfterLeaseCheckSame(w: World, seen: RunState)
    ensures AfterLeaseCheck(w, seen).row == w.row
  {
    ToPublishSame(w);
  }

  lemma ToPublishSame(w: World)
    ensures ToPublish(w).row == w.row
  {
  }
}
