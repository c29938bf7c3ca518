/** The reconcile loop of `dispatch.ts` run by itself, against a server object. */
module LifecycleReconciler {
  import opened Basics
  import opened LifecycleDecision

  const MAX_ATTEMPTS: nat := 8

  /** One execution under the workflow id, with the memo it was started with. */
  datatype WorkflowRun = WorkflowRun(memo: Identity, status: Status)

  /** Only the latest run under a workflow id may be running. */
  predicate OnlyLastRuns(runs: seq<WorkflowRun>) {
    forall i :: 0 <= i < |runs| - 1 ==> runs[i].status != Running
  }

  /** What describing the workflow id shows: its latest run, if there is one. */
  function Latest(runs: seq<WorkflowRun>): Option<Observation> {
    if |runs| == 0 then None
    else
      var last := runs[|runs| - 1];
      Some(Observation(|runs| - 1, Described(last.memo), last.status))
  }

  /** Terminating a run that is no longer running is reported as not found and ignored. */
  function AfterTerminate(runs: seq<WorkflowRun>, id: nat): seq<WorkflowRun> {
    if id < |runs| && runs[id].status == Running then runs[id := runs[id].(status := Terminated)] else runs
  }

  /** Starting with `USE_EXISTING` and `ALLOW_DUPLICATE`. */
  function AfterStart(runs: seq<WorkflowRun>, memo: Identity): seq<WorkflowRun> {
    if |runs| > 0 && runs[|runs| - 1].status == Running then runs
    else runs + [WorkflowRun(memo, Running)]
  }

  class Server {
    var runs: seq<WorkflowRun>

    constructor (runs: seq<WorkflowRun>)
      ensures this.runs == runs
    {
      this.runs := runs;
    }

    method Describe() returns (observed: Option<Observation>)
      ensures observed == Latest(runs)
    {
      observed := Latest(runs);
    }

    method TerminateRun(id: nat)
      modifies this
      ensures runs == AfterTerminate(old(runs), id)
    {
      if id < |runs| && runs[id].status == Running {
        runs := runs[id := runs[id].(status := Terminated)];
      }
    }

    method Start(memo: Identity)
      modifies this
      ensures runs == AfterStart(old(runs), memo)
    {
      if |runs| == 0 || runs[|runs| - 1].status != Running {
        runs := runs + [WorkflowRun(memo, Running)];
      }
    }
  }

  datatype Outcome = Reconciled | DidNotConverge

  /** What a reconciler has achieved once it returns. */
  predicate Settled(mode: Mode, desired: Identity, runs: seq<WorkflowRun>) {
    if mode == Cancel then
      forall i :: 0 <= i < |runs| && runs[i].status == Running ==> !Targets(Cancel, desired, Described(runs[i].memo))
    else
      && |runs| > 0
      && var last := Latest(runs).value;
         Newer(last.identity, desired)
         || (last.identity.fingerprint == desired.fingerprint && (last.status == Running || last.status == Completed))
  }

  /** Each decision has its exact cause: nothing is done exactly when the goal holds already; a run
      is terminated exactly when it is running and targeted, and replaced unless the mode is to
      cancel; and a run is simply started exactly when the goal does not hold and none is running. */
  lemma DecidesExactly(mode: Mode, desired: Identity, runs: seq<WorkflowRun>)
    requires OnlyLastRuns(runs)
    ensures var d := Decide(mode, desired, Latest(runs));
      var running := |runs| > 0 && runs[|runs| - 1].status == Running;
      && (d == KeepRun <==> Settled(mode, desired, runs))
      && (d == Terminate || d == TerminateAndStart <==>
            running && Targets(mode, desired, Described(runs[|runs| - 1].memo)))
      && (d == Terminate ==> mode == Cancel)
      && (d == TerminateAndStart ==> mode != Cancel)
      && (d == StartRun <==> mode != Cancel && !running && !Settled(mode, desired, runs))
  {
    if |runs| > 0 {
      KillsExactly(mode, desired, Latest(runs).value);
    }
  }

  /** Once the targeted run is gone, nothing keeps the reconciler from starting its own. */
  lemma StartsAfterTerminate(mode: Mode, desired: Identity, o: Observation)
    requires Decide(mode, desired, Some(o)) == TerminateAndStart
    ensures Decide(mode, desired, Some(o.(status := Terminated))) == StartRun
  {
  }

  lemma KeepsOwnRun(mode: Mode, desired: Identity, id: nat)
    requires mode != Cancel
    ensures Decide(mode, desired, Some(Observation(id, Described(desired), Running))) == KeepRun
  {
  }

  /** The runs once the latest one has ended. */
  function Ended(runs: seq<WorkflowRun>): (r: seq<WorkflowRun>)
    ensures |r| == |runs| && forall i :: 0 <= i < |runs| - 1 ==> r[i] == runs[i]
    ensures OnlyLastRuns(runs) ==> forall i :: 0 <= i < |runs| ==> r[i].status != Running
  {
    if |runs| == 0 then runs else AfterTerminate(runs, |runs| - 1)
  }

  /** Without interference the loop returns within three of its eight attempts, whatever run
      it finds, and what it wanted then holds. Where that held before, nothing is touched;
      otherwise the latest run has ended, and unless the mode is to cancel one new run is started. */
  method Reconcile(server: Server, mode: Mode, desired: Identity) returns (outcome: Outcome, attempts: nat)
    requires OnlyLastRuns(server.runs)
    modifies server
    ensures outcome == Reconciled && attempts <= 3
    ensures OnlyLastRuns(server.runs)
    ensures Settled(mode, desired, server.runs)
    ensures Settled(mode, desired, old(server.runs)) ==> server.runs == old(server.runs) && attempts == 1
    ensures !Settled(mode, desired, old(server.runs)) ==>
      server.runs == Ended(old(server.runs)) + if mode == Cancel then [] else [WorkflowRun(desired, Running)]
  {
    hide IncarnationOf, Described;
    attempts := 0;
    ghost var start := server.runs;
    ghost var started := WorkflowRun(desired, Running);
    while attempts < MAX_ATTEMPTS
      invariant attempts <= 2
      invariant attempts == 0 ==> server.runs == start
      invariant attempts > 0 ==> mode != Cancel && !Settled(mode, desired, start)
      invariant attempts == 1 ==>
        || server.runs == Ended(start) + [started]
        || (server.runs == Ended(start) && Decide(mode, desired, Latest(server.runs)) == StartRun)
      invariant attempts == 2 ==> server.runs == Ended(start) + [started]
      decreases MAX_ATTEMPTS - attempts
    {
      attempts := attempts + 1;
      DecidesExactly(mode, desired, server.runs);
      var observed := server.Describe();
      if |server.runs| > |start| {
        KeepsOwnRun(mode, desired, |server.runs| - 1);
      }
      var decision := Decide(mode, desired, observed);
      if decision == KeepRun {
        return Reconciled, attempts;
      }
      if decision == Terminate || decision == TerminateAndStart {
        server.TerminateRun(observed.value.runId);
        if decision == Terminate {
          return Reconciled, attempts;
        }
        StartsAfterTerminate(mode, desired, observed.value);
        continue;
      }
      server.Start(desired);
    }
    return DidNotConverge, attempts;
  }
}
