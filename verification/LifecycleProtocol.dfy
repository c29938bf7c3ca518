/** Any number of reconcilers for one workflow id, interleaving on stale observations. */
module LifecycleProtocol {
  import opened Basics
  import opened LifecycleDecision
  import opened LifecycleReconciler

  datatype Pc = Observing | Acting(observed: Option<Observation>) | Returned | Threw

  datatype Reconciler = Reconciler(mode: Mode, desired: Identity, attempts: nat, pc: Pc)

  /** A reconciler that ended a running run. */
  datatype Kill = Kill(killer: nat, victim: nat)

  datatype World = World(runs: seq<WorkflowRun>, reconcilers: seq<Reconciler>, kills: seq<Kill>)

  /** One atomic server call, or something that happens around the reconcilers. A reconciler
      may fail at any call, with or without the call taking effect. */
  datatype Step =
    | Arrive(mode: Mode, desired: Identity)
    | Observe(p: nat)
    | Act(p: nat)
    | FailCall(p: nat, tookEffect: bool)
    | RunEnds(status: Status)

  function Again(r: Reconciler): Reconciler {
    r.(attempts := r.attempts + 1, pc := if r.attempts + 1 < MAX_ATTEMPTS then Observing else Threw)
  }

  predicate EndsRun(w: World, id: nat) {
    id < |w.runs| && w.runs[id].status == Running
  }

  /** What the call of reconciler `p` does to the server. */
  function Effect(w: World, p: nat): World
    requires p < |w.reconcilers| && w.reconcilers[p].pc.Acting?
  {
    var r := w.reconcilers[p];
    match Decide(r.mode, r.desired, r.pc.observed)
    case KeepRun => w
    case StartRun => w.(runs := AfterStart(w.runs, r.desired))
    case _ =>
      if r.pc.observed.None? then w
      else
        var id := r.pc.observed.value.runId;
        w.(runs := AfterTerminate(w.runs, id),
           kills := if EndsRun(w, id) then w.kills + [Kill(p, id)] else w.kills)
  }

  function AfterAct(r: Reconciler): Reconciler
    requires r.pc.Acting?
  {
    match Decide(r.mode, r.desired, r.pc.observed)
    case KeepRun => r.(pc := Returned)
    case Terminate => r.(pc := Returned)
    case _ => Again(r)
  }

  function Next(w: World, step: Step): World {
    match step
    case Arrive(mode, desired) =>
      w.(reconcilers := w.reconcilers + [Reconciler(mode, desired, 0, Observing)])
    case Observe(p) =>
      if p < |w.reconcilers| && w.reconcilers[p].pc == Observing then
        w.(reconcilers := w.reconcilers[p := w.reconcilers[p].(pc := Acting(Latest(w.runs)))])
      else w
    case Act(p) =>
      if p < |w.reconcilers| && w.reconcilers[p].pc.Acting? then
        Effect(w, p).(reconcilers := w.reconcilers[p := AfterAct(w.reconcilers[p])])
      else w
    case FailCall(p, tookEffect) =>
      if p < |w.reconcilers| && (w.reconcilers[p].pc.Acting? || w.reconcilers[p].pc == Observing) then
        (if tookEffect && w.reconcilers[p].pc.Acting? then Effect(w, p) else w)
          .(reconcilers := w.reconcilers[p := w.reconcilers[p].(pc := Threw)])
      else w
    case RunEnds(status) =>
      if |w.runs| > 0 && w.runs[|w.runs| - 1].status == Running && status != Running then
        w.(runs := w.runs[|w.runs| - 1 := w.runs[|w.runs| - 1].(status := status)])
      else w
  }

  function Exec(w: World, steps: seq<Step>): World
    decreases |steps|
  {
    if |steps| == 0 then w else Exec(Next(w, steps[0]), steps[1..])
  }

  // ---------------------------------------------------------------- invariant

  /** Observations may be stale in their status, never in their identity: memos are fixed. */
  predicate ObservationsTrue(w: World) {
    forall p :: 0 <= p < |w.reconcilers| && w.reconcilers[p].pc.Acting? && w.reconcilers[p].pc.observed.Some? ==>
      var o := w.reconcilers[p].pc.observed.value;
      o.runId < |w.runs| && o.identity == Described(w.runs[o.runId].memo)
  }

  predicate KillsJustified(w: World) {
    forall k :: 0 <= k < |w.kills| ==>
      && w.kills[k].killer < |w.reconcilers| && w.kills[k].victim < |w.runs|
      && var r := w.reconcilers[w.kills[k].killer];
         Targets(r.mode, r.desired, Described(w.runs[w.kills[k].victim].memo))
  }

  predicate Inv(w: World) {
    OnlyLastRuns(w.runs) && ObservationsTrue(w) && KillsJustified(w)
  }

  /** Memos, modes and desired identities never change, and nothing disappears. */
  predicate Grows(w: World, v: World) {
    && |w.runs| <= |v.runs| && |w.reconcilers| <= |v.reconcilers|
    && (forall i :: 0 <= i < |w.runs| ==> v.runs[i].memo == w.runs[i].memo)
    && (forall p :: 0 <= p < |w.reconcilers| ==>
          v.reconcilers[p].mode == w.reconcilers[p].mode && v.reconcilers[p].desired == w.reconcilers[p].desired)
  }

  lemma EffectKeeps(w: World, p: nat)
    requires Inv(w) && p < |w.reconcilers| && w.reconcilers[p].pc.Acting?
    ensures Inv(Effect(w, p)) && Grows(w, Effect(w, p))
  {
    hide IncarnationOf, Targets, Described, Newer;
    var r := w.reconcilers[p];
    if r.pc.observed.Some? {
      KillsExactly(r.mode, r.desired, r.pc.observed.value);
    }
  }

  /** A reconciler moves to another point of its loop. */
  lemma MoveKeeps(w: World, p: nat, r: Reconciler)
    requires Inv(w) && p < |w.reconcilers|
    requires r.mode == w.reconcilers[p].mode && r.desired == w.reconcilers[p].desired
    requires r.pc.Acting? && r.pc.observed.Some? ==>
      var o := r.pc.observed.value; o.runId < |w.runs| && o.identity == Described(w.runs[o.runId].memo)
    ensures var v := w.(reconcilers := w.reconcilers[p := r]); Inv(v) && Grows(w, v)
  {
    hide Targets, Described;
  }

  lemma ArriveKeeps(w: World, r: Reconciler)
    requires Inv(w) && r.pc == Observing
    ensures var v := w.(reconcilers := w.reconcilers + [r]); Inv(v) && Grows(w, v)
  {
    hide Targets, Described;
  }

  lemma RunEndsKeeps(w: World, status: Status)
    requires Inv(w)
    ensures Inv(Next(w, RunEnds(status))) && Grows(w, Next(w, RunEnds(status)))
  {
    hide Targets, Described, Effect;
  }

  lemma NextKeeps(w: World, step: Step)
    requires Inv(w)
    ensures Inv(Next(w, step)) && Grows(w, Next(w, step))
  {
    hide Decide, Effect, Targets, Described, AfterAct, Inv, Latest;
    match step
    case Arrive(mode, desired) => ArriveKeeps(w, Reconciler(mode, desired, 0, Observing));
    case Observe(p) =>
      if p < |w.reconcilers| && w.reconcilers[p].pc == Observing {
        LatestTrue(w.runs);
        MoveKeeps(w, p, w.reconcilers[p].(pc := Acting(Latest(w.runs))));
      }
    case Act(p) =>
      if p < |w.reconcilers| && w.reconcilers[p].pc.Acting? {
        EffectKeeps(w, p);
        EffectSamePeople(w, p);
        AfterActSame(w.reconcilers[p]);
        MoveKeeps(Effect(w, p), p, AfterAct(w.reconcilers[p]));
      }
    case FailCall(p, tookEffect) =>
      if p < |w.reconcilers| && (w.reconcilers[p].pc.Acting? || w.reconcilers[p].pc == Observing) {
        if tookEffect && w.reconcilers[p].pc.Acting? {
          EffectKeeps(w, p);
          EffectSamePeople(w, p);
          MoveKeeps(Effect(w, p), p, w.reconcilers[p].(pc := Threw));
        } else {
          MoveKeeps(w, p, w.reconcilers[p].(pc := Threw));
        }
      }
    case RunEnds(status) => RunEndsKeeps(w, status);
  }

  lemma LatestTrue(runs: seq<WorkflowRun>)
    ensures Latest(runs).Some? ==>
      Latest(runs).value.runId < |runs| && Latest(runs).value.identity == Described(runs[Latest(runs).value.runId].memo)
  {
  }

  lemma EffectSamePeople(w: World, p: nat)
    requires p < |w.reconcilers| && w.reconcilers[p].pc.Acting?
    ensures Effect(w, p).reconcilers == w.reconcilers
  {
  }

  lemma AfterActSame(r: Reconciler)
    requires r.pc.Acting?
    ensures AfterAct(r).mode == r.mode && AfterAct(r).desired == r.desired && !AfterAct(r).pc.Acting?
  {
  }

  lemma {:induction false} ExecKeeps(w: World, steps: seq<Step>)
    requires Inv(w)
    ensures Inv(Exec(w, steps)) && Grows(w, Exec(w, steps))
    decreases |steps|
  {
    hide Inv, Next;
    if |steps| > 0 {
      NextKeeps(w, steps[0]);
      ExecKeeps(Next(w, steps[0]), steps[1..]);
    }
  }

  // ---------------------------------------------------------------- safety

  predicate Start(w: World) {
    OnlyLastRuns(w.runs) && w.reconcilers == [] && w.kills == []
  }

  /** In every reachable state at most one run is running. */
  lemma AtMostOneRunning(w: World, steps: seq<Step>)
    requires Start(w)
    ensures var v := Exec(w, steps);
      forall i, j :: 0 <= i < j < |v.runs| ==> v.runs[i].status != Running || v.runs[j].status != Running
  {
    ExecKeeps(w, steps);
  }

  /** No reconciler ever terminates a run newer than what it wants. */
  lemma NoNewerKilled(w: World, steps: seq<Step>)
    requires Start(w)
    ensures var v := Exec(w, steps);
      forall k :: 0 <= k < |v.kills| ==>
        && v.kills[k].killer < |v.reconcilers| && v.kills[k].victim < |v.runs|
        && !Newer(Described(v.runs[v.kills[k].victim].memo), v.reconcilers[v.kills[k].killer].desired)
  {
    ExecKeeps(w, steps);
  }

  /** Two reconcilers that want runs end runs of each other's identity only if they tie. */
  lemma NoMutualKills(w: World, steps: seq<Step>, i: nat, j: nat)
    requires Start(w)
    requires var v := Exec(w, steps); i < |v.kills| && j < |v.kills|
    ensures var v := Exec(w, steps);
      && v.kills[i].killer < |v.reconcilers| && v.kills[j].killer < |v.reconcilers|
      && v.kills[i].victim < |v.runs| && v.kills[j].victim < |v.runs|
      && var p, q := v.reconcilers[v.kills[i].killer], v.reconcilers[v.kills[j].killer];
         p.mode != Cancel && q.mode != Cancel
         && Described(p.desired) == p.desired && Described(q.desired) == q.desired
         && Described(v.runs[v.kills[i].victim].memo) == q.desired
         && Described(v.runs[v.kills[j].victim].memo) == p.desired
         ==> Tie(p.desired, q.desired)
  {
    ExecKeeps(w, steps);
    var v := Exec(w, steps);
    var p, q := v.reconcilers[v.kills[i].killer], v.reconcilers[v.kills[j].killer];
    if p.mode != Cancel && q.mode != Cancel
       && Described(p.desired) == p.desired && Described(q.desired) == q.desired {
      MutualTerminationExactly(p.mode, p.desired, q.mode, q.desired);
    }
  }

  /** A reconciler that wants `a` has ended a run of `b`, and one that wants `b` a run of `a`. */
  predicate KilledEachOther(v: World, m: Mode, a: Identity, n: Mode, b: Identity) {
    exists i, j :: 0 <= i < |v.kills| && 0 <= j < |v.kills| && KilledFor(v, i, m, a, b) && KilledFor(v, j, n, b, a)
  }

  predicate KilledFor(v: World, i: nat, mode: Mode, desired: Identity, victim: Identity)
    requires i < |v.kills|
  {
    && v.kills[i].killer < |v.reconcilers| && v.kills[i].victim < |v.runs|
    && v.reconcilers[v.kills[i].killer].mode == mode && v.reconcilers[v.kills[i].killer].desired == desired
    && Described(v.runs[v.kills[i].victim].memo) == victim
  }

  const NOTHING := World([], [], [])

  /** The first starts its run and the second ends it. */
  function FirstRound(m: Mode, a: Identity, n: Mode, b: Identity): seq<Step> {
    [Arrive(m, a), Arrive(n, b), Observe(0), Act(0), Observe(1), Act(1)]
  }

  /** The second starts its run, and the first, looking again, ends that. */
  const SECOND_ROUND := [Observe(1), Act(1), Observe(0), Act(0)]

  lemma TieDecides(mode: Mode, desired: Identity, other: Identity, id: nat)
    requires mode != Cancel && Tie(desired, other)
    ensures Decide(mode, desired, None) == StartRun
    ensures Decide(mode, desired, Some(Observation(id, other, Running))) == TerminateAndStart
    ensures Decide(mode, desired, Some(Observation(id, other, Terminated))) == StartRun
  {
  }

  /** A run whose worlds are listed ends in the last of them. */
  lemma {:induction false} ExecFollows(steps: seq<Step>, worlds: seq<World>)
    requires |worlds| == |steps| + 1
    requires forall i :: 0 <= i < |steps| ==> worlds[i + 1] == Next(worlds[i], steps[i])
    ensures Exec(worlds[0], steps) == worlds[|steps|]
    decreases |steps|
  {
    hide Next;
    if |steps| > 0 {
      ExecFollows(steps[1..], worlds[1..]);
    }
  }

  lemma {:induction false} ExecAppend(w: World, a: seq<Step>, b: seq<Step>)
    ensures Exec(w, a + b) == Exec(Exec(w, a), b)
    decreases |a|
  {
    hide Next;
    if |a| == 0 {
      assert a + b == b;
    } else {
      assert (a + b)[1..] == a[1..] + b;
      ExecAppend(Next(w, a[0]), a[1..], b);
    }
  }

  function AfterFirstRound(m: Mode, a: Identity, n: Mode, b: Identity): World {
    World([WorkflowRun(a, Terminated)],
          [Reconciler(m, a, 1, Observing), Reconciler(n, b, 1, Observing)],
          [Kill(1, 0)])
  }

  lemma FirstRoundRuns(m: Mode, a: Identity, n: Mode, b: Identity)
    requires m != Cancel && n != Cancel && Described(a) == a && Described(b) == b && Tie(a, b)
    ensures Exec(NOTHING, FirstRound(m, a, n, b)) == AfterFirstRound(m, a, n, b)
  {
    hide Decide, IncarnationOf, Described;
    TieDecides(m, a, b, 1);
    TieDecides(n, b, a, 0);
    var runs := [WorkflowRun(a, Running)];
    var p, q := Reconciler(m, a, 0, Observing), Reconciler(n, b, 0, Observing);
    var p1 := p.(attempts := 1);
    ExecFollows(FirstRound(m, a, n, b), [
      NOTHING,
      World([], [p], []),
      World([], [p, q], []),
      World([], [p.(pc := Acting(None)), q], []),
      World(runs, [p1, q], []),
      World(runs, [p1, q.(pc := Acting(Some(Observation(0, a, Running))))], []),
      AfterFirstRound(m, a, n, b)]);
  }

  lemma SecondRoundRuns(m: Mode, a: Identity, n: Mode, b: Identity)
    requires m != Cancel && n != Cancel && Described(a) == a && Described(b) == b && Tie(a, b)
    ensures KilledEachOther(Exec(AfterFirstRound(m, a, n, b), SECOND_ROUND), m, a, n, b)
  {
    hide Decide, IncarnationOf, Described, KilledEachOther;
    TieDecides(m, a, b, 1);
    TieDecides(n, b, a, 0);
    var ended := [WorkflowRun(a, Terminated)];
    var both := ended + [WorkflowRun(b, Running)];
    var p, q := Reconciler(m, a, 1, Observing), Reconciler(n, b, 1, Observing);
    var q2 := q.(attempts := 2);
    var last := World(ended + [WorkflowRun(b, Terminated)], [p.(attempts := 2), q2], [Kill(1, 0), Kill(0, 1)]);
    ExecFollows(SECOND_ROUND, [
      AfterFirstRound(m, a, n, b),
      World(ended, [p, q.(pc := Acting(Some(Observation(0, a, Terminated))))], [Kill(1, 0)]),
      World(both, [p, q2], [Kill(1, 0)]),
      World(both, [p.(pc := Acting(Some(Observation(1, b, Running)))), q2], [Kill(1, 0)]),
      last]);
    QuarrelOver(last, m, a, n, b);
  }

  lemma QuarrelOver(v: World, m: Mode, a: Identity, n: Mode, b: Identity)
    requires |v.kills| == 2 && KilledFor(v, 1, m, a, b) && KilledFor(v, 0, n, b, a)
    ensures KilledEachOther(v, m, a, n, b)
  {
  }

  lemma TieQuarrels(m: Mode, a: Identity, n: Mode, b: Identity)
    requires m != Cancel && n != Cancel && Described(a) == a && Described(b) == b && Tie(a, b)
    ensures KilledEachOther(Exec(NOTHING, FirstRound(m, a, n, b) + SECOND_ROUND), m, a, n, b)
  {
    hide KilledEachOther, FirstRound, AfterFirstRound, Exec, Tie;
    FirstRoundRuns(m, a, n, b);
    SecondRoundRuns(m, a, n, b);
    ExecAppend(NOTHING, FirstRound(m, a, n, b), SECOND_ROUND);
  }

  /** Two reconcilers that want runs can end each other's runs in some interleaving exactly when
      their identities tie. */
  lemma MutualKillsExactly(m: Mode, a: Identity, n: Mode, b: Identity)
    requires m != Cancel && n != Cancel && Described(a) == a && Described(b) == b
    ensures (exists steps :: KilledEachOther(Exec(NOTHING, steps), m, a, n, b)) <==> Tie(a, b)
  {
    if Tie(a, b) {
      TieQuarrels(m, a, n, b);
    } else {
      forall steps
        ensures !KilledEachOther(Exec(NOTHING, steps), m, a, n, b)
      {
        OnlyTiesQuarrel(steps, m, a, n, b);
      }
    }
  }

  lemma OnlyTiesQuarrel(steps: seq<Step>, m: Mode, a: Identity, n: Mode, b: Identity)
    requires m != Cancel && n != Cancel && Described(a) == a && Described(b) == b
    ensures KilledEachOther(Exec(NOTHING, steps), m, a, n, b) ==> Tie(a, b)
  {
    var v := Exec(NOTHING, steps);
    if KilledEachOther(v, m, a, n, b) {
      var i, j :| 0 <= i < |v.kills| && 0 <= j < |v.kills| && KilledFor(v, i, m, a, b) && KilledFor(v, j, n, b, a);
      NoMutualKills(NOTHING, steps, i, j);
    }
  }

  /** A running run stops only by ending itself or by a reconciler that targets it; in
      particular a start never displaces it. */
  lemma StopsOnlyByTarget(w: World, step: Step, id: nat)
    requires Inv(w) && id < |w.runs| && w.runs[id].status == Running
    requires Next(w, step).runs[id].status != Running
    ensures step.RunEnds?
      || ((step.Act? || step.FailCall?) && step.p < |w.reconcilers|
          && Targets(w.reconcilers[step.p].mode, w.reconcilers[step.p].desired, Described(w.runs[id].memo)))
  {
    hide IncarnationOf, Targets, Described, Newer;
    if (step.Act? || step.FailCall?) && step.p < |w.reconcilers| && w.reconcilers[step.p].pc.Acting? {
      var r := w.reconcilers[step.p];
      if r.pc.observed.Some? {
        KillsExactly(r.mode, r.desired, r.pc.observed.value);
      }
    }
  }

  predicate NobodyTargets(w: World, victim: Identity) {
    forall p :: 0 <= p < |w.reconcilers| ==> !Targets(w.reconcilers[p].mode, w.reconcilers[p].desired, victim)
  }

  /** The newest wanted run survives every interleaving: while no reconciler, present or
      arriving, targets its identity, it runs until it ends by itself. */
  lemma {:induction false} NewestSurvives(w: World, steps: seq<Step>, id: nat)
    requires Inv(w) && id < |w.runs| && w.runs[id].status == Running
    requires NobodyTargets(w, Described(w.runs[id].memo))
    requires forall s :: s in steps ==> !s.RunEnds?
    requires forall s :: s in steps && s.Arrive? ==> !Targets(s.mode, s.desired, Described(w.runs[id].memo))
    ensures var v := Exec(w, steps); id < |v.runs| && v.runs[id] == w.runs[id]
    decreases |steps|
  {
    hide Inv, Next, Targets, Described;
    if |steps| > 0 {
      var v := Next(w, steps[0]);
      assert steps[0] in steps;
      NextKeeps(w, steps[0]);
      if v.runs[id].status != Running {
        StopsOnlyByTarget(w, steps[0], id);
        assert false;
      }
      StillNobody(w, steps[0], Described(w.runs[id].memo));
      NewestSurvives(v, steps[1..], id);
    }
  }

  lemma StillNobody(w: World, step: Step, victim: Identity)
    requires Inv(w) && NobodyTargets(w, victim)
    requires step.Arrive? ==> !Targets(step.mode, step.desired, victim)
    ensures NobodyTargets(Next(w, step), victim)
  {
    hide Inv, Targets, Effect, AfterAct;
    if (step.Act? || step.FailCall?) && step.p < |w.reconcilers| && w.reconcilers[step.p].pc.Acting? {
      EffectSamePeople(w, step.p);
      AfterActSame(w.reconcilers[step.p]);
    }
  }
}
