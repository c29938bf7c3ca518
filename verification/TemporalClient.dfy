/** The shared Temporal client: one module-level state, changed by calls and by the reactions
    of promises, which run one at a time in the order in which they were queued. */
module TemporalClient {
  import opened Basics

  /** `connecting` remembers whether the clean-up of a failed construction is under way. */
  datatype ClientState = Idle | Connecting(attempt: nat, cleaningUp: bool) | Ready(attempt: nat) | Closing | Closed

  /** One connection attempt; `closeSettled` is the outcome of the call that closed it. */
  datatype Attempt =
    | Pending
    | Refused
    | Established(closeCalls: nat, closeSettled: Option<bool>, constructionFailed: bool)

  /** Queued reactions. */
  datatype Job =
    | ConnectionReaction(attempt: nat)
    | CloseWhenConnected(attempt: nat)
    | CallClose(attempt: nat)
    | CleanupReaction(attempt: nat, works: bool)
    | CloseReaction

  datatype World = World(
    state: ClientState,
    attempts: seq<Attempt>,
    jobs: seq<Job>,
    closeAwaitsConnection: bool,
    closeAwaitsCleanup: bool,
    closeRequested: bool,
    clientsMade: nat,
    clientsMadeAfterClose: nat)

  const START := World(Idle, [], [], false, false, false, 0, 0)

  /** What a caller of `getTemporalClient` is given. */
  datatype Answer = PendingClient(attempt: nat) | Client(attempt: nat) | RejectedNow

  /** A call, a promise of the outside settling, or the next queued reaction running. */
  datatype Event =
    | Get(startsWell: bool)
    | Close
    | ConnectionSettles(works: bool)
    | CloseCallSettles(works: bool)
    | RunJob(constructs: bool)

  function AnswerTo(w: World, startsWell: bool): Answer {
    match w.state
    case Idle => if startsWell then PendingClient(|w.attempts|) else RejectedNow
    case Connecting(a, _) => PendingClient(a)
    case Ready(a) => Client(a)
    case Closing => RejectedNow
    case Closed => RejectedNow
  }

  function Last(w: World): Attempt
    requires |w.attempts| > 0
  {
    w.attempts[|w.attempts| - 1]
  }

  function WithLast(w: World, a: Attempt): World
    requires |w.attempts| > 0
  {
    w.(attempts := w.attempts[|w.attempts| - 1 := a])
  }

  function AfterGet(w: World, startsWell: bool): World {
    if w.state.Idle? && startsWell then
      w.(attempts := w.attempts + [Pending], state := Connecting(|w.attempts|, false))
    else w
  }

  function AfterClose(w: World): World {
    var v := w.(closeRequested := true);
    match w.state
    case Idle => v.(state := Closed)
    case Connecting(a, cleaningUp) =>
      if cleaningUp then
        if a < |w.attempts| && w.attempts[a].Established? && w.attempts[a].closeSettled.Some? then
          v.(state := Closing, jobs := w.jobs + [CloseReaction])
        else v.(state := Closing, closeAwaitsCleanup := true)
      else if a < |w.attempts| && w.attempts[a] != Pending then
        v.(state := Closing, jobs := w.jobs + [CloseWhenConnected(a)])
      else v.(state := Closing, closeAwaitsConnection := true)
    case Ready(a) => v.(state := Closing, jobs := w.jobs + [CallClose(a)])
    case Closing => v
    case Closed => v
  }

  function AfterConnection(w: World, works: bool): World {
    if |w.attempts| == 0 || Last(w) != Pending then w
    else
      var a := |w.attempts| - 1;
      WithLast(w, if works then Established(0, None, false) else Refused)
        .(jobs := w.jobs + [ConnectionReaction(a)] + (if w.closeAwaitsConnection then [CloseWhenConnected(a)] else []),
          closeAwaitsConnection := false)
  }

  /** The close call of the last connection settles; whoever waits for it is queued. */
  function AfterCloseCall(w: World, works: bool): World {
    if |w.attempts| == 0 || !Last(w).Established? || Last(w).closeCalls == 0 || Last(w).closeSettled.Some? then w
    else
      var a, last := |w.attempts| - 1, Last(w);
      WithLast(w, last.(closeSettled := Some(works)))
        .(jobs := w.jobs
            + (if last.constructionFailed then [CleanupReaction(a, works)] else [])
            + (if !last.constructionFailed || w.closeAwaitsCleanup then [CloseReaction] else []),
          closeAwaitsCleanup := false)
  }

  function CallsClose(w: World, a: nat): World {
    if a < |w.attempts| && w.attempts[a].Established? then
      w.(attempts := w.attempts[a := w.attempts[a].(closeCalls := w.attempts[a].closeCalls + 1)])
    else w
  }

  function React(w: World, job: Job, constructs: bool): World {
    match job
    case ConnectionReaction(a) =>
      if a >= |w.attempts| then w
      else if w.attempts[a] == Refused then
        if w.state == Connecting(a, false) then w.(state := Idle) else w
      else if w.state != Connecting(a, false) || !w.attempts[a].Established? then w
      else if constructs then
        w.(state := Ready(a), clientsMade := w.clientsMade + 1,
           clientsMadeAfterClose := w.clientsMadeAfterClose + (if w.closeRequested then 1 else 0))
      else
        w.(state := Connecting(a, true), jobs := w.jobs + [CallClose(a)],
           attempts := w.attempts[a := w.attempts[a].(constructionFailed := true)])
    case CloseWhenConnected(a) =>
      if a < |w.attempts| && w.attempts[a] == Refused then w.(jobs := w.jobs + [CloseReaction])
      else CallsClose(w, a)
    case CallClose(a) => CallsClose(w, a)
    case CleanupReaction(a, works) =>
      if w.state == Connecting(a, true) then w.(state := if works then Idle else Closed) else w
    case CloseReaction => w.(state := Closed)
  }

  function Apply(w: World, e: Event): World {
    match e
    case Get(startsWell) => AfterGet(w, startsWell)
    case Close => AfterClose(w)
    case ConnectionSettles(works) => AfterConnection(w, works)
    case CloseCallSettles(works) => AfterCloseCall(w, works)
    case RunJob(constructs) =>
      if |w.jobs| == 0 then w else React(w.(jobs := w.jobs[1..]), w.jobs[0], constructs)
  }

  function Run(w: World, events: seq<Event>): World
    decreases |events|
  {
    if |events| == 0 then w else Run(Apply(w, events[0]), events[1..])
  }

  // ---------------------------------------------------------------- invariant

  /** The attempt has come to nothing, or its connection has been closed. */
  predicate Over(a: Attempt) {
    a == Refused || (a.Established? && a.closeCalls == 1 && a.closeSettled.Some?)
  }

  predicate AllOver(attempts: seq<Attempt>) {
    forall i :: 0 <= i < |attempts| ==> Over(attempts[i])
  }

  /** What is queued and pending while an attempt is under way. */
  predicate ConnectingSound(w: World, a: nat, cleaningUp: bool) {
    && |w.attempts| == a + 1
    && (if cleaningUp then
          || (Last(w) == Established(0, None, true) && w.jobs == [CallClose(a)])
          || (Last(w) == Established(1, None, true) && w.jobs == [])
          || (Last(w) == Established(1, Some(true), true) && w.jobs == [CleanupReaction(a, true)])
          || (Last(w) == Established(1, Some(false), true) && w.jobs == [CleanupReaction(a, false)])
        else
          || (Last(w) == Pending && w.jobs == [])
          || (Last(w) == Refused && w.jobs == [ConnectionReaction(a)])
          || (Last(w) == Established(0, None, false) && w.jobs == [ConnectionReaction(a)]))
  }

  /** What is queued and pending once a close has begun. */
  predicate ClosingSound(w: World) {
    && |w.attempts| > 0
    && var a, last := |w.attempts| - 1, Last(w);
       || (last == Pending && w.jobs == [] && w.closeAwaitsConnection && !w.closeAwaitsCleanup)
       || (!w.closeAwaitsConnection && !w.closeAwaitsCleanup && (
             || (last == Refused && (w.jobs == [ConnectionReaction(a), CloseWhenConnected(a)]
                  || w.jobs == [CloseWhenConnected(a)] || w.jobs == [CloseReaction]))
             || (last == Established(0, None, false) && (w.jobs == [ConnectionReaction(a), CloseWhenConnected(a)]
                  || w.jobs == [CloseWhenConnected(a)] || w.jobs == [CallClose(a)]))
             || (last == Established(1, None, false) && w.jobs == [])
             || (Over(last) && !last.Refused? && (w.jobs == [CloseReaction]
                  || (exists works :: w.jobs == [CleanupReaction(a, works), CloseReaction])))))
       || (!w.closeAwaitsConnection && w.closeAwaitsCleanup && (
             || (last == Established(0, None, true) && w.jobs == [CallClose(a)])
             || (last == Established(1, None, true) && w.jobs == [])))
  }

  predicate Inv(w: World) {
    && (|w.attempts| > 0 ==> AllOver(w.attempts[..|w.attempts| - 1]))
    && w.clientsMadeAfterClose == 0
    && (w.closeRequested ==> w.state == Closing || w.state == Closed)
    && (w.state == Closing ==> w.closeRequested)
    && (w.state != Closing ==> !w.closeAwaitsConnection && !w.closeAwaitsCleanup)
    && match w.state
       case Idle => AllOver(w.attempts) && w.jobs == []
       case Connecting(a, cleaningUp) => ConnectingSound(w, a, cleaningUp)
       case Ready(a) => |w.attempts| == a + 1 && Last(w) == Established(0, None, false) && w.jobs == []
       case Closing => ClosingSound(w)
       case Closed => AllOver(w.attempts) && w.jobs == []
  }

  lemma GetKeeps(w: World, startsWell: bool)
    requires Inv(w)
    ensures Inv(AfterGet(w, startsWell))
  {
    if w.state.Idle? && startsWell {
      assert AfterGet(w, startsWell).attempts[..|w.attempts|] == w.attempts;
    }
  }

  lemma CloseKeeps(w: World)
    requires Inv(w)
    ensures Inv(AfterClose(w))
  {
  }

  lemma ConnectionKeeps(w: World, works: bool)
    requires Inv(w)
    ensures Inv(AfterConnection(w, works))
  {
  }

  lemma CloseCallKeeps(w: World, works: bool)
    requires Inv(w)
    ensures Inv(AfterCloseCall(w, works))
  {
  }

  lemma ConnectingJobKeeps(w: World, a: nat, cleaningUp: bool, constructs: bool)
    requires Inv(w) && w.state == Connecting(a, cleaningUp) && |w.jobs| > 0
    ensures Inv(Apply(w, RunJob(constructs)))
  {
    hide ClosingSound;
    var v := w.(jobs := w.jobs[1..]);
    assert v.jobs == [];
    assert w.attempts[..|w.attempts| - 1] == React(v, w.jobs[0], constructs).attempts[..|w.attempts| - 1];
  }

  lemma ClosingJobKeeps(w: World, constructs: bool)
    requires Inv(w) && w.state == Closing && |w.jobs| > 0
    ensures Inv(Apply(w, RunJob(constructs)))
  {
    hide ConnectingSound;
    var v := w.(jobs := w.jobs[1..]);
    var u := React(v, w.jobs[0], constructs);
    assert |w.jobs| == 1 ==> v.jobs == [];
    assert |w.jobs| == 2 ==> v.jobs == [w.jobs[1]];
    assert w.attempts[..|w.attempts| - 1] == u.attempts[..|w.attempts| - 1];
  }

  lemma JobKeeps(w: World, constructs: bool)
    requires Inv(w)
    ensures Inv(Apply(w, RunJob(constructs)))
  {
    if |w.jobs| > 0 {
      match w.state
      case Connecting(a, cleaningUp) => ConnectingJobKeeps(w, a, cleaningUp, constructs);
      case Closing => ClosingJobKeeps(w, constructs);
    }
  }

  lemma ApplyKeeps(w: World, e: Event)
    requires Inv(w)
    ensures Inv(Apply(w, e))
  {
    hide Inv, AfterGet, AfterClose, AfterConnection, AfterCloseCall, React;
    match e
    case Get(startsWell) => GetKeeps(w, startsWell);
    case Close => CloseKeeps(w);
    case ConnectionSettles(works) => ConnectionKeeps(w, works);
    case CloseCallSettles(works) => CloseCallKeeps(w, works);
    case RunJob(constructs) => JobKeeps(w, constructs);
  }

  lemma {:induction false} RunKeeps(w: World, events: seq<Event>)
    requires Inv(w)
    ensures Inv(Run(w, events))
    decreases |events|
  {
    hide Inv, Apply;
    if |events| > 0 {
      ApplyKeeps(w, events[0]);
      RunKeeps(Apply(w, events[0]), events[1..]);
    }
  }

  // ---------------------------------------------------------------- what holds in every run

  /** At most one attempt or live connection exists, and only the latest can be it. */
  lemma OneConnection(events: seq<Event>)
    ensures var w := Run(START, events);
      forall i :: 0 <= i < |w.attempts| - 1 ==> Over(w.attempts[i])
  {
    RunKeeps(START, events);
    var w := Run(START, events);
    forall i | 0 <= i < |w.attempts| - 1
      ensures Over(w.attempts[i])
    {
      assert w.attempts[..|w.attempts| - 1][i] == w.attempts[i];
    }
  }

  /** After the first close every caller is turned away and no client is made any more. */
  lemma ClosedForGood(events: seq<Event>, startsWell: bool)
    ensures var w := Run(START, events);
      w.closeRequested ==>
        && (w.state == Closing || w.state == Closed)
        && AnswerTo(w, startsWell) == RejectedNow
        && w.clientsMadeAfterClose == 0
  {
    RunKeeps(START, events);
  }

  lemma {:induction false} CloseRequestStays(w: World, events: seq<Event>)
    requires w.closeRequested
    ensures Run(w, events).closeRequested
    decreases |events|
  {
    if |events| > 0 {
      CloseRequestStays(Apply(w, events[0]), events[1..]);
    }
  }

  /** Closing is final: whatever happens afterwards, the state never leaves closing or closed. */
  lemma NeverReopens(events: seq<Event>, more: seq<Event>)
    ensures var w := Run(START, events);
      w.closeRequested ==> var v := Run(w, more); v.state == Closing || v.state == Closed
  {
    RunKeeps(START, events);
    var w := Run(START, events);
    if w.closeRequested {
      RunKeeps(w, more);
      CloseRequestStays(w, more);
    }
  }

  /** A connection whose client could not be made, or that a close has caught up with. */
  predicate MustBeClosed(w: World, a: Attempt) {
    a.Established? && (a.constructionFailed || w.closeRequested)
  }

  /** No connection is closed twice; one whose client could not be made, or that a close has
      caught up with, has been closed once by the time nothing is pending any more. */
  lemma ClosedExactlyOnce(events: seq<Event>)
    ensures var w := Run(START, events);
      && (forall i :: 0 <= i < |w.attempts| && w.attempts[i].Established? ==> w.attempts[i].closeCalls <= 1)
      && (Settled(w) ==>
            forall i :: 0 <= i < |w.attempts| && MustBeClosed(w, w.attempts[i]) ==> w.attempts[i].closeCalls == 1)
      && (Settled(w) && w.closeRequested ==> w.state == Closed)
  {
    RunKeeps(START, events);
    var w := Run(START, events);
    forall i | 0 <= i < |w.attempts| && w.attempts[i].Established?
      ensures w.attempts[i].closeCalls <= 1
      ensures Settled(w) && MustBeClosed(w, w.attempts[i]) ==> w.attempts[i].closeCalls == 1
    {
      if i < |w.attempts| - 1 {
        assert w.attempts[..|w.attempts| - 1][i] == w.attempts[i];
      } else {
        LastClosing(w);
      }
    }
    if Settled(w) && w.closeRequested && |w.attempts| > 0 {
      LastClosing(w);
    }
  }

  /** Nothing is queued and no promise of the outside is pending. */
  predicate Settled(w: World) {
    && w.jobs == []
    && forall i :: 0 <= i < |w.attempts| ==>
         w.attempts[i] != Pending
         && (w.attempts[i].Established? && w.attempts[i].closeCalls > 0 ==> w.attempts[i].closeSettled.Some?)
  }

  lemma LastClosing(w: World)
    requires Inv(w) && |w.attempts| > 0
    ensures Last(w).Established? ==> Last(w).closeCalls <= 1
    ensures Settled(w) && MustBeClosed(w, Last(w)) ==> Last(w).closeCalls == 1
    ensures Settled(w) && w.closeRequested ==> w.state == Closed
  {
    if w.state == Idle || w.state == Closed {
      assert Over(w.attempts[|w.attempts| - 1]);
    }
  }

  // ---------------------------------------------------------------- what the state says

  /** While nobody has closed the client: an idle state has never connected, was refused, or has
      cleaned up after a failed construction; a closed one has failed to clean up. */
  predicate StateExplained(w: World) {
    !w.closeRequested ==>
      && (w.state == Idle ==>
            |w.attempts| == 0 || Last(w) == Refused || Last(w) == Established(1, Some(true), true))
      && (w.state == Closed ==> |w.attempts| > 0 && Last(w) == Established(1, Some(false), true))
  }

  lemma ApplyExplains(w: World, e: Event)
    requires Inv(w) && StateExplained(w)
    ensures StateExplained(Apply(w, e))
  {
    hide ClosingSound, AfterClose;
    if e.Close? {
      CloseRequests(w);
    } else if e.RunJob? && |w.jobs| > 0 {
      if w.closeRequested {
        hide React;
        ReactRequested(w.(jobs := w.jobs[1..]), w.jobs[0], e.constructs);
      } else {
        assert w.state.Connecting?;
      }
    }
  }

  lemma CloseRequests(w: World)
    ensures AfterClose(w).closeRequested
  {
  }

  lemma ReactRequested(w: World, job: Job, constructs: bool)
    ensures React(w, job, constructs).closeRequested == w.closeRequested
  {
  }

  lemma {:induction false} RunExplains(w: World, events: seq<Event>)
    requires Inv(w) && StateExplained(w)
    ensures StateExplained(Run(w, events))
    decreases |events|
  {
    hide Inv, Apply, StateExplained;
    if |events| > 0 {
      ApplyKeeps(w, events[0]);
      ApplyExplains(w, events[0]);
      RunExplains(Apply(w, events[0]), events[1..]);
    }
  }

  /** Once nothing is pending and nobody has asked for a close, the last attempt alone says what the
      state is: ready if it connected and made its client; closed if the client failed and closing
      its connection failed too; and otherwise idle, so that the next caller tries again. */
  lemma StateTells(events: seq<Event>)
    ensures var w := Run(START, events);
      Settled(w) && !w.closeRequested ==>
        w.state ==
          if |w.attempts| == 0 || Last(w) == Refused then Idle
          else if !Last(w).constructionFailed then Ready(|w.attempts| - 1)
          else if Last(w).closeSettled == Some(true) then Idle
          else Closed
  {
    RunKeeps(START, events);
    RunExplains(START, events);
    hide Run;
  }

  /** A caller is given a client only of a connection that is open, is made to wait only for the
      last attempt, and is turned away exactly when the client is closing or closed or its options
      are bad; only a caller who finds it idle starts an attempt. */
  lemma AnswerLaw(events: seq<Event>, startsWell: bool)
    ensures var w := Run(START, events);
      var answer := AnswerTo(w, startsWell);
      && (answer.Client? ==> answer.attempt == |w.attempts| - 1 && Last(w) == Established(0, None, false))
      && (answer.PendingClient? ==> answer.attempt == |AfterGet(w, startsWell).attempts| - 1)
      && (answer.RejectedNow? <==> w.state == Closing || w.state == Closed || (w.state == Idle && !startsWell))
      && AfterGet(w, startsWell).attempts == w.attempts + if w.state == Idle && startsWell then [Pending] else []
  {
    RunKeeps(START, events);
    hide Run;
  }

  // ---------------------------------------------------------------- the module

  /** The module's `state` variable together with what its promises are waiting for. */
  class ClientModule {
    var state: ClientState
    var attempts: seq<Attempt>
    var jobs: seq<Job>
    var closeAwaitsConnection: bool
    var closeAwaitsCleanup: bool
    ghost var closeRequested: bool
    ghost var clientsMade: nat
    ghost var clientsMadeAfterClose: nat

    ghost function Contents(): World
      reads this
    {
      World(state, attempts, jobs, closeAwaitsConnection, closeAwaitsCleanup,
            closeRequested, clientsMade, clientsMadeAfterClose)
    }

    constructor ()
      ensures Contents() == START && Inv(Contents())
    {
      state, attempts, jobs, closeAwaitsConnection, closeAwaitsCleanup := Idle, [], [], false, false;
      closeRequested, clientsMade, clientsMadeAfterClose := false, 0, 0;
    }

    method GetTemporalClient(startsWell: bool) returns (answer: Answer)
      requires Inv(Contents())
      modifies this
      ensures Contents() == AfterGet(old(Contents()), startsWell) && Inv(Contents())
      ensures answer == AnswerTo(old(Contents()), startsWell)
    {
      GetKeeps(Contents(), startsWell);
      match state {
        case Idle =>
          if !startsWell {
            return RejectedNow;
          }
          attempts := attempts + [Pending];
          state := Connecting(|attempts| - 1, false);
          return PendingClient(|attempts| - 1);
        case Connecting(a, _) => return PendingClient(a);
        case Ready(a) => return Client(a);
        case Closing => return RejectedNow;
        case Closed => return RejectedNow;
      }
    }

    method CloseTemporalClient()
      requires Inv(Contents())
      modifies this
      ensures Contents() == AfterClose(old(Contents())) && Inv(Contents())
    {
      CloseKeeps(Contents());
      closeRequested := true;
      match state {
        case Idle => state := Closed;
        case Connecting(a, cleaningUp) =>
          if cleaningUp {
            if attempts[a].closeSettled.Some? {
              jobs := jobs + [CloseReaction];
            } else {
              closeAwaitsCleanup := true;
            }
          } else if attempts[a] != Pending {
            jobs := jobs + [CloseWhenConnected(a)];
          } else {
            closeAwaitsConnection := true;
          }
          state := Closing;
        case Ready(a) =>
          jobs := jobs + [CallClose(a)];
          state := Closing;
        case Closing =>
        case Closed =>
      }
    }

    /** The callbacks on the connection promise of attempt `a`. */
    method OnConnection(a: nat, constructs: bool)
      requires Inv(Contents()) && |jobs| > 0 && jobs[0] == ConnectionReaction(a)
      modifies this
      ensures Contents() == Apply(old(Contents()), RunJob(constructs)) && Inv(Contents())
    {
      JobKeeps(Contents(), constructs);
      jobs := jobs[1..];
      if a >= |attempts| {
        return;
      }
      if attempts[a] == Refused {
        if state == Connecting(a, false) {
          state := Idle;
        }
        return;
      }
      if state != Connecting(a, false) || !attempts[a].Established? {
        return;
      }
      if constructs {
        state := Ready(a);
        clientsMade := clientsMade + 1;
        if closeRequested {
          clientsMadeAfterClose := clientsMadeAfterClose + 1;
        }
      } else {
        state := Connecting(a, true);
        attempts := attempts[a := attempts[a].(constructionFailed := true)];
        jobs := jobs + [CallClose(a)];
      }
    }

    /** The callbacks on the clean-up promise and on the promise of a close. */
    method OnClosed(works: bool)
      requires Inv(Contents()) && |jobs| > 0
      requires jobs[0] == CloseReaction || (jobs[0].CleanupReaction? && jobs[0].works == works)
      modifies this
      ensures Contents() == Apply(old(Contents()), RunJob(true)) && Inv(Contents())
    {
      JobKeeps(Contents(), true);
      var job := jobs[0];
      jobs := jobs[1..];
      if job == CloseReaction {
        state := Closed;
      } else if state == Connecting(job.attempt, true) {
        state := if works then Idle else Closed;
      }
    }
  }
}
