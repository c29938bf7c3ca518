/** `NodeLoadSlotSupplier`: how many judge activities a worker may run at a time, adjusted to
    the load of its node. */
module JudgeSlots {
  import opened Basics

  const NODE_CPU_TARGET: real := 0.8
  const NODE_MEMORY_AVAILABLE_FLOOR: real := 0.2
  const WORKER_MEMORY_CEILING: real := 0.75
  const GROWTH_COOLDOWN_SAMPLES: nat := 2
  const UNSCHEDULABLE_PAUSE_SAMPLES: nat := 12
  const WALL_CLOCK_PAUSE_SAMPLES: nat := 24

  datatype NodeLoad = NodeLoad(cpu: real, memoryAvailable: real, workerMemory: Option<real>)

  datatype CapacitySignal = Unschedulable | QuotaExceeded | WallClockTimeout

  type Request = nat

  /** The supplier's fields, with the histories of requests: `arrived` in order of arrival,
      `granted` in order of granting, `aborted` while they were waiting. */
  datatype Slots = Slots(
    min: nat, max: nat,
    budget: int, issued: int, used: int,
    samplesSinceGrowth: nat, pausedSamples: nat,
    waiters: seq<Request>,
    arrived: seq<Request>, granted: seq<Request>, aborted: set<Request>)

  function Fresh(min: nat, max: nat): Slots {
    Slots(min, max, min, 0, 0, GROWTH_COOLDOWN_SAMPLES, 0, [], [], [], {})
  }

  function Min(a: int, b: int): int { if a < b then a else b }
  function Max(a: int, b: int): int { if a > b then a else b }

  predicate Overloaded(load: NodeLoad) {
    || load.cpu >= NODE_CPU_TARGET
    || load.memoryAvailable < NODE_MEMORY_AVAILABLE_FLOOR
    || (if load.workerMemory.Some? then load.workerMemory.value else 0.0) >= WORKER_MEMORY_CEILING
  }

  // ---------------------------------------------------------------- the operations

  /** Grants waiting requests, oldest first, as long as the budget allows. */
  function Wake(s: Slots): Slots
    decreases |s.waiters|
  {
    if s.issued < s.budget && |s.waiters| > 0 then
      Wake(s.(issued := s.issued + 1, granted := s.granted + [s.waiters[0]], waiters := s.waiters[1..]))
    else s
  }

  function Shrunk(s: Slots): int {
    Max(s.min, Min(s.budget, s.used - 1))
  }

  predicate MayGrow(s: Slots, load: NodeLoad) {
    && !Overloaded(load)
    && s.pausedSamples == 0
    && s.used >= s.budget
    && s.budget < s.max
    && s.samplesSinceGrowth + 1 >= GROWTH_COOLDOWN_SAMPLES
  }

  function Adjust(s: Slots, load: NodeLoad): Slots {
    var t := s.(samplesSinceGrowth := s.samplesSinceGrowth + 1,
                pausedSamples := if s.pausedSamples > 0 then s.pausedSamples - 1 else 0);
    if Overloaded(load) then t.(budget := Shrunk(s))
    else if MayGrow(s, load) then Wake(t.(budget := s.budget + 1, samplesSinceGrowth := 0))
    else t
  }

  function PauseOf(kind: CapacitySignal): nat {
    if kind == WallClockTimeout then WALL_CLOCK_PAUSE_SAMPLES else UNSCHEDULABLE_PAUSE_SAMPLES
  }

  function Signal(s: Slots, kind: CapacitySignal): Slots {
    s.(budget := Shrunk(s),
       pausedSamples := if s.pausedSamples > PauseOf(kind) then s.pausedSamples else PauseOf(kind))
  }

  function Reserve(s: Slots, r: Request, alreadyAborted: bool): Slots {
    if alreadyAborted then s
    else if s.issued < s.budget then
      s.(issued := s.issued + 1, arrived := s.arrived + [r], granted := s.granted + [r])
    else s.(waiters := s.waiters + [r], arrived := s.arrived + [r])
  }

  function IndexOf(waiters: seq<Request>, r: Request): (k: int)
    ensures -1 <= k < |waiters|
    ensures k >= 0 ==> waiters[k] == r && forall i :: 0 <= i < k ==> waiters[i] != r
    ensures k == -1 <==> r !in waiters
  {
    if |waiters| == 0 then -1
    else if waiters[0] == r then 0
    else
      var k := IndexOf(waiters[1..], r);
      if k == -1 then -1 else k + 1
  }

  /** The abort listener of a waiting request. */
  function Abort(s: Slots, r: Request): Slots
    requires r in s.waiters
  {
    var k := IndexOf(s.waiters, r);
    s.(waiters := s.waiters[..k] + s.waiters[k + 1..], aborted := s.aborted + {r})
  }

  function TryReserve(s: Slots, r: Request): (Slots, bool) {
    if s.issued >= s.budget || |s.waiters| > 0 then (s, false)
    else (s.(issued := s.issued + 1, arrived := s.arrived + [r], granted := s.granted + [r]), true)
  }

  function MarkUsed(s: Slots): Slots {
    s.(used := s.used + 1)
  }

  function Release(s: Slots, hadInfo: bool): Slots {
    Wake(s.(issued := s.issued - 1, used := if hadInfo then s.used - 1 else s.used))
  }

  // ---------------------------------------------------------------- invariant

  function Without(requests: seq<Request>, gone: set<Request>): seq<Request> {
    if |requests| == 0 then []
    else
      var last := requests[|requests| - 1];
      Without(requests[..|requests| - 1], gone) + if last in gone then [] else [last]
  }

  predicate Bounded(s: Slots) {
    s.min <= s.budget <= s.max && 0 <= s.issued <= s.max
  }

  /** A request waits only while every slot of the budget is out. */
  predicate NoLostWakeup(s: Slots) {
    |s.waiters| > 0 ==> s.issued >= s.budget
  }

  /** Grants follow arrivals: leaving out the aborted, first those granted, then those waiting. */
  predicate InOrder(s: Slots) {
    && Distinct(s.arrived)
    && (forall r :: r in s.aborted ==> r in s.arrived)
    && Without(s.arrived, s.aborted) == s.granted + s.waiters
  }

  predicate Inv(s: Slots) {
    Bounded(s) && NoLostWakeup(s) && InOrder(s)
  }

  datatype Event =
    | Sampled(load: NodeLoad)
    | Signalled(kind: CapacitySignal)
    | Reserved(request: Request, alreadyAborted: bool)
    | Aborted(request: Request)
    | Tried(request: Request)
    | Used
    | Released(hadInfo: bool)

  /** What the host guarantees: requests are told apart, only waiting requests have a live
      abort listener, and only issued permits are released. */
  predicate Allowed(s: Slots, e: Event) {
    match e
    case Reserved(r, _) => r !in s.arrived
    case Tried(r) => r !in s.arrived
    case Aborted(r) => r in s.waiters
    case Released(_) => s.issued > 0
    case _ => true
  }

  function Apply(s: Slots, e: Event): Slots
    requires Allowed(s, e)
  {
    match e
    case Sampled(load) => Adjust(s, load)
    case Signalled(kind) => Signal(s, kind)
    case Reserved(r, alreadyAborted) => Reserve(s, r, alreadyAborted)
    case Aborted(r) => Abort(s, r)
    case Tried(r) => TryReserve(s, r).0
    case Used => MarkUsed(s)
    case Released(hadInfo) => Release(s, hadInfo)
  }

  lemma {:induction false} WakeKeeps(s: Slots)
    requires Bounded(s)
    ensures var t := Wake(s);
      && Bounded(t) && NoLostWakeup(t)
      && t.granted + t.waiters == s.granted + s.waiters
      && t == s.(issued := t.issued, granted := t.granted, waiters := t.waiters)
    decreases |s.waiters|
  {
    if s.issued < s.budget && |s.waiters| > 0 {
      var t := s.(issued := s.issued + 1, granted := s.granted + [s.waiters[0]], waiters := s.waiters[1..]);
      assert t.granted + t.waiters == s.granted + s.waiters;
      WakeKeeps(t);
    }
  }

  lemma WithoutAppend(requests: seq<Request>, r: Request, gone: set<Request>)
    ensures Without(requests + [r], gone) == Without(requests, gone) + if r in gone then [] else [r]
  {
    assert (requests + [r])[..|requests|] == requests;
  }

  lemma {:induction false} WithoutMembers(requests: seq<Request>, gone: set<Request>)
    ensures forall r :: r in Without(requests, gone) <==> r in requests && r !in gone
  {
    if |requests| > 0 {
      WithoutMembers(requests[..|requests| - 1], gone);
      var last := requests[|requests| - 1];
      assert requests == requests[..|requests| - 1] + [last];
    }
  }

  /** Dropping one more of the remaining requests takes out exactly its place. */
  lemma {:induction false} WithoutOneMore(requests: seq<Request>, gone: set<Request>, r: Request, k: nat)
    requires Distinct(requests) && k < |Without(requests, gone)| && Without(requests, gone)[k] == r
    ensures Without(requests, gone + {r}) == Without(requests, gone)[..k] + Without(requests, gone)[k + 1..]
  {
    WithoutMembers(requests, gone);
    var front, last := requests[..|requests| - 1], requests[|requests| - 1];
    var w := Without(front, gone);
    WithoutMembers(front, gone);
    if k < |w| {
      assert w[k] == r;
      assert r in front;
      WithoutOneMore(front, gone, r, k);
      assert last != r;
      var tail := if last in gone then [] else [last];
      assert Without(requests, gone)[k + 1..] == w[k + 1..] + tail;
      assert Without(requests, gone)[..k] == w[..k];
    } else {
      assert last == r;
      WithoutUnaffected(front, gone, r);
      assert Without(requests, gone) == w + [r];
    }
  }

  lemma {:induction false} WithoutUnaffected(requests: seq<Request>, gone: set<Request>, r: Request)
    requires r !in requests
    ensures Without(requests, gone + {r}) == Without(requests, gone)
  {
    if |requests| > 0 {
      WithoutUnaffected(requests[..|requests| - 1], gone, r);
      assert requests[|requests| - 1] in requests;
    }
  }

  lemma ArriveKeeps(s: Slots, r: Request, granted: seq<Request>, waiters: seq<Request>)
    requires InOrder(s) && r !in s.arrived
    requires granted + waiters == s.granted + s.waiters + [r]
    ensures Distinct(s.arrived + [r])
    ensures Without(s.arrived + [r], s.aborted) == granted + waiters
  {
    WithoutAppend(s.arrived, r, s.aborted);
  }

  lemma AbortKeeps(s: Slots, r: Request)
    requires Inv(s) && r in s.waiters
    ensures Inv(Abort(s, r))
  {
    var k := IndexOf(s.waiters, r);
    var all := Without(s.arrived, s.aborted);
    var n := |s.granted| + k;
    assert all[n] == r;
    WithoutOneMore(s.arrived, s.aborted, r, n);
    assert all[..n] + all[n + 1..] == s.granted + (s.waiters[..k] + s.waiters[k + 1..]);
    WithoutMembers(s.arrived, s.aborted);
    assert r in all;
  }

  lemma ApplyKeeps(s: Slots, e: Event)
    requires Inv(s) && Allowed(s, e)
    ensures Inv(Apply(s, e))
  {
    hide Without, IndexOf;
    match e
    case Sampled(load) =>
      if MayGrow(s, load) {
        WakeKeeps(s.(samplesSinceGrowth := 0, pausedSamples := 0, budget := s.budget + 1));
      }
    case Signalled(kind) =>
    case Reserved(r, alreadyAborted) =>
      if !alreadyAborted {
        if s.issued < s.budget {
          assert s.waiters == [];
          ArriveKeeps(s, r, s.granted + [r], []);
        } else {
          ArriveKeeps(s, r, s.granted, s.waiters + [r]);
        }
      }
    case Aborted(r) => AbortKeeps(s, r);
    case Tried(r) =>
      if s.issued < s.budget && |s.waiters| == 0 {
        ArriveKeeps(s, r, s.granted + [r], []);
      }
    case Used =>
    case Released(hadInfo) =>
      WakeKeeps(s.(issued := s.issued - 1, used := if hadInfo then s.used - 1 else s.used));
  }

  /** Every event of the run is one that the host may cause at that point. */
  predicate AllAllowed(s: Slots, events: seq<Event>)
    decreases |events|
  {
    |events| == 0 || (Allowed(s, events[0]) && AllAllowed(Apply(s, events[0]), events[1..]))
  }

  function Run(s: Slots, events: seq<Event>): Slots
    requires AllAllowed(s, events)
    decreases |events|
  {
    if |events| == 0 then s else Run(Apply(s, events[0]), events[1..])
  }

  lemma {:induction false} RunKeeps(s: Slots, events: seq<Event>)
    requires Inv(s) && AllAllowed(s, events)
    ensures Inv(Run(s, events))
    decreases |events|
  {
    if |events| > 0 {
      ApplyKeeps(s, events[0]);
      RunKeeps(Apply(s, events[0]), events[1..]);
    }
  }

  /** At every moment the bounds hold, no request waits beside a free slot, and requests have
      been granted in the order in which they came. */
  lemma SupplierSafe(min: nat, max: nat, events: seq<Event>)
    requires min <= max && AllAllowed(Fresh(min, max), events)
    ensures Inv(Run(Fresh(min, max), events))
  {
    RunKeeps(Fresh(min, max), events);
  }

  // ---------------------------------------------------------------- growth

  function Samples(events: seq<Event>): nat {
    if |events| == 0 then 0 else (if events[0].Sampled? then 1 else 0) + Samples(events[1..])
  }

  /** How often the budget grows along a run. */
  function Growths(s: Slots, events: seq<Event>): nat
    requires AllAllowed(s, events)
    decreases |events|
  {
    if |events| == 0 then 0
    else
      (if Apply(s, events[0]).budget > s.budget then 1 else 0) + Growths(Apply(s, events[0]), events[1..])
  }

  lemma ApplyGrowth(s: Slots, e: Event)
    requires Inv(s) && Allowed(s, e)
    ensures var t := Apply(s, e);
      && (t.budget > s.budget ==>
            e.Sampled? && t.budget == s.budget + 1 && s.pausedSamples == 0
            && s.samplesSinceGrowth >= 1 && t.samplesSinceGrowth == 0)
      && (t.budget <= s.budget ==>
            t.samplesSinceGrowth == s.samplesSinceGrowth + (if e.Sampled? then 1 else 0))
      && t.pausedSamples >= s.pausedSamples - (if e.Sampled? then 1 else 0)
  {
    hide Without, IndexOf;
    match e
    case Sampled(load) =>
      if MayGrow(s, load) {
        WakeKeeps(s.(samplesSinceGrowth := 0, pausedSamples := 0, budget := s.budget + 1));
      }
    case Released(hadInfo) =>
      WakeKeeps(s.(issued := s.issued - 1, used := if hadInfo then s.used - 1 else s.used));
    case _ =>
  }

  /** Over any n samples, wherever the run starts, the budget grows at most every second time. */
  lemma {:induction false} GrowsEverySecondSample(s: Slots, events: seq<Event>)
    requires Inv(s) && AllAllowed(s, events)
    ensures 2 * Growths(s, events) <= Samples(events) + (if s.samplesSinceGrowth == 0 then 0 else 1)
    decreases |events|
  {
    if |events| > 0 {
      ApplyKeeps(s, events[0]);
      ApplyGrowth(s, events[0]);
      GrowsEverySecondSample(Apply(s, events[0]), events[1..]);
    }
  }

  /** After a capacity signal the budget does not grow for twelve samples, or twenty-four. */
  lemma {:induction false} NoGrowthWhilePaused(s: Slots, events: seq<Event>)
    requires Inv(s) && AllAllowed(s, events) && Samples(events) <= s.pausedSamples
    ensures Growths(s, events) == 0
    decreases |events|
  {
    if |events| > 0 {
      ApplyKeeps(s, events[0]);
      ApplyGrowth(s, events[0]);
      NoGrowthWhilePaused(Apply(s, events[0]), events[1..]);
    }
  }

  lemma NoGrowthAfterSignal(s: Slots, kind: CapacitySignal, events: seq<Event>)
    requires Inv(s) && AllAllowed(Signal(s, kind), events)
    requires Samples(events) <= if kind == WallClockTimeout then 24 else 12
    ensures Growths(Signal(s, kind), events) == 0
  {
    ApplyKeeps(s, Signalled(kind));
    NoGrowthWhilePaused(Signal(s, kind), events);
  }

  /** The budget after a sample or a signal that shrinks it: the largest one that is no more than
      before and leaves some used slot over, unless that is below the minimum. */
  predicate Capped(s: Slots, budget: int) {
    && s.min <= budget <= s.budget && (budget < s.used || budget == s.min)
    && (budget == s.budget || budget == s.used - 1 || (budget == s.min && s.used - 1 < s.min))
  }

  predicate Strained(load: NodeLoad) {
    load.cpu >= 0.8 || load.memoryAvailable < 0.2 || (load.workerMemory.Some? && load.workerMemory.value >= 0.75)
  }

  /** Under strain a sample caps the budget. Otherwise it adds one slot exactly if none is left of
      the budget, the maximum is not reached, no pause is on and the last growth was not at the
      sample before; and it leaves the budget as it is in every other case. */
  lemma SampleLaw(s: Slots, load: NodeLoad)
    requires Inv(s)
    ensures var t := Adjust(s, load);
      if Strained(load) then Capped(s, t.budget) && t.issued == s.issued && t.waiters == s.waiters
      else if s.pausedSamples == 0 && s.used >= s.budget && s.budget < s.max && s.samplesSinceGrowth >= 1
           then t.budget == s.budget + 1
           else t.budget == s.budget && t.issued == s.issued && t.waiters == s.waiters
  {
    hide Without, Wake;
    if MayGrow(s, load) {
      WakeKeeps(s.(samplesSinceGrowth := 0, pausedSamples := 0, budget := s.budget + 1));
    }
  }

  lemma SignalLaw(s: Slots, kind: CapacitySignal)
    requires Inv(s)
    ensures var t, pause := Signal(s, kind), if kind == WallClockTimeout then 24 else 12;
      && Capped(s, t.budget) && t == s.(budget := t.budget, pausedSamples := t.pausedSamples)
      && t.pausedSamples >= s.pausedSamples && t.pausedSamples >= pause
      && (t.pausedSamples == s.pausedSamples || t.pausedSamples == pause)
  {
  }

  // ---------------------------------------------------------------- counting permits

  function Releases(events: seq<Event>): nat {
    if |events| == 0 then 0 else (if events[0].Released? then 1 else 0) + Releases(events[1..])
  }

  /** Slots marked used less those given back with an activity. */
  function UsedBy(events: seq<Event>): int {
    if |events| == 0 then 0
    else (if events[0].Used? then 1 else if events[0] == Released(true) then -1 else 0) + UsedBy(events[1..])
  }

  lemma {:induction false} WakeCounts(s: Slots)
    ensures var t := Wake(s); t.issued - s.issued == |t.granted| - |s.granted| && t.used == s.used
    decreases |s.waiters|
  {
    if s.issued < s.budget && |s.waiters| > 0 {
      WakeCounts(s.(issued := s.issued + 1, granted := s.granted + [s.waiters[0]], waiters := s.waiters[1..]));
    }
  }

  lemma ApplyCounts(s: Slots, e: Event)
    requires Allowed(s, e)
    ensures var t := Apply(s, e);
      && t.issued - s.issued == |t.granted| - |s.granted| - (if e.Released? then 1 else 0)
      && t.used - s.used == if e.Used? then 1 else if e == Released(true) then -1 else 0
  {
    hide Without, IndexOf, Wake;
    match e
    case Sampled(load) =>
      var paused := if s.pausedSamples > 0 then s.pausedSamples - 1 else 0;
      WakeCounts(s.(samplesSinceGrowth := 0, pausedSamples := paused, budget := s.budget + 1));
    case Released(hadInfo) =>
      WakeCounts(s.(issued := s.issued - 1, used := if hadInfo then s.used - 1 else s.used));
    case _ =>
  }

  /** Permits are conserved: those out are those granted less those released, and those in use are
      those marked used less those released with an activity. */
  lemma {:induction false} PermitsConserved(s: Slots, events: seq<Event>)
    requires AllAllowed(s, events)
    ensures var t := Run(s, events);
      && t.issued == s.issued + |t.granted| - |s.granted| - Releases(events)
      && t.used == s.used + UsedBy(events)
    decreases |events|
  {
    hide Apply, Allowed;
    if |events| > 0 {
      ApplyCounts(s, events[0]);
      PermitsConserved(Apply(s, events[0]), events[1..]);
    }
  }

  // ---------------------------------------------------------------- the supplier object

  class NodeLoadSlotSupplier {
    const min: nat
    const max: nat
    var budgetValue: int
    var issued: int
    var usedValue: int
    var samplesSinceGrowth: nat
    var pausedSamples: nat
    var waiters: seq<Request>
    ghost var arrived: seq<Request>
    ghost var granted: seq<Request>
    ghost var aborted: set<Request>

    ghost function State(): Slots
      reads this
    {
      Slots(min, max, budgetValue, issued, usedValue, samplesSinceGrowth, pausedSamples, waiters,
            arrived, granted, aborted)
    }

    constructor (min: nat, max: nat)
      requires min <= max
      ensures State() == Fresh(min, max) && Inv(State())
    {
      this.min, this.max, budgetValue := min, max, min;
      issued, usedValue, samplesSinceGrowth, pausedSamples := 0, 0, GROWTH_COOLDOWN_SAMPLES, 0;
      waiters, arrived, granted, aborted := [], [], [], {};
    }

    method WakeWaiters()
      modifies this
      ensures State() == Wake(old(State()))
    {
      while issued < budgetValue && |waiters| > 0
        invariant Wake(State()) == Wake(old(State()))
        decreases |waiters|
      {
        issued, granted, waiters := issued + 1, granted + [waiters[0]], waiters[1..];
      }
    }

    method AdjustTo(load: NodeLoad)
      requires Inv(State())
      modifies this
      ensures State() == Adjust(old(State()), load) && Inv(State())
    {
      ApplyKeeps(State(), Sampled(load));
      samplesSinceGrowth := samplesSinceGrowth + 1;
      var paused := pausedSamples > 0;
      if paused {
        pausedSamples := pausedSamples - 1;
      }
      if load.cpu >= NODE_CPU_TARGET
         || load.memoryAvailable < NODE_MEMORY_AVAILABLE_FLOOR
         || (if load.workerMemory.Some? then load.workerMemory.value else 0.0) >= WORKER_MEMORY_CEILING {
        budgetValue := Max(min, Min(budgetValue, usedValue - 1));
      } else if !paused && usedValue >= budgetValue && budgetValue < max
                && samplesSinceGrowth >= GROWTH_COOLDOWN_SAMPLES {
        budgetValue := budgetValue + 1;
        samplesSinceGrowth := 0;
        WakeWaiters();
      }
    }

    method SignalCapacity(kind: CapacitySignal)
      requires Inv(State())
      modifies this
      ensures State() == Signal(old(State()), kind) && Inv(State())
    {
      ApplyKeeps(State(), Signalled(kind));
      budgetValue := Max(min, Min(budgetValue, usedValue - 1));
      var pause := if kind == WallClockTimeout then WALL_CLOCK_PAUSE_SAMPLES else UNSCHEDULABLE_PAUSE_SAMPLES;
      if pausedSamples < pause {
        pausedSamples := pause;
      }
    }

    /** `true` when the permit is granted at once; otherwise the request waits or is refused. */
    method ReserveSlot(r: Request, alreadyAborted: bool) returns (atOnce: bool)
      requires Inv(State()) && r !in arrived
      modifies this
      ensures State() == Reserve(old(State()), r, alreadyAborted) && Inv(State())
      ensures atOnce <==> !alreadyAborted && old(issued) < old(budgetValue)
      ensures alreadyAborted ==> State() == old(State())
      ensures !alreadyAborted ==> arrived == old(arrived) + [r] && budgetValue == old(budgetValue)
      ensures !alreadyAborted ==>
        if atOnce then granted == old(granted) + [r] && issued == old(issued) + 1 && waiters == old(waiters)
        else granted == old(granted) && issued == old(issued) && waiters == old(waiters) + [r]
    {
      ApplyKeeps(State(), Reserved(r, alreadyAborted));
      if alreadyAborted {
        return false;
      }
      arrived := arrived + [r];
      if issued < budgetValue {
        issued, granted := issued + 1, granted + [r];
        return true;
      }
      waiters := waiters + [r];
      return false;
    }

    /** The abort listener; the waiter it removes is always found. */
    method OnAbort(r: Request)
      requires Inv(State()) && r in waiters
      modifies this
      ensures State() == Abort(old(State()), r) && Inv(State())
      ensures aborted == old(aborted) + {r} && arrived == old(arrived) && granted == old(granted)
      ensures issued == old(issued) && budgetValue == old(budgetValue)
    {
      AbortKeeps(State(), r);
      var k := IndexOf(waiters, r);
      waiters := waiters[..k] + waiters[k + 1..];
      aborted := aborted + {r};
    }

    method TryReserveSlot(r: Request) returns (ok: bool)
      requires Inv(State()) && r !in arrived
      modifies this
      ensures (State(), ok) == TryReserve(old(State()), r) && Inv(State())
      ensures ok <==> old(issued) < old(budgetValue) && |old(waiters)| == 0
      ensures if ok then granted == old(granted) + [r] && issued == old(issued) + 1 else State() == old(State())
    {
      ApplyKeeps(State(), Tried(r));
      if issued >= budgetValue || |waiters| > 0 {
        return false;
      }
      issued, arrived, granted := issued + 1, arrived + [r], granted + [r];
      return true;
    }

    method MarkSlotUsed()
      requires Inv(State())
      modifies this
      ensures State() == MarkUsed(old(State())) && Inv(State())
    {
      usedValue := usedValue + 1;
    }

    method ReleaseSlot(hadInfo: bool)
      requires Inv(State()) && issued > 0
      modifies this
      ensures State() == Release(old(State()), hadInfo) && Inv(State())
    {
      ApplyKeeps(State(), Released(hadInfo));
      issued := issued - 1;
      if hadInfo {
        usedValue := usedValue - 1;
      }
      WakeWaiters();
    }
  }
}
