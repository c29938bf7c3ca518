/** Draining the durable work queue: batches of one claimed item, launched in concurrent waves
    at consecutive fairness offsets, continuing as a new execution after a hundred of them. */
module DurableWork {
  import opened Basics

  const ITEMS_PER_EXECUTION := 100
  const CONCURRENCY := 8

  type Kind = string

  datatype Work = Work(id: nat, kind: Kind, attempt: int)

  /** How one item ends; `Raised` is a repository call that fails. */
  datatype Disposition = Succeeded | Retried | Dead | Raised

  datatype BatchResult = BatchResult(claimed: nat, succeeded: nat, retried: nat, dead: nat, processedKind: Option<Kind>)

  datatype Outcome = Batch(result: BatchResult) | Threw

  const NOTHING := BatchResult(0, 0, 0, 0, None)

  // ---------------------------------------------------------------- fairness

  predicate IsOffset(n: int) {
    0 <= n <= MAX_SAFE_INTEGER
  }

  function RotateKinds(kinds: seq<Kind>, offset: nat): (r: seq<Kind>)
    ensures multiset(r) == multiset(kinds) && |r| == |kinds|
  {
    if |kinds| == 0 then []
    else
      var index := offset % |kinds|;
      assert kinds == kinds[..index] + kinds[index..];
      kinds[index..] + kinds[..index]
  }

  /** The offset among `|kinds|` consecutive ones that tries the kind at `index` first. */
  function Turn(kinds: seq<Kind>, from: nat, index: nat): (i: nat)
    requires index < |kinds|
    ensures i < |kinds| && (from + i) % |kinds| == index
  {
    var i := (index + |kinds| - from % |kinds|) % |kinds|;
    TurnLands(|kinds|, from, index);
    i
  }

  lemma TurnLands(n: nat, from: nat, index: nat)
    requires index < n
    ensures (from + (index + n - from % n) % n) % n == index
  {
    var r := from % n;
    var q := from / n;
    assert from == n * q + r;
    if r <= index {
      assert (index + n - r) % n == index - r by { Unique(index + n - r, n, 1, index - r); }
      Unique(from + (index - r), n, q, index);
    } else {
      assert (index + n - r) % n == index + n - r by { Unique(index + n - r, n, 0, index + n - r); }
      assert n * (q + 1) == n * q + n;
      Unique(from + (index + n - r), n, q + 1, index);
    }
  }

  lemma Unique(a: nat, n: nat, q: nat, r: nat)
    requires 0 < n && r < n && a == n * q + r
    ensures a % n == r
  {
    var d, m := a / n, a % n;
    assert n * (d - q) == n * d - n * q == r - m;
    assert d - q >= 1 ==> n * (d - q) >= n;
    assert q - d >= 1 ==> n * (q - d) >= n;
  }

  /** The kind that is asked `i`-th: in turn from the offset on, round the end of the list. */
  function InTurn(kinds: seq<Kind>, offset: nat, i: nat): Kind
    requires |kinds| > 0
  {
    kinds[(offset + i) % |kinds|]
  }

  lemma RoundTheEnd(offset: nat, i: nat, n: nat)
    requires i < n
    ensures var r := offset % n; (offset + i) % n == if r + i < n then r + i else r + i - n
  {
    var q, r := offset / n, offset % n;
    assert offset == n * q + r;
    if r + i < n {
      Unique(offset + i, n, q, r + i);
    } else {
      assert n * (q + 1) == n * q + n;
      Unique(offset + i, n, q + 1, r + i - n);
    }
  }

  lemma RotationLaw(kinds: seq<Kind>, offset: nat, i: nat)
    requires i < |kinds|
    ensures RotateKinds(kinds, offset)[i] == InTurn(kinds, offset, i)
  {
    RoundTheEnd(offset, i, |kinds|);
    var n, index := |kinds|, offset % |kinds|;
    assert (kinds[index..] + kinds[..index])[i] == kinds[if index + i < n then index + i else index + i - n];
  }

  /** Over `|kinds|` consecutive offsets each kind is tried first exactly once. */
  lemma EachKindFirstOnce(kinds: seq<Kind>, from: nat, index: nat, i: nat)
    requires Distinct(kinds) && index < |kinds| && i < |kinds|
    ensures RotateKinds(kinds, from + i)[0] == kinds[index] <==> i == Turn(kinds, from, index)
  {
    var n := |kinds|;
    var t := Turn(kinds, from, index);
    assert RotateKinds(kinds, from + i)[0] == kinds[(from + i) % n];
    if (from + i) % n == index && i != t {
      Apart(from + i, from + t, n);
    }
  }

  lemma Apart(a: nat, b: nat, n: nat)
    requires 0 < n && a % n == b % n && a != b
    ensures a - b >= n || b - a >= n
  {
    var p, q := a / n, b / n;
    assert a - b == n * p - n * q == n * (p - q);
    assert p - q >= 1 ==> n * (p - q) >= n;
    assert q - p >= 1 ==> n * (q - p) >= n;
  }

  // ---------------------------------------------------------------- one batch

  function FirstClaimable(kinds: seq<Kind>, claims: Kind -> seq<Work>): (i: nat)
    ensures i <= |kinds|
    ensures forall j :: 0 <= j < i ==> claims(kinds[j]) == []
    ensures i < |kinds| ==> claims(kinds[i]) != []
  {
    if |kinds| == 0 || claims(kinds[0]) != [] then 0 else 1 + FirstClaimable(kinds[1..], claims)
  }

  function Count(works: seq<Work>, handle: Work -> Disposition, d: Disposition): nat {
    if |works| == 0 then 0
    else Count(works[..|works| - 1], handle, d) + (if handle(works[|works| - 1]) == d then 1 else 0)
  }

  predicate AllHandled(works: seq<Work>, kinds: seq<Kind>, handle: Work -> Disposition) {
    forall i :: 0 <= i < |works| ==> works[i].kind in kinds && handle(works[i]) != Raised
  }

  /** What a batch reports: the claim of the first kind in turn that has work. */
  function BatchOf(kinds: seq<Kind>, offset: int, claims: Kind -> seq<Work>, handle: Work -> Disposition): Outcome {
    if !IsOffset(offset) then Threw
    else
      var order := RotateKinds(kinds, offset);
      var first := FirstClaimable(order, claims);
      if first == |order| then Batch(NOTHING)
      else
        var works := claims(order[first]);
        if !AllHandled(works, kinds, handle) then Threw
        else Batch(BatchResult(|works|, Count(works, handle, Succeeded), Count(works, handle, Retried),
                               Count(works, handle, Dead), Some(works[0].kind)))
  }

  predicate Conserves(r: BatchResult) {
    r.claimed == r.succeeded + r.retried + r.dead
  }

  lemma {:induction false} CountsAddUp(works: seq<Work>, handle: Work -> Disposition)
    requires forall i :: 0 <= i < |works| ==> handle(works[i]) != Raised
    ensures Count(works, handle, Succeeded) + Count(works, handle, Retried) + Count(works, handle, Dead) == |works|
  {
    if |works| > 0 {
      CountsAddUp(works[..|works| - 1], handle);
    }
  }

  /** The claimed items that end in this way. */
  function EndingIn(works: seq<Work>, handle: Work -> Disposition, d: Disposition): set<nat> {
    set i: nat | i < |works| && handle(works[i]) == d
  }

  lemma {:induction false} CountIsNumber(works: seq<Work>, handle: Work -> Disposition, d: Disposition)
    ensures Count(works, handle, d) == |EndingIn(works, handle, d)|
  {
    if |works| > 0 {
      var last := |works| - 1;
      var front := works[..last];
      CountIsNumber(front, handle, d);
      OneMoreEnding(works, handle, d);
    }
  }

  lemma OneMoreEnding(works: seq<Work>, handle: Work -> Disposition, d: Disposition)
    requires |works| > 0
    ensures var last := |works| - 1;
      var before := EndingIn(works[..last], handle, d);
      && last !in before
      && EndingIn(works, handle, d) == if handle(works[last]) == d then before + {last} else before
  {
  }

  /** Exactly what a batch does: it claims for the first kind, in turn from the offset on, that has
      work; it fails if an item has an unknown kind or cannot be recorded; and otherwise it reports
      how many of the items ended in each way. */
  lemma BatchLaw(kinds: seq<Kind>, offset: nat, claims: Kind -> seq<Work>, handle: Work -> Disposition, i: nat)
    requires IsOffset(offset) && i < |kinds| && claims(InTurn(kinds, offset, i)) != []
    requires forall j :: 0 <= j < i ==> claims(InTurn(kinds, offset, j)) == []
    ensures var works, outcome := claims(InTurn(kinds, offset, i)), BatchOf(kinds, offset, claims, handle);
      if AllHandled(works, kinds, handle) then
        && outcome.Batch? && outcome.result.claimed == |works| && outcome.result.processedKind == Some(works[0].kind)
        && outcome.result.succeeded == |EndingIn(works, handle, Succeeded)|
        && outcome.result.retried == |EndingIn(works, handle, Retried)|
        && outcome.result.dead == |EndingIn(works, handle, Dead)|
      else outcome == Threw
  {
    var order, works := RotateKinds(kinds, offset), claims(InTurn(kinds, offset, i));
    forall j | 0 <= j < |kinds|
      ensures order[j] == InTurn(kinds, offset, j)
    {
      RotationLaw(kinds, offset, j);
    }
    hide RotateKinds, AllHandled, InTurn, FirstClaimable, Count;
    assert claims(order[i]) != [] && forall j :: 0 <= j < i ==> claims(order[j]) == [];
    assert FirstClaimable(order, claims) == i;
    CountIsNumber(works, handle, Succeeded);
    CountIsNumber(works, handle, Retried);
    CountIsNumber(works, handle, Dead);
  }

  /** The repository answers for the kind it was asked about. */
  ghost predicate ClaimsOwnKind(claims: Kind -> seq<Work>) {
    forall kind: Kind, i :: 0 <= i < |claims(kind)| ==> claims(kind)[i].kind == kind
  }

  /** A batch accounts for everything it claimed, names the kind exactly when it claimed
      something, and claims nothing exactly when no kind has work. */
  lemma BatchAccounts(kinds: seq<Kind>, offset: int, claims: Kind -> seq<Work>, handle: Work -> Disposition)
    requires BatchOf(kinds, offset, claims, handle).Batch?
    ensures var r := BatchOf(kinds, offset, claims, handle).result;
      && Conserves(r)
      && (r.claimed > 0 <==> r.processedKind.Some?)
      && (r.claimed == 0 <==> forall i :: 0 <= i < |kinds| ==> claims(kinds[i]) == [])
  {
    var order := RotateKinds(kinds, offset);
    var first := FirstClaimable(order, claims);
    forall kind
      ensures kind in order <==> kind in kinds
    {
      assert kind in order <==> kind in multiset(order);
      assert kind in kinds <==> kind in multiset(kinds);
    }
    if first < |order| {
      var works := claims(order[first]);
      assert order[first] in kinds;
      var i :| 0 <= i < |kinds| && kinds[i] == order[first];
      if AllHandled(works, kinds, handle) {
        CountsAddUp(works, handle);
      }
    } else {
      forall i | 0 <= i < |kinds|
        ensures claims(kinds[i]) == []
      {
        assert kinds[i] in kinds && kinds[i] in order;
      }
    }
  }

  /** A kind that always has work is processed within any `|kinds|` consecutive batches. */
  lemma NoKindStarves(kinds: seq<Kind>, from: nat, index: nat, claims: nat -> Kind -> seq<Work>,
                      handle: Work -> Disposition)
    requires Distinct(kinds) && index < |kinds| && from + |kinds| <= MAX_SAFE_INTEGER
    requires forall o: nat :: from <= o < from + |kinds| ==>
      claims(o)(kinds[index]) != [] && ClaimsOwnKind(claims(o)) && BatchOf(kinds, o, claims(o), handle).Batch?
    ensures var o := from + Turn(kinds, from, index);
      BatchOf(kinds, o, claims(o), handle).result.processedKind == Some(kinds[index])
  {
    var o := from + Turn(kinds, from, index);
    EachKindFirstOnce(kinds, from, index, Turn(kinds, from, index));
    var order := RotateKinds(kinds, o);
    assert order[0] == kinds[index];
    assert FirstClaimable(order, claims(o)) == 0;
  }

  /** Asks for the kinds in turn until one has work. */
  method ClaimInTurn(order: seq<Kind>, claims: Kind -> seq<Work>) returns (claimed: seq<Work>, tried: seq<Kind>)
    ensures var first := FirstClaimable(order, claims);
      if first == |order| then claimed == [] && tried == order
      else claimed == claims(order[first]) && tried == order[..first + 1]
  {
    claimed, tried := [], [];
    var k := 0;
    while k < |order|
      invariant 0 <= k <= |order| && tried == order[..k] && claimed == []
      invariant forall j :: 0 <= j < k ==> claims(order[j]) == []
    {
      claimed := claims(order[k]);
      tried := tried + [order[k]];
      if claimed != [] {
        break;
      }
      k := k + 1;
    }
  }

  /** Runs the handlers of the claimed items in turn and counts how each ends. */
  method HandleAll(claimed: seq<Work>, kinds: seq<Kind>, handle: Work -> Disposition)
    returns (ok: bool, succeeded: nat, retried: nat, dead: nat)
    ensures ok <==> AllHandled(claimed, kinds, handle)
    ensures ok ==> succeeded == Count(claimed, handle, Succeeded)
    ensures ok ==> retried == Count(claimed, handle, Retried)
    ensures ok ==> dead == Count(claimed, handle, Dead)
  {
    succeeded, retried, dead := 0, 0, 0;
    for i := 0 to |claimed|
      invariant AllHandled(claimed[..i], kinds, handle)
      invariant succeeded == Count(claimed[..i], handle, Succeeded)
      invariant retried == Count(claimed[..i], handle, Retried)
      invariant dead == Count(claimed[..i], handle, Dead)
    {
      var work := claimed[i];
      if work.kind !in kinds || handle(work) == Raised {
        return false, 0, 0, 0;
      }
      assert claimed[..i + 1][..i] == claimed[..i];
      match handle(work) {
        case Succeeded => succeeded := succeeded + 1;
        case Retried => retried := retried + 1;
        case Dead => dead := dead + 1;
      }
    }
    assert claimed[..|claimed|] == claimed;
    ok := true;
  }

  method ProcessDurableWorkBatch(kinds: seq<Kind>, offset: int, claims: Kind -> seq<Work>, handle: Work -> Disposition)
    returns (outcome: Outcome, tried: seq<Kind>)
    ensures outcome == BatchOf(kinds, offset, claims, handle)
    ensures IsOffset(offset) ==> tried <= RotateKinds(kinds, offset)
    ensures outcome.Batch? && outcome.result.claimed == 0 ==> tried == RotateKinds(kinds, offset)
    ensures forall j :: 0 <= j < |tried| - 1 ==> claims(tried[j]) == []
  {
    if !IsOffset(offset) {
      return Threw, [];
    }
    var order := RotateKinds(kinds, offset);
    if |order| == 0 {
      return Batch(NOTHING), [];
    }
    var claimed;
    claimed, tried := ClaimInTurn(order, claims);
    if claimed == [] {
      return Batch(NOTHING), tried;
    }
    var ok, succeeded, retried, dead := HandleAll(claimed, kinds, handle);
    if !ok {
      return Threw, tried;
    }
    return Batch(BatchResult(|claimed|, succeeded, retried, dead, Some(claimed[0].kind))), tried;
  }

  // ---------------------------------------------------------------- retry delay

  function Power(n: nat): (p: nat)
    ensures p >= 1
  {
    if n == 0 then 1 else 2 * Power(n - 1)
  }

  function RetryDelayMs(attempt: int, base: nat, max: nat): nat {
    var exponent := if attempt <= 1 then 0 else if attempt - 1 > 30 then 30 else attempt - 1;
    var delay := base * Power(exponent);
    if max < delay then max else delay
  }

  lemma Doubles(base: nat, p: nat)
    ensures base * (2 * p) == 2 * (base * p) && base * p >= 0
  {
  }

  /** The delay starts at the base and doubles with every attempt until it stays at the
      maximum; it never shrinks from one attempt to the next. */
  lemma RetryDelayDoubles(attempt: int, base: nat, max: nat)
    ensures attempt <= 1 ==> RetryDelayMs(attempt, base, max) == if base <= max then base else max
    ensures RetryDelayMs(attempt, base, max) <= RetryDelayMs(attempt + 1, base, max) <= max
    ensures 1 <= attempt <= 30 && 2 * RetryDelayMs(attempt, base, max) <= max ==>
      RetryDelayMs(attempt + 1, base, max) == 2 * RetryDelayMs(attempt, base, max)
    ensures RetryDelayMs(attempt, base, max) == max ==> RetryDelayMs(attempt + 1, base, max) == max
  {
    if 1 <= attempt <= 30 {
      var p := Power(attempt - 1);
      assert Power(attempt) == 2 * p;
      Doubles(base, p);
    }
    hide Power;
  }

  // ---------------------------------------------------------------- one execution

  datatype Drained = Returned(total: BatchResult) | ContinueAt(offset: nat) | Failed

  function WaveSize(launched: nat): (n: nat)
    requires launched < ITEMS_PER_EXECUTION
    ensures 0 < n <= CONCURRENCY && launched + n <= ITEMS_PER_EXECUTION
  {
    if ITEMS_PER_EXECUTION - launched < CONCURRENCY then ITEMS_PER_EXECUTION - launched else CONCURRENCY
  }

  /** The result is in, and it names its kind if it claimed anything. */
  predicate Proper(o: Outcome) {
    o.Batch? && (o.result.claimed > 0 ==> o.result.processedKind.Some?)
  }

  predicate AllProper(run: nat -> Outcome, from: nat, n: nat) {
    forall i :: from <= i < from + n ==> Proper(run(i))
  }

  /** Each of these batches claimed something and named its kind. */
  predicate Busy(run: nat -> Outcome, from: nat, n: nat) {
    forall i :: from <= i < from + n ==> Proper(run(i)) && run(i).result.claimed > 0
  }

  /** Each of these batches came back properly, and one of them found nothing to claim. */
  predicate Idle(run: nat -> Outcome, from: nat, n: nat) {
    && AllProper(run, from, n)
    && exists i :: from <= i < from + n && Proper(run(i)) && run(i).result.claimed == 0
  }

  function Plus(total: BatchResult, r: BatchResult): BatchResult {
    BatchResult(total.claimed + r.claimed, total.succeeded + r.succeeded, total.retried + r.retried,
                total.dead + r.dead,
                if r.claimed > 0 then r.processedKind else total.processedKind)
  }

  function Sum(run: nat -> Outcome, from: nat, n: nat): BatchResult
    requires AllProper(run, from, n)
  {
    if n == 0 then NOTHING else Plus(Sum(run, from, n - 1), run(from + n - 1).result)
  }

  /** The wave after which an execution stops, or as many batches as it may launch. */
  function StopsAfter(run: nat -> Outcome, offset: nat, launched: nat): (n: nat)
    requires launched <= ITEMS_PER_EXECUTION
    ensures launched <= n <= ITEMS_PER_EXECUTION
    decreases offset, ITEMS_PER_EXECUTION - launched
  {
    if launched == ITEMS_PER_EXECUTION then launched
    else
      var size := WaveSize(launched);
      if Busy(run, offset + launched, size) then StopsAfter(run, offset, launched + size)
      else launched + size
  }

  /** The last batches launched by an execution that stops after `n`. */
  function LastWave(n: nat): nat {
    if n == ITEMS_PER_EXECUTION then ITEMS_PER_EXECUTION % CONCURRENCY else CONCURRENCY
  }

  function Drain(run: nat -> Outcome, offset: nat): Drained {
    if IsOffset(offset) then DrainAfter(run, offset, StopsAfter(run, offset, 0)) else Failed
  }

  /** How an execution ends that launched `n` batches. */
  function DrainAfter(run: nat -> Outcome, offset: nat, n: nat): Drained {
    if !AllProper(run, offset, n) then Failed
    else if Busy(run, offset, n) then ContinueAt(offset + n)
    else Returned(Sum(run, offset, n))
  }

  function Launched(run: nat -> Outcome, offset: nat): nat {
    if IsOffset(offset) then StopsAfter(run, offset, 0) else 0
  }

  lemma {:induction false} StopsAtFirstIdleWave(run: nat -> Outcome, offset: nat, launched: nat)
    requires launched < ITEMS_PER_EXECUTION && launched % CONCURRENCY == 0
    ensures var n := StopsAfter(run, offset, launched);
      && launched + LastWave(n) <= n
      && Busy(run, offset + launched, n - LastWave(n) - launched)
      && (Busy(run, offset + n - LastWave(n), LastWave(n)) ==> n == ITEMS_PER_EXECUTION)
    decreases ITEMS_PER_EXECUTION - launched
  {
    hide Busy, StopsAfter;
    var size := WaveSize(launched);
    var n := StopsAfter(run, offset, launched);
    StopsStep(run, offset, launched);
    if Busy(run, offset + launched, size) && launched + size < ITEMS_PER_EXECUTION {
      StopsAtFirstIdleWave(run, offset, launched + size);
      Splits(run, offset + launched, size, n - LastWave(n) - launched - size);
    } else {
      assert n == launched + size && LastWave(n) == size;
      NoneBusy(run, offset + launched);
    }
  }

  /** All batches before the last wave were busy, and the last wave decided: somebody found
      nothing, or the execution is full, or a batch failed. */
  predicate StopsWell(run: nat -> Outcome, offset: nat, before: nat, wave: nat, d: Drained) {
    && Busy(run, offset, before)
    && match d
       case Returned(_) => Idle(run, offset + before, wave)
       case ContinueAt(next) =>
         next == offset + before + wave && before + wave == ITEMS_PER_EXECUTION && Busy(run, offset, before + wave)
       case Failed => !AllProper(run, offset + before, wave)
  }

  /** An execution goes on while every batch claims something: it returns only after a wave with
      a batch that found nothing, every earlier batch having been busy, and it continues
      elsewhere only after a hundred busy batches. */
  lemma DrainReturnsOnlyWhenIdle(run: nat -> Outcome, offset: nat)
    requires IsOffset(offset)
    ensures var n := Launched(run, offset);
      LastWave(n) <= n && StopsWell(run, offset, n - LastWave(n), LastWave(n), Drain(run, offset))
  {
    hide StopsAfter, Busy, AllProper, StopsWell, DrainAfter, LastWave;
    var n := StopsAfter(run, offset, 0);
    StopsAtFirstIdleWave(run, offset, 0);
    WaveDecides(run, offset, n - LastWave(n), LastWave(n));
  }

  lemma WaveDecides(run: nat -> Outcome, offset: nat, before: nat, wave: nat)
    requires Busy(run, offset, before)
    requires Busy(run, offset + before, wave) ==> before + wave == ITEMS_PER_EXECUTION
    ensures StopsWell(run, offset, before, wave, DrainAfter(run, offset, before + wave))
  {
    Splits(run, offset, before, wave);
    IdleMeans(run, offset + before, wave);
    hide Busy, AllProper, Idle, Sum;
  }

  lemma NoneBusy(run: nat -> Outcome, from: nat)
    ensures Busy(run, from, 0)
    ensures AllProper(run, from, 0)
  {
  }

  lemma Splits(run: nat -> Outcome, from: nat, a: nat, b: nat)
    ensures Busy(run, from, a + b) <==> Busy(run, from, a) && Busy(run, from + a, b)
    ensures AllProper(run, from, a + b) <==> AllProper(run, from, a) && AllProper(run, from + a, b)
    ensures Busy(run, from, a) ==> AllProper(run, from, a)
    ensures Busy(run, from + a, b) ==> AllProper(run, from + a, b)
  {
    hide Proper;
  }

  lemma IdleMeans(run: nat -> Outcome, from: nat, n: nat)
    ensures Idle(run, from, n) <==> AllProper(run, from, n) && !Busy(run, from, n)
  {
  }

  /** If every batch accounts for what it claimed, so does every total. */
  lemma {:induction false} SumConserves(run: nat -> Outcome, from: nat, n: nat)
    requires AllProper(run, from, n) && forall i :: from <= i < from + n ==> Conserves(run(i).result)
    ensures Conserves(Sum(run, from, n))
  {
    if n > 0 {
      SumConserves(run, from, n - 1);
    }
  }

  /** One number of the results, added up. */
  function TotalOf(run: nat -> Outcome, from: nat, n: nat, number: BatchResult -> nat): nat
    requires AllProper(run, from, n)
  {
    if n == 0 then 0 else TotalOf(run, from, n - 1, number) + number(run(from + n - 1).result)
  }

  /** Each number of a total is the sum of that number of the results, and the kind it names is that
      of the last batch that claimed something. */
  lemma {:induction false} SumAddsUp(run: nat -> Outcome, from: nat, n: nat)
    requires AllProper(run, from, n)
    ensures var total := Sum(run, from, n);
      && total.claimed == TotalOf(run, from, n, (r: BatchResult) => r.claimed)
      && total.succeeded == TotalOf(run, from, n, (r: BatchResult) => r.succeeded)
      && total.retried == TotalOf(run, from, n, (r: BatchResult) => r.retried)
      && total.dead == TotalOf(run, from, n, (r: BatchResult) => r.dead)
    ensures forall i :: from <= i < from + n && run(i).result.claimed > 0
                        && (forall j :: i < j < from + n ==> run(j).result.claimed == 0)
              ==> Sum(run, from, n).processedKind == run(i).result.processedKind
  {
    if n > 0 {
      SumAddsUp(run, from, n - 1);
    }
  }

  lemma OneMore(run: nat -> Outcome, offset: nat, launched: nat, k: nat, waveSize: nat)
    requires k < waveSize && AllProper(run, offset, launched + k)
    ensures AllProper(run, offset, launched + k + 1) <==> Proper(run(offset + launched + k))
    ensures AllProper(run, offset, launched + waveSize) ==> Proper(run(offset + launched + k))
    ensures Proper(run(offset + launched + k)) ==>
      AllProper(run, offset, launched + k + 1)
      && Sum(run, offset, launched + k + 1) == Plus(Sum(run, offset, launched + k), run(offset + launched + k).result)
      && (Busy(run, offset + launched, k + 1)
          <==> Busy(run, offset + launched, k) && run(offset + launched + k).result.claimed > 0)
  {
  }

  /** Launches a wave together, then adds up its results in order. */
  method RunWave(run: nat -> Outcome, offset: nat, launched: nat, waveSize: nat, total: BatchResult)
    returns (ok: bool, sum: BatchResult, idle: bool)
    requires AllProper(run, offset, launched) && total == Sum(run, offset, launched)
    ensures ok <==> AllProper(run, offset, launched + waveSize)
    ensures ok ==> sum == Sum(run, offset, launched + waveSize)
    ensures ok ==> (idle <==> !Busy(run, offset + launched, waveSize))
  {
    hide AllProper, Busy, Sum;
    var results := seq(waveSize, i requires 0 <= i => run(offset + launched + i));
    NoneBusy(run, offset + launched);
    sum, idle := total, false;
    for k := 0 to waveSize
      invariant AllProper(run, offset, launched + k) && sum == Sum(run, offset, launched + k)
      invariant idle <==> !Busy(run, offset + launched, k)
    {
      assert results[k] == run(offset + launched + k);
      OneMore(run, offset, launched, k, waveSize);
      if !Proper(results[k]) {
        return false, NOTHING, false;
      }
      sum := Plus(sum, results[k].result);
      idle := idle || results[k].result.claimed == 0;
    }
    ok := true;
  }

  method DrainDurableWork(run: nat -> Outcome, offset: int) returns (result: Drained, offsets: seq<nat>)
    ensures !IsOffset(offset) ==> result == Failed && offsets == []
    ensures IsOffset(offset) ==> result == Drain(run, offset)
    ensures IsOffset(offset) ==> offsets == Consecutive(offset, Launched(run, offset))
  {
    hide Sum, Busy, AllProper, StopsAfter;
    if !IsOffset(offset) {
      return Failed, [];
    }
    offsets := [];
    var total := NOTHING;
    NoneBusy(run, offset);
    assert total == Sum(run, offset, 0) by { EmptySum(run, offset); }
    var launched := 0;
    while launched < ITEMS_PER_EXECUTION
      invariant 0 <= launched <= ITEMS_PER_EXECUTION
      invariant offsets == Consecutive(offset, launched)
      invariant Busy(run, offset, launched) && AllProper(run, offset, launched)
      invariant total == Sum(run, offset, launched)
      invariant StopsAfter(run, offset, 0) == StopsAfter(run, offset, launched)
    {
      var waveSize := WaveSize(launched);
      offsets := offsets + Consecutive(offset + launched, waveSize);
      ghost var before := launched;
      Splits(run, offset, before, waveSize);
      StopsStep(run, offset, before);
      var ok, sum, idle := RunWave(run, offset, launched, waveSize, total);
      launched := launched + waveSize;
      if !ok {
        return Failed, offsets;
      }
      total := sum;
      if idle {
        return Returned(total), offsets;
      }
    }
    StopsStep(run, offset, launched);
    return ContinueAt(offset + launched), offsets;
  }

  lemma StopsStep(run: nat -> Outcome, offset: nat, launched: nat)
    requires launched <= ITEMS_PER_EXECUTION
    ensures StopsAfter(run, offset, launched) ==
      if launched == ITEMS_PER_EXECUTION then launched
      else if Busy(run, offset + launched, WaveSize(launched)) then
        StopsAfter(run, offset, launched + WaveSize(launched))
      else launched + WaveSize(launched)
  {
    hide Busy;
  }

  lemma EmptySum(run: nat -> Outcome, offset: nat)
    ensures Sum(run, offset, 0) == NOTHING
  {
  }

  function Consecutive(from: nat, n: nat): seq<nat> {
    seq(n, i requires 0 <= i => from + i)
  }

  // ---------------------------------------------------------------- across executions

  /** At most `n` executions, each continuing where the one before it stopped. */
  function Chain(run: nat -> Outcome, offset: nat, n: nat): Drained
    decreases n
  {
    if n == 0 then ContinueAt(offset)
    else match Drain(run, offset)
      case ContinueAt(next) => Chain(run, next, n - 1)
      case other => other
  }

  function Offsets(run: nat -> Outcome, offset: nat, n: nat): seq<nat>
    decreases n
  {
    if n == 0 then []
    else
      Consecutive(offset, Launched(run, offset))
      + (match Drain(run, offset) case ContinueAt(next) => Offsets(run, next, n - 1) case other => [])
  }

  /** However many executions follow each other, the offsets launched are consecutive: none is
      skipped and none is launched twice. */
  lemma {:induction false} OffsetsConsecutive(run: nat -> Outcome, offset: nat, n: nat, i: nat)
    requires i < |Offsets(run, offset, n)|
    ensures Offsets(run, offset, n)[i] == offset + i
    decreases n
  {
    hide StopsAfter, AllProper, Busy, Sum;
    var here := Launched(run, offset);
    if i >= here {
      match Drain(run, offset)
      case ContinueAt(next) => OffsetsConsecutive(run, next, n - 1, i - here);
    }
  }

  /** The offset at which the last of these executions starts. */
  function FinalStart(run: nat -> Outcome, offset: nat, n: nat): nat
    decreases n
  {
    if n == 0 then offset
    else match Drain(run, offset) case ContinueAt(next) => FinalStart(run, next, n - 1) case other => offset
  }

  lemma ContinuesBusy(run: nat -> Outcome, offset: nat)
    requires IsOffset(offset) && Drain(run, offset).ContinueAt?
    ensures Drain(run, offset) == ContinueAt(offset + ITEMS_PER_EXECUTION)
    ensures Busy(run, offset, ITEMS_PER_EXECUTION)
  {
    DrainReturnsOnlyWhenIdle(run, offset);
    hide StopsAfter, Busy, AllProper, Sum;
  }

  /** A drain that returns does so in its last execution, after a wave with a batch that found
      nothing; every batch before that wave, in any execution, had claimed something. The total it
      returns covers the last execution alone. */
  lemma {:induction false} ChainEndsIdle(run: nat -> Outcome, offset: nat, n: nat)
    requires IsOffset(offset) && Chain(run, offset, n).Returned?
    ensures var start := FinalStart(run, offset, n);
      && Chain(run, offset, n) == Drain(run, start)
      && start >= offset && (start - offset) % ITEMS_PER_EXECUTION == 0
      && Busy(run, offset, start - offset)
      && var count := Launched(run, start);
         LastWave(count) <= count && StopsWell(run, start, count - LastWave(count), LastWave(count), Drain(run, start))
    decreases n
  {
    hide StopsAfter, AllProper, Sum, Idle, LastWave, StopsWell;
    DrainReturnsOnlyWhenIdle(run, offset);
    match Drain(run, offset)
    case ContinueAt(next) =>
      ContinuesBusy(run, offset);
      ChainEndsIdle(run, next, n - 1);
    case Returned(_) =>
  }
}
