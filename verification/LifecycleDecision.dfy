/** `decideLifecycleReconciliation`: what a reconciler does about the run it observed. */
module LifecycleDecision {
  import opened Basics
  import opened JsText

  /** The schedule identity carried by a timer's input and stored in the run's memo. */
  datatype Identity = Identity(revision: int, fingerprint: string)

  datatype Status = Running | Completed | Failed | Canceled | Terminated | TimedOut

  datatype Observation = Observation(runId: nat, identity: Identity, status: Status)

  datatype Mode = Ensure | Replace | Cancel

  datatype Decision = KeepRun | StartRun | Terminate | TerminateAndStart

  datatype Incarnation = Incarnation(createdAtMs: int, scope: string)

  function IncarnationOf(fingerprint: string): Option<Incarnation> {
    var parts := Split(fingerprint, ':');
    if |parts| < 5 || parts[0] == "" || parts[1] != "v1" || parts[2] == "" || parts[3] == "" then None
    else
      match ParseBigInt(parts[3])
      case BigInt(n) => Some(Incarnation(n, parts[0] + ":" + parts[1] + ":" + parts[2]))
      case NotANumber => None
  }

  /** Both fingerprints name the same entity. */
  predicate SameScope(a: Identity, b: Identity) {
    var x, y := IncarnationOf(a.fingerprint), IncarnationOf(b.fingerprint);
    x.Some? && y.Some? && x.value.scope == y.value.scope
  }

  function CreatedAt(a: Identity): int
    requires IncarnationOf(a.fingerprint).Some?
  {
    IncarnationOf(a.fingerprint).value.createdAtMs
  }

  /** The same entity, deleted and created anew. */
  predicate Recreated(a: Identity, b: Identity) {
    SameScope(a, b) && CreatedAt(a) != CreatedAt(b)
  }

  predicate SameIncarnation(a: Identity, b: Identity) {
    SameScope(a, b) && CreatedAt(a) == CreatedAt(b)
  }

  /** `a` supersedes `b`: a later incarnation, or within reach of comparison a later revision. */
  predicate Newer(a: Identity, b: Identity) {
    if Recreated(a, b) then CreatedAt(a) > CreatedAt(b) else a.revision > b.revision
  }

  function Decide(mode: Mode, desired: Identity, observed: Option<Observation>): Decision {
    match observed
    case None => if mode == Cancel then KeepRun else StartRun
    case Some(o) =>
      var wanted, seen := IncarnationOf(desired.fingerprint), IncarnationOf(o.identity.fingerprint);
      if wanted.Some? && seen.Some? && wanted.value.scope == seen.value.scope
         && wanted.value.createdAtMs != seen.value.createdAtMs then
        if seen.value.createdAtMs > wanted.value.createdAtMs then KeepRun
        else if mode == Cancel then if o.status == Running then Terminate else KeepRun
        else if o.status == Running then TerminateAndStart else StartRun
      else if o.identity.revision > desired.revision then KeepRun
      else if mode == Cancel then
        if o.status != Running then KeepRun
        else if o.identity.revision < 0 then Terminate
        else if o.identity.fingerprint == desired.fingerprint
                || (wanted.Some? && seen.Some? && wanted.value.scope == seen.value.scope
                    && wanted.value.createdAtMs == seen.value.createdAtMs) then Terminate
        else KeepRun
      else if o.identity.fingerprint == desired.fingerprint && (o.status == Running || o.status == Completed) then
        KeepRun
      else if o.status == Running then TerminateAndStart
      else StartRun
  }

  predicate Kills(mode: Mode, desired: Identity, observed: Observation) {
    var d := Decide(mode, desired, Some(observed));
    d == Terminate || d == TerminateAndStart
  }

  /** The run is one this reconciler has to get out of the way. */
  predicate Targets(mode: Mode, desired: Identity, victim: Identity) {
    && !Newer(victim, desired)
    && (Recreated(victim, desired)
        || (if mode == Cancel
            then victim.revision < 0 || victim.fingerprint == desired.fingerprint || SameIncarnation(victim, desired)
            else victim.fingerprint != desired.fingerprint))
  }

  /** A reconciler terminates exactly the running runs it targets: never a newer one. */
  lemma KillsExactly(mode: Mode, desired: Identity, observed: Observation)
    ensures Kills(mode, desired, observed)
      <==> observed.status == Running && Targets(mode, desired, observed.identity)
  {
  }

  /** The identity that describing a run shows when it was started with this memo: a revision
      that is not a safe natural number counts as -1. */
  function Described(memo: Identity): Identity {
    Identity(if 0 <= memo.revision <= MAX_SAFE_INTEGER then memo.revision else -1, memo.fingerprint)
  }

  /** Neither supersedes the other: one revision, two fingerprints, and not two incarnations of an
      entity. */
  predicate Tie(a: Identity, b: Identity) {
    a.revision == b.revision && a.fingerprint != b.fingerprint && !Recreated(a, b)
  }

  /** Two reconcilers that both want a run terminate each other's runs exactly when their
      identities tie. */
  lemma MutualTerminationExactly(m: Mode, a: Identity, n: Mode, b: Identity)
    requires m != Cancel && n != Cancel
    requires Described(a) == a && Described(b) == b
    ensures Targets(m, a, b) && Targets(n, b, a) <==> Tie(a, b)
  {
  }

  /** Among the identities of one entity, newer-than is a strict order that only ties when
      both creation time and revision agree. */
  lemma NewerOrders(a: Identity, b: Identity, c: Identity)
    requires SameScope(a, b) && SameScope(b, c)
    ensures !Newer(a, a)
    ensures Newer(a, b) && Newer(b, c) ==> Newer(a, c)
    ensures Newer(a, b) || Newer(b, a) || (CreatedAt(a) == CreatedAt(b) && a.revision == b.revision)
  {
  }
}
