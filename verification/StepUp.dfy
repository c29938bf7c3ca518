/** Proofs of a fresh second factor, kept per session in an expiring key space and tied to the
    security generation of the account. Times are in milliseconds, lives in seconds. Scripts run
    atomically; the check that a generation is current runs before them, so the generation may
    move on in between. */
module StepUp {
  import opened Basics
  import opened JsText

  const STEPUP_TTL := 600
  const ADMIN_MFA_TTL := 600
  const ADMIN_MODE_TTL := 604800
  const SUPER_ADMIN_MFA_TTL := 86400
  const TOKEN_PAGE_MFA_TTL := 3600
  const SECURITY_SETTINGS_TTL := 600

  // ---------------------------------------------------------------- markers

  datatype Proof = Proof(user: string, generation: nat)

  function Marker(proof: Proof): string {
    "sg1:" + proof.user + ":" + Decimal(proof.generation)
  }

  /** Text before a colon and digits after it are determined by their concatenation. */
  lemma LastColon(a: string, b: string, x: string, y: string)
    requires forall i :: 0 <= i < |x| ==> '0' <= x[i] <= '9'
    requires forall i :: 0 <= i < |y| ==> '0' <= y[i] <= '9'
    requires a + ":" + x == b + ":" + y
    ensures a == b && x == y
  {
    var s := a + ":" + x;
    assert |s| == |a| + 1 + |x| == |b| + 1 + |y|;
    assert forall i :: |a| < i < |s| ==> s[i] == x[i - |a| - 1];
    assert forall i :: |b| < i < |s| ==> s[i] == y[i - |b| - 1];
    assert s[|a|] == ':' && s[|b|] == ':';
    assert a == s[..|a|] == b;
    assert x == s[|a| + 1..] == y;
  }

  /** Different users or generations never share a marker, whatever the user's id contains. */
  lemma MarkerInjective(p: Proof, q: Proof)
    requires Marker(p) == Marker(q)
    ensures p == q
  {
    LastColon("sg1:" + p.user, "sg1:" + q.user, Decimal(p.generation), Decimal(q.generation));
    assert p.user == ("sg1:" + p.user)[4..] == ("sg1:" + q.user)[4..] == q.user;
    DecimalReads(p.generation);
    DecimalReads(q.generation);
  }

  // ---------------------------------------------------------------- the key space

  datatype Purpose = StepUpKey | TokenPage | AdminMfa | Settings | AdminMode

  datatype Key = Key(purpose: Purpose, session: nat)

  datatype Entry = Entry(marker: string, until: nat)

  datatype Store = Store(now: nat, entries: map<Key, Entry>)

  predicate Live(s: Store, key: Key) {
    key in s.entries && s.now < s.entries[key].until
  }

  function Get(s: Store, key: Key): Option<string> {
    if Live(s, key) then Some(s.entries[key].marker) else None
  }

  /** Milliseconds left. */
  function Left(s: Store, key: Key): nat {
    if Live(s, key) then s.entries[key].until - s.now else 0
  }

  /** What the key space answers about the time left: it rounds to the nearest second, and
      answers -2 for a key that does not exist. */
  function Ttl(s: Store, key: Key): int {
    if Live(s, key) then (Left(s, key) + 500) / 1000 else -2
  }

  function Set(s: Store, key: Key, marker: string, ttl: nat): Store {
    s.(entries := s.entries[key := Entry(marker, s.now + 1000 * ttl)])
  }

  function Del(s: Store, key: Key): Store {
    s.(entries := s.entries - {key})
  }

  // ---------------------------------------------------------------- the scripts

  datatype AdminKind = NoAdmin | Regular | Super

  function MfaTtl(kind: AdminKind): nat {
    if kind == Super then SUPER_ADMIN_MFA_TTL else ADMIN_MFA_TTL
  }

  /** The life of a proof that is given out afresh. */
  function FreshTtl(purpose: Purpose, kind: AdminKind): nat {
    match purpose
    case StepUpKey => STEPUP_TTL
    case TokenPage => TOKEN_PAGE_MFA_TTL
    case AdminMfa => MfaTtl(kind)
    case Settings => SECURITY_SETTINGS_TTL
    case AdminMode => ADMIN_MODE_TTL
  }

  function MarkedVerified(s: Store, session: nat, marker: string, kind: AdminKind): Store {
    var s0 := Set(s, Key(StepUpKey, session), marker, STEPUP_TTL);
    var s1 := Set(s0, Key(TokenPage, session), marker, TOKEN_PAGE_MFA_TTL);
    var s2 := if kind == NoAdmin then s1 else Set(s1, Key(AdminMfa, session), marker, MfaTtl(kind));
    Set(s2, Key(Settings, session), marker, SECURITY_SETTINGS_TTL)
  }

  predicate GrantAllowed(s: Store, session: nat, marker: string) {
    Get(s, Key(AdminMfa, session)) == Some(marker) && Get(s, Key(StepUpKey, session)) == Some(marker)
  }

  function Granted(s: Store, session: nat, marker: string): Store {
    if GrantAllowed(s, session, marker) then Set(s, Key(AdminMode, session), marker, ADMIN_MODE_TTL) else s
  }

  predicate Elevated(s: Store, session: nat, marker: string) {
    Get(s, Key(AdminMode, session)) == Some(marker)
  }

  function Resolved(s: Store, session: nat, marker: string): Store {
    var mode := Get(s, Key(AdminMode, session));
    if mode.None? || mode.value == marker then s
    else if Get(s, Key(AdminMfa, session)) != Some(marker) then
      Del(Del(s, Key(AdminMode, session)), Key(AdminMfa, session))
    else Del(s, Key(AdminMode, session))
  }

  function ReboundKey(s: Store, key: Key, previous: string, current: string): Store {
    if Get(s, key) == Some(previous) then
      if Ttl(s, key) > 0 then Set(s, key, current, Ttl(s, key)) else Del(s, key)
    else s
  }

  const PROOFS := [StepUpKey, TokenPage, AdminMfa, Settings]

  function ReboundKeys(s: Store, session: nat, previous: string, current: string, n: nat): Store
    requires n <= 4
  {
    if n == 0 then s
    else ReboundKey(ReboundKeys(s, session, previous, current, n - 1), Key(PROOFS[n - 1], session), previous, current)
  }

  function Rebound(s: Store, session: nat, previous: string, current: string): Store {
    Del(ReboundKeys(s, session, previous, current, 4), Key(AdminMode, session))
  }

  function ReboundOrCreated(s: Store, key: Key, previous: string, current: string, defaultTtl: nat,
                            enabled: bool): Store
  {
    if !enabled then Del(s, key)
    else
      var ttl := if Get(s, key) == Some(previous) then Ttl(s, key) else -1;
      Set(s, key, current, if ttl > 0 then ttl else defaultTtl)
  }

  predicate FactorChangeAllowed(s: Store, session: nat, previous: string) {
    Get(s, Key(Settings, session)) == Some(previous) && Ttl(s, Key(Settings, session)) > 0
  }

  function FactorChanged(s: Store, session: nat, previous: string, current: string, kind: AdminKind): Store {
    var settings := Key(Settings, session);
    if Get(s, settings) != Some(previous) then s
    else if Ttl(s, settings) <= 0 then Del(s, settings)
    else
      var s1 := ReboundOrCreated(s, Key(StepUpKey, session), previous, current, STEPUP_TTL, true);
      var s2 := ReboundOrCreated(s1, Key(TokenPage, session), previous, current, TOKEN_PAGE_MFA_TTL, true);
      var s3 := ReboundOrCreated(s2, Key(AdminMfa, session), previous, current, MfaTtl(kind), kind != NoAdmin);
      Del(Set(s3, settings, current, Ttl(s, settings)), Key(AdminMode, session))
  }

  // ---------------------------------------------------------------- what rebinding does

  /** Rebinding carries over exactly the live proofs of the previous generation that have at
      least half a second left, ends admin mode, and touches nothing else. */
  lemma RebindingLaw(s: Store, session: nat, previous: string, current: string, key: Key)
    ensures var t := Rebound(s, session, previous, current);
      && t.now == s.now
      && (key == Key(AdminMode, session) ==> Get(t, key) == None)
      && (key != Key(AdminMode, session) ==>
            if key.session == session && Get(s, key) == Some(previous) then
              && Get(t, key) == (if Left(s, key) >= 500 then Some(current) else None)
              && Left(t, key) == 1000 * Ttl(s, key)
            else Get(t, key) == Get(s, key) && Left(t, key) == Left(s, key))
  {
    ReboundKeysLaw(s, session, previous, current, 4, key);
    assert PROOFS[0] == StepUpKey && PROOFS[1] == TokenPage && PROOFS[2] == AdminMfa && PROOFS[3] == Settings;
    assert key.session == session && key.purpose != AdminMode ==>
      exists i :: 0 <= i < 4 && key == Key(PROOFS[i], session);
  }

  lemma {:induction false} ReboundKeysLaw(s: Store, session: nat, previous: string, current: string, n: nat, key: Key)
    requires n <= 4
    ensures var t := ReboundKeys(s, session, previous, current, n);
      && t.now == s.now
      && if (exists i :: 0 <= i < n && key == Key(PROOFS[i], session)) && Get(s, key) == Some(previous) then
           && Get(t, key) == (if Left(s, key) >= 500 then Some(current) else None)
           && Left(t, key) == 1000 * Ttl(s, key)
         else Get(t, key) == Get(s, key) && Left(t, key) == Left(s, key)
  {
    if n > 0 {
      ReboundKeysLaw(s, session, previous, current, n - 1, key);
      assert forall i, j :: 0 <= i < j < 4 ==> PROOFS[i] != PROOFS[j];
      assert key == Key(PROOFS[n - 1], session) || !(key == Key(PROOFS[n - 1], session));
    }
  }

  /** After rebinding to another generation nothing in the session proves the previous one. */
  lemma RebindingLeavesNothing(s: Store, session: nat, previous: Proof, current: Proof, purpose: Purpose)
    requires previous != current
    ensures Get(Rebound(s, session, Marker(previous), Marker(current)), Key(purpose, session)) != Some(Marker(previous))
  {
    hide Marker, Rebound, Get, Ttl, Left;
    RebindingLaw(s, session, Marker(previous), Marker(current), Key(purpose, session));
    if Marker(previous) == Marker(current) {
      MarkerInjective(previous, current);
    }
  }

  /** Rebinding a live proof lengthens its life exactly when the time left rounds up to a whole
      second, and then by half a second at most. */
  lemma RebindingLengthensExactly(s: Store, session: nat, previous: string, current: string, purpose: Purpose)
    requires purpose != AdminMode && Get(s, Key(purpose, session)) == Some(previous)
    ensures var t, key := Rebound(s, session, previous, current), Key(purpose, session);
      && (Left(t, key) > Left(s, key) <==> Left(s, key) % 1000 >= 500)
      && Left(t, key) <= Left(s, key) + 500
  {
    RebindingLaw(s, session, previous, current, Key(purpose, session));
    hide Rebound;
  }

  lemma SetLaw(s: Store, key: Key, marker: string, ttl: nat, other: Key)
    requires ttl > 0
    ensures var t := Set(s, key, marker, ttl);
      if other != key then Get(t, other) == Get(s, other) && Left(t, other) == Left(s, other)
      else Get(t, key) == Some(marker) && Left(t, key) == 1000 * ttl
  {
  }

  lemma DelLaw(s: Store, key: Key, other: Key)
    ensures var t := Del(s, key);
      if other != key then Get(t, other) == Get(s, other) && Left(t, other) == Left(s, other) else Get(t, key) == None
  {
  }

  lemma CreatedLaw(s: Store, key: Key, previous: string, current: string, defaultTtl: nat, enabled: bool, other: Key)
    requires defaultTtl > 0
    ensures var t := ReboundOrCreated(s, key, previous, current, defaultTtl, enabled);
      && t.now == s.now
      && if other != key then
           Get(t, other) == Get(s, other) && Left(t, other) == Left(s, other) && Ttl(t, other) == Ttl(s, other)
         else
           && Get(t, key) == (if enabled then Some(current) else None)
           && (enabled ==>
                 Left(t, key)
                 == 1000 * (if Get(s, key) == Some(previous) && Ttl(s, key) > 0 then Ttl(s, key) else defaultTtl))
  {
  }

  /** The proofs that a factor change hands out. */
  predicate Renewed(purpose: Purpose, kind: AdminKind) {
    purpose != AdminMode && (purpose != AdminMfa || kind != NoAdmin)
  }

  lemma FactorChangeRenews(s: Store, session: nat, previous: string, current: string, kind: AdminKind, purpose: Purpose)
    requires FactorChangeAllowed(s, session, previous)
    ensures var key, t := Key(purpose, session), FactorChanged(s, session, previous, current, kind);
      && Get(t, key) == (if Renewed(purpose, kind) then Some(current) else None)
      && (Get(t, key).Some? ==>
            Left(t, key) == 1000 * (if Get(s, key) == Some(previous) && Ttl(s, key) > 0 then Ttl(s, key)
                                    else FreshTtl(purpose, kind)))
  {
    hide ReboundOrCreated, Set, Del, Get, Left, Ttl, Live;
    var key, settings := Key(purpose, session), Key(Settings, session);
    var s1 := ReboundOrCreated(s, Key(StepUpKey, session), previous, current, STEPUP_TTL, true);
    var s2 := ReboundOrCreated(s1, Key(TokenPage, session), previous, current, TOKEN_PAGE_MFA_TTL, true);
    var s3 := ReboundOrCreated(s2, Key(AdminMfa, session), previous, current, MfaTtl(kind), kind != NoAdmin);
    CreatedLaw(s, Key(StepUpKey, session), previous, current, STEPUP_TTL, true, key);
    CreatedLaw(s1, Key(TokenPage, session), previous, current, TOKEN_PAGE_MFA_TTL, true, key);
    CreatedLaw(s2, Key(AdminMfa, session), previous, current, MfaTtl(kind), kind != NoAdmin, key);
    SetLaw(s3, settings, current, Ttl(s, settings), key);
    DelLaw(Set(s3, settings, current, Ttl(s, settings)), Key(AdminMode, session), key);
  }

  /** A factor change is accepted exactly when the settings grant of the previous generation has
      half a second left; then every proof of the session belongs to the current generation,
      lasting what it had left in whole seconds or else a fresh term, and admin mode has ended. */
  lemma FactorChangeLaw(s: Store, session: nat, previous: Proof, current: Proof, kind: AdminKind, purpose: Purpose)
    requires previous != current
    ensures var key, t := Key(purpose, session), FactorChanged(s, session, Marker(previous), Marker(current), kind);
      if FactorChangeAllowed(s, session, Marker(previous)) then
        && Get(t, key) == (if Renewed(purpose, kind) then Some(Marker(current)) else None)
        && Get(t, key) != Some(Marker(previous))
        && (Get(t, key).Some? ==>
              Left(t, key) == 1000 * (if Get(s, key) == Some(Marker(previous)) && Ttl(s, key) > 0 then Ttl(s, key)
                                      else FreshTtl(purpose, kind)))
      else
        t == s || (Get(s, Key(Settings, session)) == Some(Marker(previous)) && t == Del(s, Key(Settings, session)))
  {
    if Marker(previous) == Marker(current) {
      MarkerInjective(previous, current);
    }
    if FactorChangeAllowed(s, session, Marker(previous)) {
      FactorChangeRenews(s, session, Marker(previous), Marker(current), kind, purpose);
    }
    hide Marker, ReboundOrCreated;
  }

  /** A factor change leaves every other session alone. */
  lemma FactorChangeStays(s: Store, session: nat, previous: string, current: string, kind: AdminKind, key: Key)
    requires key.session != session
    ensures var t := FactorChanged(s, session, previous, current, kind);
      t.now == s.now && Get(t, key) == Get(s, key) && Left(t, key) == Left(s, key)
  {
  }

  // ---------------------------------------------------------------- what the other scripts do

  /** Seconds that each proof lives when a session has just been verified, if it gets that proof. */
  function VerifiedFor(purpose: Purpose, kind: AdminKind): Option<nat> {
    match purpose
    case StepUpKey => Some(600)
    case TokenPage => Some(3_600)
    case Settings => Some(600)
    case AdminMfa => if kind == NoAdmin then None else if kind == Super then Some(86_400) else Some(600)
    case AdminMode => None
  }

  /** Verifying a session renews its proofs with the marker, each for its own time: an hour for the
      token page, a day for a super admin's second factor, ten minutes for the others, none for
      someone who is no admin. Admin mode and all other sessions stay as they are. */
  lemma MarkingLaw(s: Store, session: nat, marker: string, kind: AdminKind, key: Key)
    ensures var t := MarkedVerified(s, session, marker, kind);
      && t.now == s.now
      && if key.session == session && VerifiedFor(key.purpose, kind).Some?
         then Get(t, key) == Some(marker) && Left(t, key) == 1000 * VerifiedFor(key.purpose, kind).value
         else Get(t, key) == Get(s, key) && Left(t, key) == Left(s, key)
  {
  }

  /** Admin mode begins, for a week, exactly if second factor and step-up are both live with this
      marker, and nothing else changes. */
  lemma GrantLaw(s: Store, session: nat, marker: string, key: Key)
    ensures var t := Granted(s, session, marker);
      && t.now == s.now
      && if && key == Key(AdminMode, session)
            && Get(s, Key(AdminMfa, session)) == Some(marker) && Get(s, Key(StepUpKey, session)) == Some(marker)
         then Get(t, key) == Some(marker) && Left(t, key) == 1000 * 604_800
         else Get(t, key) == Get(s, key) && Left(t, key) == Left(s, key)
  {
  }

  /** Resolving ends an admin mode that belongs to another generation, and with it a second factor
      that does not belong to this one; it leaves everything else alone. */
  lemma ResolveLaw(s: Store, session: nat, marker: string, key: Key)
    ensures var t, mode := Resolved(s, session, marker), Get(s, Key(AdminMode, session));
      var stale := mode.Some? && mode != Some(marker);
      && t.now == s.now && (Elevated(t, session, marker) <==> Elevated(s, session, marker))
      && if stale && key == Key(AdminMode, session) then Get(t, key) == None
         else if stale && key == Key(AdminMfa, session) && Get(s, key) != Some(marker) then Get(t, key) == None
         else Get(t, key) == Get(s, key) && Left(t, key) == Left(s, key)
  {
  }

  // ---------------------------------------------------------------- runs

  datatype Principal = Principal(proof: Proof, isAdmin: bool, disabled: bool, isSuperAdmin: bool)

  /** A call whose generation was found current and whose script has not run yet. */
  datatype Call =
    | MarkVerified(session: nat, proof: Proof, kind: AdminKind)
    | Rebind(session: nat, previous: Proof, proof: Proof)
    | ChangeFactor(session: nat, previous: Proof, proof: Proof, kind: AdminKind)
    | Grant(session: nat, proof: Proof)

  /** A grant of admin mode, with what its script read. */
  datatype GrantRecord = GrantRecord(session: nat, proof: Proof, at: nat, mfa: Option<string>, stepUp: Option<string>)

  datatype World = World(
    store: Store,
    generations: map<string, nat>,
    calls: map<nat, Call>,
    grants: seq<GrantRecord>,
    verified: set<nat>)

  datatype Step =
    | Tick(milliseconds: nat)
    | BumpGeneration(user: string)
    | CheckCurrent(id: nat, call: Call)
    | RunScript(id: nat)
    | CheckedGrantRefused(session: nat)
    | Resolve(session: nat, principal: Principal)
    | ExitAdminMode(session: nat)
    | ClearStepUp(session: nat)
    | ClearProofs(session: nat)

  predicate IsCurrent(w: World, proof: Proof) {
    proof.user in w.generations && w.generations[proof.user] == proof.generation
  }

  function RevokedAccess(s: Store, session: nat): Store {
    Del(Del(s, Key(AdminMfa, session)), Key(AdminMode, session))
  }

  function AfterScript(w: World, call: Call): World {
    match call
    case MarkVerified(session, proof, kind) =>
      w.(store := MarkedVerified(w.store, session, Marker(proof), kind), verified := w.verified + {session})
    case Rebind(session, previous, proof) =>
      w.(store := Rebound(w.store, session, Marker(previous), Marker(proof)))
    case ChangeFactor(session, previous, proof, kind) =>
      w.(store := FactorChanged(w.store, session, Marker(previous), Marker(proof), kind))
    case Grant(session, proof) =>
      var marker := Marker(proof);
      w.(store := Granted(w.store, session, marker),
         grants := w.grants
           + (if GrantAllowed(w.store, session, marker)
              then [GrantRecord(session, proof, w.store.now,
                                Get(w.store, Key(AdminMfa, session)), Get(w.store, Key(StepUpKey, session)))]
              else []))
  }

  function AfterResolve(s: Store, session: nat, p: Principal): Store {
    if !p.isAdmin || p.disabled then RevokedAccess(s, session)
    else if p.isSuperAdmin then s
    else Resolved(s, session, Marker(p.proof))
  }

  /** A disabled user or one who is no admin loses second factor and admin mode and nothing else;
      a super admin's proofs are only read. */
  lemma AfterResolveLaw(s: Store, session: nat, p: Principal, key: Key)
    ensures var t := AfterResolve(s, session, p);
      && (!p.isAdmin || p.disabled ==>
            if key.session == session && (key.purpose == AdminMfa || key.purpose == AdminMode) then Get(t, key) == None
            else Get(t, key) == Get(s, key) && Left(t, key) == Left(s, key))
      && (p.isAdmin && !p.disabled && p.isSuperAdmin ==> t == s)
      && (p.isAdmin && !p.disabled && !p.isSuperAdmin ==> t == Resolved(s, session, Marker(p.proof)))
  {
    hide Marker;
  }

  predicate ResolvesTrue(s: Store, session: nat, p: Principal) {
    && p.isAdmin && !p.disabled
    && if p.isSuperAdmin then Get(s, Key(AdminMfa, session)) == Some(Marker(p.proof))
       else Elevated(s, session, Marker(p.proof))
  }

  function Next(w: World, step: Step): World {
    match step
    case Tick(milliseconds) => w.(store := w.store.(now := w.store.now + milliseconds))
    case BumpGeneration(user) =>
      if user in w.generations then w.(generations := w.generations[user := w.generations[user] + 1]) else w
    case CheckCurrent(id, call) =>
      if id in w.calls || !IsCurrent(w, call.proof) then w else w.(calls := w.calls[id := call])
    case RunScript(id) =>
      if id in w.calls then AfterScript(w.(calls := w.calls - {id}), w.calls[id]) else w
    case CheckedGrantRefused(session) => w.(store := RevokedAccess(w.store, session))
    case Resolve(session, p) => w.(store := AfterResolve(w.store, session, p))
    case ExitAdminMode(session) => w.(store := Del(w.store, Key(AdminMode, session)))
    case ClearStepUp(session) => w.(store := Del(w.store, Key(StepUpKey, session)))
    case ClearProofs(session) =>
      w.(store := Del(Del(RevokedAccess(w.store, session), Key(StepUpKey, session)), Key(TokenPage, session)))
  }

  function Run(w: World, steps: seq<Step>): World
    decreases |steps|
  {
    if |steps| == 0 then w else Run(Next(w, steps[0]), steps[1..])
  }

  predicate Initial(w: World) {
    w.store.entries == map[] && w.calls == map[] && w.grants == [] && w.verified == {}
  }

  // ---------------------------------------------------------------- invariant

  predicate Reached(w: World, proof: Proof) {
    proof.user in w.generations && proof.generation <= w.generations[proof.user]
  }

  /** This grant explains that entry of the admin-mode key. */
  predicate Explains(g: GrantRecord, session: nat, entry: Entry) {
    g.session == session && Marker(g.proof) == entry.marker && entry.until == g.at + 1000 * ADMIN_MODE_TTL
  }

  predicate GrantSound(w: World, g: GrantRecord) {
    && g.at <= w.store.now && Reached(w, g.proof)
    && g.mfa == Some(Marker(g.proof)) && g.stepUp == Some(Marker(g.proof))
    && g.session in w.verified
  }

  predicate EntrySound(w: World, key: Key, entry: Entry) {
    && key.session in w.verified
    && (key.purpose == AdminMode ==> exists i :: 0 <= i < |w.grants| && Explains(w.grants[i], key.session, entry))
  }

  predicate Inv(w: World) {
    && (forall key :: key in w.store.entries ==> EntrySound(w, key, w.store.entries[key]))
    && (forall id :: id in w.calls ==> Reached(w, w.calls[id].proof))
    && (forall i :: 0 <= i < |w.grants| ==> GrantSound(w, w.grants[i]))
  }

  /** Each entry of the new store is an old one, or one of a proof key of a verified session. */
  predicate NoNewAdminMode(s: Store, t: Store, verified: set<nat>) {
    forall key :: key in t.entries ==>
      (key in s.entries && t.entries[key] == s.entries[key]) || (key.purpose != AdminMode && key.session in verified)
  }

  lemma NoNewAdminModeKeeps(w: World, v: World)
    requires Inv(w) && NoNewAdminMode(w.store, v.store, v.verified)
    requires v.store.now == w.store.now && w.verified <= v.verified
    requires v.grants == w.grants && v.generations == w.generations
    requires forall id :: id in v.calls ==> id in w.calls && v.calls[id] == w.calls[id]
    ensures Inv(v)
  {
    hide Explains;
    forall key | key in v.store.entries
      ensures EntrySound(v, key, v.store.entries[key])
    {
      if key in w.store.entries && v.store.entries[key] == w.store.entries[key] {
        assert EntrySound(w, key, w.store.entries[key]);
      }
    }
    forall i | 0 <= i < |v.grants|
      ensures GrantSound(v, v.grants[i])
    {
      assert GrantSound(w, w.grants[i]);
    }
  }

  lemma ReboundKeysNoNew(s: Store, session: nat, previous: string, current: string, n: nat, verified: set<nat>)
    requires n <= 4 && forall key :: key in s.entries ==> key.session in verified
    ensures NoNewAdminMode(s, ReboundKeys(s, session, previous, current, n), verified)
  {
    if n > 0 {
      ReboundKeysNoNew(s, session, previous, current, n - 1, verified);
    }
  }

  lemma FactorNoNew(s: Store, session: nat, previous: string, current: string, kind: AdminKind, verified: set<nat>)
    requires forall key :: key in s.entries ==> key.session in verified
    ensures NoNewAdminMode(s, FactorChanged(s, session, previous, current, kind), verified)
  {
    if Get(s, Key(Settings, session)) == Some(previous) {
      assert Key(Settings, session) in s.entries;
    }
  }

  lemma GrantKeeps(w: World, session: nat, proof: Proof)
    requires Inv(w) && Reached(w, proof)
    ensures Inv(AfterScript(w, Grant(session, proof)))
  {
    var v, marker := AfterScript(w, Grant(session, proof)), Marker(proof);
    hide Marker;
    if GrantAllowed(w.store, session, marker) {
      assert EntrySound(w, Key(AdminMfa, session), w.store.entries[Key(AdminMfa, session)]);
      var last := |w.grants|;
      forall i | 0 <= i < |v.grants|
        ensures GrantSound(v, v.grants[i])
      {
        if i < last {
          assert GrantSound(w, w.grants[i]);
        }
      }
      forall key | key in v.store.entries
        ensures EntrySound(v, key, v.store.entries[key])
      {
        if key == Key(AdminMode, session) {
          assert Explains(v.grants[last], session, v.store.entries[key]);
        } else {
          OldEntrySound(w, v, key);
        }
      }
    } else {
      assert v == w;
    }
  }

  lemma OldEntrySound(w: World, v: World, key: Key)
    requires key in w.store.entries && EntrySound(w, key, w.store.entries[key])
    requires w.verified <= v.verified && w.grants <= v.grants
    ensures EntrySound(v, key, w.store.entries[key])
  {
    hide Explains;
    if key.purpose == AdminMode {
      var i :| 0 <= i < |w.grants| && Explains(w.grants[i], key.session, w.store.entries[key]);
      assert Explains(v.grants[i], key.session, w.store.entries[key]);
    }
  }

  lemma ScriptKeeps(w: World, call: Call)
    requires Inv(w) && Reached(w, call.proof)
    ensures Inv(AfterScript(w, call))
  {
    hide Marker, FactorChanged, Explains;
    assert forall key :: key in w.store.entries ==> EntrySound(w, key, w.store.entries[key]);
    hide Inv;
    match call
    case MarkVerified(_, _, _) => NoNewAdminModeKeeps(w, AfterScript(w, call));
    case Rebind(session, previous, proof) =>
      ReboundKeysNoNew(w.store, session, Marker(previous), Marker(proof), 4, w.verified);
      StoreNow(w.store, session, Marker(previous), Marker(proof), NoAdmin);
      hide ReboundKeys;
      NoNewAdminModeKeeps(w, AfterScript(w, call));
    case ChangeFactor(session, previous, proof, kind) =>
      FactorNoNew(w.store, session, Marker(previous), Marker(proof), kind, w.verified);
      StoreNow(w.store, session, Marker(previous), Marker(proof), kind);
      NoNewAdminModeKeeps(w, AfterScript(w, call));
    case Grant(session, proof) => GrantKeeps(w, session, proof);
  }

  lemma StoreNow(s: Store, session: nat, previous: string, current: string, kind: AdminKind)
    ensures ReboundKeys(s, session, previous, current, 4).now == s.now
    ensures FactorChanged(s, session, previous, current, kind).now == s.now
  {
    ReboundKeysLaw(s, session, previous, current, 4, Key(Settings, session));
  }

  lemma NextKeeps(w: World, step: Step)
    requires Inv(w)
    ensures Inv(Next(w, step))
  {
    match step
    case RunScript(id) =>
      if id in w.calls {
        ForgetKeeps(w, id);
        ScriptKeeps(w.(calls := w.calls - {id}), w.calls[id]);
      }
    case Tick(_) => TimeKeeps(w, Next(w, step));
    case BumpGeneration(_) => TimeKeeps(w, Next(w, step));
    case CheckCurrent(_, _) => TimeKeeps(w, Next(w, step));
    case _ =>
      hide Marker, Inv;
      NoNewAdminModeKeeps(w, Next(w, step));
  }

  lemma ForgetKeeps(w: World, id: nat)
    requires Inv(w)
    ensures Inv(w.(calls := w.calls - {id}))
  {
    NoNewAdminModeKeeps(w, w.(calls := w.calls - {id}));
  }

  /** Time passing, generations moving on and new checked calls leave the invariant alone. */
  lemma TimeKeeps(w: World, v: World)
    requires Inv(w) && v.store.entries == w.store.entries && w.store.now <= v.store.now
    requires v.grants == w.grants && v.verified == w.verified
    requires forall user :: user in w.generations ==>
      user in v.generations && w.generations[user] <= v.generations[user]
    requires forall id :: id in v.calls ==> Reached(v, v.calls[id].proof)
    ensures Inv(v)
  {
    hide Marker, Explains;
    forall key | key in v.store.entries
      ensures EntrySound(v, key, v.store.entries[key])
    {
      assert EntrySound(w, key, w.store.entries[key]);
    }
    forall i | 0 <= i < |v.grants|
      ensures GrantSound(v, v.grants[i])
    {
      assert GrantSound(w, w.grants[i]);
    }
  }

  lemma {:induction false} RunKeeps(w: World, steps: seq<Step>)
    requires Inv(w)
    ensures Inv(Run(w, steps))
    decreases |steps|
  {
    hide Inv, Next;
    if |steps| > 0 {
      NextKeeps(w, steps[0]);
      RunKeeps(Next(w, steps[0]), steps[1..]);
    }
  }

  // ---------------------------------------------------------------- what holds in every run

  ghost predicate GrantedBefore(w: World, session: nat, proof: Proof) {
    exists i :: 0 <= i < |w.grants| && IsGrantOf(w.grants[i], session, proof, w.store.now)
  }

  /** A grant to this session, of this user at this generation, that read both proofs and is
      younger than a week. */
  predicate IsGrantOf(g: GrantRecord, session: nat, proof: Proof, now: nat) {
    && g.session == session && g.proof == proof
    && g.mfa == Some(Marker(proof)) && g.stepUp == Some(Marker(proof))
    && g.at <= now < g.at + 1000 * ADMIN_MODE_TTL
  }

  /** A regular admin is let through only on a grant to the same session, user and generation
      that saw both proofs; the generation was really reached, and the session was verified. */
  lemma ElevationNeedsGrant(w: World, steps: seq<Step>, session: nat, p: Principal)
    requires Initial(w) && !p.isSuperAdmin && ResolvesTrue(Run(w, steps).store, session, p)
    ensures GrantedBefore(Run(w, steps), session, p.proof)
    ensures session in Run(w, steps).verified
    ensures Reached(Run(w, steps), p.proof)
  {
    RunKeeps(w, steps);
    var v := Run(w, steps);
    var entry := v.store.entries[Key(AdminMode, session)];
    assert EntrySound(v, Key(AdminMode, session), entry);
    var i :| 0 <= i < |v.grants| && Explains(v.grants[i], session, entry);
    assert GrantSound(v, v.grants[i]);
    MarkerInjective(v.grants[i].proof, p.proof);
    assert IsGrantOf(v.grants[i], session, p.proof, v.store.now);
  }

  /** Admin mode that was ended, or never granted, does not come back without a new grant. */
  lemma {:induction false} NoGrantNoElevation(w: World, steps: seq<Step>, session: nat)
    requires Key(AdminMode, session) !in w.store.entries
    requires |Run(w, steps).grants| == |w.grants|
    ensures Key(AdminMode, session) !in Run(w, steps).store.entries
    decreases |steps|
  {
    hide Marker;
    if |steps| > 0 {
      GrantsGrow(Next(w, steps[0]), steps[1..]);
      GrantsGrow(w, [steps[0]]);
      assert Run(w, [steps[0]]) == Next(w, steps[0]);
      AdminModeStaysAway(w, steps[0], session);
      NoGrantNoElevation(Next(w, steps[0]), steps[1..], session);
    }
  }

  lemma {:induction false} GrantsGrow(w: World, steps: seq<Step>)
    ensures w.grants <= Run(w, steps).grants
    decreases |steps|
  {
    hide Marker;
    if |steps| > 0 {
      GrantsGrow(Next(w, steps[0]), steps[1..]);
    }
  }

  lemma AdminModeStaysAway(w: World, step: Step, session: nat)
    requires Key(AdminMode, session) !in w.store.entries && |Next(w, step).grants| == |w.grants|
    ensures Key(AdminMode, session) !in Next(w, step).store.entries
  {
    hide Marker;
    if step.RunScript? && step.id in w.calls && w.calls[step.id].Rebind? {
      var call := w.calls[step.id];
      var sessions := set key | key in w.store.entries :: key.session;
      ReboundKeysNoNew(w.store, call.session, Marker(call.previous), Marker(call.proof), 4, sessions);
      hide ReboundKeys;
    }
  }

  /** Everything that ends or rebinds a session removes its admin mode. */
  lemma SecurityChangeEndsAdminMode(s: Store, session: nat, previous: string, current: string, kind: AdminKind)
    ensures Key(AdminMode, session) !in Rebound(s, session, previous, current).entries
    ensures FactorChangeAllowed(s, session, previous) ==>
      Key(AdminMode, session) !in FactorChanged(s, session, previous, current, kind).entries
    ensures Key(AdminMode, session) !in RevokedAccess(s, session).entries
  {
  }

  /** The step verifies the session afresh or changes its factor. */
  predicate Renews(w: World, step: Step, session: nat) {
    && step.RunScript? && step.id in w.calls
    && w.calls[step.id].session == session
    && (w.calls[step.id].MarkVerified? || w.calls[step.id].ChangeFactor?)
  }

  predicate NeverRenewed(w: World, steps: seq<Step>, session: nat)
    decreases |steps|
  {
    |steps| == 0 || (!Renews(w, steps[0], session) && NeverRenewed(Next(w, steps[0]), steps[1..], session))
  }

  function Deadline(s: Store, key: Key): nat {
    if key in s.entries then s.entries[key].until else 0
  }

  /** 1 for a step that rebinds the session. */
  function Rebinds(w: World, step: Step, session: nat): nat {
    if step.RunScript? && step.id in w.calls && w.calls[step.id].session == session && w.calls[step.id].Rebind?
    then 1 else 0
  }

  function RebindCount(w: World, steps: seq<Step>, session: nat): nat
    decreases |steps|
  {
    if |steps| == 0 then 0 else Rebinds(w, steps[0], session) + RebindCount(Next(w, steps[0]), steps[1..], session)
  }

  lemma LifeHardlyLengthened(w: World, step: Step, key: Key)
    requires key.purpose != AdminMode && !Renews(w, step, key.session)
    ensures var v := Next(w, step); Live(v.store, key) ==>
      Live(w.store, key) && Deadline(v.store, key) <= Deadline(w.store, key) + 500 * Rebinds(w, step, key.session)
  {
    hide Marker;
    if step.RunScript? && step.id in w.calls && w.calls[step.id].Rebind? {
      var call := w.calls[step.id];
      RebindingLaw(w.store, call.session, Marker(call.previous), Marker(call.proof), key);
      hide Rebound;
    }
  }

  /** Without a new verification or factor change a proof outlives the end it was given by at
      most half a second for each rebinding, and a proof that is gone stays gone. */
  lemma {:induction false} ProofsOnlyAge(w: World, steps: seq<Step>, key: Key)
    requires key.purpose != AdminMode && NeverRenewed(w, steps, key.session)
    ensures var v := Run(w, steps); Live(v.store, key) ==>
      Live(w.store, key) && Deadline(v.store, key) <= Deadline(w.store, key) + 500 * RebindCount(w, steps, key.session)
    decreases |steps|
  {
    hide Next, Renews, Rebinds;
    if |steps| > 0 {
      LifeHardlyLengthened(w, steps[0], key);
      ProofsOnlyAge(Next(w, steps[0]), steps[1..], key);
    }
  }

  // ---------------------------------------------------------------- the operations

  /** An enabled regular admin whose generation is current. */
  predicate Eligible(p: Principal, current: bool) {
    p.isAdmin && !p.disabled && !p.isSuperAdmin && current
  }

  /** The key space and the scripts as they run on it. */
  class KeySpace {
    var now: nat
    var entries: map<Key, Entry>

    ghost function Contents(): Store
      reads this
    {
      Store(now, entries)
    }

    constructor (now: nat)
      ensures Contents() == Store(now, map[])
    {
      this.now, entries := now, map[];
    }

    function Read(key: Key): (marker: Option<string>)
      reads this
      ensures marker == Get(Contents(), key)
    {
      if key in entries && now < entries[key].until then Some(entries[key].marker) else None
    }

    function SecondsLeft(key: Key): (ttl: int)
      reads this
      ensures ttl == Ttl(Contents(), key)
    {
      if key in entries && now < entries[key].until then (entries[key].until - now + 500) / 1000 else -2
    }

    method Write(key: Key, marker: string, ttl: nat)
      modifies `entries
      ensures Contents() == Set(old(Contents()), key, marker, ttl)
    {
      entries := entries[key := Entry(marker, now + 1000 * ttl)];
    }

    method Remove(key: Key)
      modifies `entries
      ensures Contents() == Del(old(Contents()), key)
    {
      entries := entries - {key};
    }

    method MarkVerifiedSession(session: nat, proof: Proof, kind: AdminKind, current: bool) returns (ok: bool)
      modifies `entries
      ensures ok == current
      ensures Contents() ==
        if current then MarkedVerified(old(Contents()), session, Marker(proof), kind) else old(Contents())
    {
      if !current {
        return false;
      }
      var marker := Marker(proof);
      Write(Key(StepUpKey, session), marker, STEPUP_TTL);
      Write(Key(TokenPage, session), marker, TOKEN_PAGE_MFA_TTL);
      if kind != NoAdmin {
        Write(Key(AdminMfa, session), marker, MfaTtl(kind));
      }
      Write(Key(Settings, session), marker, SECURITY_SETTINGS_TTL);
      return true;
    }

    method GrantAdminMode(session: nat, p: Principal, current: bool) returns (ok: bool)
      modifies `entries
      ensures ok == (Eligible(p, current) && GrantAllowed(old(Contents()), session, Marker(p.proof)))
      ensures ok ==> Elevated(Contents(), session, Marker(p.proof))
      ensures Contents() ==
        if Eligible(p, current) then Granted(old(Contents()), session, Marker(p.proof))
        else RevokedAccess(old(Contents()), session)
    {
      if !Eligible(p, current) {
        RevokeAdminAccess(session);
        return false;
      }
      var marker := Marker(p.proof);
      if Read(Key(AdminMfa, session)) != Some(marker) {
        return false;
      }
      if Read(Key(StepUpKey, session)) != Some(marker) {
        return false;
      }
      Write(Key(AdminMode, session), marker, ADMIN_MODE_TTL);
      return true;
    }

    method RevokeAdminAccess(session: nat)
      modifies `entries
      ensures Contents() == RevokedAccess(old(Contents()), session)
    {
      Remove(Key(AdminMfa, session));
      Remove(Key(AdminMode, session));
    }

    method ResolveAdminAccess(session: nat, p: Principal) returns (elevated: bool)
      modifies `entries
      ensures elevated == ResolvesTrue(old(Contents()), session, p)
      ensures Contents() == AfterResolve(old(Contents()), session, p)
    {
      if !p.isAdmin || p.disabled {
        RevokeAdminAccess(session);
        return false;
      }
      var marker := Marker(p.proof);
      if p.isSuperAdmin {
        return Read(Key(AdminMfa, session)) == Some(marker);
      }
      var mode := Read(Key(AdminMode, session));
      if mode.None? {
        return false;
      }
      if mode.value == marker {
        return true;
      }
      Remove(Key(AdminMode, session));
      if Read(Key(AdminMfa, session)) != Some(marker) {
        Remove(Key(AdminMfa, session));
      }
      return false;
    }

    method RebindVerifiedSession(session: nat, previous: Proof, proof: Proof, current: bool) returns (ok: bool)
      modifies `entries
      ensures ok == current
      ensures Contents() ==
        if current then Rebound(old(Contents()), session, Marker(previous), Marker(proof)) else old(Contents())
    {
      if !current {
        return false;
      }
      var i := 0;
      while i < 4
        invariant 0 <= i <= 4
        invariant Contents() == ReboundKeys(old(Contents()), session, Marker(previous), Marker(proof), i)
      {
        var key := Key(PROOFS[i], session);
        if Read(key) == Some(Marker(previous)) {
          var ttl := SecondsLeft(key);
          if ttl > 0 {
            Write(key, Marker(proof), ttl);
          } else {
            Remove(key);
          }
        }
        i := i + 1;
      }
      Remove(Key(AdminMode, session));
      return true;
    }

    method RebindOrCreate(key: Key, previous: string, marker: string, defaultTtl: nat, enabled: bool)
      modifies `entries
      ensures Contents() == ReboundOrCreated(old(Contents()), key, previous, marker, defaultTtl, enabled)
    {
      if !enabled {
        Remove(key);
        return;
      }
      var ttl := -1;
      if Read(key) == Some(previous) {
        ttl := SecondsLeft(key);
      }
      Write(key, marker, if ttl > 0 then ttl else defaultTtl);
    }

    method MarkFactorChangeVerifiedSession(session: nat, previous: Proof, proof: Proof, kind: AdminKind, current: bool)
      returns (ok: bool)
      modifies `entries
      ensures ok == (current && FactorChangeAllowed(old(Contents()), session, Marker(previous)))
      ensures Contents() ==
        if current then FactorChanged(old(Contents()), session, Marker(previous), Marker(proof), kind)
        else old(Contents())
    {
      if !current {
        return false;
      }
      var settings := Key(Settings, session);
      var from, marker := Marker(previous), Marker(proof);
      hide Marker;
      if Read(settings) != Some(from) {
        return false;
      }
      var settingsTtl := SecondsLeft(settings);
      if settingsTtl <= 0 {
        Remove(settings);
        return false;
      }
      RebindOrCreate(Key(StepUpKey, session), from, marker, STEPUP_TTL, true);
      RebindOrCreate(Key(TokenPage, session), from, marker, TOKEN_PAGE_MFA_TTL, true);
      RebindOrCreate(Key(AdminMfa, session), from, marker, MfaTtl(kind), kind != NoAdmin);
      Write(settings, marker, settingsTtl);
      Remove(Key(AdminMode, session));
      return true;
    }
  }
}
