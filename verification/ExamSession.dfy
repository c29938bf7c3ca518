/** Exam sessions and participations under interleaved transactions: entering, ending and
    resetting take a lock of their user first; an instructor's release and the automatic
    close do not. A transaction's writes become visible when it commits. */
module ExamSession {
  import opened Basics

  datatype Key = Key(user: nat, exam: nat)

  datatype Reason = Submitted | TimeUp | ReleasedByInstructor

  /** A session row; `active` means that it has no end. */
  datatype Session = Session(active: bool, reason: Option<Reason>)

  datatype Status = Registered | Entered | HandedIn | Disqualified

  datatype Tables = Tables(sessions: map<Key, Session>, participations: map<Key, Status>)

  function Lookup<V>(m: map<Key, V>, key: Key): Option<V> {
    if key in m then Some(m[key]) else None
  }

  predicate IsActive(t: Tables, key: Key) {
    key in t.sessions && t.sessions[key].active
  }

  /** The session row carries the mark of a submitted exam. */
  predicate Marked(t: Tables, key: Key) {
    key in t.sessions && t.sessions[key].reason == Some(Submitted)
  }

  predicate HasHandedIn(t: Tables, key: Key) {
    key in t.participations && t.participations[key] == HandedIn
  }

  // ---------------------------------------------------------------- what the statements read and write

  /** Some other exam holds an active session of this user. */
  predicate ActiveElsewhere(t: Tables, key: Key) {
    exists k :: k in t.sessions && k.user == key.user && k.exam != key.exam && t.sessions[k].active
  }

  predicate AlreadySubmitted(seen: Option<Session>, participation: Option<Status>) {
    || (seen.Some? && seen.value.reason == Some(Submitted))
    || participation == Some(HandedIn)
  }

  function WriteEntry(t: Tables, key: Key, participation: Option<Status>, seen: Option<Session>): Tables {
    var activateOnEntry := participation.None? || participation.value == Registered;
    var status :=
      if key !in t.participations || activateOnEntry then Entered else t.participations[key];
    t.(participations := t.participations[key := status],
       sessions := if seen.Some? && seen.value.active then t.sessions
                   else t.sessions[key := Session(true, None)])
  }

  /** Ending needs a session that is active or was ended for a stated reason. */
  predicate CanEnd(seen: Option<Session>) {
    seen.Some? && (seen.value.active || seen.value.reason.Some?)
  }

  function WriteEnd(t: Tables, key: Key, reason: Reason): Tables {
    t.(participations :=
         if reason == Submitted && key in t.participations && t.participations[key] == Entered then
           t.participations[key := HandedIn]
         else t.participations,
       sessions := t.sessions[key := Session(false, Some(reason))])
  }

  function WriteReset(t: Tables, key: Key, seen: Option<Session>): Tables {
    t.(participations := if key in t.participations then t.participations else t.participations[key := Registered],
       sessions := if seen.Some? then t.sessions else t.sessions[key := Session(false, None)])
  }

  function WriteAutoClose(t: Tables, exam: nat): Tables {
    t.(sessions := map k | k in t.sessions ::
         if k.exam == exam && t.sessions[k].active then Session(false, Some(TimeUp)) else t.sessions[k])
  }

  // ---------------------------------------------------------------- what that comes to

  /** Nothing but the two rows of `key` differs. */
  ghost predicate OnlyAt(t: Tables, u: Tables, key: Key) {
    forall k: Key :: k != key ==>
      Lookup(u.sessions, k) == Lookup(t.sessions, k) && Lookup(u.participations, k) == Lookup(t.participations, k)
  }

  /** Entering: a session that was seen active stays as it is, any other becomes active and loses its
      reason; the participation becomes entered if there was none or it was only registered. */
  lemma EntryWrites(t: Tables, key: Key, participation: Option<Status>, seen: Option<Session>)
    ensures var u := WriteEntry(t, key, participation, seen);
      && OnlyAt(t, u, key)
      && Lookup(u.sessions, key) ==
         (if seen.Some? && seen.value.active then Lookup(t.sessions, key) else Some(Session(true, None)))
      && Lookup(u.participations, key) ==
         (if participation == None || participation == Some(Registered) || key !in t.participations then Some(Entered)
          else Lookup(t.participations, key))
  {
  }

  /** Ending: the session is over for the reason stated, and submitting hands an entered
      participation in; one in any other state stays as it is. */
  lemma EndWrites(t: Tables, key: Key, reason: Reason)
    ensures var u := WriteEnd(t, key, reason);
      && OnlyAt(t, u, key) && Lookup(u.sessions, key) == Some(Session(false, Some(reason)))
      && Lookup(u.participations, key) ==
         if reason == Submitted && Lookup(t.participations, key) == Some(Entered) then Some(HandedIn)
         else Lookup(t.participations, key)
  {
  }

  /** Resetting: rows that exist stay as they are; a missing participation is registered, and a
      session that was seen missing is made without being entered. */
  lemma ResetWrites(t: Tables, key: Key, seen: Option<Session>)
    ensures var u := WriteReset(t, key, seen);
      && OnlyAt(t, u, key)
      && Lookup(u.sessions, key) == (if seen.Some? then Lookup(t.sessions, key) else Some(Session(false, None)))
      && Lookup(u.participations, key) ==
         if key in t.participations then Lookup(t.participations, key) else Some(Registered)
  {
  }

  /** The automatic close ends the active sessions of its exam, and those only. */
  ghost predicate ClosesExam(t: Tables, u: Tables, exam: nat) {
    && u.participations == t.participations && u.sessions.Keys == t.sessions.Keys
    && (forall k :: k in t.sessions && k.exam == exam && t.sessions[k].active ==>
          u.sessions[k] == Session(false, Some(TimeUp)))
    && (forall k :: k in t.sessions && !(k.exam == exam && t.sessions[k].active) ==> u.sessions[k] == t.sessions[k])
  }

  lemma AutoCloseWrites(t: Tables, exam: nat)
    ensures ClosesExam(t, WriteAutoClose(t, exam), exam)
  {
  }

  // ---------------------------------------------------------------- steps

  /** A transaction under way, with what it has read. */
  datatype Txn =
    | OpenLocked(key: Key)
    | OpenAlone(key: Key)
    | OpenParticipation(key: Key, participation: Option<Status>)
    | OpenSession(key: Key, participation: Option<Status>, seen: Option<Session>)
    | EndLocked(key: Key, reason: Reason)
    | EndChecked(key: Key, reason: Reason)
    | ResetLocked(key: Key)
    | ResetSession(key: Key, seen: Option<Session>)
    | ReleaseSeen(key: Key)

  predicate HoldsLock(txn: Txn) {
    !txn.ReleaseSeen?
  }

  datatype World = World(tables: Tables, txns: map<nat, Txn>)

  datatype Step =
    | BeginOpen(id: nat, key: Key)
    | BeginEnd(id: nat, key: Key, reason: Reason)
    | BeginReset(id: nat, key: Key)
    | SeeForRelease(id: nat, key: Key)
    | Read(id: nat)
    | Commit(id: nat, allowed: bool)
    | Abort(id: nat)
    | AutoClose(exam: nat)

  predicate LockFree(w: World, user: nat) {
    forall id :: id in w.txns && HoldsLock(w.txns[id]) ==> w.txns[id].key.user != user
  }

  function Begin(w: World, id: nat, txn: Txn): World {
    if id in w.txns || (HoldsLock(txn) && !LockFree(w, txn.key.user)) then w
    else w.(txns := w.txns[id := txn])
  }

  function Gone(w: World, id: nat): World {
    w.(txns := w.txns - {id})
  }

  function NextRead(w: World, id: nat): World {
    if id !in w.txns then w
    else
      match w.txns[id]
      case OpenLocked(key) =>
        if ActiveElsewhere(w.tables, key) then Gone(w, id) else w.(txns := w.txns[id := OpenAlone(key)])
      case OpenAlone(key) =>
        w.(txns := w.txns[id := OpenParticipation(key, Lookup(w.tables.participations, key))])
      case OpenParticipation(key, participation) =>
        var seen := Lookup(w.tables.sessions, key);
        if AlreadySubmitted(seen, participation) then Gone(w, id)
        else w.(txns := w.txns[id := OpenSession(key, participation, seen)])
      case EndLocked(key, reason) =>
        var seen := Lookup(w.tables.sessions, key);
        if !CanEnd(seen) || seen.value.reason == Some(Submitted) then Gone(w, id)
        else w.(txns := w.txns[id := EndChecked(key, reason)])
      case ResetLocked(key) =>
        w.(txns := w.txns[id := ResetSession(key, Lookup(w.tables.sessions, key))])
      case _ => w
  }

  /** A transaction whose last check refuses (`allowed` is false) leaves the tables alone. */
  function NextCommit(w: World, id: nat, allowed: bool): World {
    if id !in w.txns then w
    else if !allowed then Gone(w, id)
    else
      match w.txns[id]
      case OpenSession(key, participation, seen) =>
        Gone(w, id).(tables := WriteEntry(w.tables, key, participation, seen))
      case EndChecked(key, reason) => Gone(w, id).(tables := WriteEnd(w.tables, key, reason))
      case ResetSession(key, seen) => Gone(w, id).(tables := WriteReset(w.tables, key, seen))
      case ReleaseSeen(key) => Gone(w, id).(tables := WriteEnd(w.tables, key, ReleasedByInstructor))
      case _ => w
  }

  function Next(w: World, step: Step): World {
    match step
    case BeginOpen(id, key) => Begin(w, id, OpenLocked(key))
    case BeginEnd(id, key, reason) => Begin(w, id, EndLocked(key, reason))
    case BeginReset(id, key) => Begin(w, id, ResetLocked(key))
    case SeeForRelease(id, key) => if IsActive(w.tables, key) then Begin(w, id, ReleaseSeen(key)) else w
    case Read(id) => NextRead(w, id)
    case Commit(id, allowed) => NextCommit(w, id, allowed)
    case Abort(id) => Gone(w, id)
    case AutoClose(exam) => w.(tables := WriteAutoClose(w.tables, exam))
  }

  /** A step changes the rows of a user and exam only by committing a transaction of theirs, or by
      closing that exam, which leaves the participation alone. */
  lemma StepTouches(w: World, step: Step, key: Key)
    requires Lookup(Next(w, step).tables.sessions, key) != Lookup(w.tables.sessions, key)
      || Lookup(Next(w, step).tables.participations, key) != Lookup(w.tables.participations, key)
    ensures || (step.Commit? && step.allowed && step.id in w.txns && w.txns[step.id].key == key)
            || (step == AutoClose(key.exam) && IsActive(w.tables, key))
    ensures step.AutoClose? ==> Next(w, step).tables.participations == w.tables.participations
  {
  }

  function Run(w: World, steps: seq<Step>): World
    decreases |steps|
  {
    if |steps| == 0 then w else Run(Next(w, steps[0]), steps[1..])
  }

  /** Nobody has entered an exam yet; participations may be in any state. */
  predicate Initial(w: World) {
    w.tables.sessions == map[] && w.txns == map[]
  }

  // ---------------------------------------------------------------- invariant

  predicate OneActive(t: Tables) {
    forall k, j ::
      k in t.sessions && j in t.sessions && t.sessions[k].active && t.sessions[j].active && k.user == j.user
      ==> k == j
  }

  /** What a session row says about the participation it belongs to. */
  predicate RowSound(row: Session, participation: Option<Status>) {
    && (row.active || row.reason.Some? ==> participation.Some? && participation.value != Registered)
    && (row.active ==> row.reason.None? && participation.value != HandedIn)
    && (row.reason == Some(Submitted) ==> participation.value != Entered)
  }

  predicate TablesSound(t: Tables) {
    && OneActive(t)
    && forall k :: k in t.sessions ==> RowSound(t.sessions[k], Lookup(t.participations, k))
  }

  /** What a transaction has read still says enough about the tables while it holds its lock. */
  predicate TxnSound(t: Tables, txn: Txn) {
    match txn
    case OpenAlone(key) => !ActiveElsewhere(t, key)
    case OpenParticipation(key, participation) =>
      !ActiveElsewhere(t, key) && participation == Lookup(t.participations, key)
    case OpenSession(key, participation, seen) =>
      && !ActiveElsewhere(t, key) && participation == Lookup(t.participations, key)
      && participation != Some(HandedIn)
      && (seen.Some? <==> key in t.sessions)
      && (seen.Some? && seen.value.active ==> participation.Some? && participation.value != Registered)
    case EndChecked(key, _) => EverEntered(t, key)
    case ResetSession(key, seen) => seen.Some? <==> key in t.sessions
    case ReleaseSeen(key) => EverEntered(t, key)
    case _ => true
  }

  predicate EverEntered(t: Tables, key: Key) {
    key in t.sessions && key in t.participations && t.participations[key] != Registered
  }

  predicate Inv(w: World) {
    && TablesSound(w.tables)
    && (forall id :: id in w.txns ==> TxnSound(w.tables, w.txns[id]))
    && LocksExclusive(w.txns)
  }

  predicate LocksExclusive(txns: map<nat, Txn>) {
    forall i, j ::
      i in txns && j in txns && HoldsLock(txns[i]) && HoldsLock(txns[j]) && txns[i].key.user == txns[j].key.user
      ==> i == j
  }

  /** A write that no other lock holder of this user can see: sound transactions of other
      users, and releases, stay sound. */
  ghost predicate Harmless(t: Tables, u: Tables, user: nat) {
    && (forall k :: k in t.sessions ==> k in u.sessions)
    && (forall k :: k in t.participations ==>
          k in u.participations && (u.participations[k] == Registered ==> t.participations[k] == Registered))
    && (forall k: Key :: k.user != user ==> Lookup(t.participations, k) == Lookup(u.participations, k))
    && (forall k: Key :: k.user != user && k in u.sessions ==>
          k in t.sessions && (u.sessions[k].active ==> t.sessions[k].active))
  }

  lemma HarmlessKeeps(t: Tables, u: Tables, user: nat, txn: Txn)
    requires Harmless(t, u, user) && TxnSound(t, txn)
    requires HoldsLock(txn) ==> txn.key.user != user
    ensures TxnSound(u, txn)
  {
    if HoldsLock(txn) {
      assert Lookup(t.participations, txn.key) == Lookup(u.participations, txn.key);
      if ActiveElsewhere(u, txn.key) {
        var k :| k in u.sessions && k.user == txn.key.user && k.exam != txn.key.exam && u.sessions[k].active;
        assert k in t.sessions && t.sessions[k].active;
      }
    }
  }

  lemma CommitKeepsInv(w: World, id: nat, u: Tables)
    requires Inv(w) && id in w.txns
    requires TablesSound(u) && Harmless(w.tables, u, w.txns[id].key.user)
    requires !HoldsLock(w.txns[id]) ==> forall user :: Harmless(w.tables, u, user)
    ensures Inv(Gone(w, id).(tables := u))
  {
    hide TablesSound, TxnSound, Harmless;
    forall j | j in w.txns && j != id
      ensures TxnSound(u, w.txns[j])
    {
      if HoldsLock(w.txns[id]) {
        HarmlessKeeps(w.tables, u, w.txns[id].key.user, w.txns[j]);
      } else {
        assert Harmless(w.tables, u, w.txns[j].key.user + 1);
        HarmlessKeeps(w.tables, u, w.txns[j].key.user + 1, w.txns[j]);
      }
    }
  }

  lemma EntryKeeps(w: World, id: nat)
    requires Inv(w) && id in w.txns && w.txns[id].OpenSession?
    ensures Inv(NextCommit(w, id, true))
  {
    hide Inv, OneActive, ActiveElsewhere;
    var txn := w.txns[id];
    var t := w.tables;
    var u := WriteEntry(t, txn.key, txn.participation, txn.seen);
    assert TablesSound(t) && TxnSound(t, txn) by { SoundParts(w, id); }
    assert OneActive(u) by { EntryKeepsOneActive(t, txn); }
    CommitKeepsInv(w, id, u);
  }

  lemma SoundParts(w: World, id: nat)
    requires Inv(w) && id in w.txns
    ensures TablesSound(w.tables) && TxnSound(w.tables, w.txns[id])
  {
  }

  lemma EntryKeepsOneActive(t: Tables, txn: Txn)
    requires TablesSound(t) && txn.OpenSession? && TxnSound(t, txn)
    ensures OneActive(WriteEntry(t, txn.key, txn.participation, txn.seen))
  {
    var u := WriteEntry(t, txn.key, txn.participation, txn.seen);
    forall k | k in u.sessions && k != txn.key && k.user == txn.key.user
      ensures !u.sessions[k].active
    {
      assert k.exam != txn.key.exam;
    }
  }

  lemma EndSound(t: Tables, key: Key, reason: Reason)
    requires TablesSound(t) && EverEntered(t, key)
    ensures TablesSound(WriteEnd(t, key, reason))
  {
    var u := WriteEnd(t, key, reason);
    assert OneActive(u);
    hide OneActive;
    forall k | k in u.sessions
      ensures RowSound(u.sessions[k], Lookup(u.participations, k))
    {
      if k != key {
        assert RowSound(t.sessions[k], Lookup(t.participations, k));
      }
    }
  }

  lemma EndKeeps(w: World, id: nat, reason: Reason)
    requires Inv(w) && id in w.txns
    requires w.txns[id] == EndChecked(w.txns[id].key, reason)
      || (w.txns[id] == ReleaseSeen(w.txns[id].key) && reason == ReleasedByInstructor)
    ensures Inv(Gone(w, id).(tables := WriteEnd(w.tables, w.txns[id].key, reason)))
  {
    hide Inv, ActiveElsewhere, TablesSound, OneActive;
    SoundParts(w, id);
    EndSound(w.tables, w.txns[id].key, reason);
    CommitKeepsInv(w, id, WriteEnd(w.tables, w.txns[id].key, reason));
  }

  lemma ResetKeeps(w: World, id: nat)
    requires Inv(w) && id in w.txns && w.txns[id].ResetSession?
    ensures Inv(NextCommit(w, id, true))
  {
    hide Inv, ActiveElsewhere;
    SoundParts(w, id);
    var txn, t := w.txns[id], w.tables;
    var u := WriteReset(t, txn.key, txn.seen);
    assert OneActive(u);
    hide OneActive;
    forall k | k in u.sessions
      ensures RowSound(u.sessions[k], Lookup(u.participations, k))
    {
      if k in t.sessions {
        assert RowSound(t.sessions[k], Lookup(t.participations, k));
      }
    }
    CommitKeepsInv(w, id, u);
  }

  lemma AutoCloseSound(t: Tables, exam: nat)
    requires TablesSound(t)
    ensures TablesSound(WriteAutoClose(t, exam))
  {
    var u := WriteAutoClose(t, exam);
    assert OneActive(u);
    hide OneActive;
    forall k | k in u.sessions
      ensures RowSound(u.sessions[k], Lookup(u.participations, k))
    {
      assert RowSound(t.sessions[k], Lookup(t.participations, k));
    }
  }

  lemma AutoCloseKeeps(w: World, exam: nat)
    requires Inv(w)
    ensures Inv(w.(tables := WriteAutoClose(w.tables, exam)))
  {
    var t := w.tables;
    var u := WriteAutoClose(t, exam);
    AutoCloseSound(t, exam);
    forall j | j in w.txns
      ensures TxnSound(u, w.txns[j])
    {
      hide TxnSound, TablesSound;
      HarmlessKeeps(t, u, w.txns[j].key.user + 1, w.txns[j]);
    }
  }

  lemma BeginKeeps(w: World, id: nat, txn: Txn)
    requires Inv(w) && TxnSound(w.tables, txn)
    ensures Inv(Begin(w, id, txn))
  {
    hide TxnSound, TablesSound;
  }

  lemma ReplaceKeeps(w: World, id: nat, txn: Txn)
    requires Inv(w) && id in w.txns && TxnSound(w.tables, txn)
    requires HoldsLock(txn) && HoldsLock(w.txns[id]) && txn.key == w.txns[id].key
    ensures Inv(w.(txns := w.txns[id := txn]))
  {
    hide TxnSound, TablesSound;
  }

  lemma GoneKeeps(w: World, id: nat)
    requires Inv(w)
    ensures Inv(Gone(w, id))
  {
    hide TxnSound, TablesSound;
  }

  lemma ReadKeeps(w: World, id: nat)
    requires Inv(w)
    ensures Inv(NextRead(w, id))
  {
    hide Inv, OneActive, ActiveElsewhere;
    if id in w.txns {
      SoundParts(w, id);
      GoneKeeps(w, id);
      var key := w.txns[id].key;
      assert key in w.tables.sessions ==> RowSound(w.tables.sessions[key], Lookup(w.tables.participations, key));
      var v := NextRead(w, id);
      if v != w && v != Gone(w, id) {
        assert v == w.(txns := w.txns[id := v.txns[id]]);
        ReplaceKeeps(w, id, v.txns[id]);
      }
    }
  }

  lemma NextKeeps(w: World, step: Step)
    requires Inv(w)
    ensures Inv(Next(w, step))
  {
    match step
    case BeginOpen(id, key) => BeginKeeps(w, id, OpenLocked(key));
    case BeginEnd(id, key, reason) => BeginKeeps(w, id, EndLocked(key, reason));
    case BeginReset(id, key) => BeginKeeps(w, id, ResetLocked(key));
    case SeeForRelease(id, key) =>
      if IsActive(w.tables, key) {
        assert RowSound(w.tables.sessions[key], Lookup(w.tables.participations, key));
        BeginKeeps(w, id, ReleaseSeen(key));
      }
    case Read(id) => ReadKeeps(w, id);
    case Commit(id, allowed) => CommitKeeps(w, id, allowed);
    case Abort(id) => GoneKeeps(w, id);
    case AutoClose(exam) => AutoCloseKeeps(w, exam);
  }

  lemma CommitKeeps(w: World, id: nat, allowed: bool)
    requires Inv(w)
    ensures Inv(NextCommit(w, id, allowed))
  {
    hide Inv;
    if id in w.txns {
      GoneKeeps(w, id);
      match w.txns[id]
      case OpenSession(_, _, _) => EntryKeeps(w, id);
      case EndChecked(_, reason) => EndKeeps(w, id, reason);
      case ResetSession(_, _) => ResetKeeps(w, id);
      case ReleaseSeen(_) => EndKeeps(w, id, ReleasedByInstructor);
      case _ =>
    }
  }

  lemma {:induction false} RunKeeps(w: World, steps: seq<Step>)
    requires Inv(w)
    ensures Inv(Run(w, steps))
    decreases |steps|
  {
    hide Inv, Next;
    if |steps| > 0 {
      NextKeeps(w, steps[0]);
      RunKeeps(Next(w, steps[0]), steps[1..]);
    }
  }

  // ---------------------------------------------------------------- what holds in every run

  /** However the transactions interleave, a user has at most one active session over all exams. */
  lemma OneActivePerUser(w: World, steps: seq<Step>, k: Key, j: Key)
    requires Initial(w)
    requires var t := Run(w, steps).tables; IsActive(t, k) && IsActive(t, j) && k.user == j.user
    ensures k == j
  {
    RunKeeps(w, steps);
  }

  /** No step changes a participation that was handed in or disqualified. */
  lemma StatusStays(w: World, step: Step, key: Key)
    requires Inv(w) && key in w.tables.participations
    requires w.tables.participations[key] == HandedIn || w.tables.participations[key] == Disqualified
    ensures Lookup(Next(w, step).tables.participations, key) == Lookup(w.tables.participations, key)
  {
    hide OneActive, ActiveElsewhere, RowSound;
    if step.Commit? && step.id in w.txns {
      SoundParts(w, step.id);
    }
  }

  lemma {:induction false} StatusStaysInRun(w: World, steps: seq<Step>, key: Key)
    requires Inv(w) && key in w.tables.participations
    requires w.tables.participations[key] == HandedIn || w.tables.participations[key] == Disqualified
    ensures Lookup(Run(w, steps).tables.participations, key) == Lookup(w.tables.participations, key)
    decreases |steps|
  {
    hide Inv, Next;
    if |steps| > 0 {
      NextKeeps(w, steps[0]);
      StatusStays(w, steps[0], key);
      StatusStaysInRun(Next(w, steps[0]), steps[1..], key);
    }
  }

  /** Once the participation is submitted it stays so, and no session of that user and exam is
      active again. */
  lemma SubmittedIsFinal(w: World, steps: seq<Step>, more: seq<Step>, key: Key)
    requires Initial(w) && HasHandedIn(Run(w, steps).tables, key)
    ensures var t := Run(Run(w, steps), more).tables; HasHandedIn(t, key) && !IsActive(t, key)
  {
    RunKeeps(w, steps);
    StatusStaysInRun(Run(w, steps), more, key);
    RunKeeps(Run(w, steps), more);
    var t := Run(Run(w, steps), more).tables;
    assert key in t.sessions ==> RowSound(t.sessions[key], Lookup(t.participations, key));
  }

  // ---------------------------------------------------------------- a transaction that nothing interrupts

  function OpenSteps(id: nat, key: Key, allowed: bool): seq<Step> {
    [BeginOpen(id, key)] + ([Read(id)] + ([Read(id)] + ([Read(id)] + [Commit(id, allowed)])))
  }

  function EndSteps(id: nat, key: Key, reason: Reason): seq<Step> {
    [BeginEnd(id, key, reason)] + ([Read(id)] + [Commit(id, true)])
  }

  function ResetSteps(id: nat, key: Key): seq<Step> {
    [BeginReset(id, key)] + ([Read(id)] + [Commit(id, true)])
  }

  /** The entry as one operation. */
  function OpenedAlone(t: Tables, key: Key, allowed: bool): Tables {
    var seen, participation := Lookup(t.sessions, key), Lookup(t.participations, key);
    if ActiveElsewhere(t, key) || AlreadySubmitted(seen, participation) || !allowed then t
    else WriteEntry(t, key, participation, seen)
  }

  function EndedAlone(t: Tables, key: Key, reason: Reason): Tables {
    var seen := Lookup(t.sessions, key);
    if !CanEnd(seen) || seen.value.reason == Some(Submitted) then t else WriteEnd(t, key, reason)
  }

  lemma {:induction false} RunAppend(w: World, a: seq<Step>, b: seq<Step>)
    ensures Run(w, a + b) == Run(Run(w, a), b)
    decreases |a|
  {
    hide Next;
    if |a| == 0 {
      assert a + b == b;
    } else {
      assert (a + b)[1..] == a[1..] + b;
      RunAppend(Next(w, a[0]), a[1..], b);
    }
  }

  lemma RunCons(w: World, step: Step, rest: seq<Step>)
    ensures Run(w, [step] + rest) == Run(Next(w, step), rest)
  {
    hide Next;
    assert ([step] + rest)[1..] == rest;
  }

  lemma RunOne(w: World, step: Step)
    ensures Run(w, [step]) == Next(w, step)
  {
    hide Next;
    assert [step][1..] == [];
  }

  /** The five steps of an entry, run without interruption, are the entry as one operation. */
  lemma OpenRunsAlone(w: World, id: nat, key: Key, allowed: bool)
    requires id !in w.txns && LockFree(w, key.user)
    ensures Run(w, OpenSteps(id, key, allowed)) == w.(tables := OpenedAlone(w.tables, key, allowed))
  {
    hide Run, LockFree, ActiveElsewhere, AlreadySubmitted, WriteEntry;
    var w1 := Next(w, BeginOpen(id, key));
    assert w1 == w.(txns := w.txns[id := OpenLocked(key)]);
    var w2, w3, w4 := NextRead(w1, id), NextRead(NextRead(w1, id), id), NextRead(NextRead(NextRead(w1, id), id), id);
    RunCons(w, BeginOpen(id, key), [Read(id)] + ([Read(id)] + ([Read(id)] + [Commit(id, allowed)])));
    RunCons(w1, Read(id), [Read(id)] + ([Read(id)] + [Commit(id, allowed)]));
    RunCons(w2, Read(id), [Read(id)] + [Commit(id, allowed)]);
    RunCons(w3, Read(id), [Commit(id, allowed)]);
    RunOne(w4, Commit(id, allowed));
    if ActiveElsewhere(w.tables, key) {
      assert w2 == w;
    } else {
      var participation := Lookup(w.tables.participations, key);
      assert w3 == w.(txns := w.txns[id := OpenParticipation(key, participation)]);
      if AlreadySubmitted(Lookup(w.tables.sessions, key), participation) {
        assert w4 == w;
      } else {
        assert w4 == w.(txns := w.txns[id := OpenSession(key, participation, Lookup(w.tables.sessions, key))]);
      }
    }
    assert (w.txns[id := OpenLocked(key)]) - {id} == w.txns;
  }

  lemma EndRunsAlone(w: World, id: nat, key: Key, reason: Reason)
    requires id !in w.txns && LockFree(w, key.user)
    ensures Run(w, EndSteps(id, key, reason)) == w.(tables := EndedAlone(w.tables, key, reason))
  {
    hide Run, LockFree, CanEnd, WriteEnd;
    var w1 := Next(w, BeginEnd(id, key, reason));
    assert w1 == w.(txns := w.txns[id := EndLocked(key, reason)]);
    var w2 := NextRead(w1, id);
    RunCons(w, BeginEnd(id, key, reason), [Read(id)] + [Commit(id, true)]);
    RunCons(w1, Read(id), [Commit(id, true)]);
    RunOne(w2, Commit(id, true));
    assert EndedAlone(w.tables, key, reason) == w.tables ==> w.(tables := EndedAlone(w.tables, key, reason)) == w;
  }

  lemma ResetRunsAlone(w: World, id: nat, key: Key)
    requires id !in w.txns && LockFree(w, key.user)
    ensures Run(w, ResetSteps(id, key)) == w.(tables := WriteReset(w.tables, key, Lookup(w.tables.sessions, key)))
  {
    hide Run, LockFree, WriteReset;
    var w1 := Next(w, BeginReset(id, key));
    assert w1 == w.(txns := w.txns[id := ResetLocked(key)]);
    var w2 := NextRead(w1, id);
    RunCons(w, BeginReset(id, key), [Read(id)] + [Commit(id, true)]);
    RunCons(w1, Read(id), [Commit(id, true)]);
    RunOne(w2, Commit(id, true));
    assert w2 == w.(txns := w.txns[id := ResetSession(key, Lookup(w.tables.sessions, key))]);
  }

  // ---------------------------------------------------------------- the mark on the session itself

  /** No step gives a participation the status disqualified. */
  lemma {:induction false} NeverDisqualifies(w: World, steps: seq<Step>, key: Key)
    requires Inv(w) && Lookup(w.tables.participations, key) != Some(Disqualified)
    ensures Lookup(Run(w, steps).tables.participations, key) != Some(Disqualified)
    decreases |steps|
  {
    if |steps| > 0 {
      NextKeeps(w, steps[0]);
      NeverDisqualifies(Next(w, steps[0]), steps[1..], key);
    }
  }

  ghost predicate MarkIsFinal(w: World, key: Key) {
    forall steps, more :: Marked(Run(w, steps).tables, key) ==> !IsActive(Run(Run(w, steps), more).tables, key)
  }

  /** The submitted mark of a session is final for all runs exactly when the participation was
      not disqualified beforehand. */
  lemma MarkIsFinalExactly(w: World, key: Key)
    requires Initial(w)
    ensures MarkIsFinal(w, key) <==> Lookup(w.tables.participations, key) != Some(Disqualified)
  {
    if Lookup(w.tables.participations, key) != Some(Disqualified) {
      forall steps, more | Marked(Run(w, steps).tables, key)
        ensures !IsActive(Run(Run(w, steps), more).tables, key)
      {
        MarkMeansHandedIn(w, steps, key);
        SubmittedIsFinal(w, steps, more, key);
      }
    } else {
      MarkOverwritten(w, key);
    }
  }

  lemma MarkMeansHandedIn(w: World, steps: seq<Step>, key: Key)
    requires Initial(w) && Lookup(w.tables.participations, key) != Some(Disqualified)
    requires Marked(Run(w, steps).tables, key)
    ensures HasHandedIn(Run(w, steps).tables, key)
  {
    RunKeeps(w, steps);
    NeverDisqualifies(w, steps, key);
    var t := Run(w, steps).tables;
    assert RowSound(t.sessions[key], Lookup(t.participations, key));
  }

  /** An instructor sees the active session, the student submits, and the instructor's write
      then replaces the mark; without a submitted participation the session opens again. */
  function MarkingRun(key: Key): seq<Step> {
    OpenSteps(1, key, true) + ([SeeForRelease(2, key)] + EndSteps(3, key, Submitted))
  }

  function ReopeningRun(key: Key): seq<Step> {
    [Commit(2, true)] + OpenSteps(4, key, true)
  }

  lemma MarkOverwritten(w: World, key: Key)
    requires Initial(w) && Lookup(w.tables.participations, key) == Some(Disqualified)
    ensures Marked(Run(w, MarkingRun(key)).tables, key)
    ensures IsActive(Run(Run(w, MarkingRun(key)), ReopeningRun(key)).tables, key)
  {
    hide Run, OpenSteps, EndSteps;
    var entered := w.(tables := OpenedAlone(w.tables, key, true));
    OpenRunsAlone(w, 1, key, true);
    RunAppend(w, OpenSteps(1, key, true), [SeeForRelease(2, key)] + EndSteps(3, key, Submitted));
    var seen := entered.(txns := map[2 := ReleaseSeen(key)]);
    RunCons(entered, SeeForRelease(2, key), EndSteps(3, key, Submitted));
    EndRunsAlone(seen, 3, key, Submitted);
    var marked := seen.(tables := EndedAlone(seen.tables, key, Submitted));
    assert Run(w, MarkingRun(key)) == marked;
    var released := World(WriteEnd(marked.tables, key, ReleasedByInstructor), map[]);
    RunCons(marked, Commit(2, true), OpenSteps(4, key, true));
    assert Next(marked, Commit(2, true)) == released;
    OpenRunsAlone(released, 4, key, true);
  }

  // ---------------------------------------------------------------- the operations

  datatype Failure = NotFound | Forbidden | Conflict | Denied

  datatype Result = Done(session: Session) | Failed(failure: Failure)

  /** The two tables, and the operations on them as the application calls them. */
  class ExamSessions {
    var sessions: map<Key, Session>
    var participations: map<Key, Status>

    ghost function Contents(): Tables
      reads this
    {
      Tables(sessions, participations)
    }

    constructor (participations: map<Key, Status>)
      ensures Contents() == Tables(map[], participations) && TablesSound(Contents())
    {
      this.sessions, this.participations := map[], participations;
    }

    /** `allowed` is what the proctoring gate and the address binding answer. */
    method OpenSessionInTx(key: Key, enrolled: bool, allowed: bool) returns (r: Result)
      requires TablesSound(Contents())
      modifies this
      ensures TablesSound(Contents())
      ensures Contents() == if enrolled then OpenedAlone(old(Contents()), key, allowed) else old(Contents())
      ensures r.Done? ==> r.session == Session(true, None) && IsActive(Contents(), key) && !HasHandedIn(Contents(), key)
      ensures r.Failed? ==> Contents() == old(Contents())
      ensures r == Failed(Conflict) <==> enrolled && ActiveElsewhere(old(Contents()), key)
      ensures r == Failed(Forbidden) <==>
        || !enrolled
        || (&& !ActiveElsewhere(old(Contents()), key)
            && (Marked(old(Contents()), key) || HasHandedIn(old(Contents()), key)))
      ensures r.Failed? ==> r.failure != NotFound && (r.failure == Denied ==> !allowed)
      ensures r.Done? ==> allowed
      ensures OnlyAt(old(Contents()), Contents(), key)
      ensures r.Done? ==> key in participations && Lookup(sessions, key) == Some(Session(true, None))
      ensures r.Done? ==>
        var before := Lookup(old(participations), key);
        participations[key] == if before.None? || before == Some(Registered) then Entered else before.value
    {
      hide Run, OpenSteps, OneActive;
      if !enrolled {
        return Failed(Forbidden);
      }
      AloneSound(Contents(), OpenSteps(0, key, allowed));
      OpenRunsAlone(World(Contents(), map[]), 0, key, allowed);
      if exists k :: k in sessions && k.user == key.user && k.exam != key.exam && sessions[k].active {
        return Failed(Conflict);
      }
      var participation, existing := Lookup(participations, key), Lookup(sessions, key);
      if AlreadySubmitted(existing, participation) {
        return Failed(Forbidden);
      }
      if !allowed {
        return Failed(Denied);
      }
      if participation.None? || participation.value == Registered {
        participations := participations[key := Entered];
      } else {
        assert participations[key := participations[key]] == participations;
      }
      if existing.Some? && existing.value.active {
        assert RowSound(sessions[key], participation);
        return Done(existing.value);
      }
      sessions := sessions[key := Session(true, None)];
      return Done(sessions[key]);
    }

    method EndSession(key: Key, reason: Reason, enrolled: bool) returns (r: Result)
      requires TablesSound(Contents())
      modifies this
      ensures TablesSound(Contents())
      ensures Contents() == if enrolled then EndedAlone(old(Contents()), key, reason) else old(Contents())
      ensures r.Done? ==> key in sessions && r.session == sessions[key] && !IsActive(Contents(), key)
      ensures r.Done? && reason == Submitted ==> Marked(Contents(), key)
      ensures r == Failed(NotFound) <==>
        && enrolled
        && !(key in old(sessions) && (old(sessions)[key].active || old(sessions)[key].reason.Some?))
      ensures r == Failed(Forbidden) <==> !enrolled
      ensures r.Failed? ==> r == Failed(NotFound) || r == Failed(Forbidden)
      ensures r.Failed? || Marked(old(Contents()), key) ==> Contents() == old(Contents())
      ensures OnlyAt(old(Contents()), Contents(), key)
      ensures r.Done? && !Marked(old(Contents()), key) ==>
        && sessions[key] == Session(false, Some(reason))
        && Lookup(participations, key) ==
           if reason == Submitted && Lookup(old(participations), key) == Some(Entered) then Some(HandedIn)
           else Lookup(old(participations), key)
    {
      hide Run, EndSteps, OneActive, ActiveElsewhere;
      if !enrolled {
        return Failed(Forbidden);
      }
      AloneSound(Contents(), EndSteps(0, key, reason));
      EndRunsAlone(World(Contents(), map[]), 0, key, reason);
      if key !in sessions || (!sessions[key].active && sessions[key].reason.None?) {
        return Failed(NotFound);
      }
      assert RowSound(sessions[key], Lookup(participations, key));
      if sessions[key].reason == Some(Submitted) {
        return Done(sessions[key]);
      }
      if reason == Submitted && key in participations && participations[key] == Entered {
        participations := participations[key := HandedIn];
      }
      sessions := sessions[key := Session(false, Some(reason))];
      return Done(sessions[key]);
    }

    method ReleaseSessionAsInstructor(key: Key) returns (r: Result)
      requires TablesSound(Contents())
      modifies this
      ensures TablesSound(Contents())
      ensures r == Failed(NotFound) <==> !IsActive(old(Contents()), key)
      ensures Contents() == if r.Done? then WriteEnd(old(Contents()), key, ReleasedByInstructor) else old(Contents())
      ensures !IsActive(Contents(), key)
      ensures r.Failed? ==> r == Failed(NotFound)
      ensures OnlyAt(old(Contents()), Contents(), key) && participations == old(participations)
      ensures r.Done? ==> r.session == Session(false, Some(ReleasedByInstructor)) && key in sessions
                          && sessions[key] == r.session
    {
      if key !in sessions || !sessions[key].active {
        return Failed(NotFound);
      }
      assert RowSound(sessions[key], Lookup(participations, key));
      EndSound(Contents(), key, ReleasedByInstructor);
      sessions := sessions[key := Session(false, Some(ReleasedByInstructor))];
      return Done(sessions[key]);
    }

    /** `due` says that the exam is published, unchanged since the timer was set, and over. */
    method AutoCloseForExam(exam: nat, due: bool) returns (closed: nat)
      requires TablesSound(Contents())
      modifies this
      ensures TablesSound(Contents())
      ensures Contents() == if due then WriteAutoClose(old(Contents()), exam) else old(Contents())
      ensures due ==> forall k :: k in sessions && k.exam == exam ==> !sessions[k].active
      ensures participations == old(participations) && sessions.Keys == old(sessions).Keys
      ensures forall k :: k in old(sessions) && !(due && k.exam == exam && old(sessions)[k].active) ==>
        sessions[k] == old(sessions)[k]
      ensures forall k :: k in old(sessions) && due && k.exam == exam && old(sessions)[k].active ==>
        sessions[k] == Session(false, Some(TimeUp))
      ensures closed == if due then |set k | k in old(sessions) && k.exam == exam && old(sessions)[k].active| else 0
    {
      if !due {
        return 0;
      }
      hide TablesSound;
      AutoCloseSound(Contents(), exam);
      var open := set k | k in sessions && k.exam == exam && sessions[k].active;
      closed := |open|;
      sessions := map k | k in sessions ::
        if k.exam == exam && sessions[k].active then Session(false, Some(TimeUp)) else sessions[k];
    }

    method ResetStudentIpBinding(key: Key)
      requires TablesSound(Contents())
      modifies this
      ensures TablesSound(Contents())
      ensures Contents() == WriteReset(old(Contents()), key, Lookup(old(sessions), key))
      ensures forall k :: IsActive(Contents(), k) <==> IsActive(old(Contents()), k)
      ensures OnlyAt(old(Contents()), Contents(), key)
      ensures sessions == if key in old(sessions) then old(sessions) else old(sessions)[key := Session(false, None)]
      ensures participations ==
        if key in old(participations) then old(participations) else old(participations)[key := Registered]
    {
      AloneSound(Contents(), ResetSteps(0, key));
      ResetRunsAlone(World(Contents(), map[]), 0, key);
      if key !in participations {
        participations := participations[key := Registered];
      }
      if key !in sessions {
        sessions := sessions[key := Session(false, None)];
      }
    }
  }

  lemma AloneSound(t: Tables, steps: seq<Step>)
    requires TablesSound(t)
    ensures TablesSound(Run(World(t, map[]), steps).tables)
  {
    RunKeeps(World(t, map[]), steps);
  }
}
