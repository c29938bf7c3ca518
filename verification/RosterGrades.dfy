/** `mergeGrades`: moving the grades of one course membership to another, for one of the two
    grade tables (score overrides, submission feedback) and its audit log. */
module RosterGrades {
  import opened Basics

  type Id = string

  /** A grade belongs to an assessment or to an exam, never to both. */
  datatype Context = AssessmentContext(id: Id) | ExamContext(id: Id)

  datatype Grade<V> = Grade(member: Id, problem: Id, context: Context, value: V)

  datatype Action = Create | Update | Delete | Merge

  datatype AuditRow<V> = AuditRow(
    grade: Option<Id>,
    member: Option<Id>,
    sourceMember: Option<Id>,
    student: Option<Id>,
    problem: Id,
    context: Context,
    action: Action,
    before: Option<V>,
    after: Option<V>,
    changedBy: Option<Id>)

  predicate SameSlot<V>(a: Grade<V>, b: Grade<V>) {
    a.problem == b.problem && a.context == b.context
  }

  /** The unique constraints of the grade table. */
  predicate OnePerSlot<V>(grades: map<Id, Grade<V>>) {
    forall g, h ::
      g in grades && h in grades && grades[g].member == grades[h].member && SameSlot(grades[g], grades[h])
      ==> g == h
  }

  // ---------------------------------------------------------------- what merging should do

  /** Which membership each dissolved membership is merged into. */
  type Merges = map<Id, Id>

  predicate Apart(merges: Merges) {
    && (forall s :: s in merges ==> merges[s] !in merges)
    && (forall s, t :: s in merges && t in merges && s != t ==> merges[s] != merges[t])
  }

  /** The survivor already has a grade of its own in the slot of grade `g`. */
  predicate HasTwin<V>(grades: map<Id, Grade<V>>, merges: Merges, g: Id) {
    && g in grades && grades[g].member in merges
    && exists h :: h in grades && grades[h].member == merges[grades[g].member] && SameSlot(grades[g], grades[h])
  }

  ghost function Twin<V>(grades: map<Id, Grade<V>>, merges: Merges, g: Id): (h: Id)
    requires HasTwin(grades, merges, g)
    ensures h in grades && grades[h].member == merges[grades[g].member] && SameSlot(grades[g], grades[h])
  {
    var h :| h in grades && grades[h].member == merges[grades[g].member] && SameSlot(grades[g], grades[h]);
    h
  }

  function Moved<V>(grade: Grade<V>, merges: Merges): Grade<V> {
    if grade.member in merges then grade.(member := merges[grade.member]) else grade
  }

  /** Grades of dissolved memberships pass to the survivor unless it has its own. */
  ghost function MergedGrades<V>(grades: map<Id, Grade<V>>, merges: Merges): map<Id, Grade<V>> {
    map g | g in grades && !HasTwin(grades, merges, g) :: Moved(grades[g], merges)
  }

  /** An audit row follows its membership and its grade to the survivor. */
  ghost function Repointed<V>(a: AuditRow<V>, grades: map<Id, Grade<V>>, merges: Merges): AuditRow<V> {
    a.(
      sourceMember :=
        if a.member.Some? && a.member.value in merges && a.sourceMember.None? then a.member else a.sourceMember,
      member := if a.member.Some? && a.member.value in merges then Some(merges[a.member.value]) else a.member,
      grade := if a.grade.Some? && HasTwin(grades, merges, a.grade.value)
               then Some(Twin(grades, merges, a.grade.value)) else a.grade)
  }

  /** The row that records a conflict: the grade given up and the grade that stands. */
  ghost function MergeRow<V>(grades: map<Id, Grade<V>>, merges: Merges, g: Id, user: Id): AuditRow<V>
    requires HasTwin(grades, merges, g)
  {
    var lost, kept := grades[g], Twin(grades, merges, g);
    AuditRow(Some(kept), Some(merges[lost.member]), Some(lost.member), Some(user),
             lost.problem, lost.context, Merge, Some(lost.value), Some(grades[kept].value), Some(user))
  }

  /** The state after merging: `conflicts` lists the grades given up, each exactly once. */
  ghost predicate MergedInto<V>(grades: map<Id, Grade<V>>, audits: seq<AuditRow<V>>, merges: Merges, user: Id,
                                grades': map<Id, Grade<V>>, audits': seq<AuditRow<V>>, conflicts: seq<Id>) {
    && grades' == MergedGrades(grades, merges)
    && (forall i, j :: 0 <= i < j < |conflicts| ==> conflicts[i] != conflicts[j])
    && (forall g :: g in conflicts <==> HasTwin(grades, merges, g))
    && |audits'| == |audits| + |conflicts|
    && (forall i :: 0 <= i < |audits| ==> audits'[i] == Repointed(audits[i], grades, merges))
    && (forall k :: 0 <= k < |conflicts| ==>
          HasTwin(grades, merges, conflicts[k])
          && audits'[|audits| + k] == MergeRow(grades, merges, conflicts[k], user))
  }

  // ---------------------------------------------------------------- what that conserves

  /** Every slot graded on either side is graded on the survivor, whose own value wins; other
      memberships' grades are as before, and no two grades share a slot. */
  lemma MergeConserves<V>(grades: map<Id, Grade<V>>, merges: Merges)
    requires OnePerSlot(grades) && Apart(merges)
    ensures var after := MergedGrades(grades, merges);
      && OnePerSlot(after)
      && (forall g :: g in after ==> after[g].member !in merges)
      && (forall g :: g in grades && grades[g].member !in merges ==> g in after && after[g] == grades[g])
      && (forall g :: g in grades && grades[g].member in merges ==>
            if HasTwin(grades, merges, g)
            then g !in after && var h := Twin(grades, merges, g); h in after && after[h] == grades[h]
            else g in after && after[g] == grades[g].(member := merges[grades[g].member]))
  {
    var after := MergedGrades(grades, merges);
    forall g, h | g in after && h in after && after[g].member == after[h].member && SameSlot(after[g], after[h])
      ensures g == h
    {
      assert SameSlot(grades[g], grades[h]);
    }
    forall g | HasTwin(grades, merges, g)
      ensures Twin(grades, merges, g) in after
    {
      var h := Twin(grades, merges, g);
      assert grades[h].member !in merges;
    }
  }

  /** Grades and audit rows that point at live memberships and grades still do. */
  predicate GradesHeld<V>(grades: map<Id, Grade<V>>, members: set<Id>) {
    forall g :: g in grades ==> grades[g].member in members
  }

  predicate AuditsHeld<V>(audits: seq<AuditRow<V>>, grades: map<Id, Grade<V>>) {
    forall i :: 0 <= i < |audits| && audits[i].grade.Some? ==> audits[i].grade.value in grades
  }

  predicate AuditsAway<V>(audits: seq<AuditRow<V>>, merges: Merges) {
    forall i :: 0 <= i < |audits| && audits[i].member.Some? ==> audits[i].member.value !in merges
  }

  /** No audit row is lost, changes what it recorded, or points at a grade or a membership
      that the merge dissolves. */
  lemma AuditsConserved<V>(grades: map<Id, Grade<V>>, audits: seq<AuditRow<V>>, merges: Merges, user: Id,
                           grades': map<Id, Grade<V>>, audits': seq<AuditRow<V>>, conflicts: seq<Id>)
    requires OnePerSlot(grades) && Apart(merges) && AuditsHeld(audits, grades)
    requires MergedInto(grades, audits, merges, user, grades', audits', conflicts)
    ensures AuditsHeld(audits', grades') && AuditsAway(audits', merges)
    ensures forall i :: 0 <= i < |audits| ==>
      var a, b := audits[i], audits'[i];
      && a.(grade := b.grade, member := b.member, sourceMember := b.sourceMember) == b
      && (if a.member.Some? && a.member.value in merges
          then
            && b.member == Some(merges[a.member.value])
            && b.sourceMember == if a.sourceMember.None? then a.member else a.sourceMember
          else b.member == a.member && b.sourceMember == a.sourceMember)
      && (a.grade.Some? <==> b.grade.Some?)
      && (a.grade.Some? && a.grade.value in grades' ==> b.grade == a.grade)
      && (a.grade.Some? && a.grade.value !in grades' ==>
            var lost, kept := grades[a.grade.value], grades'[b.grade.value];
            SameSlot(lost, kept) && lost.member in merges && kept.member == merges[lost.member])
  {
    MergeConserves(grades, merges);
    forall i | 0 <= i < |audits'|
      ensures audits'[i].grade.Some? ==> audits'[i].grade.value in grades'
      ensures audits'[i].member.Some? ==> audits'[i].member.value !in merges
    {
      if i >= |audits| {
        var g := conflicts[i - |audits|];
        assert audits'[|audits| + (i - |audits|)] == MergeRow(grades, merges, g, user);
        assert HasTwin(grades, merges, g);
      }
    }
  }

  /** Each grade given up is recorded in one new row: what it was, the grade of the same slot that
      stands instead, whose both were, and who caused it. Nothing else is recorded. */
  lemma ConflictsRecorded<V>(grades: map<Id, Grade<V>>, audits: seq<AuditRow<V>>, merges: Merges, user: Id,
                             grades': map<Id, Grade<V>>, audits': seq<AuditRow<V>>, conflicts: seq<Id>, k: nat)
    requires OnePerSlot(grades) && Apart(merges) && k < |conflicts|
    requires MergedInto(grades, audits, merges, user, grades', audits', conflicts)
    ensures |audits'| == |audits| + |conflicts| && (set g | g in conflicts) == grades.Keys - grades'.Keys
    ensures conflicts[k] in grades && grades[conflicts[k]].member in merges
    ensures var lost, row := grades[conflicts[k]], audits'[|audits| + k];
      && row.grade.Some? && row.grade.value in grades'
      && var kept := grades'[row.grade.value];
         && SameSlot(lost, kept) && kept.member == merges[lost.member]
         && row.before == Some(lost.value) && row.after == Some(kept.value)
         && row.sourceMember == Some(lost.member) && row.member == Some(kept.member)
         && row.problem == lost.problem && row.context == lost.context && row.action == Merge
         && row.student == Some(user) && row.changedBy == Some(user)
  {
    MergeConserves(grades, merges);
    assert audits'[|audits| + k] == MergeRow(grades, merges, conflicts[k], user);
  }

  // ---------------------------------------------------------------- one merge after another

  predicate Unrelated(merges: Merges, s: Id, t: Id) {
    && s != t && s !in merges && t !in merges
    && forall m :: m in merges ==> merges[m] != s && merges[m] != t
  }

  /** A further merge sees the same conflicts as if all had been made at once. */
  lemma TwinsCompose<V>(grades: map<Id, Grade<V>>, merges: Merges, s: Id, t: Id, g: Id)
    requires OnePerSlot(grades) && Apart(merges) && Unrelated(merges, s, t)
    ensures var mid := MergedGrades(grades, merges);
      && (HasTwin(grades, merges, g) ==>
            && HasTwin(grades, merges[s := t], g)
            && Twin(grades, merges[s := t], g) == Twin(grades, merges, g) && g !in mid)
      && (HasTwin(mid, map[s := t], g) ==>
            && HasTwin(grades, merges[s := t], g)
            && Twin(grades, merges[s := t], g) == Twin(mid, map[s := t], g) && mid[g] == grades[g]
            && mid[Twin(mid, map[s := t], g)] == grades[Twin(mid, map[s := t], g)])
      && (HasTwin(grades, merges[s := t], g) ==> HasTwin(grades, merges, g) || HasTwin(mid, map[s := t], g))
  {
    var mid, both := MergedGrades(grades, merges), merges[s := t];
    if HasTwin(grades, merges, g) {
      var h := Twin(grades, merges, g);
      assert grades[h].member == both[grades[g].member];
    }
    if HasTwin(mid, map[s := t], g) {
      var h := Twin(mid, map[s := t], g);
      assert mid[h] == grades[h] && mid[g] == grades[g];
      assert grades[h].member == both[grades[g].member];
    }
    if HasTwin(grades, both, g) && !HasTwin(grades, merges, g) {
      var h := Twin(grades, both, g);
      assert grades[g].member == s;
      assert g in mid && h in mid && mid[h] == grades[h];
    }
  }

  lemma GradesCompose<V>(grades: map<Id, Grade<V>>, merges: Merges, s: Id, t: Id)
    requires OnePerSlot(grades) && Apart(merges) && Unrelated(merges, s, t)
    ensures MergedGrades(MergedGrades(grades, merges), map[s := t]) == MergedGrades(grades, merges[s := t])
  {
    var mid := MergedGrades(grades, merges);
    forall g
      ensures HasTwin(grades, merges[s := t], g) <==> HasTwin(grades, merges, g) || HasTwin(mid, map[s := t], g)
    {
      TwinsCompose(grades, merges, s, t, g);
    }
  }

  lemma RepointCompose<V>(a: AuditRow<V>, grades: map<Id, Grade<V>>, merges: Merges, s: Id, t: Id)
    requires OnePerSlot(grades) && Apart(merges) && Unrelated(merges, s, t)
    ensures Repointed(Repointed(a, grades, merges), MergedGrades(grades, merges), map[s := t])
      == Repointed(a, grades, merges[s := t])
  {
    var mid := MergedGrades(grades, merges);
    if a.grade.Some? {
      var g := a.grade.value;
      TwinsCompose(grades, merges, s, t, g);
      if HasTwin(grades, merges, g) {
        var h := Twin(grades, merges, g);
        assert grades[h].member != s && grades[h].member !in merges;
        assert !HasTwin(mid, map[s := t], h);
      }
    }
  }

  lemma RowCompose<V>(grades: map<Id, Grade<V>>, merges: Merges, s: Id, t: Id, g: Id, user: Id)
    requires OnePerSlot(grades) && Apart(merges) && Unrelated(merges, s, t)
    ensures HasTwin(grades, merges, g) ==>
      && HasTwin(grades, merges[s := t], g)
      && Repointed(MergeRow(grades, merges, g, user), MergedGrades(grades, merges), map[s := t])
        == MergeRow(grades, merges[s := t], g, user)
    ensures HasTwin(MergedGrades(grades, merges), map[s := t], g) ==>
      && HasTwin(grades, merges[s := t], g)
      && MergeRow(MergedGrades(grades, merges), map[s := t], g, user) == MergeRow(grades, merges[s := t], g, user)
  {
    var mid := MergedGrades(grades, merges);
    TwinsCompose(grades, merges, s, t, g);
    if HasTwin(grades, merges, g) {
      var h := Twin(grades, merges, g);
      assert grades[h].member != s && grades[h].member !in merges;
      assert !HasTwin(mid, map[s := t], h);
    }
  }

  /** Merging course after course comes to merging all at once. */
  lemma MergesCompose<V>(grades: map<Id, Grade<V>>, audits: seq<AuditRow<V>>, merges: Merges, user: Id,
                         grades1: map<Id, Grade<V>>, audits1: seq<AuditRow<V>>, conflicts1: seq<Id>, s: Id, t: Id,
                         grades2: map<Id, Grade<V>>, audits2: seq<AuditRow<V>>, conflicts2: seq<Id>)
    requires OnePerSlot(grades) && Apart(merges) && Unrelated(merges, s, t)
    requires MergedInto(grades, audits, merges, user, grades1, audits1, conflicts1)
    requires MergedInto(grades1, audits1, map[s := t], user, grades2, audits2, conflicts2)
    ensures MergedInto(grades, audits, merges[s := t], user, grades2, audits2, conflicts1 + conflicts2)
  {
    hide HasTwin, Repointed, MergeRow, MergedGrades, OnePerSlot, Apart, Unrelated;
    var both, all := merges[s := t], conflicts1 + conflicts2;
    GradesCompose(grades, merges, s, t);
    forall g
      ensures HasTwin(grades, both, g) <==> HasTwin(grades, merges, g) || HasTwin(grades1, map[s := t], g)
      ensures !(HasTwin(grades, merges, g) && HasTwin(grades1, map[s := t], g))
    {
      TwinsCompose(grades, merges, s, t, g);
      TwinPresent(grades1, map[s := t], g);
    }
    assert forall g :: g in all <==> g in conflicts1 || g in conflicts2;
    forall i, j | 0 <= i < j < |all|
      ensures all[i] != all[j]
    {
      if i < |conflicts1| <= j {
        assert all[i] in conflicts1 && all[j] in conflicts2;
      }
    }
    forall i | 0 <= i < |audits|
      ensures audits2[i] == Repointed(audits[i], grades, both)
    {
      assert audits1[i] == Repointed(audits[i], grades, merges);
      assert audits2[i] == Repointed(audits1[i], grades1, map[s := t]);
      RepointCompose(audits[i], grades, merges, s, t);
    }
    forall k | 0 <= k < |all|
      ensures HasTwin(grades, both, all[k]) && audits2[|audits| + k] == MergeRow(grades, both, all[k], user)
    {
      RowCompose(grades, merges, s, t, all[k], user);
      if k < |conflicts1| {
        assert audits1[|audits| + k] == MergeRow(grades, merges, conflicts1[k], user);
        assert audits2[|audits| + k] == Repointed(audits1[|audits| + k], grades1, map[s := t]);
      } else {
        var j := k - |conflicts1|;
        assert audits2[|audits1| + j] == MergeRow(grades1, map[s := t], conflicts2[j], user);
      }
    }
  }

  lemma TwinPresent<V>(grades: map<Id, Grade<V>>, merges: Merges, g: Id)
    ensures HasTwin(grades, merges, g) ==> g in grades
  {
  }

  lemma NotEmpty(ids: seq<Id>)
    requires ids != []
    ensures exists g :: g in ids
  {
    assert ids[0] in ids;
  }

  /** After a merge the dissolved membership holds no grade. */
  lemma NoneLeft<V>(grades: map<Id, Grade<V>>, audits: seq<AuditRow<V>>, s: Id, t: Id, user: Id,
                    grades': map<Id, Grade<V>>, audits': seq<AuditRow<V>>, conflicts: seq<Id>)
    requires OnePerSlot(grades) && s != t
    requires MergedInto(grades, audits, map[s := t], user, grades', audits', conflicts)
    ensures forall g :: g in grades' ==> grades'[g].member != s
  {
    MergeConserves(grades, map[s := t]);
  }

  /** With nothing to merge nothing changes. */
  lemma NothingMerged<V>(grades: map<Id, Grade<V>>, audits: seq<AuditRow<V>>, user: Id,
                         grades': map<Id, Grade<V>>, audits': seq<AuditRow<V>>, conflicts: seq<Id>)
    requires MergedInto(grades, audits, map[], user, grades', audits', conflicts)
    ensures grades' == grades && audits' == audits && conflicts == []
  {
    if conflicts != [] {
      NotEmpty(conflicts);
    }
    assert grades' == grades;
    assert audits' == audits;
  }

  // ---------------------------------------------------------------- the table and its method

  /** Half-way through the loop: the grades in `done` have been dealt with. */
  ghost function PartlyMerged<V>(grades: map<Id, Grade<V>>, merges: Merges, done: set<Id>): map<Id, Grade<V>> {
    map g | g in grades && !(g in done && HasTwin(grades, merges, g)) ::
      if g in done then Moved(grades[g], merges) else grades[g]
  }

  ghost function PartlyRepointed<V>(a: AuditRow<V>, grades: map<Id, Grade<V>>, merges: Merges,
                                    done: set<Id>): AuditRow<V>
  {
    var b := Repointed(a, grades, merges);
    if a.grade.Some? && a.grade.value !in done then b.(grade := a.grade) else b
  }

  /** Looking up the survivor's grade in the table as it is then finds exactly the twin. */
  lemma LookupFindsTwin<V>(grades: map<Id, Grade<V>>, merges: Merges, done: set<Id>, g: Id, h: Id)
    requires OnePerSlot(grades) && Apart(merges)
    requires g in grades && g !in done && grades[g].member in merges
    requires forall d :: d in done ==> d in grades && grades[d].member in merges
    ensures var now := PartlyMerged(grades, merges, done);
      h in now && now[h].member == merges[grades[g].member] && SameSlot(grades[g], now[h])
      <==> HasTwin(grades, merges, g) && h == Twin(grades, merges, g)
  {
    if HasTwin(grades, merges, g) {
      var t := Twin(grades, merges, g);
      assert grades[t].member !in merges;
    }
  }

  /** Where the loop stands once the grades in `done` have been dealt with. */
  ghost predicate MergedSoFar<V>(grades0: map<Id, Grade<V>>, audits0: seq<AuditRow<V>>, merges: Merges, user: Id,
                                 done: set<Id>, conflicts: seq<Id>,
                                 grades: map<Id, Grade<V>>, audits: seq<AuditRow<V>>) {
    && grades == PartlyMerged(grades0, merges, done)
    && ConflictsAre(grades0, merges, done, conflicts)
    && AuditsAre(grades0, audits0, merges, user, done, conflicts, audits)
  }

  ghost predicate ConflictsAre<V>(grades0: map<Id, Grade<V>>, merges: Merges, done: set<Id>, conflicts: seq<Id>) {
    && (forall i, j :: 0 <= i < j < |conflicts| ==> conflicts[i] != conflicts[j])
    && (forall g :: g in conflicts <==> g in done && HasTwin(grades0, merges, g))
  }

  ghost predicate AuditsAre<V>(grades0: map<Id, Grade<V>>, audits0: seq<AuditRow<V>>, merges: Merges, user: Id,
                               done: set<Id>, conflicts: seq<Id>, audits: seq<AuditRow<V>>) {
    && |audits| == |audits0| + |conflicts|
    && (forall i :: 0 <= i < |audits0| ==> audits[i] == PartlyRepointed(audits0[i], grades0, merges, done))
    && (forall k :: 0 <= k < |conflicts| ==>
          HasTwin(grades0, merges, conflicts[k])
          && audits[|audits0| + k] == MergeRow(grades0, merges, conflicts[k], user))
  }

  lemma MoveStep<V>(grades0: map<Id, Grade<V>>, audits0: seq<AuditRow<V>>, merges: Merges, user: Id,
                    done: set<Id>, conflicts: seq<Id>, grades: map<Id, Grade<V>>, audits: seq<AuditRow<V>>, g: Id)
    requires MergedSoFar(grades0, audits0, merges, user, done, conflicts, grades, audits)
    requires g in grades0 && g !in done && grades0[g].member in merges && !HasTwin(grades0, merges, g)
    ensures MergedSoFar(grades0, audits0, merges, user, done + {g}, conflicts,
                        grades[g := grades0[g].(member := merges[grades0[g].member])], audits)
  {
    hide HasTwin, MergeRow, Twin;
    forall i | 0 <= i < |audits0|
      ensures audits[i] == PartlyRepointed(audits0[i], grades0, merges, done + {g})
    {
      assert audits[i] == PartlyRepointed(audits0[i], grades0, merges, done);
    }
  }

  /** The audit log after the updates made for one conflict. */
  ghost predicate ConflictRecorded<V>(audits: seq<AuditRow<V>>, audits': seq<AuditRow<V>>, g: Id, h: Id,
                                      row: AuditRow<V>)
  {
    && |audits'| == |audits| + 1
    && (forall i :: 0 <= i < |audits| ==>
          audits'[i] == if audits[i].grade == Some(g) then audits[i].(grade := Some(h)) else audits[i])
    && audits'[|audits|] == row
  }

  lemma ConflictStep<V>(grades0: map<Id, Grade<V>>, audits0: seq<AuditRow<V>>, merges: Merges, user: Id,
                        done: set<Id>, conflicts: seq<Id>, grades: map<Id, Grade<V>>, audits: seq<AuditRow<V>>,
                        g: Id, audits': seq<AuditRow<V>>)
    requires MergedSoFar(grades0, audits0, merges, user, done, conflicts, grades, audits)
    requires Apart(merges) && HasTwin(grades0, merges, g) && g !in done
    requires ConflictRecorded(audits, audits', g, Twin(grades0, merges, g), MergeRow(grades0, merges, g, user))
    ensures MergedSoFar(grades0, audits0, merges, user, done + {g}, conflicts + [g], grades - {g}, audits')
  {
    ConflictAudits(grades0, audits0, merges, user, done, conflicts, audits, g, audits');
    var conflicts' := conflicts + [g];
    assert conflicts'[|conflicts|] == g;
    forall d
      ensures d in conflicts' <==> d in done + {g} && HasTwin(grades0, merges, d)
    {
      assert d in conflicts' <==> d in conflicts || d == g;
    }
    assert PartlyMerged(grades0, merges, done + {g}) == grades - {g};
  }

  lemma TwinIsNoSource<V>(grades0: map<Id, Grade<V>>, merges: Merges, g: Id)
    requires Apart(merges) && HasTwin(grades0, merges, g)
    ensures Twin(grades0, merges, g) in grades0 && grades0[Twin(grades0, merges, g)].member !in merges
    ensures grades0[g].member in merges
  {
  }

  lemma ConflictAudits<V>(grades0: map<Id, Grade<V>>, audits0: seq<AuditRow<V>>, merges: Merges, user: Id,
                          done: set<Id>, conflicts: seq<Id>, audits: seq<AuditRow<V>>, g: Id, audits': seq<AuditRow<V>>)
    requires AuditsAre(grades0, audits0, merges, user, done, conflicts, audits)
    requires Apart(merges) && HasTwin(grades0, merges, g) && g !in done
    requires ConflictRecorded(audits, audits', g, Twin(grades0, merges, g), MergeRow(grades0, merges, g, user))
    ensures AuditsAre(grades0, audits0, merges, user, done + {g}, conflicts + [g], audits')
  {
    TwinIsNoSource(grades0, merges, g);
    var conflicts' := conflicts + [g];
    forall k | 0 <= k < |conflicts'|
      ensures HasTwin(grades0, merges, conflicts'[k])
      ensures audits'[|audits0| + k] == MergeRow(grades0, merges, conflicts'[k], user)
    {
      if k < |conflicts| {
        assert audits[|audits0| + k] == MergeRow(grades0, merges, conflicts[k], user);
        TwinIsNoSource(grades0, merges, conflicts[k]);
      }
    }
    forall i | 0 <= i < |audits0|
      ensures audits'[i] == PartlyRepointed(audits0[i], grades0, merges, done + {g})
    {
      var a := audits0[i];
      assert audits[i] == PartlyRepointed(a, grades0, merges, done);
      if a.grade.Some? && a.grade.value in done && HasTwin(grades0, merges, a.grade.value) {
        TwinIsNoSource(grades0, merges, a.grade.value);
      }
    }
  }

  lemma MergedGradesAre<V>(grades0: map<Id, Grade<V>>, audits0: seq<AuditRow<V>>, merges: Merges, user: Id,
                           done: set<Id>, conflicts: seq<Id>, grades: map<Id, Grade<V>>, audits: seq<AuditRow<V>>)
    requires MergedSoFar(grades0, audits0, merges, user, done, conflicts, grades, audits)
    ensures grades == PartlyMerged(grades0, merges, done)
  {
  }

  lemma TwinUntouched<V>(grades0: map<Id, Grade<V>>, merges: Merges, done: set<Id>, h: Id)
    requires h in grades0 && grades0[h].member !in merges
    ensures h in PartlyMerged(grades0, merges, done) && PartlyMerged(grades0, merges, done)[h] == grades0[h]
  {
  }

  /** With every grade of the dissolved membership dealt with, the merge is complete. */
  lemma AllDone<V>(grades0: map<Id, Grade<V>>, audits0: seq<AuditRow<V>>, merges: Merges, user: Id,
                   done: set<Id>, conflicts: seq<Id>, grades: map<Id, Grade<V>>, audits: seq<AuditRow<V>>)
    requires MergedSoFar(grades0, audits0, merges, user, done, conflicts, grades, audits)
    requires forall g :: g in done <==> g in grades0 && grades0[g].member in merges
    ensures MergedInto(grades0, audits0, merges, user, grades, audits, conflicts)
  {
    forall g | HasTwin(grades0, merges, g)
      ensures g in done
    {
    }
    hide HasTwin, MergeRow;
    assert grades == MergedGrades(grades0, merges);
    forall i | 0 <= i < |audits0|
      ensures audits[i] == Repointed(audits0[i], grades0, merges)
    {
      assert audits[i] == PartlyRepointed(audits0[i], grades0, merges, done);
    }
  }

  lemma NotFoundNoTwin<V>(grades: map<Id, Grade<V>>, merges: Merges, done: set<Id>, g: Id)
    requires OnePerSlot(grades) && Apart(merges)
    requires g in grades && g !in done && grades[g].member in merges
    requires forall d :: d in done ==> d in grades && grades[d].member in merges
    requires var now := PartlyMerged(grades, merges, done);
      forall h :: h in now ==> !(now[h].member == merges[grades[g].member] && SameSlot(grades[g], now[h]))
    ensures !HasTwin(grades, merges, g)
  {
    if HasTwin(grades, merges, g) {
      LookupFindsTwin(grades, merges, done, g, Twin(grades, merges, g));
    }
  }

  class GradeTable<V(==)> {
    var grades: map<Id, Grade<V>>
    var audits: seq<AuditRow<V>>

    constructor (grades: map<Id, Grade<V>>, audits: seq<AuditRow<V>>)
      ensures this.grades == grades && this.audits == audits
    {
      this.grades, this.audits := grades, audits;
    }

    /** The two `updateMany` calls on the audit log that start the merge. */
    method MoveAudits(source: Id, target: Id)
      requires source != target
      modifies this`audits
      ensures |audits| == |old(audits)|
      ensures forall i :: 0 <= i < |audits| ==>
        audits[i] == PartlyRepointed(old(audits[i]), grades, map[source := target], {})
    {
      audits := seq(|audits|, i requires 0 <= i < |audits| reads this =>
        if audits[i].member == Some(source) && audits[i].sourceMember == None
        then audits[i].(sourceMember := Some(source)) else audits[i]);
      audits := seq(|audits|, i requires 0 <= i < |audits| reads this =>
        if audits[i].member == Some(source) then audits[i].(member := Some(target)) else audits[i]);
    }

    predicate InSlot(g: Id, member: Id, problem: Id, context: Context)
      reads this`grades
    {
      && g in grades
      && grades[g].member == member && grades[g].problem == problem && grades[g].context == context
    }

    method FindFirst(member: Id, problem: Id, context: Context) returns (found: Option<Id>)
      ensures found.Some? ==> InSlot(found.value, member, problem, context)
      ensures found.None? ==> forall h :: h in grades ==> !InSlot(h, member, problem, context)
    {
      if h: Id :|
           h in grades && grades[h].member == member && grades[h].problem == problem && grades[h].context == context {
        return Some(h);
      }
      return None;
    }

    /** Deleting a grade clears the reference of every audit row that still points at it. */
    method DeleteGrade(g: Id)
      modifies this
      ensures grades == old(grades) - {g}
      ensures |audits| == |old(audits)|
      ensures forall i :: 0 <= i < |audits| ==>
        audits[i] == if old(audits[i]).grade == Some(g) then old(audits[i]).(grade := None) else old(audits[i])
    {
      grades := grades - {g};
      audits := seq(|audits|, i requires 0 <= i < |audits| reads this =>
        if audits[i].grade == Some(g) then audits[i].(grade := None) else audits[i]);
    }

    /** Deleting a membership deletes the grades it still holds; after a merge it holds none. */
    method DeleteOf(member: Id)
      modifies this
      ensures grades == map g | g in old(grades) && old(grades)[g].member != member :: old(grades)[g]
      ensures (forall g :: g in old(grades) ==> old(grades)[g].member != member) ==>
        grades == old(grades) && audits == old(audits)
    {
      var held := set g | g in grades && grades[g].member == member;
      grades := map g | g in grades && grades[g].member != member :: grades[g];
      if held != {} {
        audits := seq(|audits|, i requires 0 <= i < |audits| reads this =>
          if audits[i].grade.Some? && audits[i].grade.value in held then audits[i].(grade := None) else audits[i]);
      }
    }

    /** Both sides graded the slot: record the conflict, hand the history over, drop the loser. */
    method ResolveConflict(g: Id, h: Id, source: Id, target: Id, user: Id)
      requires g in grades && h in grades && g != h
      modifies this
      ensures grades == old(grades) - {g}
      ensures |audits| == |old(audits)| + 1
      ensures forall i :: 0 <= i < |old(audits)| ==>
        audits[i] == if old(audits[i]).grade == Some(g) then old(audits[i]).(grade := Some(h)) else old(audits[i])
      ensures audits[|old(audits)|] ==
        AuditRow(Some(h), Some(target), Some(source), Some(user), old(grades)[g].problem, old(grades)[g].context,
                 Merge, Some(old(grades)[g].value), Some(old(grades)[h].value), Some(user))
    {
      audits := audits + [
        AuditRow(Some(h), Some(target), Some(source), Some(user), grades[g].problem, grades[g].context,
                 Merge, Some(grades[g].value), Some(grades[h].value), Some(user))];
      audits := seq(|audits|, i requires 0 <= i < |audits| reads this =>
        if audits[i].grade == Some(g) then audits[i].(grade := Some(h)) else audits[i]);
      DeleteGrade(g);
    }

    /** One turn of the loop. */
    method MergeOne(g: Id, source: Id, target: Id, user: Id, ghost grades0: map<Id, Grade<V>>,
                    ghost audits0: seq<AuditRow<V>>, ghost done: set<Id>, ghost conflicts: seq<Id>)
      returns (ghost conflicts': seq<Id>)
      requires source != target && OnePerSlot(grades0)
      requires g in grades0 && grades0[g].member == source && g !in done
      requires forall d :: d in done ==> d in grades0 && grades0[d].member == source
      requires MergedSoFar(grades0, audits0, map[source := target], user, done, conflicts, grades, audits)
      modifies this
      ensures MergedSoFar(grades0, audits0, map[source := target], user, done + {g}, conflicts', grades, audits)
    {
      ghost var merges := map[source := target];
      ghost var grades1, audits1 := grades, audits;
      var row := grades[g];
      var twin := FindFirst(target, row.problem, row.context);
      assert row == grades0[g];
      hide MergedSoFar, PartlyMerged;
      if twin.None? {
        MergedGradesAre(grades0, audits0, merges, user, done, conflicts, grades, audits);
        NotFoundNoTwin(grades0, merges, done, g);
        grades := grades[g := row.(member := target)];
        conflicts' := conflicts;
        MoveStep(grades0, audits0, merges, user, done, conflicts, grades1, audits1, g);
      } else {
        LookupFindsTwin(grades0, merges, done, g, twin.value);
        MergedGradesAre(grades0, audits0, merges, user, done, conflicts, grades, audits);
        TwinIsNoSource(grades0, merges, g);
        TwinUntouched(grades0, merges, done, twin.value);
        ResolveConflict(g, twin.value, source, target, user);
        conflicts' := conflicts + [g];
        assert ConflictRecorded(audits1, audits, g, twin.value, MergeRow(grades0, merges, g, user));
        ConflictStep(grades0, audits0, merges, user, done, conflicts, grades1, audits1, g, audits);
      }
    }

    /** `mergeGrades` on this table, whatever order the database lists the grades in. */
    method MergeGrades(source: Id, target: Id, user: Id) returns (ghost conflicts: seq<Id>)
      requires source != target && OnePerSlot(grades)
      modifies this
      ensures MergedInto(old(grades), old(audits), map[source := target], user, grades, audits, conflicts)
    {
      ghost var grades0, audits0, merges := grades, audits, map[source := target];
      MoveAudits(source, target);
      var todo := set g | g in grades && grades[g].member == source;
      ghost var all, done: set<Id> := todo, {};
      conflicts := [];
      assert MergedSoFar(grades0, audits0, merges, user, {}, conflicts, grades, audits);
      hide MergedSoFar, MergedInto;
      while todo != {}
        invariant todo + done == all && todo !! done
        invariant MergedSoFar(grades0, audits0, merges, user, done, conflicts, grades, audits)
        decreases todo
      {
        var g :| g in todo;
        conflicts := MergeOne(g, source, target, user, grades0, audits0, done, conflicts);
        todo, done := todo - {g}, done + {g};
      }
      AllDone(grades0, audits0, merges, user, done, conflicts, grades, audits);
    }
  }
}
