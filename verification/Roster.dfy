/** `bindPendingMemberships`: the memberships kept for a username become those of the user who
    owns it, merging with memberships the user already has. */
module Roster {
  import opened Basics
  import opened RosterGrades

  datatype Role = Teacher | TeachingAssistant | Student
  datatype MemberStatus = Active | Gone

  datatype Score = Score(points: int, reason: string)

  datatype Membership = Membership(
    course: Id, user: Option<Id>, pending: Option<string>,
    role: Role, status: MemberStatus, removedAt: Option<int>)

  type Members = map<Id, Membership>

  /** A membership has a user or a pending username, each at most once in a course. */
  predicate MembersValid(members: Members) {
    && (forall m :: m in members ==> members[m].user.Some? != members[m].pending.Some?)
    && (forall m, n ::
          m in members && n in members && members[m].course == members[n].course
          && ((members[m].user.Some? && members[m].user == members[n].user)
              || (members[m].pending.Some? && members[m].pending == members[n].pending))
          ==> m == n)
  }

  /** Who asks: the user, their username, whether the school vouches for it, and the course. */
  datatype Claim = Claim(user: Id, username: string, verified: bool, course: Option<Id>) {
    /** The rows that `findMany` selects. */
    predicate Selects(m: Membership) {
      m.pending == Some(username) && (course.None? || m.course == course.value)
    }
  }

  predicate BelongsTo(members: Members, m: Id, course: Id, user: Id) {
    m in members && members[m].course == course && members[m].user == Some(user)
  }

  ghost predicate HasExisting(members: Members, course: Id, user: Id) {
    exists m :: BelongsTo(members, m, course, user)
  }

  ghost function Existing(members: Members, course: Id, user: Id): (m: Id)
    requires HasExisting(members, course, user)
    ensures BelongsTo(members, m, course, user)
  {
    var m :| BelongsTo(members, m, course, user);
    m
  }

  // ---------------------------------------------------------------- one course

  predicate Protected(existing: Membership, owner: Option<Id>, user: Id) {
    existing.role == Teacher || owner == Some(user)
  }

  /** What becomes of the surviving membership of a merge. */
  function Survivor(pending: Membership, existing: Membership, claim: Claim, owner: Option<Id>): Membership {
    var target, source := if claim.verified then pending else existing, if claim.verified then existing else pending;
    var kept :=
      if claim.verified && Protected(existing, owner, claim.user) then
        target.(role := existing.role, status := existing.status, removedAt := existing.removedAt)
      else if !Protected(existing, owner, claim.user) && source.status == Gone && target.status != Gone then
        target.(status := Gone, removedAt := source.removedAt)
      else target;
    kept.(user := Some(claim.user), pending := None)
  }

  /** What the survivor `s` of a merge has to be. A protected teacher or owner keeps role, status and
      removal date. Anyone else gets the role of the side the school vouches for, the pending one
      if it does; is removed if either side was; and has the other side's removal date exactly when
      only that side was removed. */
  predicate Survives(pending: Membership, existing: Membership, claim: Claim, owner: Option<Id>, s: Membership) {
    && s.course == (if claim.verified then pending.course else existing.course)
    && s.user == Some(claim.user) && s.pending == None
    && if Protected(existing, owner, claim.user) then
         s.role == existing.role && s.status == existing.status && s.removedAt == existing.removedAt
       else
         && s.role == (if claim.verified then pending.role else existing.role)
         && (s.status == Gone <==> pending.status == Gone || existing.status == Gone)
         && (claim.verified ==>
               s.removedAt ==
               if existing.status == Gone && pending.status != Gone then existing.removedAt else pending.removedAt)
         && (!claim.verified ==>
               s.removedAt ==
               if pending.status == Gone && existing.status != Gone then pending.removedAt else existing.removedAt)
  }

  lemma SurvivorKeepsAuthority(pending: Membership, existing: Membership, claim: Claim, owner: Option<Id>)
    ensures Survives(pending, existing, claim, owner, Survivor(pending, existing, claim, owner))
  {
  }

  /** The membership dissolved into another when row `r` is bound, and the one that survives. */
  ghost function SourceOf(members: Members, r: Id, claim: Claim): Id
    requires r in members && HasExisting(members, members[r].course, claim.user)
  {
    if claim.verified then Existing(members, members[r].course, claim.user) else r
  }

  ghost function TargetOf(members: Members, r: Id, claim: Claim): Id
    requires r in members
  {
    if !HasExisting(members, members[r].course, claim.user) || claim.verified then r
    else Existing(members, members[r].course, claim.user)
  }

  ghost function BoundRow(members: Members, r: Id, claim: Claim, owners: map<Id, Id>): Membership
    requires r in members
  {
    var row := members[r];
    if HasExisting(members, row.course, claim.user) then
      Survivor(row, members[Existing(members, row.course, claim.user)], claim, OwnerOf(owners, row.course))
    else row.(user := Some(claim.user), pending := None)
  }

  function OwnerOf(owners: map<Id, Id>, course: Id): Option<Id> {
    if course in owners then Some(owners[course]) else None
  }

  // ---------------------------------------------------------------- all courses

  /** `merges` holds the merges made for the rows in `done`, and no others. */
  ghost predicate MergesAre(members: Members, done: set<Id>, claim: Claim, merges: Merges) {
    && (forall r :: r in done ==> r in members)
    && (forall r :: r in done && HasExisting(members, members[r].course, claim.user) ==>
          SourceOf(members, r, claim) in merges && merges[SourceOf(members, r, claim)] == TargetOf(members, r, claim))
    && (forall s :: s in merges ==> IsSource(members, done, claim, s))
  }

  ghost predicate IsSource(members: Members, done: set<Id>, claim: Claim, s: Id)
    requires forall r :: r in done ==> r in members
  {
    exists r :: r in done && HasExisting(members, members[r].course, claim.user) && SourceOf(members, r, claim) == s
  }

  ghost predicate IsTarget(members: Members, done: set<Id>, claim: Claim, t: Id)
    requires forall r :: r in done ==> r in members
  {
    exists r :: r in done && TargetOf(members, r, claim) == t
  }

  /** The membership table after the rows in `done` have been bound. */
  ghost predicate Bound(members: Members, owners: map<Id, Id>, claim: Claim, done: set<Id>, merges: Merges,
                        now: Members)
  {
    && MergesAre(members, done, claim, merges)
    && now.Keys == members.Keys - merges.Keys
    && (forall r :: r in done ==>
          TargetOf(members, r, claim) in now
          && now[TargetOf(members, r, claim)] == BoundRow(members, r, claim, owners))
    && (forall m :: m in now && !IsTarget(members, done, claim, m) ==> now[m] == members[m])
  }

  /** Two different pending rows of one username are in different courses. */
  lemma RowsApart(members: Members, claim: Claim, r: Id, q: Id)
    requires MembersValid(members) && r in members && q in members && r != q
    requires claim.Selects(members[r]) && claim.Selects(members[q])
    ensures members[r].course != members[q].course
    ensures TargetOf(members, r, claim) != TargetOf(members, q, claim)
    ensures HasExisting(members, members[r].course, claim.user) ==>
      SourceOf(members, r, claim) != TargetOf(members, q, claim)
  {
  }

  lemma TargetInCourse(members: Members, claim: Claim, r: Id)
    requires MembersValid(members) && r in members && claim.Selects(members[r])
    ensures TargetOf(members, r, claim) in members && members[TargetOf(members, r, claim)].course == members[r].course
    ensures HasExisting(members, members[r].course, claim.user) ==>
      var s := SourceOf(members, r, claim);
      s in members && members[s].course == members[r].course && s != TargetOf(members, r, claim)
      && Existing(members, members[r].course, claim.user) != r
  {
  }

  /** Rows of courses not yet reached are as they were, so later look-ups see the old table. */
  lemma UntouchedYet(members: Members, owners: map<Id, Id>, claim: Claim, done: set<Id>, merges: Merges, now: Members,
                     r: Id, m: Id)
    requires MembersValid(members) && Bound(members, owners, claim, done, merges, now)
    requires forall q :: q in done ==> claim.Selects(members[q])
    requires r in members && r !in done && claim.Selects(members[r])
    ensures m in members && members[m].course == members[r].course ==>
      m in now && now[m] == members[m] && m !in merges && !IsTarget(members, done, claim, m)
    ensures m in now && now[m].course == members[r].course ==> m in members && members[m].course == members[r].course
  {
    if m in members && members[m].course == members[r].course {
      forall q | q in done
        ensures TargetOf(members, q, claim) != m
        ensures HasExisting(members, members[q].course, claim.user) ==> SourceOf(members, q, claim) != m
      {
        RowsApart(members, claim, r, q);
        TargetInCourse(members, claim, q);
      }
    }
    if m in now && IsTarget(members, done, claim, m) {
      var q :| q in done && TargetOf(members, q, claim) == m;
      TargetInCourse(members, claim, q);
      BoundRowCourse(members, owners, claim, q);
    }
  }

  /** Row `r` has been bound. Where the user had no membership in its course the row becomes the
      user's and is otherwise as it was. Where they had one, one of the two is gone and the other,
      the pending row if the school vouches for the user, survives as the rule of merging says. */
  ghost predicate RowIsBound(members: Members, owners: map<Id, Id>, claim: Claim, r: Id, now: Members)
    requires r in members
  {
    var row := members[r];
    && ((forall e :: !BelongsTo(members, e, row.course, claim.user)) ==>
          r in now && now[r] == Membership(row.course, Some(claim.user), None, row.role, row.status, row.removedAt))
    && (forall e :: BelongsTo(members, e, row.course, claim.user) ==>
          var kept, gone := if claim.verified then r else e, if claim.verified then e else r;
          kept in now && gone !in now
          && Survives(row, members[e], claim, OwnerOf(owners, row.course), now[kept]))
  }

  /** Membership `m` is neither bound nor the one that a bound row meets. */
  ghost predicate OutOfReach(members: Members, claim: Claim, done: set<Id>, m: Id)
    requires forall r :: r in done ==> r in members
  {
    m in members && m !in done && forall r :: r in done ==> !BelongsTo(members, m, members[r].course, claim.user)
  }

  lemma BoundMeans(members: Members, owners: map<Id, Id>, claim: Claim, done: set<Id>, merges: Merges, now: Members,
                   r: Id)
    requires MembersValid(members) && Bound(members, owners, claim, done, merges, now) && r in done
    requires forall q :: q in done ==> claim.Selects(members[q])
    ensures RowIsBound(members, owners, claim, r, now)
  {
    forall e | BelongsTo(members, e, members[r].course, claim.user)
      ensures e == Existing(members, members[r].course, claim.user)
    {
    }
    if HasExisting(members, members[r].course, claim.user) {
      var e := Existing(members, members[r].course, claim.user);
      SurvivorKeepsAuthority(members[r], members[e], claim, OwnerOf(owners, members[r].course));
      TargetInCourse(members, claim, r);
    }
  }

  lemma OthersUntouched(members: Members, owners: map<Id, Id>, claim: Claim, done: set<Id>, merges: Merges,
                        now: Members)
    requires MembersValid(members) && Bound(members, owners, claim, done, merges, now)
    requires forall q :: q in done ==> claim.Selects(members[q])
    ensures now.Keys <= members.Keys
    ensures forall m :: OutOfReach(members, claim, done, m) ==> m in now && now[m] == members[m]
  {
    forall m | OutOfReach(members, claim, done, m)
      ensures m !in merges && !IsTarget(members, done, claim, m)
    {
      forall q | q in done
        ensures TargetOf(members, q, claim) != m
        ensures HasExisting(members, members[q].course, claim.user) ==> SourceOf(members, q, claim) != m
      {
        TargetInCourse(members, claim, q);
      }
    }
  }

  lemma BoundRowCourse(members: Members, owners: map<Id, Id>, claim: Claim, r: Id)
    requires r in members
    ensures BoundRow(members, r, claim, owners).course == members[r].course
    ensures BoundRow(members, r, claim, owners).user == Some(claim.user)
    ensures BoundRow(members, r, claim, owners).pending == None
  {
  }

  // ---------------------------------------------------------------- one more row

  /** Writing the survivor of row `r` and dropping what `r` dissolves extends the bound rows. */
  lemma BoundExtends(members: Members, owners: map<Id, Id>, claim: Claim, done: set<Id>, merges: Merges, now: Members,
                     r: Id, merges': Merges, later: Members)
    requires Bound(members, owners, claim, done, merges, now) && r in members
    requires MergesAre(members, done + {r}, claim, merges')
    requires later.Keys == members.Keys - merges'.Keys
    requires var t := TargetOf(members, r, claim);
      t in later && later[t] == BoundRow(members, r, claim, owners)
      && forall m :: m in later && m != t ==> m in now && later[m] == now[m]
    requires forall q :: q in done ==>
      TargetOf(members, q, claim) != TargetOf(members, r, claim) && TargetOf(members, q, claim) in later
    ensures Bound(members, owners, claim, done + {r}, merges', later)
  {
    hide BoundRow, TargetOf, MergesAre, IsTarget;
    assert forall q :: q in done ==> q in members by {
      MergesOfMembers(members, done, claim, merges);
    }
    TargetsGrow(members, claim, done, r);
  }

  lemma MergesOfMembers(members: Members, done: set<Id>, claim: Claim, merges: Merges)
    requires MergesAre(members, done, claim, merges)
    ensures forall q :: q in done ==> q in members
  {
  }

  lemma BindAlone(members: Members, owners: map<Id, Id>, claim: Claim, done: set<Id>, merges: Merges,
                  now: Members, r: Id)
    requires MembersValid(members) && Bound(members, owners, claim, done, merges, now)
    requires forall q :: q in done ==> claim.Selects(members[q])
    requires r in members && r !in done && claim.Selects(members[r])
    requires !HasExisting(members, members[r].course, claim.user)
    ensures r in now
    ensures Bound(members, owners, claim, done + {r}, merges, now[r := BoundRow(members, r, claim, owners)])
  {
    hide BoundRow, MembersValid, Claim.Selects;
    UntouchedYet(members, owners, claim, done, merges, now, r, r);
    var later := now[r := BoundRow(members, r, claim, owners)];
    forall q | q in done
      ensures TargetOf(members, q, claim) != r
    {
      RowsApart(members, claim, r, q);
    }
    MergesSame(members, claim, done, merges, r);
    BoundExtends(members, owners, claim, done, merges, now, r, merges, later);
  }

  lemma MergesSame(members: Members, claim: Claim, done: set<Id>, merges: Merges, r: Id)
    requires MergesAre(members, done, claim, merges) && r in members
    requires !HasExisting(members, members[r].course, claim.user)
    ensures MergesAre(members, done + {r}, claim, merges)
  {
    forall s | s in merges
      ensures IsSource(members, done + {r}, claim, s)
    {
      assert IsSource(members, done, claim, s);
      var q :| q in done && HasExisting(members, members[q].course, claim.user) && SourceOf(members, q, claim) == s;
      assert q in done + {r};
    }
  }

  lemma TargetsGrow(members: Members, claim: Claim, done: set<Id>, r: Id)
    requires r in members && forall q :: q in done ==> q in members
    ensures forall m :: IsTarget(members, done + {r}, claim, m) <==>
      IsTarget(members, done, claim, m) || m == TargetOf(members, r, claim)
  {
    forall m
      ensures IsTarget(members, done + {r}, claim, m) <==>
        IsTarget(members, done, claim, m) || m == TargetOf(members, r, claim)
    {
      if IsTarget(members, done, claim, m) {
        var q :| q in done && TargetOf(members, q, claim) == m;
        assert q in done + {r};
      }
      if m == TargetOf(members, r, claim) {
        assert r in done + {r};
      }
      if IsTarget(members, done + {r}, claim, m) {
        var q :| q in done + {r} && TargetOf(members, q, claim) == m;
        assert q == r || q in done;
      }
    }
  }

  lemma BindMerged(members: Members, owners: map<Id, Id>, claim: Claim, done: set<Id>, merges: Merges,
                   now: Members, r: Id)
    requires MembersValid(members) && Bound(members, owners, claim, done, merges, now)
    requires forall q :: q in done ==> claim.Selects(members[q])
    requires r in members && r !in done && claim.Selects(members[r])
    requires HasExisting(members, members[r].course, claim.user)
    ensures var s, t := SourceOf(members, r, claim), TargetOf(members, r, claim);
      && s in now && t in now && s != t
      && Bound(members, owners, claim, done + {r}, merges[s := t],
               (now - {s})[t := BoundRow(members, r, claim, owners)])
  {
    hide BoundRow, MembersValid, Claim.Selects, TargetOf, SourceOf;
    var s, t := SourceOf(members, r, claim), TargetOf(members, r, claim);
    TargetInCourse(members, claim, r);
    UntouchedYet(members, owners, claim, done, merges, now, r, s);
    UntouchedYet(members, owners, claim, done, merges, now, r, t);
    var later := (now - {s})[t := BoundRow(members, r, claim, owners)];
    forall q | q in done
      ensures TargetOf(members, q, claim) != t && TargetOf(members, q, claim) != s
      ensures HasExisting(members, members[q].course, claim.user) ==> SourceOf(members, q, claim) != s
    {
      RowsApart(members, claim, r, q);
      TargetInCourse(members, claim, q);
    }
    MergesGrow(members, claim, done, merges, r);
    assert later.Keys == members.Keys - merges[s := t].Keys;
    BoundExtends(members, owners, claim, done, merges, now, r, merges[s := t], later);
  }

  lemma MergesGrow(members: Members, claim: Claim, done: set<Id>, merges: Merges, r: Id)
    requires MergesAre(members, done, claim, merges) && r in members
    requires HasExisting(members, members[r].course, claim.user)
    requires forall q :: q in done && HasExisting(members, members[q].course, claim.user) ==>
      SourceOf(members, q, claim) != SourceOf(members, r, claim)
    ensures MergesAre(members, done + {r}, claim, merges[SourceOf(members, r, claim) := TargetOf(members, r, claim)])
  {
    var merges' := merges[SourceOf(members, r, claim) := TargetOf(members, r, claim)];
    forall s | s in merges'
      ensures IsSource(members, done + {r}, claim, s)
    {
      if s == SourceOf(members, r, claim) {
        assert r in done + {r};
      } else {
        assert IsSource(members, done, claim, s);
        var q :| q in done && HasExisting(members, members[q].course, claim.user) && SourceOf(members, q, claim) == s;
        assert q in done + {r};
      }
    }
  }

  /** The merges of different rows never meet. */
  lemma MergesApart(members: Members, claim: Claim, done: set<Id>, merges: Merges)
    requires MembersValid(members) && MergesAre(members, done, claim, merges)
    requires forall q :: q in done ==> claim.Selects(members[q])
    ensures Apart(merges)
  {
    forall s | s in merges
      ensures merges[s] !in merges
      ensures forall t :: t in merges && t != s ==> merges[t] != merges[s]
    {
      assert IsSource(members, done, claim, s);
      var q :| q in done && HasExisting(members, members[q].course, claim.user) && SourceOf(members, q, claim) == s;
      TargetInCourse(members, claim, q);
      forall t | t in merges
        ensures t != merges[s]
        ensures t != s ==> merges[t] != merges[s]
      {
        assert IsSource(members, done, claim, t);
        var p :| p in done && HasExisting(members, members[p].course, claim.user) && SourceOf(members, p, claim) == t;
        if p != q {
          RowsApart(members, claim, p, q);
          RowsApart(members, claim, q, p);
        }
      }
    }
  }

  // ---------------------------------------------------------------- the whole claim

  /** After binding: no membership waits under the username in scope, the user has one
      membership in each of those courses, and the constraints still hold. */
  lemma BoundIsValid(members: Members, owners: map<Id, Id>, claim: Claim, done: set<Id>, merges: Merges, now: Members)
    requires MembersValid(members) && Bound(members, owners, claim, done, merges, now)
    requires forall r :: r in done <==> r in members && claim.Selects(members[r])
    ensures MembersValid(now)
    ensures forall m :: m in now ==> !claim.Selects(now[m])
    ensures forall r :: r in done ==> HasExisting(now, members[r].course, claim.user)
  {
    forall r | r in done
      ensures HasExisting(now, members[r].course, claim.user)
    {
      BoundRowCourse(members, owners, claim, r);
      assert BelongsTo(now, TargetOf(members, r, claim), members[r].course, claim.user);
    }
    forall m | m in now
      ensures IsTarget(members, done, claim, m) ==> now[m].user == Some(claim.user) && now[m].pending.None?
      ensures !IsTarget(members, done, claim, m) ==> m in members && now[m] == members[m] && m !in done
    {
      if IsTarget(members, done, claim, m) {
        var r :| r in done && TargetOf(members, r, claim) == m;
        BoundRowCourse(members, owners, claim, r);
      } else if m in done {
        RowStays(members, owners, claim, done, merges, now, m);
      }
    }
    forall m, n | m in now && n in now && now[m].course == now[n].course
      && ((now[m].user.Some? && now[m].user == now[n].user)
          || (now[m].pending.Some? && now[m].pending == now[n].pending))
      ensures m == n
    {
      if IsTarget(members, done, claim, m) {
        SameCourseSameRow(members, owners, claim, done, merges, now, m, n);
      } else if IsTarget(members, done, claim, n) {
        SameCourseSameRow(members, owners, claim, done, merges, now, n, m);
      }
    }
  }

  /** A pending row that is still there has been bound itself. */
  lemma RowStays(members: Members, owners: map<Id, Id>, claim: Claim, done: set<Id>, merges: Merges,
                 now: Members, r: Id)
    requires Bound(members, owners, claim, done, merges, now)
    requires r in done && r in now
    ensures TargetOf(members, r, claim) == r
  {
  }

  /** In a course that has been bound, the survivor is the user's only membership. */
  lemma SameCourseSameRow(members: Members, owners: map<Id, Id>, claim: Claim, done: set<Id>, merges: Merges,
                          now: Members, t: Id, m: Id)
    requires MembersValid(members) && Bound(members, owners, claim, done, merges, now)
    requires forall r :: r in done <==> r in members && claim.Selects(members[r])
    requires t in now && m in now && IsTarget(members, done, claim, t)
    requires now[t].course == now[m].course && now[m].user == Some(claim.user)
    ensures t == m
  {
    var r :| r in done && TargetOf(members, r, claim) == t;
    BoundRowCourse(members, owners, claim, r);
    if IsTarget(members, done, claim, m) {
      var q :| q in done && TargetOf(members, q, claim) == m;
      BoundRowCourse(members, owners, claim, q);
      if q != r {
        RowsApart(members, claim, r, q);
      }
    } else {
      assert now[m] == members[m];
      assert BelongsTo(members, m, members[r].course, claim.user);
      assert HasExisting(members, members[r].course, claim.user);
    }
  }

  /** With no row selected nothing is bound. */
  lemma NothingBound(members: Members, owners: map<Id, Id>, claim: Claim, merges: Merges, now: Members)
    requires Bound(members, owners, claim, {}, merges, now)
    ensures merges == map[] && now == members
  {
    assert merges.Keys == {};
  }

  /** The merge of one more row meets none of the merges made before it. */
  lemma NextUnrelated(members: Members, owners: map<Id, Id>, claim: Claim, done: set<Id>, merges: Merges,
                      now: Members, r: Id)
    requires MembersValid(members) && Bound(members, owners, claim, done, merges, now)
    requires forall q :: q in done ==> claim.Selects(members[q])
    requires r in members && r !in done && claim.Selects(members[r])
    requires HasExisting(members, members[r].course, claim.user)
    ensures Unrelated(merges, SourceOf(members, r, claim), TargetOf(members, r, claim))
  {
    hide BoundRow, MembersValid, Claim.Selects, TargetOf, SourceOf;
    var s, t := SourceOf(members, r, claim), TargetOf(members, r, claim);
    TargetInCourse(members, claim, r);
    UntouchedYet(members, owners, claim, done, merges, now, r, s);
    UntouchedYet(members, owners, claim, done, merges, now, r, t);
    forall m | m in merges
      ensures merges[m] != s && merges[m] != t
    {
      assert IsSource(members, done, claim, m);
      var q :| q in done && HasExisting(members, members[q].course, claim.user) && SourceOf(members, q, claim) == m;
      assert IsTarget(members, done, claim, merges[m]);
    }
  }

  // ---------------------------------------------------------------- the transaction

  class RosterDb {
    var members: Members
    const owners: map<Id, Id>
    const scores: GradeTable<Score>
    const feedback: GradeTable<string>

    constructor (members: Members, owners: map<Id, Id>, scores: GradeTable<Score>, feedback: GradeTable<string>)
      ensures this.members == members && this.owners == owners
      ensures this.scores == scores && this.feedback == feedback
    {
      this.members, this.owners, this.scores, this.feedback := members, owners, scores, feedback;
    }

    ghost predicate Valid()
      reads this, scores, feedback
    {
      && (scores as object) != feedback
      && MembersValid(members)
      && OnePerSlot(scores.grades) && OnePerSlot(feedback.grades)
      && GradesHeld(scores.grades, members.Keys) && GradesHeld(feedback.grades, members.Keys)
      && AuditsHeld(scores.audits, scores.grades) && AuditsHeld(feedback.audits, feedback.grades)
    }

    /** The lookup on the unique pair of course and user. */
    method FindMember(course: Id, user: Id) returns (found: Option<Id>)
      ensures found.Some? ==> BelongsTo(members, found.value, course, user)
      ensures found.None? ==> !HasExisting(members, course, user)
    {
      if m: Id :| m in members && members[m].course == course && members[m].user == Some(user) {
        return Some(m);
      }
      return None;
    }

    /** The membership updates for one pending row that meets an existing membership. */
    method MergeMembers(row: Id, existing: Id, claim: Claim, owner: Option<Id>)
      requires row in members && existing in members && row != existing
      modifies this`members
      ensures var source, target := if claim.verified then existing else row, if claim.verified then row else existing;
        members
        == (old(members) - {source})[target := Survivor(old(members)[row], old(members)[existing], claim, owner)]
    {
      var e := members[existing];
      var target, source := if claim.verified then row else existing, if claim.verified then existing else row;
      var protectedMember := e.role == Teacher || owner == Some(claim.user);
      var removed := members[source];
      if claim.verified && protectedMember {
        members := members[target := members[target].(role := e.role, status := e.status, removedAt := e.removedAt)];
      } else if !protectedMember && removed.status == Gone && members[target].status != Gone {
        members := members[target := members[target].(status := Gone, removedAt := removed.removedAt)];
      }
      members := members - {source};
      members := members[target := members[target].(user := Some(claim.user), pending := None)];
    }

    /** One turn of the loop over the pending rows. */
    method BindRow(row: Id, claim: Claim, ghost members0: Members, ghost done: set<Id>, ghost merges: Merges)
      returns (ghost merges': Merges, ghost merged: Option<(Id, Id)>, ghost lost: seq<Id>, ghost silenced: seq<Id>)
      requires (scores as object) != feedback && OnePerSlot(scores.grades) && OnePerSlot(feedback.grades)
      requires MembersValid(members0) && Bound(members0, owners, claim, done, merges, members)
      requires forall q :: q in done ==> claim.Selects(members0[q])
      requires row in members0 && row !in done && claim.Selects(members0[row])
      modifies this`members, scores, feedback
      ensures Bound(members0, owners, claim, done + {row}, merges', members)
      ensures RowIsBound(members0, owners, claim, row, members)
      ensures merged.None? ==>
        && merges' == merges
        && scores.grades == old(scores.grades) && scores.audits == old(scores.audits)
        && feedback.grades == old(feedback.grades) && feedback.audits == old(feedback.audits)
      ensures merged.Some? ==>
        var (s, t) := merged.value;
        && Unrelated(merges, s, t) && merges' == merges[s := t]
        && MergedInto(old(scores.grades), old(scores.audits), map[s := t], claim.user,
                      scores.grades, scores.audits, lost)
        && MergedInto(old(feedback.grades), old(feedback.audits), map[s := t], claim.user,
                      feedback.grades, feedback.audits, silenced)
    {
      hide Bound, MembersValid, MergedInto, OnePerSlot, BoundRow, MergedGrades, RowIsBound;
      lost, silenced := [], [];
      UntouchedYet(members0, owners, claim, done, merges, members, row, row);
      ghost var now := members;
      var pending := members[row];
      var existing := FindMember(pending.course, claim.user);
      if existing.None? {
        NoExistingYet(members0, owners, claim, done, merges, members, row);
        BindAlone(members0, owners, claim, done, merges, now, row);
        members := members[row := pending.(user := Some(claim.user), pending := None)];
        BoundRowAlone(members0, owners, claim, row);
        merges', merged := merges, None;
      } else {
        ExistingYet(members0, owners, claim, done, merges, members, row, existing.value);
        BindMerged(members0, owners, claim, done, merges, now, row);
        NextUnrelated(members0, owners, claim, done, merges, now, row);
        var target := if claim.verified then row else existing.value;
        var source := if claim.verified then existing.value else row;
        TargetInCourse(members0, claim, row);
        lost := scores.MergeGrades(source, target, claim.user);
        silenced := feedback.MergeGrades(source, target, claim.user);
        var owner := OwnerOf(owners, pending.course);
        MergeMembers(row, existing.value, claim, owner);
        NoneLeft(old(scores.grades), old(scores.audits), source, target, claim.user,
                 scores.grades, scores.audits, lost);
        NoneLeft(old(feedback.grades), old(feedback.audits), source, target, claim.user,
                 feedback.grades, feedback.audits, silenced);
        scores.DeleteOf(source);
        feedback.DeleteOf(source);
        BoundRowMerged(members0, owners, claim, row);
        merges', merged := merges[source := target], Some((source, target));
      }
      BoundMeans(members0, owners, claim, done + {row}, merges', members, row);
    }

    /** One turn of the loop, with the books of both tables brought up to date. */
    method BindNext(row: Id, claim: Claim, ghost members0: Members, ghost done: set<Id>, ghost merges: Merges,
                    ghost grades0: map<Id, Grade<Score>>, ghost audits0: seq<AuditRow<Score>>, ghost lost: seq<Id>,
                    ghost grades1: map<Id, Grade<string>>, ghost audits1: seq<AuditRow<string>>,
                    ghost silenced: seq<Id>)
      returns (ghost merges': Merges, ghost lost': seq<Id>, ghost silenced': seq<Id>)
      requires (scores as object) != feedback && OnePerSlot(scores.grades) && OnePerSlot(feedback.grades)
      requires OnePerSlot(grades0) && OnePerSlot(grades1)
      requires MembersValid(members0) && Bound(members0, owners, claim, done, merges, members)
      requires forall q :: q in done ==> claim.Selects(members0[q])
      requires row in members0 && row !in done && claim.Selects(members0[row])
      requires MergedInto(grades0, audits0, merges, claim.user, scores.grades, scores.audits, lost)
      requires MergedInto(grades1, audits1, merges, claim.user, feedback.grades, feedback.audits, silenced)
      modifies this`members, scores, feedback
      ensures Bound(members0, owners, claim, done + {row}, merges', members)
      ensures OnePerSlot(scores.grades) && OnePerSlot(feedback.grades)
      ensures MergedInto(grades0, audits0, merges', claim.user, scores.grades, scores.audits, lost')
      ensures MergedInto(grades1, audits1, merges', claim.user, feedback.grades, feedback.audits, silenced')
    {
      BoundMerges(members0, owners, claim, done, merges, members);
      MergesApart(members0, claim, done, merges);
      hide Bound, MergedInto, MembersValid, OnePerSlot, Apart, Unrelated, MergesAre;
      ghost var g, a, h, b := scores.grades, scores.audits, feedback.grades, feedback.audits;
      ghost var merged, lostHere, silencedHere;
      merges', merged, lostHere, silencedHere := BindRow(row, claim, members0, done, merges);
      lost', silenced' := lost, silenced;
      if merged.Some? {
        ghost var (s, t) := merged.value;
        OneMoreMerge(grades0, audits0, merges, claim.user, g, a, lost, s, t, scores.grades, scores.audits, lostHere);
        OneMoreMerge(grades1, audits1, merges, claim.user, h, b, silenced, s, t,
                     feedback.grades, feedback.audits, silencedHere);
        lost', silenced' := lost + lostHere, silenced + silencedHere;
      }
    }

    /** The pending rows in scope. */
    ghost function Selected(claim: Claim): set<Id>
      reads this`members
    {
      set r | r in members && claim.Selects(members[r])
    }

    /** The loop over the pending rows, in whatever order they are listed. */
    method BindRows(rows: set<Id>, claim: Claim)
      returns (ghost merges: Merges, ghost lost: seq<Id>, ghost silenced: seq<Id>)
      requires (scores as object) != feedback && OnePerSlot(scores.grades) && OnePerSlot(feedback.grades)
      requires MembersValid(members)
      requires forall r :: r in rows ==> r in members && claim.Selects(members[r])
      modifies this`members, scores, feedback
      ensures Bound(old(members), owners, claim, rows, merges, members)
      ensures MergedInto(old(scores.grades), old(scores.audits), merges, claim.user, scores.grades, scores.audits, lost)
      ensures MergedInto(old(feedback.grades), old(feedback.audits), merges, claim.user,
                         feedback.grades, feedback.audits, silenced)
      ensures OnePerSlot(scores.grades) && OnePerSlot(feedback.grades)
    {
      hide Bound, MergedInto, MembersValid, OnePerSlot, Claim.Selects;
      ghost var members0 := members;
      ghost var grades0, audits0 := scores.grades, scores.audits;
      ghost var grades1, audits1 := feedback.grades, feedback.audits;
      merges, lost, silenced := map[], [], [];
      ghost var done: set<Id> := {};
      NothingBoundYet(members0, owners, claim);
      NoMergeYet(grades0, audits0, claim.user);
      NoMergeYet(grades1, audits1, claim.user);
      var todo := rows;
      while todo != {}
        invariant done == rows - todo && todo <= rows
        invariant Bound(members0, owners, claim, done, merges, members)
        invariant MergedInto(grades0, audits0, merges, claim.user, scores.grades, scores.audits, lost)
        invariant MergedInto(grades1, audits1, merges, claim.user, feedback.grades, feedback.audits, silenced)
        invariant OnePerSlot(scores.grades) && OnePerSlot(feedback.grades)
        decreases todo
      {
        var row :| row in todo;
        merges, lost, silenced := BindNext(row, claim, members0, done, merges,
                                           grades0, audits0, lost, grades1, audits1, silenced);
        todo, done := todo - {row}, done + {row};
      }
      assert done == rows;
    }

    /** `bindPendingMemberships`: every selected row is bound, and both grade tables end as if
        all merges were made at once. */
    method Bind(claim: Claim) returns (count: nat, ghost merges: Merges, ghost lost: seq<Id>, ghost silenced: seq<Id>)
      requires Valid()
      modifies this`members, scores, feedback
      ensures count == |old(Selected(claim))|
      ensures Bound(old(members), owners, claim, old(Selected(claim)), merges, members)
      ensures MergedInto(old(scores.grades), old(scores.audits), merges, claim.user, scores.grades, scores.audits, lost)
      ensures MergedInto(old(feedback.grades), old(feedback.audits), merges, claim.user,
                         feedback.grades, feedback.audits, silenced)
      ensures forall r :: r in old(Selected(claim)) ==> RowIsBound(old(members), owners, claim, r, members)
      ensures members.Keys <= old(members).Keys
      ensures forall m :: OutOfReach(old(members), claim, old(Selected(claim)), m) ==>
        m in members && members[m] == old(members)[m]
      ensures Valid() && Selected(claim) == {}
    {
      hide RowIsBound, OutOfReach, Bound, MergedInto, GradesHeld, AuditsHeld, MembersValid, OnePerSlot,
        Claim.Selects, RosterDb.Selected;
      ghost var members0 := members;
      ghost var grades0, audits0 := scores.grades, scores.audits;
      ghost var grades1, audits1 := feedback.grades, feedback.audits;
      var rows := FindPending(claim);
      count := |rows|;
      merges, lost, silenced := BindRows(rows, claim);
      BoundIsValid(members0, owners, claim, rows, merges, members);
      forall r | r in rows
        ensures RowIsBound(members0, owners, claim, r, members)
      {
        BoundMeans(members0, owners, claim, rows, merges, members, r);
      }
      OthersUntouched(members0, owners, claim, rows, merges, members);
      NoneSelected(claim);
      StillHeld(members0, owners, claim, rows, merges, members, grades0, audits0, scores.grades, scores.audits, lost);
      StillHeld(members0, owners, claim, rows, merges, members, grades1, audits1,
                feedback.grades, feedback.audits, silenced);
    }

    method FindPending(claim: Claim) returns (rows: set<Id>)
      ensures rows == Selected(claim)
      ensures forall r :: r in rows <==> r in members && claim.Selects(members[r])
    {
      rows := set r | r in members && claim.Selects(members[r]);
    }

    lemma NoneSelected(claim: Claim)
      requires forall m :: m in members ==> !claim.Selects(members[m])
      ensures Selected(claim) == {}
    {
    }

    /** A second binding of the same claim finds nothing and changes nothing. */
    method BindTwice(claim: Claim) returns (first: nat, second: nat, ghost between: Members,
                                            ghost scores1: map<Id, Grade<Score>>, ghost audits1: seq<AuditRow<Score>>,
                                            ghost feedback1: map<Id, Grade<string>>,
                                            ghost history1: seq<AuditRow<string>>)
      requires Valid()
      modifies this`members, scores, feedback
      ensures first == |old(Selected(claim))| && second == 0
      ensures members == between && scores.grades == scores1 && scores.audits == audits1
      ensures feedback.grades == feedback1 && feedback.audits == history1
    {
      ghost var merges, lost, silenced;
      first, merges, lost, silenced := Bind(claim);
      between, scores1, audits1 := members, scores.grades, scores.audits;
      feedback1, history1 := feedback.grades, feedback.audits;
      second, merges, lost, silenced := Bind(claim);
      NothingBound(between, owners, claim, merges, members);
      NothingMerged(scores1, audits1, claim.user, scores.grades, scores.audits, lost);
      NothingMerged(feedback1, history1, claim.user, feedback.grades, feedback.audits, silenced);
    }
  }

  lemma NothingBoundYet(members: Members, owners: map<Id, Id>, claim: Claim)
    ensures Bound(members, owners, claim, {}, map[], members)
  {
  }

  lemma NoMergeYet<V>(grades: map<Id, Grade<V>>, audits: seq<AuditRow<V>>, user: Id)
    ensures MergedInto(grades, audits, map[], user, grades, audits, [])
  {
    assert MergedGrades(grades, map[]) == grades;
  }

  lemma BoundMerges(members: Members, owners: map<Id, Id>, claim: Claim, done: set<Id>, merges: Merges, now: Members)
    requires Bound(members, owners, claim, done, merges, now)
    ensures MergesAre(members, done, claim, merges)
  {
  }

  lemma OneMoreMerge<V>(grades: map<Id, Grade<V>>, audits: seq<AuditRow<V>>, merges: Merges, user: Id,
                        grades1: map<Id, Grade<V>>, audits1: seq<AuditRow<V>>, conflicts1: seq<Id>, s: Id, t: Id,
                        grades2: map<Id, Grade<V>>, audits2: seq<AuditRow<V>>, conflicts2: seq<Id>)
    requires OnePerSlot(grades) && OnePerSlot(grades1) && Apart(merges) && Unrelated(merges, s, t)
    requires MergedInto(grades, audits, merges, user, grades1, audits1, conflicts1)
    requires MergedInto(grades1, audits1, map[s := t], user, grades2, audits2, conflicts2)
    ensures MergedInto(grades, audits, merges[s := t], user, grades2, audits2, conflicts1 + conflicts2)
    ensures OnePerSlot(grades2)
  {
    hide MergedInto, OnePerSlot;
    MergesCompose(grades, audits, merges, user, grades1, audits1, conflicts1, s, t, grades2, audits2, conflicts2);
    SlotsKept(grades1, audits1, map[s := t], user, grades2, audits2, conflicts2);
  }

  lemma SlotsKept<V>(grades: map<Id, Grade<V>>, audits: seq<AuditRow<V>>, merges: Merges, user: Id,
                     grades': map<Id, Grade<V>>, audits': seq<AuditRow<V>>, conflicts: seq<Id>)
    requires OnePerSlot(grades) && Apart(merges)
    requires MergedInto(grades, audits, merges, user, grades', audits', conflicts)
    ensures OnePerSlot(grades')
  {
    MergeConserves(grades, merges);
  }

  /** References still hold: grades to memberships, audit rows to grades. */
  lemma StillHeld<V>(members: Members, owners: map<Id, Id>, claim: Claim, done: set<Id>, merges: Merges, now: Members,
                     grades: map<Id, Grade<V>>, audits: seq<AuditRow<V>>,
                     grades': map<Id, Grade<V>>, audits': seq<AuditRow<V>>, conflicts: seq<Id>)
    requires MembersValid(members) && Bound(members, owners, claim, done, merges, now)
    requires forall q :: q in done ==> claim.Selects(members[q])
    requires OnePerSlot(grades) && GradesHeld(grades, members.Keys) && AuditsHeld(audits, grades)
    requires MergedInto(grades, audits, merges, claim.user, grades', audits', conflicts)
    ensures GradesHeld(grades', now.Keys) && AuditsHeld(audits', grades')
  {
    MergesApart(members, claim, done, merges);
    AuditsConserved(grades, audits, merges, claim.user, grades', audits', conflicts);
    MergeConserves(grades, merges);
    forall g | g in grades'
      ensures grades'[g].member in now
    {
      if grades[g].member in merges {
        assert IsSource(members, done, claim, grades[g].member);
        var q :| q in done && HasExisting(members, members[q].course, claim.user)
          && SourceOf(members, q, claim) == grades[g].member;
        assert merges[grades[g].member] == TargetOf(members, q, claim);
      }
    }
  }

  lemma BoundRowAlone(members: Members, owners: map<Id, Id>, claim: Claim, r: Id)
    requires r in members && !HasExisting(members, members[r].course, claim.user)
    ensures BoundRow(members, r, claim, owners) == members[r].(user := Some(claim.user), pending := None)
  {
  }

  lemma BoundRowMerged(members: Members, owners: map<Id, Id>, claim: Claim, r: Id)
    requires r in members && HasExisting(members, members[r].course, claim.user)
    ensures BoundRow(members, r, claim, owners)
      == Survivor(members[r], members[Existing(members, members[r].course, claim.user)], claim,
                  OwnerOf(owners, members[r].course))
  {
  }

  lemma NoExistingYet(members: Members, owners: map<Id, Id>, claim: Claim, done: set<Id>, merges: Merges,
                      now: Members, r: Id)
    requires MembersValid(members) && Bound(members, owners, claim, done, merges, now)
    requires forall q :: q in done ==> claim.Selects(members[q])
    requires r in members && r !in done && claim.Selects(members[r])
    requires !HasExisting(now, members[r].course, claim.user)
    ensures !HasExisting(members, members[r].course, claim.user)
  {
    if HasExisting(members, members[r].course, claim.user) {
      var e := Existing(members, members[r].course, claim.user);
      UntouchedYet(members, owners, claim, done, merges, now, r, e);
      assert BelongsTo(now, e, members[r].course, claim.user);
    }
  }

  lemma ExistingYet(members: Members, owners: map<Id, Id>, claim: Claim, done: set<Id>, merges: Merges, now: Members,
                    r: Id, e: Id)
    requires MembersValid(members) && Bound(members, owners, claim, done, merges, now)
    requires forall q :: q in done ==> claim.Selects(members[q])
    requires r in members && r !in done && claim.Selects(members[r])
    requires BelongsTo(now, e, members[r].course, claim.user)
    ensures HasExisting(members, members[r].course, claim.user)
    ensures e == Existing(members, members[r].course, claim.user) && e in members && now[e] == members[e]
  {
    UntouchedYet(members, owners, claim, done, merges, now, r, e);
    assert BelongsTo(members, e, members[r].course, claim.user);
  }
}
