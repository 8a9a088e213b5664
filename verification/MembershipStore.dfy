/** The membership collections as a store that is changed in place, and the repair of the team history. */
module MembershipStore {
  import opened Common
  import opened Periods
  import opened Memberships

  const REASON_BACKFILL := "backfill"
  const REASON_RECONCILE := "reconcile"

  // ---- what the repair amounts to ----

  /** Rows taken in cursor order; a row whose period is already right is left alone. */
  ghost function Backfilled(ps: seq<Period>, rows: seq<TeamMember>): seq<Period>
    decreases |rows|
  {
    if rows == [] then ps
    else
      var before, m := Backfilled(ps, rows[..|rows| - 1]), rows[|rows| - 1];
      Opened(before, TeamKind, m.coach, m.head, REASON_BACKFILL, m.assignedAt)
  }

  predicate IsOrphan(p: Period, members: map<Id, TeamMember>) {
    p.kind == TeamKind && p.end.None? && p.member !in members
  }

  function OrphansClosed(ps: seq<Period>, members: map<Id, TeamMember>, now: Time): seq<Period> {
    seq(|ps|, i requires 0 <= i < |ps| => if IsOrphan(ps[i], members) then CloseRow(ps[i], now, REASON_RECONCILE)
        else ps[i])
  }

  ghost function Reconciled(ps: seq<Period>, rows: seq<TeamMember>, members: map<Id, TeamMember>,
                            now: Time): seq<Period> {
    OrphansClosed(Backfilled(ps, rows), members, now)
  }

  /** Members whose open period is missing or names another head. */
  ghost function Mismatched(ps: seq<Period>, members: map<Id, TeamMember>): set<Id> {
    set c | c in members && OpenParent(ps, TeamKind, c) != Some(members[c].head)
  }

  function Orphans(ps: seq<Period>, members: map<Id, TeamMember>): set<nat> {
    set i: nat | i < |ps| && IsOrphan(ps[i], members)
  }

  /** Stored membership documents, none of them twice. */
  ghost predicate BatchOk(rows: seq<TeamMember>, members: map<Id, TeamMember>) {
    && (forall i :: 0 <= i < |rows| ==> rows[i].coach in members && members[rows[i].coach] == rows[i])
    && (forall i, j :: 0 <= i < j < |rows| ==> rows[i].coach != rows[j].coach)
  }

  lemma SuffixBatchOk(rows: seq<TeamMember>, members: map<Id, TeamMember>, done: seq<TeamMember>,
                      batch: seq<TeamMember>)
    requires BatchOk(rows, members) && done + batch <= rows
    ensures BatchOk(batch, members)
  {
    assert forall i :: 0 <= i < |batch| ==> batch[i] == rows[|done| + i];
  }

  lemma NextOfCursor(rows: seq<TeamMember>, done: seq<TeamMember>, batch: seq<TeamMember>, i: nat)
    requires i < |rows| && done + batch == rows[..i]
    ensures done + (batch + [rows[i]]) == rows[..i + 1]
  {
    assert done + (batch + [rows[i]]) == (done + batch) + [rows[i]];
  }

  /** The cursor lists every membership document exactly once, in any order. */
  ghost predicate Lists(rows: seq<TeamMember>, members: map<Id, TeamMember>) {
    && BatchOk(rows, members)
    && (forall c :: c in members ==> members[c].coach == c && members[c] in rows)
  }

  ghost predicate TeamMirror(ps: seq<Period>, members: map<Id, TeamMember>) {
    forall c :: OpenParent(ps, TeamKind, c) == HeadOf(members, c)
  }

  lemma {:induction false} BackfilledMoves(ps: seq<Period>, rows: seq<TeamMember>, members: map<Id, TeamMember>)
    requires UniqueOpen(ps) && forall c :: c in members ==> members[c].coach == c
    requires forall i :: 0 <= i < |rows| ==> rows[i].coach in members && members[rows[i].coach] == rows[i]
    ensures var ps' := Backfilled(ps, rows);
            && UniqueOpen(ps')
            && forall k, m :: OpenParent(ps', k, m) ==
                              if k == TeamKind && m in members && members[m] in rows then Some(members[m].head)
                              else OpenParent(ps, k, m)
    decreases |rows|
  {
    if rows != [] {
      var init, m := rows[..|rows| - 1], rows[|rows| - 1];
      BackfilledMoves(ps, init, members);
      assert rows == init + [m];
      OpenedMoves(Backfilled(ps, init), TeamKind, m.coach, m.head, REASON_BACKFILL, m.assignedAt);
    }
  }

  lemma OrphansClosedMoves(ps: seq<Period>, members: map<Id, TeamMember>, now: Time)
    requires UniqueOpen(ps)
    ensures var ps' := OrphansClosed(ps, members, now);
            && UniqueOpen(ps')
            && Orphans(ps', members) == {}
            && forall k, m :: OpenParent(ps', k, m) == if k == TeamKind && m !in members then None
                              else OpenParent(ps, k, m)
  {
    var ps' := OrphansClosed(ps, members, now);
    forall k, m
      ensures OpenParent(ps', k, m) == if k == TeamKind && m !in members then None else OpenParent(ps, k, m)
    {
      SameOpen(ps, ps', k, m, !(k == TeamKind && m !in members));
    }
  }

  /**
   Started from any store that only satisfies the unique indexes, whatever the cursor order: the open
   team periods mirror the rows, the gym history is where it was, and nothing is left to repair.
   */
  lemma ReconcileMirrors(ps: seq<Period>, rows: seq<TeamMember>, members: map<Id, TeamMember>, now: Time)
    requires UniqueOpen(ps) && Lists(rows, members)
    ensures var ps' := Reconciled(ps, rows, members, now);
            && UniqueOpen(ps')
            && TeamMirror(ps', members)
            && (forall m :: OpenParent(ps', GymKind, m) == OpenParent(ps, GymKind, m))
            && Mismatched(ps', members) == {} && Orphans(ps', members) == {}
  {
    BackfilledMoves(ps, rows, members);
    OrphansClosedMoves(Backfilled(ps, rows), members, now);
  }

  lemma {:induction false} BackfilledIdle(ps: seq<Period>, rows: seq<TeamMember>, members: map<Id, TeamMember>)
    requires TeamMirror(ps, members)
    requires forall i :: 0 <= i < |rows| ==> rows[i].coach in members && members[rows[i].coach] == rows[i]
    ensures Backfilled(ps, rows) == ps
    decreases |rows|
  {
    if rows != [] {
      BackfilledIdle(ps, rows[..|rows| - 1], members);
    }
  }

  /** A second run, at any later time and in any cursor order, changes nothing. */
  lemma ReconcileIdempotent(ps: seq<Period>, rows: seq<TeamMember>, rows2: seq<TeamMember>,
                            members: map<Id, TeamMember>, now: Time, later: Time)
    requires UniqueOpen(ps) && Lists(rows, members) && Lists(rows2, members)
    ensures var ps' := Reconciled(ps, rows, members, now); Reconciled(ps', rows2, members, later) == ps'
  {
    ReconcileMirrors(ps, rows, members, now);
    var ps' := Reconciled(ps, rows, members, now);
    BackfilledIdle(ps', rows2, members);
    forall i | 0 <= i < |ps'|
      ensures !IsOrphan(ps'[i], members)
    {
      assert i !in Orphans(ps', members);
    }
  }

  lemma {:induction false} BackfilledConcat(ps: seq<Period>, xs: seq<TeamMember>, ys: seq<TeamMember>)
    ensures Backfilled(Backfilled(ps, xs), ys) == Backfilled(ps, xs + ys)
    decreases |ys|
  {
    if ys == [] {
      assert xs + ys == xs;
    } else {
      assert (xs + ys)[..|xs + ys| - 1] == xs + ys[..|ys| - 1];
      BackfilledConcat(ps, xs, ys[..|ys| - 1]);
    }
  }

  /** The second pass after the candidates in done. */
  function PartClosed(ps: seq<Period>, members: map<Id, TeamMember>, now: Time, done: seq<Period>): seq<Period> {
    seq(|ps|, i requires 0 <= i < |ps| =>
      if IsOrphan(ps[i], members) && ps[i] in done then CloseRow(ps[i], now, REASON_RECONCILE) else ps[i])
  }

  lemma PartClosedKept(ps: seq<Period>, members: map<Id, TeamMember>, now: Time, done: seq<Period>)
    requires UniqueOpen(ps)
    ensures var ps' := PartClosed(ps, members, now, done);
            UniqueOpen(ps') && Mismatched(ps', members) == Mismatched(ps, members)
  {
    var ps' := PartClosed(ps, members, now, done);
    forall c | c in members
      ensures OpenParent(ps', TeamKind, c) == OpenParent(ps, TeamKind, c)
    {
      SameOpen(ps, ps', TeamKind, c, true);
    }
  }

  lemma PartClosedSkip(ps: seq<Period>, members: map<Id, TeamMember>, now: Time, done: seq<Period>, p: Period)
    requires p.member in members
    ensures PartClosed(ps, members, now, done + [p]) == PartClosed(ps, members, now, done)
  {
  }

  /** Where candidates have a member each, the next chunk has a member each too, and none it has had before. */
  lemma NextChunk(candidates: seq<Period>, start: nat, end: nat)
    requires start <= end <= |candidates|
    requires forall i, j :: 0 <= i < j < |candidates| ==> candidates[i].member != candidates[j].member
    ensures var chunk := candidates[start..end];
            && candidates[..end] == candidates[..start] + chunk
            && (forall p :: p in chunk ==> p in candidates && p !in candidates[..start])
            && (forall i, j :: 0 <= i < j < |chunk| ==> chunk[i].member != chunk[j].member)
  {
  }

  /** An orphan candidate is one row, and only that row changes. */
  lemma PartClosedOne(ps: seq<Period>, members: map<Id, TeamMember>, now: Time, done: seq<Period>, at: nat, i: nat)
    requires UniqueOpen(ps) && at < |ps| && i < |ps| && IsOrphan(ps[at], members) && ps[at] !in done
    ensures var before, after := PartClosed(ps, members, now, done), PartClosed(ps, members, now, done + [ps[at]]);
            && before[at] == ps[at] && (i != at ==> after[i] == before[i])
            && Closed(before, TeamKind, ps[at].member, now, REASON_RECONCILE)[i] == after[i]
  {
    assert IsOpen(ps[at], TeamKind, ps[at].member);
    assert IsOpen(ps[i], TeamKind, ps[at].member) ==> i == at;
    assert ps[i] in done + [ps[at]] <==> ps[i] in done || ps[i] == ps[at];
  }

  lemma PartClosedStep(ps: seq<Period>, members: map<Id, TeamMember>, now: Time, done: seq<Period>, p: Period)
    requires UniqueOpen(ps) && p in ps && IsOrphan(p, members) && p !in done
    ensures var before, after := PartClosed(ps, members, now, done), PartClosed(ps, members, now, done + [p]);
            && Closed(before, TeamKind, p.member, now, REASON_RECONCILE) == after
            && |Orphans(before, members)| == |Orphans(after, members)| + 1
  {
    var before, after := PartClosed(ps, members, now, done), PartClosed(ps, members, now, done + [p]);
    var at :| 0 <= at < |ps| && ps[at] == p;
    forall i | 0 <= i < |ps|
      ensures Closed(before, TeamKind, p.member, now, REASON_RECONCILE)[i] == after[i]
      ensures i != at ==> after[i] == before[i]
    {
      PartClosedOne(ps, members, now, done, at, i);
    }
    PartClosedOne(ps, members, now, done, at, at);
    assert !IsOrphan(after[at], members);
    assert Orphans(before, members) == Orphans(after, members) + {at};
  }

  /** Row i of a batch, when the rows before it are repaired, finds its own period as the batch found it. */
  lemma BackfilledNext(ps: seq<Period>, rows: seq<TeamMember>, members: map<Id, TeamMember>, i: nat)
    requires UniqueOpen(ps) && BatchOk(rows, members) && i < |rows| && forall c :: c in members ==>
               members[c].coach == c
    ensures var before, m := Backfilled(ps, rows[..i]), rows[i];
            && UniqueOpen(before)
            && OpenParent(before, TeamKind, m.coach) == OpenParent(ps, TeamKind, m.coach)
            && Backfilled(ps, rows[..i + 1]) == Opened(before, TeamKind, m.coach, m.head, REASON_BACKFILL, m.assignedAt)
  {
    BackfilledMoves(ps, rows[..i], members);
    assert rows[..i + 1] == rows[..i] + [rows[i]];
  }

  // ---- how a single repair changes the counts ----

  /** Each repair counted is one mismatch gone; no orphan is touched. */
  ghost predicate Repaired(before: seq<Period>, after: seq<Period>, members: map<Id, TeamMember>, n: int) {
    n + |Mismatched(after, members)| == |Mismatched(before, members)|
      && Orphans(after, members) == Orphans(before, members)
  }

  lemma RepairCounts(ps: seq<Period>, members: map<Id, TeamMember>, m: TeamMember)
    requires UniqueOpen(ps) && m.coach in members && members[m.coach] == m
    ensures var ps' := Opened(ps, TeamKind, m.coach, m.head, REASON_BACKFILL, m.assignedAt);
            && Mismatched(ps', members) == Mismatched(ps, members) - {m.coach}
            && Orphans(ps', members) == Orphans(ps, members)
  {
    OpenedMoves(ps, TeamKind, m.coach, m.head, REASON_BACKFILL, m.assignedAt);
  }

  lemma HalfRepairCounts(ps: seq<Period>, members: map<Id, TeamMember>, m: TeamMember, at: Time, reason: string)
    requires UniqueOpen(ps) && m.coach in Mismatched(ps, members) && members[m.coach] == m
    ensures var ps' := Closed(ps, TeamKind, m.coach, at, reason);
            UniqueOpen(ps') && Mismatched(ps', members) == Mismatched(ps, members)
              && Orphans(ps', members) == Orphans(ps, members)
  {
    ClosedMoves(ps, TeamKind, m.coach, at, reason);
  }

  // ---- the store ----

  /** The next row's repair, done or cut short between its two writes, keeps the account. */
  lemma RowRepaired(ps0: seq<Period>, ps: seq<Period>, members: map<Id, TeamMember>, m: TeamMember, n: int)
    requires Repaired(ps0, ps, members, n) && UniqueOpen(ps) && m.coach in members && members[m.coach] == m
    requires OpenParent(ps, TeamKind, m.coach) != Some(m.head)
    ensures Repaired(ps0, Opened(ps, TeamKind, m.coach, m.head, REASON_BACKFILL, m.assignedAt), members, n + 1)
    ensures Repaired(ps0, Closed(ps, TeamKind, m.coach, m.assignedAt, REASON_BACKFILL), members, n)
  {
    RepairCounts(ps, members, m);
    HalfRepairCounts(ps, members, m, m.assignedAt, REASON_BACKFILL);
  }

  class Store {
    var members: map<Id, TeamMember>
    var gymHeads: map<Id, GymHead>
    var periods: seq<Period>
    /** None: every history call succeeds. Some(n): n more succeed, the rest fail. */
    var failAfter: Option<nat>

    ghost predicate Valid()
      reads this
    {
      && UniqueOpen(periods)
      && (forall c :: c in members ==> members[c].coach == c)
      && (forall h :: h in gymHeads ==> gymHeads[h].head == h)
    }

    ghost function View(): Rows
      reads this
    {
      Rows(members, gymHeads, periods)
    }

    constructor ()
      ensures Valid() && View() == Rows(map[], map[], []) && failAfter == None
    {
      members, gymHeads, periods, failAfter := map[], map[], [], None;
    }

    /** One call to the history collection. */
    method Reach() returns (ok: bool)
      modifies this`failAfter
      ensures old(failAfter).None? ==> ok && failAfter.None?
      ensures old(failAfter) == Some(0) ==> !ok && failAfter == Some(0)
    {
      ok := failAfter.None? || failAfter.value > 0;
      if failAfter.Some? && failAfter.value > 0 {
        failAfter := Some(failAfter.value - 1);
      }
    }

    method OpenForMember(kind: Kind, member: Id) returns (cur: Option<Period>, ok: bool)
      requires Valid()
      modifies this`failAfter
      ensures old(failAfter).None? ==> ok && failAfter.None?
      ensures old(failAfter) == Some(0) ==> !ok && failAfter == Some(0)
      ensures ok ==> (cur.None? <==> OpenParent(periods, kind, member).None?)
      ensures ok && cur.Some? ==> cur.value in periods && IsOpen(cur.value, kind, member)
                                  && OpenParent(periods, kind, member) == Some(cur.value.parent)
    {
      cur := None;
      ok := Reach();
      if !ok { return; }
      for i := 0 to |periods|
        invariant cur.None? && forall j :: 0 <= j < i ==> !IsOpen(periods[j], kind, member)
      {
        if IsOpen(periods[i], kind, member) {
          OpenParentAt(periods, i);
          cur := Some(periods[i]);
          return;
        }
      }
    }

    /** Updates the first match; the index leaves no second one. */
    method ClosePeriod(kind: Kind, member: Id, reason: string, at: Time) returns (ok: bool)
      requires Valid()
      modifies this`periods, this`failAfter
      ensures old(failAfter).None? ==> ok && failAfter.None?
      ensures Valid()
      ensures periods == if ok then Closed(old(periods), kind, member, at, reason) else old(periods)
    {
      ok := Reach();
      if !ok { return; }
      ClosedMoves(periods, kind, member, at, reason);
      for i := 0 to |periods|
        invariant periods == old(periods) && (old(failAfter).None? ==> failAfter.None?)
        invariant forall j :: 0 <= j < i ==> !IsOpen(periods[j], kind, member)
      {
        if IsOpen(periods[i], kind, member) {
          periods := periods[i := CloseRow(periods[i], at, reason)];
          return;
        }
      }
      assert periods == Closed(periods, kind, member, at, reason);
    }

    method CloseByParent(kind: Kind, parent: Id, reason: string, at: Time) returns (ok: bool)
      requires Valid()
      modifies this`periods, this`failAfter
      ensures old(failAfter).None? ==> ok && failAfter.None?
      ensures Valid()
      ensures periods == if ok then ClosedByParent(old(periods), kind, parent, at, reason) else old(periods)
    {
      ok := Reach();
      if !ok { return; }
      ghost var goal := ClosedByParent(periods, kind, parent, at, reason);
      ClosedByParentMoves(periods, kind, parent, at, reason);
      for i := 0 to |periods|
        invariant |periods| == |old(periods)| && (old(failAfter).None? ==> failAfter.None?)
        invariant forall j :: 0 <= j < |periods| ==> periods[j] == if j < i then goal[j] else old(periods)[j]
      {
        if periods[i].kind == kind && periods[i].parent == parent && periods[i].end.None? {
          periods := periods[i := CloseRow(periods[i], at, reason)];
        }
      }
      assert periods == goal;
    }

    /** A period elsewhere is closed first. With one writer the unique index never refuses the insert. */
    method OpenPeriod(kind: Kind, member: Id, parent: Id, reason: string, at: Time) returns (ok: bool)
      requires Valid()
      modifies this`periods, this`failAfter
      ensures old(failAfter).None? ==> ok && failAfter.None?
      ensures old(failAfter) == Some(0) ==> !ok && failAfter == Some(0) && periods == old(periods)
      ensures Valid()
      ensures ok ==> periods == Opened(old(periods), kind, member, parent, reason, at)
      ensures !ok ==> periods == old(periods)
                      || (periods == Closed(old(periods), kind, member, at, reason)
                          && OpenParent(old(periods), kind, member) != Some(parent))
    {
      OpenedMoves(periods, kind, member, parent, reason, at);
      var cur;
      cur, ok := OpenForMember(kind, member);
      if !ok { return; }
      if cur.Some? {
        if cur.value.parent == parent { return; }
        ok := ClosePeriod(kind, member, reason, at);
        if !ok { return; }
      } else {
        assert periods == Closed(periods, kind, member, at, reason) by {
          assert !HasOpen(periods, kind, member);
        }
      }
      ok := Reach();
      if !ok { return; }
      periods := periods + [Period(kind, member, parent, at, None, reason)];
    }

    // ---- team rows ----

    /** The row is written even when its history cannot be. */
    method Upsert(m: TeamMember, now: Time) returns (prev: Option<TeamMember>)
      requires Valid()
      modifies this
      ensures Valid() && gymHeads == old(gymHeads)
      ensures prev == if m.coach in old(members) then Some(old(members)[m.coach]) else None
      ensures members == Upserted(old(View()), m, now).members
      ensures old(failAfter).None? ==> failAfter.None? && View() == Upserted(old(View()), m, now)
      ensures old(failAfter) == Some(0) ==> failAfter == Some(0) && periods == old(periods)
    {
      prev := if m.coach in members then Some(members[m.coach]) else None;
      members := members[m.coach := m];
      var reason := if prev.Some? && prev.value.head != m.head then REASON_REASSIGN else REASON_ASSIGN;
      var at := if m.assignedAt == ZERO_TIME then now else m.assignedAt;
      var _ := OpenPeriod(TeamKind, m.coach, m.head, reason, at);
    }

    method DeleteByCoach(coach: Id, reason: string, now: Time) returns (n: nat)
      requires Valid()
      modifies this
      ensures Valid() && gymHeads == old(gymHeads)
      ensures n == if coach in old(members) then 1 else 0
      ensures members == old(members) - {coach}
      ensures old(failAfter).None? ==> failAfter.None? && View() == WithoutCoach(old(View()), coach, reason, now)
    {
      n := if coach in members then 1 else 0;
      members := members - {coach};
      if n > 0 {
        var _ := ClosePeriod(TeamKind, coach, reason, now);
      } else {
        assert members == old(members);
      }
    }

    method DeleteByHead(head: Id, reason: string, now: Time) returns (n: nat)
      requires Valid()
      modifies this
      ensures Valid() && gymHeads == old(gymHeads)
      ensures n == |set c | c in old(members) && old(members)[c].head == head|
      ensures members == MembersNotUnder(old(members), head)
      ensures old(failAfter).None? ==> failAfter.None? && View() == WithoutTeam(old(View()), head, reason, now)
    {
      n := |set c | c in members && members[c].head == head|;
      members := map c | c in members && members[c].head != head :: members[c];
      var _ := CloseByParent(TeamKind, head, reason, now);
    }

    method DeleteByAny(user: Id, reason: string, now: Time)
      requires Valid()
      modifies this
      ensures Valid()
      ensures members == MembersNotUnder(old(members) - {user}, user) && gymHeads == old(gymHeads) - {user}
      ensures old(failAfter).None? ==> failAfter.None? && View() == WithoutAny(old(View()), user, reason, now)
    {
      members := map c | c in members && c != user && members[c].head != user :: members[c];
      assert members == MembersNotUnder(old(members) - {user}, user);
      var _ := ClosePeriod(TeamKind, user, reason, now);
      var _ := CloseByParent(TeamKind, user, reason, now);
      var inGym := user in gymHeads;
      gymHeads := gymHeads - {user};
      if inGym {
        var _ := ClosePeriod(GymKind, user, reason, now);
      } else {
        assert gymHeads == old(gymHeads);
      }
    }

    // ---- gym rows ----

    /** Refused by the unique index for a head coach with a seat. */
    method AddHeadCoach(h: GymHead, reason: string) returns (added: bool)
      requires Valid()
      modifies this
      ensures Valid() && members == old(members)
      ensures added <==> h.head !in old(gymHeads)
      ensures gymHeads == if added then old(gymHeads)[h.head := h] else old(gymHeads)
      ensures old(failAfter).None? ==> failAfter.None? && View() == if added then WithGymHead(old(View()), h, reason)
                                       else old(View())
    {
      added := h.head !in gymHeads;
      if added {
        gymHeads := gymHeads[h.head := h];
        var _ := OpenPeriod(GymKind, h.head, h.gym, reason, h.addedAt);
      }
    }

    method RemoveHeadCoach(gym: Id, head: Id, reason: string, now: Time) returns (removed: bool)
      requires Valid()
      modifies this
      ensures Valid() && members == old(members)
      ensures removed <==> GymOf(old(gymHeads), head) == Some(gym)
      ensures gymHeads == if removed then old(gymHeads) - {head} else old(gymHeads)
      ensures old(failAfter).None? ==> failAfter.None? && View() == if removed
                                       then WithoutGymHead(old(View()), head, reason, now) else old(View())
    {
      removed := head in gymHeads && gymHeads[head].gym == gym;
      if removed {
        gymHeads := gymHeads - {head};
        var _ := ClosePeriod(GymKind, head, reason, now);
      }
    }

    method ReleaseHead(head: Id, reason: string, now: Time) returns (gym: Option<Id>)
      requires Valid()
      modifies this
      ensures Valid() && members == old(members)
      ensures gym == GymOf(old(gymHeads), head)
      ensures gymHeads == old(gymHeads) - {head}
      ensures old(failAfter).None? ==> failAfter.None? && View() == WithoutGymHead(old(View()), head, reason, now)
    {
      gym := GymOf(gymHeads, head);
      gymHeads := gymHeads - {head};
      if gym.Some? {
        var _ := ClosePeriod(GymKind, head, reason, now);
      } else {
        assert gymHeads == old(gymHeads);
      }
    }

    method RemoveAllByGym(gym: Id, reason: string, now: Time) returns (released: set<Id>)
      requires Valid()
      modifies this
      ensures Valid() && members == old(members)
      ensures released == set h | h in old(gymHeads) && old(gymHeads)[h].gym == gym
      ensures gymHeads == old(gymHeads) - released
      ensures old(failAfter).None? ==> failAfter.None? && View() == WithoutGym(old(View()), gym, reason, now)
    {
      released := set h | h in gymHeads && gymHeads[h].gym == gym;
      gymHeads := map h | h in gymHeads && gymHeads[h].gym != gym :: gymHeads[h];
      assert gymHeads == old(gymHeads) - released;
      var _ := CloseByParent(GymKind, gym, reason, now);
    }

    // ---- the repair ----

    /** The open team periods of the given members. */
    method OpenByMembers(ids: seq<Id>) returns (out: map<Id, Period>, ok: bool)
      requires Valid()
      modifies this`failAfter
      ensures old(failAfter).None? ==> ok && failAfter.None?
      ensures ok ==> forall m :: m in ids ==>
                (m in out <==> OpenParent(periods, TeamKind, m).Some?)
                  && (m in out ==> OpenParent(periods, TeamKind, m) == Some(out[m].parent))
    {
      out := map[];
      ok := Reach();
      if !ok { return; }
      for i := 0 to |periods|
        invariant old(failAfter).None? ==> failAfter.None?
        invariant forall m :: m in out <==> m in ids && exists j :: 0 <= j < i && IsOpen(periods[j], TeamKind, m)
        invariant forall m :: m in out ==> OpenParent(periods, TeamKind, m) == Some(out[m].parent)
      {
        if periods[i].kind == TeamKind && periods[i].member in ids && periods[i].end.None? {
          OpenParentAt(periods, i);
          out := out[periods[i].member := periods[i]];
        }
      }
    }

    /** Looks the coaches up among the rows; nobody is found when the store cannot be reached. */
    method ExistingCoaches(ids: seq<Id>) returns (out: map<Id, Id>, ok: bool)
      modifies this`failAfter
      ensures old(failAfter).None? ==> ok && failAfter.None?
      ensures ok ==> forall c :: (if c in out then Some(out[c]) else None) == if c in ids then HeadOf(members, c)
                                 else None
      ensures !ok ==> out == map[]
    {
      out := map[];
      ok := Reach();
      if !ok { return; }
      var left := members.Keys;
      while left != {}
        invariant old(failAfter).None? ==> failAfter.None?
        invariant left <= members.Keys
        invariant forall c :: c in out <==> c in ids && c in members && c !in left
        invariant forall c :: c in out ==> out[c] == members[c].head
        decreases left
      {
        var c :| c in left;
        if c in ids {
          out := out[c := members[c].head];
        }
        left := left - {c};
      }
    }

    /** Repairs one batch of rows. On an error the rows before the failing one are repaired. */
    method Flush(batch: seq<TeamMember>, base: nat) returns (count: nat, ok: bool)
      requires Valid() && BatchOk(batch, members)
      modifies this`periods, this`failAfter
      ensures Valid()
      ensures old(failAfter).None? ==> ok && failAfter.None?
      ensures ok ==> periods == Backfilled(old(periods), batch)
      ensures Repaired(old(periods), periods, members, count - base)
    {
      count, ok := base, true;
      if |batch| == 0 { return; }
      ghost var ps0 := periods;
      var ids := seq(|batch|, i requires 0 <= i < |batch| => batch[i].coach);
      var open;
      open, ok := OpenByMembers(ids);
      if !ok { return; }
      for i := 0 to |batch|
        invariant Valid() && (old(failAfter).None? ==> failAfter.None?)
        invariant periods == Backfilled(ps0, batch[..i])
        invariant Repaired(ps0, periods, members, count - base)
      {
        var m := batch[i];
        assert ids[i] == m.coach;
        BackfilledNext(ps0, batch, members, i);
        if m.coach in open && open[m.coach].parent == m.head {
          continue;
        }
        RowRepaired(ps0, periods, members, m, count - base);
        ok := OpenPeriod(TeamKind, m.coach, m.head, REASON_BACKFILL, m.assignedAt);
        if !ok { return; }
        count := count + 1;
      }
      assert batch[..|batch|] == batch;
    }

    /** Flushes a batch when the rows in done are repaired already. */
    method FlushAfter(ghost ps0: seq<Period>, ghost done: seq<TeamMember>, batch: seq<TeamMember>, base: nat)
      returns (count: nat, ok: bool)
      requires Valid() && BatchOk(batch, members)
      requires periods == Backfilled(ps0, done) && Repaired(ps0, periods, members, base)
      modifies this`periods, this`failAfter
      ensures Valid()
      ensures old(failAfter).None? ==> ok && failAfter.None?
      ensures ok ==> periods == Backfilled(ps0, done + batch)
      ensures Repaired(ps0, periods, members, count)
    {
      BackfilledConcat(ps0, done, batch);
      count, ok := Flush(batch, base);
    }

    /** The first pass: fills a batch from the cursor and flushes it when it is full, and once more at the end. */
    method BackfillAll(cursor: seq<TeamMember>, batchSize: nat) returns (opens: nat, ok: bool)
      requires Valid() && BatchOk(cursor, members) && batchSize > 0
      modifies this`periods, this`failAfter
      ensures Valid()
      ensures old(failAfter).None? ==> ok && failAfter.None?
      ensures ok ==> periods == Backfilled(old(periods), cursor)
      ensures Repaired(old(periods), periods, members, opens)
    {
      opens := 0;
      ok := Reach();
      if !ok { return; }
      var batch: seq<TeamMember> := [];
      ghost var ps0: seq<Period>, done: seq<TeamMember> := periods, [];
      for i := 0 to |cursor|
        invariant Valid() && (old(failAfter).None? ==> failAfter.None?)
        invariant done + batch == cursor[..i]
        invariant periods == Backfilled(ps0, done)
        invariant Repaired(ps0, periods, members, opens)
      {
        NextOfCursor(cursor, done, batch, i);
        batch := batch + [cursor[i]];
        if |batch| >= batchSize {
          SuffixBatchOk(cursor, members, done, batch);
          opens, ok := FlushAfter(ps0, done, batch, opens);
          if !ok { return; }
          done := done + batch;
          batch := [];
        }
      }
      assert done + batch == cursor;
      SuffixBatchOk(cursor, members, done, batch);
      opens, ok := FlushAfter(ps0, done, batch, opens);
    }

    /** Closes the orphans among one chunk of the candidates; mid and done say where the second pass stands. */
    method CloseOrphans(chunk: seq<Period>, now: Time, base: nat, ghost mid: seq<Period>, ghost done: seq<Period>)
      returns (count: nat, ok: bool)
      requires Valid() && UniqueOpen(mid) && periods == PartClosed(mid, members, now, done)
      requires forall p :: p in chunk ==> p in mid && p.kind == TeamKind && p.end.None? && p !in done
      requires forall i, j :: 0 <= i < j < |chunk| ==> chunk[i].member != chunk[j].member
      modifies this`periods, this`failAfter
      ensures Valid()
      ensures old(failAfter).None? ==> ok && failAfter.None?
      ensures Mismatched(periods, members) == Mismatched(mid, members)
      ensures ok ==> periods == PartClosed(mid, members, now, done + chunk)
      ensures count + |Orphans(periods, members)| == base + |Orphans(old(periods), members)|
    {
      count, ok := base, true;
      PartClosedKept(mid, members, now, done);
      assert done + chunk[..0] == done;
      var ids := seq(|chunk|, i requires 0 <= i < |chunk| => chunk[i].member);
      var existing;
      existing, ok := ExistingCoaches(ids);
      if !ok { return; }
      for k := 0 to |chunk|
        invariant Valid() && (old(failAfter).None? ==> failAfter.None?)
        invariant periods == PartClosed(mid, members, now, done + chunk[..k])
        invariant count + |Orphans(periods, members)| == base + |Orphans(old(periods), members)|
      {
        var p := chunk[k];
        ghost var sofar := done + chunk[..k];
        assert ids[k] == p.member;
        assert done + chunk[..k + 1] == sofar + [p];
        if p.member in existing {
          PartClosedSkip(mid, members, now, sofar, p);
          continue;
        }
        assert p !in sofar;
        PartClosedStep(mid, members, now, sofar, p);
        ok := ClosePeriod(TeamKind, p.member, REASON_RECONCILE, now);
        if !ok {
          PartClosedKept(mid, members, now, sofar);
          return;
        }
        count := count + 1;
      }
      assert chunk[..|chunk|] == chunk;
      PartClosedKept(mid, members, now, done + chunk);
    }

    /** The open team periods, in storage order. */
    method OpenTeamPeriods() returns (out: seq<Period>)
      requires Valid()
      ensures forall p :: p in out <==> p in periods && p.kind == TeamKind && p.end.None?
      ensures forall i, j :: 0 <= i < j < |out| ==> out[i].member != out[j].member
    {
      out := [];
      for i := 0 to |periods|
        invariant forall k :: 0 <= k < |out| ==>
                    exists j :: 0 <= j < i && periods[j] == out[k] && IsOpen(periods[j], TeamKind, out[k].member)
        invariant forall k, l :: 0 <= k < l < |out| ==> out[k].member != out[l].member
        invariant forall j :: 0 <= j < i && periods[j].kind == TeamKind && periods[j].end.None? ==> periods[j] in out
      {
        if periods[i].kind == TeamKind && periods[i].end.None? {
          out := out + [periods[i]];
        }
      }
    }

    /** The second pass: lists the open team periods, then closes the orphans chunk by chunk. */
    method SweepOrphans(batchSize: nat, now: Time) returns (closes: nat, ok: bool)
      requires Valid() && batchSize > 0
      modifies this`periods, this`failAfter
      ensures Valid()
      ensures old(failAfter).None? ==> ok
      ensures ok ==> periods == OrphansClosed(old(periods), members, now)
      ensures closes + |Orphans(periods, members)| == |Orphans(old(periods), members)|
      ensures Mismatched(periods, members) == Mismatched(old(periods), members)
    {
      closes := 0;
      ok := Reach();
      if !ok { return; }
      ghost var mid := periods;
      var candidates := OpenTeamPeriods();
      var start := 0;
      assert periods == PartClosed(mid, members, now, candidates[..0]);
      while start < |candidates|
        invariant 0 <= start <= |candidates|
        invariant Valid() && (old(failAfter).None? ==> failAfter.None?)
        invariant periods == PartClosed(mid, members, now, candidates[..start])
        invariant closes + |Orphans(periods, members)| == |Orphans(mid, members)|
      {
        var end := if start + batchSize > |candidates| then |candidates| else start + batchSize;
        var chunk := candidates[start..end];
        NextChunk(candidates, start, end);
        closes, ok := CloseOrphans(chunk, now, closes, mid, candidates[..start]);
        if !ok { return; }
        start := end;
      }
      assert candidates[..|candidates|] == candidates;
      assert periods == OrphansClosed(mid, members, now);
      PartClosedKept(mid, members, now, candidates);
    }

    /**
     Aligns the open team periods with the rows: first the rows without their period, in batches of the
     cursor, then the periods without a row. On success the result does not depend on the batch size, and
     the counts are the numbers of mismatched rows and of orphan periods found. Cut short anywhere, the
     counts say exactly how much of the damage is gone.
     */
    method ReconcileTeam(cursor: seq<TeamMember>, batchSize: nat, now: Time) returns (opens: nat, closes: nat, ok: bool)
      requires Valid() && Lists(cursor, members) && batchSize > 0
      modifies this`periods, this`failAfter
      ensures Valid()
      ensures old(failAfter).None? ==> ok
      ensures ok ==> periods == Reconciled(old(periods), cursor, members, now) && TeamMirror(periods, members)
      ensures ok ==> opens == |Mismatched(old(periods), members)| && closes == |Orphans(old(periods), members)|
      ensures opens + |Mismatched(periods, members)| == |Mismatched(old(periods), members)|
      ensures closes + |Orphans(periods, members)| == |Orphans(old(periods), members)|
    {
      closes := 0;
      opens, ok := BackfillAll(cursor, batchSize);
      if !ok { return; }
      closes, ok := SweepOrphans(batchSize, now);
      if ok {
        ReconcileMirrors(old(periods), cursor, members, now);
      }
    }
  }
}
