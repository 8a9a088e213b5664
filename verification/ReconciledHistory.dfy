/** When the repair of the team history leaves an ordered history behind, and an input on which it does not. */
module ReconciledHistory {
  import opened Common
  import opened Periods
  import opened Memberships
  import opened MembershipStore

  // ---- one member at a time ----

  predicate IsOf(p: Period, kind: Kind, member: Id) {
    p.kind == kind && p.member == member
  }

  /** The rows of one member are in order; HistoryOk says so of every member. */
  ghost predicate MemberOk(ps: seq<Period>, kind: Kind, member: Id, now: Time) {
    && (forall i :: 0 <= i < |ps| && IsOf(ps[i], kind, member) ==>
          ps[i].start <= now && (ps[i].end.Some? ==> ps[i].start <= ps[i].end.value <= now))
    && (forall i, j :: 0 <= i < j < |ps| && IsOf(ps[i], kind, member) && IsOf(ps[j], kind, member) ==>
          ps[i].end.Some? && ps[i].end.value <= ps[j].start)
  }

  lemma HistoryMemberwise(ps: seq<Period>, now: Time)
    ensures HistoryOk(ps, now) <==> forall k, m :: MemberOk(ps, k, m, now)
  {
    if forall k, m :: MemberOk(ps, k, m, now) {
      forall i | 0 <= i < |ps|
        ensures ps[i].start <= now && (ps[i].end.Some? ==> ps[i].start <= ps[i].end.value <= now)
      {
        assert MemberOk(ps, ps[i].kind, ps[i].member, now);
      }
      forall i, j | 0 <= i < j < |ps| && SameKey(ps[i], ps[j])
        ensures ps[i].end.Some? && ps[i].end.value <= ps[j].start
      {
        assert MemberOk(ps, ps[i].kind, ps[i].member, now);
        assert IsOf(ps[i], ps[i].kind, ps[i].member) && IsOf(ps[j], ps[i].kind, ps[i].member);
      }
    }
    if HistoryOk(ps, now) {
      forall k, m
        ensures MemberOk(ps, k, m, now)
      {
        forall i, j | 0 <= i < j < |ps| && IsOf(ps[i], k, m) && IsOf(ps[j], k, m)
          ensures ps[i].end.Some? && ps[i].end.value <= ps[j].start
        {
          assert SameKey(ps[i], ps[j]);
        }
      }
    }
  }

  /** ps' has the member's rows of ps, at the same places, and perhaps rows of others behind them. */
  predicate SameRows(ps: seq<Period>, ps': seq<Period>, kind: Kind, member: Id) {
    && |ps| <= |ps'|
    && (forall i :: 0 <= i < |ps| ==> (IsOf(ps[i], kind, member) || IsOf(ps'[i], kind, member) ==> ps'[i] == ps[i]))
    && (forall i :: |ps| <= i < |ps'| ==> !IsOf(ps'[i], kind, member))
  }

  lemma SameRowsSameHistory(ps: seq<Period>, ps': seq<Period>, kind: Kind, member: Id, at: Time, now: Time)
    requires SameRows(ps, ps', kind, member)
    ensures MemberOk(ps', kind, member, now) <==> MemberOk(ps, kind, member, now)
    ensures After(ps', kind, member, at) <==> After(ps, kind, member, at)
  {
    forall i | 0 <= i < |ps'| && IsOf(ps'[i], kind, member)
      ensures i < |ps| && ps[i] == ps'[i]
    {
    }
    forall i | 0 <= i < |ps| && IsOf(ps[i], kind, member)
      ensures ps[i] == ps'[i]
    {
    }
  }

  /** Members without a row in the list keep theirs. */
  lemma {:induction false} BackfillLeavesOthers(ps: seq<Period>, rows: seq<TeamMember>, kind: Kind, member: Id)
    requires kind == TeamKind ==> forall i :: 0 <= i < |rows| ==> rows[i].coach != member
    ensures SameRows(ps, Backfilled(ps, rows), kind, member)
    decreases |rows|
  {
    if rows != [] {
      var most, m := rows[..|rows| - 1], rows[|rows| - 1];
      BackfillLeavesOthers(ps, most, kind, member);
    }
  }

  /** Opening a period keeps its own member's history in order exactly when it is dated after all of it. */
  lemma OpenedMemberExact(ps: seq<Period>, kind: Kind, member: Id, parent: Id, reason: string, at: Time, now: Time)
    requires UniqueOpen(ps) && MemberOk(ps, kind, member, now) && OpenParent(ps, kind, member) != Some(parent)
    ensures MemberOk(Opened(ps, kind, member, parent, reason, at), kind, member, now) <==>
              at <= now && After(ps, kind, member, at)
  {
    var mid, ps' := Closed(ps, kind, member, at, reason), Opened(ps, kind, member, parent, reason, at);
    assert ps'[|mid|] == Period(kind, member, parent, at, None, reason);
    if at <= now && After(ps, kind, member, at) {
      forall i, j | 0 <= i < j < |ps'| && IsOf(ps'[i], kind, member) && IsOf(ps'[j], kind, member)
        ensures ps'[i].end.Some? && ps'[i].end.value <= ps'[j].start
      {
        assert ps'[i] == mid[i] && IsOf(ps[i], kind, member);
        if j < |mid| { assert IsOf(ps[j], kind, member); }
      }
    } else if MemberOk(ps', kind, member, now) {
      assert IsOf(ps'[|mid|], kind, member);
      forall i | 0 <= i < |ps| && ps[i].kind == kind && ps[i].member == member
        ensures ps[i].start <= at && (ps[i].end.Some? ==> ps[i].end.value <= at)
      {
        assert ps'[i] == mid[i] && IsOf(ps'[i], kind, member);
      }
    }
  }

  /** A row whose period is missing or elsewhere, dated in the past and after all the member's periods. */
  ghost predicate WellDated(ps: seq<Period>, m: TeamMember, now: Time) {
    m.assignedAt <= now && After(ps, TeamKind, m.coach, m.assignedAt)
  }

  /** Before its turn, the member of row i has the history it had. */
  lemma BeforeTurn(ps: seq<Period>, rows: seq<TeamMember>, members: map<Id, TeamMember>, i: nat, now: Time)
    requires HistoryOk(ps, now) && BatchOk(rows, members) && i < |rows|
    ensures var before := Backfilled(ps, rows[..i]);
            && MemberOk(before, TeamKind, rows[i].coach, now)
            && (After(before, TeamKind, rows[i].coach, rows[i].assignedAt) <==>
                  After(ps, TeamKind, rows[i].coach, rows[i].assignedAt))
  {
    var m := rows[i];
    BackfillLeavesOthers(ps, rows[..i], TeamKind, m.coach);
    SameRowsSameHistory(ps, Backfilled(ps, rows[..i]), TeamKind, m.coach, m.assignedAt, now);
    HistoryMemberwise(ps, now);
    assert MemberOk(ps, TeamKind, m.coach, now);
  }

  /** After its turn, no later row touches it. */
  lemma AfterTurn(ps: seq<Period>, rows: seq<TeamMember>, members: map<Id, TeamMember>, i: nat, now: Time)
    requires BatchOk(rows, members) && i < |rows|
    ensures MemberOk(Backfilled(ps, rows), TeamKind, rows[i].coach, now) <==>
              MemberOk(Backfilled(ps, rows[..i + 1]), TeamKind, rows[i].coach, now)
  {
    var m, after := rows[i], Backfilled(ps, rows[..i + 1]);
    assert rows == rows[..i + 1] + rows[i + 1..];
    BackfilledConcat(ps, rows[..i + 1], rows[i + 1..]);
    BackfillLeavesOthers(after, rows[i + 1..], TeamKind, m.coach);
    SameRowsSameHistory(after, Backfilled(ps, rows), TeamKind, m.coach, m.assignedAt, now);
  }

  /** What the backfill does to the history of the member of row i. */
  lemma BackfilledMember(ps: seq<Period>, rows: seq<TeamMember>, members: map<Id, TeamMember>, i: nat, now: Time)
    requires HistoryOk(ps, now) && UniqueOpen(ps) && BatchOk(rows, members) && i < |rows|
             && forall c :: c in members ==> members[c].coach == c
    ensures MemberOk(Backfilled(ps, rows), TeamKind, rows[i].coach, now) <==>
              (rows[i].coach in Mismatched(ps, members) ==> WellDated(ps, rows[i], now))
  {
    var m, before := rows[i], Backfilled(ps, rows[..i]);
    BeforeTurn(ps, rows, members, i, now);
    AfterTurn(ps, rows, members, i, now);
    BackfilledNext(ps, rows, members, i);
    if m.coach in Mismatched(ps, members) {
      OpenedMemberExact(before, TeamKind, m.coach, m.head, REASON_BACKFILL, m.assignedAt, now);
    }
  }

  /** Closing the orphans now keeps every member's order, and changes members with a row not at all. */
  lemma OrphansClosedMember(ps: seq<Period>, members: map<Id, TeamMember>, kind: Kind, member: Id, now: Time)
    ensures kind == TeamKind && member !in members && MemberOk(ps, kind, member, now) ==>
              MemberOk(OrphansClosed(ps, members, now), kind, member, now)
    ensures !(kind == TeamKind && member !in members) ==>
              (MemberOk(OrphansClosed(ps, members, now), kind, member, now) <==> MemberOk(ps, kind, member, now))
  {
    var ps' := OrphansClosed(ps, members, now);
    if kind == TeamKind && member !in members {
      if MemberOk(ps, kind, member, now) {
        forall i, j | 0 <= i < j < |ps'| && IsOf(ps'[i], kind, member) && IsOf(ps'[j], kind, member)
          ensures ps'[i].end.Some? && ps'[i].end.value <= ps'[j].start
        {
          assert IsOf(ps[i], kind, member) && IsOf(ps[j], kind, member);
        }
      }
    } else {
      assert SameRows(ps, ps', kind, member);
      SameRowsSameHistory(ps, ps', kind, member, now, now);
    }
  }

  /**
   The whole repair of an ordered history leaves an ordered history exactly when every row that had to be
   repaired was assigned in the past and after all its member's periods.
   */
  lemma ReconciledHistoryExact(ps: seq<Period>, rows: seq<TeamMember>, members: map<Id, TeamMember>, now: Time)
    requires HistoryOk(ps, now) && Lists(rows, members)
    ensures HistoryOk(Reconciled(ps, rows, members, now), now) <==>
              forall c :: c in Mismatched(ps, members) ==> WellDated(ps, members[c], now)
  {
    HistoryMeansDisjoint(ps, now);
    var filled, final := Backfilled(ps, rows), Reconciled(ps, rows, members, now);
    forall k, m
      ensures MemberOk(final, k, m, now) <==>
                (k == TeamKind && m in Mismatched(ps, members) ==> WellDated(ps, members[m], now))
    {
      ReconciledMember(ps, rows, members, k, m, now);
    }
    HistoryMemberwise(final, now);
    if HistoryOk(final, now) {
      forall c | c in Mismatched(ps, members)
        ensures WellDated(ps, members[c], now)
      {
        assert MemberOk(final, TeamKind, c, now);
      }
    }
  }

  lemma ReconciledMember(ps: seq<Period>, rows: seq<TeamMember>, members: map<Id, TeamMember>, k: Kind, m: Id,
                         now: Time)
    requires HistoryOk(ps, now) && UniqueOpen(ps) && Lists(rows, members)
    ensures MemberOk(Reconciled(ps, rows, members, now), k, m, now) <==>
              (k == TeamKind && m in Mismatched(ps, members) ==> WellDated(ps, members[m], now))
  {
    var filled := Backfilled(ps, rows);
    OrphansClosedMember(filled, members, k, m, now);
    if k == TeamKind && m in members {
      assert members[m] in rows;
      var i :| 0 <= i < |rows| && rows[i] == members[m];
      BackfilledMember(ps, rows, members, i, now);
    } else {
      BackfillLeavesOthers(ps, rows, k, m);
      SameRowsSameHistory(ps, filled, k, m, now, now);
      HistoryMemberwise(ps, now);
      assert MemberOk(ps, k, m, now);
    }
  }

  // ---- what it writes ----

  /** The period of a membership row. */
  function PeriodOf(m: TeamMember): Period {
    Period(TeamKind, m.coach, m.head, m.assignedAt, None, "backfill")
  }

  predicate IsOpenTeam(p: Period) {
    p.kind == TeamKind && p.end == None
  }

  /** A stored period after the backfill of rows. */
  function RowBackfilled(p: Period, rows: seq<TeamMember>, members: map<Id, TeamMember>): Period {
    if IsOpenTeam(p) && p.member in members && members[p.member] in rows && members[p.member].head != p.parent
    then Period(p.kind, p.member, p.parent, p.start, Some(members[p.member].assignedAt), "backfill")
    else p
  }

  /** And after the whole repair. */
  function RowRepaired(p: Period, members: map<Id, TeamMember>, now: Time): Period {
    if !IsOpenTeam(p) then p
    else if p.member !in members then Period(p.kind, p.member, p.parent, p.start, Some(now), "reconcile")
    else if members[p.member].head == p.parent then p
    else Period(p.kind, p.member, p.parent, p.start, Some(members[p.member].assignedAt), "backfill")
  }

  /** The period of a mismatched row. */
  ghost predicate ComesFrom(p: Period, ps: seq<Period>, rows: seq<TeamMember>, members: map<Id, TeamMember>) {
    p.member in Mismatched(ps, members) && members[p.member] in rows && p == PeriodOf(members[p.member])
  }

  /** The periods added are those of the mismatched rows. */
  ghost predicate Adds(ps: seq<Period>, ps': seq<Period>, rows: seq<TeamMember>, members: map<Id, TeamMember>) {
    && |ps'| >= |ps|
    && (forall i :: |ps| <= i < |ps'| ==> ComesFrom(ps'[i], ps, rows, members))
    && (forall c :: c in Mismatched(ps, members) && members[c] in rows ==> PeriodOf(members[c]) in ps'[|ps|..])
  }

  lemma {:induction false} BackfillTold(ps: seq<Period>, rows: seq<TeamMember>, members: map<Id, TeamMember>)
    requires UniqueOpen(ps) && BatchOk(rows, members) && forall c :: c in members ==> members[c].coach == c
    ensures Adds(ps, Backfilled(ps, rows), rows, members)
    ensures forall i :: 0 <= i < |ps| ==> Backfilled(ps, rows)[i] == RowBackfilled(ps[i], rows, members)
    decreases |rows|
  {
    if rows != [] {
      var n := |rows| - 1;
      WithoutLastRow(rows, members);
      LastTurn(ps, rows, members);
      BackfillTold(ps, rows[..n], members);
      TurnTold(ps, Backfilled(ps, rows[..n]), rows[..n], members, rows[n]);
    }
  }

  lemma WithoutLastRow(rows: seq<TeamMember>, members: map<Id, TeamMember>)
    requires BatchOk(rows, members) && rows != []
    ensures var n := |rows| - 1; rows == rows[..n] + [rows[n]] && BatchOk(rows[..n], members) && rows[n] !in rows[..n]
  {
    var n := |rows| - 1;
    forall i | 0 <= i < n
      ensures rows[..n][i] != rows[n] && rows[..n][i] == rows[i]
    {
      assert rows[i].coach != rows[n].coach;
    }
  }

  lemma LastTurn(ps: seq<Period>, rows: seq<TeamMember>, members: map<Id, TeamMember>)
    requires UniqueOpen(ps) && BatchOk(rows, members) && (forall c :: c in members ==> members[c].coach == c)
             && rows != []
    ensures var m, before := rows[|rows| - 1], Backfilled(ps, rows[..|rows| - 1]);
            && Backfilled(ps, rows) == Opened(before, TeamKind, m.coach, m.head, REASON_BACKFILL, m.assignedAt)
            && OpenParent(before, TeamKind, m.coach) == OpenParent(ps, TeamKind, m.coach)
  {
    BackfilledNext(ps, rows, members, |rows| - 1);
  }

  /** One more row. */
  lemma TurnTold(ps: seq<Period>, before: seq<Period>, init: seq<TeamMember>, members: map<Id, TeamMember>,
                 m: TeamMember)
    requires UniqueOpen(ps) && forall c :: c in members ==> members[c].coach == c
    requires m.coach in members && members[m.coach] == m && m !in init && Adds(ps, before, init, members)
    requires forall i :: 0 <= i < |ps| ==> before[i] == RowBackfilled(ps[i], init, members)
    requires OpenParent(before, TeamKind, m.coach) == OpenParent(ps, TeamKind, m.coach)
    ensures var after := Opened(before, TeamKind, m.coach, m.head, REASON_BACKFILL, m.assignedAt);
            && Adds(ps, after, init + [m], members)
            && forall i :: 0 <= i < |ps| ==> after[i] == RowBackfilled(ps[i], init + [m], members)
  {
    var after := Opened(before, TeamKind, m.coach, m.head, REASON_BACKFILL, m.assignedAt);
    forall i | 0 <= i < |ps|
      ensures after[i] == RowBackfilled(ps[i], init + [m], members)
    {
      if ps[i].end == None {
        OpenParentAt(ps, i);
      }
    }
    forall i | |ps| <= i < |before|
      ensures after[i] == before[i]
    {
      assert ComesFrom(before[i], ps, init, members);
    }
    AddsOne(ps, before, after, init, members, m);
  }

  lemma AddsOne(ps: seq<Period>, before: seq<Period>, after: seq<Period>, init: seq<TeamMember>,
                members: map<Id, TeamMember>, m: TeamMember)
    requires m.coach in members && members[m.coach] == m && Adds(ps, before, init, members)
             && forall c :: c in members ==> members[c].coach == c
    requires if m.coach in Mismatched(ps, members) then |after| == |before| + 1 && after[|before|] == PeriodOf(m)
             else after == before
    requires forall i :: |ps| <= i < |before| ==> after[i] == before[i]
    ensures Adds(ps, after, init + [m], members)
  {
    var kept, added := before[|ps|..], after[|ps|..];
    assert added == kept + if after == before then [] else [PeriodOf(m)];
    forall i | |ps| <= i < |after|
      ensures ComesFrom(after[i], ps, init + [m], members)
    {
      assert i < |before| ==> ComesFrom(before[i], ps, init, members);
    }
    forall c | c in Mismatched(ps, members) && members[c] in init + [m]
      ensures PeriodOf(members[c]) in added
    {
      assert members[c] in init ==> PeriodOf(members[c]) in kept;
    }
  }

  /**
   Everything the repair writes: an open team period of a coach without a row ends now, one under another head
   ends as the row was assigned, and the row of each mismatched coach gets a period from then on, with nothing
   else changed or added.
   */
  lemma RepairTold(ps: seq<Period>, rows: seq<TeamMember>, members: map<Id, TeamMember>, now: Time)
    requires UniqueOpen(ps) && Lists(rows, members)
    ensures var ps' := Reconciled(ps, rows, members, now);
            && Adds(ps, ps', rows, members)
            && forall i :: 0 <= i < |ps| ==> ps'[i] == RowRepaired(ps[i], members, now)
  {
    BackfillTold(ps, rows, members);
    var filled, ps' := Backfilled(ps, rows), Reconciled(ps, rows, members, now);
    forall i | |ps| <= i < |ps'|
      ensures ps'[i] == filled[i]
    {
      assert ComesFrom(filled[i], ps, rows, members);
    }
    assert ps'[|ps|..] == filled[|ps|..];
    forall i | |ps| <= i < |ps'|
      ensures ComesFrom(ps'[i], ps, rows, members)
    {
      assert ComesFrom(filled[i], ps, rows, members);
    }
  }

  /** The repair of a history that has one closed period of "c", when the row of "c" names "h2" since 20. */
  lemma RepairAfterLostWrite(stale: Period, members: map<Id, TeamMember>)
    requires IsOf(stale, TeamKind, "c") && stale.parent == "h1" && stale.start == 10 && stale.end == Some(30)
    requires members == map["c" := TeamMember("c", "h2", 20)]
    ensures Lists([members["c"]], members) && HistoryOk([stale], 40)
    ensures Reconciled([stale], [members["c"]], members, 40)
            == [stale, Period(TeamKind, "c", "h2", 20, None, REASON_BACKFILL)]
  {
    var row := members["c"];
    assert [row][..0] == [];
    assert Backfilled([stale], [row]) == Opened([stale], TeamKind, "c", "h2", REASON_BACKFILL, 20);
    assert Backfilled([stale], [row]) == [stale, Period(TeamKind, "c", "h2", 20, None, REASON_BACKFILL)];
  }

  /** "c" joins "h1" at 10 and is moved to "h2" at 20 while the history cannot be written; "h1" is demoted at 30. */
  method LoseOneWrite() returns (store: Store)
    ensures fresh(store) && store.Valid() && store.failAfter.None?
    ensures store.members == map["c" := TeamMember("c", "h2", 20)]
    ensures |store.periods| == 1 && IsOf(store.periods[0], TeamKind, "c") && store.periods[0].parent == "h1"
            && store.periods[0].start == 10 && store.periods[0].end == Some(30)
  {
    store := new Store();
    var _ := store.Upsert(TeamMember("c", "h1", 10), 10);
    store.failAfter := Some(0);
    var _ := store.Upsert(TeamMember("c", "h2", 20), 20);
    store.failAfter := None;
    var _ := store.DeleteByHead("h1", REASON_DEMOTE, 30);
  }

  /**
   An input on which the repair leaves two periods over one instant: the demotion closed the stale period at
   30, and the repair at 40 dates the period under "h2" at 20.
   */
  method BackfillCanOverlap() returns (store: Store, ghost before: seq<Period>)
    ensures store.Valid() && HistoryOk(before, 40) && TeamMirror(store.periods, store.members)
    ensures !HistoryOk(store.periods, 40)
    ensures |store.periods| == 2 && SameKey(store.periods[0], store.periods[1]) && Covers(store.periods[0], 25)
            && Covers(store.periods[1], 25)
  {
    store := LoseOneWrite();
    before := store.periods;
    assert before == [before[0]];
    RepairAfterLostWrite(before[0], store.members);
    var opens, closes, ok := store.ReconcileTeam([store.members["c"]], 1, 40);
    assert SameKey(store.periods[0], store.periods[1]);
  }
}
