/**
 The dated periods answer, for every past instant, who was whose member then: not only do the open rows
 match the current memberships, the closed ones match the memberships as they stood.
 */
module HistoryTruth {
  import opened Common
  import opened Periods
  import opened Memberships
  import opened Hierarchy
  import opened HierarchyRuns

  predicate HasPeriodAt(ps: seq<Period>, kind: Kind, member: Id, t: Time) {
    exists i :: 0 <= i < |ps| && ps[i].kind == kind && ps[i].member == member && Covers(ps[i], t)
  }

  /** Where the member was at t, according to the periods. */
  ghost function ParentAt(ps: seq<Period>, kind: Kind, member: Id, t: Time): Option<Id> {
    if HasPeriodAt(ps, kind, member, t) then
      var i :| 0 <= i < |ps| && ps[i].kind == kind && ps[i].member == member && Covers(ps[i], t);
      Some(ps[i].parent)
    else None
  }

  /** ps' extends ps without changing what it says about instant t. */
  ghost predicate SamePast(ps: seq<Period>, ps': seq<Period>, t: Time) {
    && |ps| <= |ps'|
    && (forall i :: 0 <= i < |ps| ==>
          SameKey(ps'[i], ps[i]) && ps'[i].parent == ps[i].parent && (Covers(ps'[i], t) <==> Covers(ps[i], t)))
    && (forall i :: |ps| <= i < |ps'| ==> !Covers(ps'[i], t))
  }

  lemma SamePastTransitive(a: seq<Period>, b: seq<Period>, c: seq<Period>, t: Time)
    requires SamePast(a, b, t) && SamePast(b, c, t)
    ensures SamePast(a, c, t)
  {
  }

  lemma WritesKeepPast(ps: seq<Period>, kind: Kind, member: Id, parent: Id, reason: string, at: Time, t: Time)
    requires t < at
    ensures SamePast(ps, Closed(ps, kind, member, at, reason), t)
    ensures SamePast(ps, ClosedByParent(ps, kind, parent, at, reason), t)
    ensures SamePast(ps, Opened(ps, kind, member, parent, reason, at), t)
  {
  }

  lemma RemovalsKeepPast(r: Rows, id: Id, reason: string, now: Time, t: Time)
    requires t < now
    ensures SamePast(r.periods, WithoutCoach(r, id, reason, now).periods, t)
    ensures SamePast(r.periods, WithoutTeam(r, id, reason, now).periods, t)
    ensures SamePast(r.periods, WithoutGymHead(r, id, reason, now).periods, t)
    ensures SamePast(r.periods, WithoutGym(r, id, reason, now).periods, t)
  {
    WritesKeepPast(r.periods, TeamKind, id, id, reason, now, t);
    WritesKeepPast(r.periods, GymKind, id, id, reason, now, t);
  }

  lemma WithoutAnyKeepsPast(r: Rows, id: Id, reason: string, now: Time, t: Time)
    requires t < now
    ensures SamePast(r.periods, WithoutAny(r, id, reason, now).periods, t)
  {
    var p1 := Closed(r.periods, TeamKind, id, now, reason);
    WritesKeepPast(r.periods, TeamKind, id, id, reason, now, t);
    var r1 := Rows(r.members - {id}, r.gymHeads, p1);
    var r2 := WithoutTeam(r1, id, reason, now);
    RemovalsKeepPast(r1, id, reason, now, t);
    RemovalsKeepPast(r2, id, reason, now, t);
    SamePastTransitive(r.periods, p1, r2.periods, t);
    SamePastTransitive(r.periods, r2.periods, WithoutGymHead(r2, id, reason, now).periods, t);
  }

  lemma SamePeriods(ps: seq<Period>, t: Time)
    ensures SamePast(ps, ps, t)
  {
  }

  lemma DemoteKeepsPast(w: World, head: Id, now: Time, t: Time)
    requires t < now
    ensures SamePast(w.rows.periods, Demote(w, head, now).0.rows.periods, t)
  {
    var r1 := WithoutTeam(w.rows, head, REASON_DEMOTE, now);
    RemovalsKeepPast(w.rows, head, REASON_DEMOTE, now, t);
    RemovalsKeepPast(r1, head, REASON_DEMOTE, now, t);
    SamePastTransitive(w.rows.periods, r1.periods, WithoutGymHead(r1, head, REASON_DEMOTE, now).periods, t);
    SamePeriods(w.rows.periods, t);
  }

  lemma TeamOpsKeepPast(w: World, op: Op, now: Time, t: Time)
    requires t < now && (op.OpAssign? || op.OpUnassign? || op.OpRemoveMyCoach?)
    ensures SamePast(w.rows.periods, Apply(w, op, now).0.rows.periods, t)
  {
    SamePeriods(w.rows.periods, t);
    if op.OpAssign? {
      var m := TeamMember(op.coach, op.head, now);
      WritesKeepPast(w.rows.periods, TeamKind, op.coach, op.head, UpsertReason(w.rows.members, m), now, t);
    } else {
      RemovalsKeepPast(w.rows, op.coach, if op.OpUnassign? then REASON_UNASSIGN else REASON_REMOVED_BY_HEAD, now, t);
    }
  }

  lemma JoinsKeepPast(w: World, op: Op, now: Time, t: Time)
    requires t < now && (op.OpAccept? || op.OpAdminAddHead?)
    ensures SamePast(w.rows.periods, Apply(w, op, now).0.rows.periods, t)
  {
    SamePeriods(w.rows.periods, t);
    match op
    case OpAccept(caller, id) =>
      if id in w.invitations {
        WritesKeepPast(w.rows.periods, GymKind, caller, w.invitations[id].gym, REASON_GYM_ADD, now, t);
      }
    case OpAdminAddHead(gym, head) => WritesKeepPast(w.rows.periods, GymKind, head, gym, REASON_GYM_ADD, now, t);
  }

  lemma LeavingKeepsPast(w: World, op: Op, now: Time, t: Time)
    requires t < now && (op.OpLeaveGym? || op.OpOwnerRemoveHead? || op.OpAdminRemoveHead?)
    ensures SamePast(w.rows.periods, Apply(w, op, now).0.rows.periods, t)
  {
    SamePeriods(w.rows.periods, t);
    match op
    case OpLeaveGym(caller) => RemovalsKeepPast(w.rows, caller, REASON_GYM_LEAVE, now, t);
    case OpOwnerRemoveHead(_, _, head) => RemovalsKeepPast(w.rows, head, REASON_GYM_REMOVE, now, t);
    case OpAdminRemoveHead(_, head) => RemovalsKeepPast(w.rows, head, REASON_GYM_REMOVE, now, t);
  }

  lemma ArchivingKeepsPast(w: World, gym: Id, update: GymUpdate, now: Time, t: Time)
    requires t < now
    ensures SamePast(w.rows.periods, UpdateGym(w, gym, update, now).0.rows.periods, t)
  {
    SamePeriods(w.rows.periods, t);
    RemovalsKeepPast(w.rows, gym, REASON_GYM_ARCHIVE, now, t);
  }

  /** No operation rewrites the past. */
  lemma ApplyKeepsPast(w: World, op: Op, now: Time, t: Time)
    requires t < now
    ensures SamePast(w.rows.periods, Apply(w, op, now).0.rows.periods, t)
  {
    if op.OpDemote? {
      DemoteKeepsPast(w, op.head, now, t);
    } else if op.OpAssign? || op.OpUnassign? || op.OpRemoveMyCoach? {
      TeamOpsKeepPast(w, op, now, t);
    } else if op.OpDeleteUser? {
      WithoutAnyKeepsPast(w.rows, op.user, REASON_ACCOUNT_GONE, now, t);
    } else if op.OpAccept? || op.OpAdminAddHead? {
      JoinsKeepPast(w, op, now, t);
    } else if op.OpLeaveGym? || op.OpOwnerRemoveHead? || op.OpAdminRemoveHead? {
      LeavingKeepsPast(w, op, now, t);
    } else if op.OpUpdateGym? {
      ArchivingKeepsPast(w, op.gym, op.update, now, t);
    } else {
      SamePeriods(w.rows.periods, t);
    }
  }

  lemma {:induction false} RunKeepsPast(w: World, ops: seq<Timed>, t: Time)
    requires ops != [] ==> t < ops[0].at && Ordered(ops[0].at, ops)
    ensures SamePast(w.rows.periods, Run(w, ops).rows.periods, t)
    decreases |ops|
  {
    if ops != [] {
      var w1 := Apply(w, ops[0].op, ops[0].at).0;
      ApplyKeepsPast(w, ops[0].op, ops[0].at, t);
      RunKeepsPast(w1, ops[1..], t);
      SamePastTransitive(w.rows.periods, w1.rows.periods, Run(w, ops).rows.periods, t);
    }
  }

  /** At the present instant the covering row is the open one. */
  lemma PresentIsOpen(ps: seq<Period>, now: Time, t: Time)
    requires HistoryOk(ps, now) && now <= t
    ensures forall k, m :: ParentAt(ps, k, m, t) == OpenParent(ps, k, m)
  {
    HistoryMeansDisjoint(ps, now);
    forall k, m
      ensures ParentAt(ps, k, m, t) == OpenParent(ps, k, m)
    {
      if HasPeriodAt(ps, k, m, t) {
        forall i | 0 <= i < |ps| && ps[i].kind == k && ps[i].member == m && Covers(ps[i], t)
          ensures OpenParent(ps, k, m) == Some(ps[i].parent)
        {
          OpenParentAt(ps, i);
        }
      } else {
        assert forall i :: 0 <= i < |ps| && IsOpen(ps[i], k, m) ==> Covers(ps[i], t);
      }
    }
  }

  lemma {:induction false} RunAppend(w: World, xs: seq<Timed>, ys: seq<Timed>)
    ensures Run(w, xs + ys) == Run(Run(w, xs), ys)
    decreases |xs|
  {
    if xs == [] {
      assert xs + ys == ys;
    } else {
      assert (xs + ys)[1..] == xs[1..] + ys;
      RunAppend(Apply(w, xs[0].op, xs[0].at).0, xs[1..], ys);
    }
  }

  lemma {:induction false} OrderedPrefix(now: Time, xs: seq<Timed>, ys: seq<Timed>)
    requires Ordered(now, xs + ys)
    ensures Ordered(now, xs) && (ys != [] ==> Ordered(ys[0].at, ys))
    decreases |xs|
  {
    if xs == [] {
      assert xs + ys == ys;
    } else {
      assert (xs + ys)[1..] == xs[1..] + ys;
      OrderedPrefix(xs[0].at, xs[1..], ys);
    }
  }

  /** A sound world's rows at t, read back from any later sound history that kept the past. */
  lemma RowsAreRemembered(w: World, now: Time, final: seq<Period>, end: Time, t: Time)
    requires Sound(w, now) && now <= t && SamePast(w.rows.periods, final, t) && HistoryOk(final, end)
    ensures forall c :: ParentAt(final, TeamKind, c, t) == HeadOf(w.rows.members, c)
    ensures forall h :: ParentAt(final, GymKind, h, t) == GymOf(w.rows.gymHeads, h)
  {
    PresentIsOpen(w.rows.periods, now, t);
    forall k, m
      ensures ParentAt(final, k, m, t) == ParentAt(w.rows.periods, k, m, t)
    {
    }
  }

  function LastAt(ops: seq<Timed>): Time {
    if ops == [] then ZERO_TIME else ops[|ops| - 1].at
  }

  lemma SoundAfter(ops: seq<Timed>)
    requires Ordered(ZERO_TIME, ops)
    ensures Sound(Run(EMPTY, ops), LastAt(ops))
  {
    assert Sound(EMPTY, ZERO_TIME);
    RunKeepsSound(EMPTY, ZERO_TIME, ops);
  }

  /**
   Cut any run of operations at an instant t: what the final history says about t is what the rows said
   after the operations up to t, for team and gym memberships alike.
   */
  lemma HistoryTellsThePast(before: seq<Timed>, after: seq<Timed>, t: Time)
    requires Ordered(ZERO_TIME, before + after) && ZERO_TIME <= t
    requires before != [] ==> before[|before| - 1].at <= t
    requires after != [] ==> t < after[0].at
    ensures var then', final := Run(EMPTY, before), Run(EMPTY, before + after).rows.periods;
            && (forall c :: ParentAt(final, TeamKind, c, t) == HeadOf(then'.rows.members, c))
            && (forall h :: ParentAt(final, GymKind, h, t) == GymOf(then'.rows.gymHeads, h))
  {
    OrderedPrefix(ZERO_TIME, before, after);
    SoundAfter(before);
    SoundAfter(before + after);
    RunAppend(EMPTY, before, after);
    RunKeepsPast(Run(EMPTY, before), after, t);
    RowsAreRemembered(Run(EMPTY, before), LastAt(before), Run(EMPTY, before + after).rows.periods,
                      LastAt(before + after), t);
  }
}
