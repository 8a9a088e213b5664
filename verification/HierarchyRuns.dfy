/** Every run of complete operations keeps the hierarchy flat and its history in step. */
module HierarchyRuns {
  import opened Common
  import opened Periods
  import opened Memberships
  import opened GymNames
  import opened Hierarchy
  import opened SoundOperations

  lemma ApplyKeepsSound(w: World, op: Op, now: Time)
    requires Sound(w, now)
    ensures Sound(Apply(w, op, now).0, now)
  {
    if op.OpPromote? || op.OpDemote? || op.OpAssign? || op.OpUnassign? || op.OpRemoveMyCoach? {
      TeamOpsKeepSound(w, op, now);
    } else if op.OpInvite? || op.OpRevoke? || op.OpDecline? || op.OpAccept? {
      InvitationOpsKeepSound(w, op, now);
    } else if op.OpCreateUser? || op.OpSetActive? || op.OpDeleteUser? {
      AccountOpsKeepSound(w, op, now);
    } else if op.OpCreateGym? || op.OpRenameGym? || op.OpUpdateGym? {
      GymOpsKeepSound(w, op, now);
    } else {
      SeatOpsKeepSound(w, op, now);
    }
  }

  /**
   Every run of complete operations under a clock that never goes back keeps the hierarchy flat, gyms that
   are archived empty, and the open periods an exact picture of the membership rows.
   */
  lemma {:induction false} RunKeepsSound(w: World, now: Time, ops: seq<Timed>)
    requires Sound(w, now) && Ordered(now, ops)
    ensures Sound(Run(w, ops), if ops == [] then now else ops[|ops| - 1].at)
    decreases |ops|
  {
    if ops != [] {
      ApplyKeepsSound(w, ops[0].op, ops[0].at);
      RunKeepsSound(Apply(w, ops[0].op, ops[0].at).0, ops[0].at, ops[1..]);
    }
  }

  /** The invariant spelled out, for every sequence of operations from an empty system. */
  lemma EveryRunIsFlatAndMirrored(ops: seq<Timed>)
    requires Ordered(ZERO_TIME, ops)
    ensures var w := Run(EMPTY, ops);
            && (forall c :: c in w.rows.members ==> !IsHead(w.users, c) && IsHead(w.users, w.rows.members[c].head))
            && (forall h :: h in w.rows.gymHeads ==> IsHead(w.users, h))
            && (forall g :: g in w.gyms && w.gyms[g].archived ==>
                  && (forall h :: h in w.rows.gymHeads ==> w.rows.gymHeads[h].gym != g)
                  && (forall i :: i in w.invitations && w.invitations[i].gym == g ==>
                        !w.invitations[i].status.Pending?))
            && (forall c, h :: HeadOf(w.rows.members, c) == Some(h) <==>
                  exists i :: 0 <= i < |w.rows.periods| && IsOpen(w.rows.periods[i], TeamKind, c)
                              && w.rows.periods[i].parent == h)
            && (forall h, g :: GymOf(w.rows.gymHeads, h) == Some(g) <==>
                  exists i :: 0 <= i < |w.rows.periods| && IsOpen(w.rows.periods[i], GymKind, h)
                              && w.rows.periods[i].parent == g)
            && (forall i :: 0 <= i < |w.rows.periods| && w.rows.periods[i].end.Some? ==>
                  w.rows.periods[i].start <= w.rows.periods[i].end.value)
            && (forall i, j, t :: 0 <= i < j < |w.rows.periods| && SameKey(w.rows.periods[i], w.rows.periods[j]) ==>
                  !(Covers(w.rows.periods[i], t) && Covers(w.rows.periods[j], t)))
  {
    assert Sound(EMPTY, ZERO_TIME);
    RunKeepsSound(EMPTY, ZERO_TIME, ops);
    var w := Run(EMPTY, ops);
    var now := if ops == [] then ZERO_TIME else ops[|ops| - 1].at;
    HistoryMeansDisjoint(w.rows.periods, now);
    OpenParentMeaning(w.rows.periods);
  }
}
