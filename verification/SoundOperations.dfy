/** Each operation on teams, gyms and accounts keeps the hierarchy sound. */
module SoundOperations {
  import opened Common
  import opened Periods
  import opened Memberships
  import opened GymNames
  import opened Hierarchy

  /** New rows in step, with members and heads still flat, are all a change of rows and flags has to keep. */
  lemma RowsKeepSound(w: World, users: map<Id, User>, rows: Rows, now: Time)
    requires Sound(w, now) && InStep(rows, now) && "" !in users && MembersFlat(users, rows.members)
    requires forall h :: h in rows.gymHeads ==>
               IsHead(users, h) && h in w.rows.gymHeads && rows.gymHeads[h] == w.rows.gymHeads[h]
    ensures Sound(w.(users := users, rows := rows), now)
  {
  }

  lemma PromoteKeepsSound(w: World, coach: Id, now: Time)
    requires Sound(w, now)
    ensures Sound(Promote(w, coach).0, now)
  {
    if Promote(w, coach).0 != w {
      RowsKeepSound(w, SetFlag(w.users, coach, true), w.rows, now);
    }
  }

  lemma DemoteKeepsSound(w: World, head: Id, now: Time)
    requires Sound(w, now)
    ensures Sound(Demote(w, head, now).0, now)
  {
    if Demote(w, head, now).1.Done? {
      var rows := WithoutTeam(w.rows, head, REASON_DEMOTE, now);
      WithoutTeamInStep(w.rows, head, REASON_DEMOTE, now);
      WithoutGymHeadInStep(rows, head, REASON_DEMOTE, now);
      RowsKeepSound(w, SetFlag(w.users, head, false), WithoutGymHead(rows, head, REASON_DEMOTE, now), now);
    }
  }

  lemma AssignKeepsSound(w: World, coach: Id, head: Id, now: Time)
    requires Sound(w, now)
    ensures Sound(Assign(w, coach, head, now).0, now)
  {
    if Assign(w, coach, head, now).1.Done? {
      UpsertInStep(w.rows, TeamMember(coach, head, now), now);
      RowsKeepSound(w, w.users, Upserted(w.rows, TeamMember(coach, head, now), now), now);
    }
  }

  lemma WithoutCoachKeepsSound(w: World, coach: Id, reason: string, now: Time)
    requires Sound(w, now)
    ensures Sound(w.(rows := WithoutCoach(w.rows, coach, reason, now)), now)
  {
    WithoutCoachInStep(w.rows, coach, reason, now);
    RowsKeepSound(w, w.users, WithoutCoach(w.rows, coach, reason, now), now);
  }

  lemma TeamOpsKeepSound(w: World, op: Op, now: Time)
    requires Sound(w, now)
    requires op.OpPromote? || op.OpDemote? || op.OpAssign? || op.OpUnassign? || op.OpRemoveMyCoach?
    ensures Sound(Apply(w, op, now).0, now)
  {
    match op
    case OpPromote(coach) => PromoteKeepsSound(w, coach, now);
    case OpDemote(head) => DemoteKeepsSound(w, head, now);
    case OpAssign(coach, head) => AssignKeepsSound(w, coach, head, now);
    case OpUnassign(coach) => WithoutCoachKeepsSound(w, coach, REASON_UNASSIGN, now);
    case OpRemoveMyCoach(_, coach) => WithoutCoachKeepsSound(w, coach, REASON_REMOVED_BY_HEAD, now);
  }

  lemma StatusKeepsSound(w: World, id: Id, status: InviteStatus, invitee: Id, now: Time)
    requires Sound(w, now) && id in w.invitations && w.invitations[id].status.Pending? && !status.Pending?
             && !status.Accepted?
    ensures Sound(SetStatus(w, id, status, invitee), now)
  {
  }

  lemma InviteKeepsSound(w: World, owner: Id, gym: Id, email: Option<string>, id: Id, ttl: int, perDay: nat, now: Time)
    requires Sound(w, now)
    ensures Sound(Invite(w, owner, gym, email, id, ttl, perDay, now).0, now)
  {
    if email.Some? {
      var w1 := w.(invitations := WithExpired(w.invitations, gym, email.value, now));
      assert Sound(w1, now);
    }
  }

  lemma AcceptKeepsSound(w: World, caller: Id, id: Id, now: Time)
    requires Sound(w, now)
    ensures Sound(Accept(w, caller, id, now).0, now)
  {
    var (w', outcome) := Accept(w, caller, id, now);
    if outcome.Done? {
      var gym := w.invitations[id].gym;
      WithGymHeadInStep(w.rows, GymHead(caller, gym, id, now), REASON_GYM_ADD);
      assert MembersFlat(w'.users, w'.rows.members);
      assert GymsFlat(w');
      assert PendingUnique(w'.invitations);
      assert RowsCarryAccepted(w');
    } else if w' != w {
      StatusKeepsSound(w, id, Expired, "", now);
    }
  }

  lemma InvitationOpsKeepSound(w: World, op: Op, now: Time)
    requires Sound(w, now)
    requires op.OpInvite? || op.OpRevoke? || op.OpDecline? || op.OpAccept?
    ensures Sound(Apply(w, op, now).0, now)
  {
    match op
    case OpInvite(owner, gym, email, id, ttl, perDay) => InviteKeepsSound(w, owner, gym, email, id, ttl, perDay, now);
    case OpAccept(caller, id) => AcceptKeepsSound(w, caller, id, now);
    case OpRevoke(owner, gym, id) => RevokeKeepsSound(w, owner, gym, id, now);
    case OpDecline(caller, id) => DeclineKeepsSound(w, caller, id, now);
  }

  lemma RevokeKeepsSound(w: World, owner: Id, gym: Id, id: Id, now: Time)
    requires Sound(w, now)
    ensures Sound(Revoke(w, owner, gym, id).0, now)
  {
    if Revoke(w, owner, gym, id).1.Done? { StatusKeepsSound(w, id, Revoked, "", now); }
  }

  lemma DeclineKeepsSound(w: World, caller: Id, id: Id, now: Time)
    requires Sound(w, now)
    ensures Sound(Decline(w, caller, id, now).0, now)
  {
    if Decline(w, caller, id, now).0 != w {
      if w.invitations[id].expiresAt <= now { StatusKeepsSound(w, id, Expired, "", now); }
      else { StatusKeepsSound(w, id, Declined, caller, now); }
    }
  }

  lemma RemoveFromGymKeepsSound(w: World, head: Id, reason: string, now: Time)
    requires Sound(w, now)
    ensures Sound(w.(rows := WithoutGymHead(w.rows, head, reason, now)), now)
  {
    WithoutGymHeadInStep(w.rows, head, reason, now);
  }

  lemma AdminAddHeadKeepsSound(w: World, gym: Id, head: Id, now: Time)
    requires Sound(w, now)
    ensures Sound(AdminAddHead(w, gym, head, now).0, now)
  {
    WithGymHeadInStep(w.rows, GymHead(head, gym, "", now), REASON_GYM_ADD);
  }

  /** A gym may change owner and name, and be reactivated; it may be archived once it is empty. */
  lemma GymChangeKeepsSound(w: World, gym: Id, g: Gym, now: Time)
    requires Sound(w, now)
    requires g.archived ==> (forall h :: h in w.rows.gymHeads ==> w.rows.gymHeads[h].gym != gym)
                            && (forall i :: i in w.invitations && w.invitations[i].gym == gym ==>
                                  !w.invitations[i].status.Pending?)
    ensures Sound(w.(gyms := w.gyms[gym := g]), now)
  {
  }

  lemma EmptiedKeepsSound(w: World, gym: Id, now: Time)
    requires Sound(w, now)
    ensures var w' := Emptied(w, gym, now);
            && Sound(w', now) && (forall h :: h in w'.rows.gymHeads ==> w'.rows.gymHeads[h].gym != gym)
            && (forall i :: i in w'.invitations && w'.invitations[i].gym == gym ==> !w'.invitations[i].status.Pending?)
  {
    WithoutGymInStep(w.rows, gym, REASON_GYM_ARCHIVE, now);
    var w' := Emptied(w, gym, now);
    assert GymsFlat(w');
    assert PendingUnique(w'.invitations);
    assert RowsCarryAccepted(w');
  }

  lemma UpdateGymKeepsSound(w: World, gym: Id, u: GymUpdate, now: Time)
    requires Sound(w, now)
    ensures Sound(UpdateGym(w, gym, u, now).0, now)
  {
    if UpdateCheck(w, gym, u).Done? {
      var g := UpdatedGym(w.gyms[gym], u);
      if u.status == Some(STATUS_ARCHIVED) {
        EmptiedKeepsSound(w, gym, now);
        GymChangeKeepsSound(Emptied(w, gym, now), gym, g, now);
      } else {
        if g.archived {
          assert w.gyms[gym].archived;
        }
        GymChangeKeepsSound(w, gym, g, now);
      }
    }
  }

  lemma NamingKeepsSound(w: World, gym: Id, name: string, owner: Id, now: Time)
    requires Sound(w, now)
    ensures Sound(CreateGym(w, gym, name, owner).0, now) && Sound(RenameGym(w, owner, gym, name).0, now)
  {
    if CreateGym(w, gym, name, owner).1.Done? {
      GymChangeKeepsSound(w, gym, Gym(owner, false, ValidName(name).value), now);
    }
    if RenameGym(w, owner, gym, name).1.Done? {
      GymChangeKeepsSound(w, gym, w.gyms[gym].(name := ValidName(name).value), now);
    }
  }

  lemma SeatOpsKeepSound(w: World, op: Op, now: Time)
    requires Sound(w, now)
    requires op.OpLeaveGym? || op.OpOwnerRemoveHead? || op.OpAdminRemoveHead? || op.OpAdminAddHead?
    ensures Sound(Apply(w, op, now).0, now)
  {
    match op
    case OpLeaveGym(caller) => RemoveFromGymKeepsSound(w, caller, REASON_GYM_LEAVE, now);
    case OpOwnerRemoveHead(_, _, head) => RemoveFromGymKeepsSound(w, head, REASON_GYM_REMOVE, now);
    case OpAdminRemoveHead(_, head) => RemoveFromGymKeepsSound(w, head, REASON_GYM_REMOVE, now);
    case OpAdminAddHead(gym, head) => AdminAddHeadKeepsSound(w, gym, head, now);
  }

  lemma GymOpsKeepSound(w: World, op: Op, now: Time)
    requires Sound(w, now)
    requires op.OpCreateGym? || op.OpRenameGym? || op.OpUpdateGym?
    ensures Sound(Apply(w, op, now).0, now)
  {
    match op
    case OpCreateGym(gym, name, owner) => NamingKeepsSound(w, gym, name, owner, now);
    case OpRenameGym(owner, gym, name) => NamingKeepsSound(w, gym, name, owner, now);
    case OpUpdateGym(gym, update) => UpdateGymKeepsSound(w, gym, update, now);
  }

  lemma CreateUserKeepsSound(w: World, user: Id, role: Role, email: string, now: Time)
    requires Sound(w, now)
    ensures Sound(CreateUser(w, user, role, email).0, now)
  {
    RowsKeepSound(w, CreateUser(w, user, role, email).0.users, w.rows, now);
  }

  lemma SetActiveKeepsSound(w: World, user: Id, active: bool, now: Time)
    requires Sound(w, now)
    ensures Sound(SetActive(w, user, active).0, now)
  {
    RowsKeepSound(w, SetActive(w, user, active).0.users, w.rows, now);
  }

  lemma DeleteUserKeepsSound(w: World, user: Id, now: Time)
    requires Sound(w, now)
    ensures Sound(DeleteUser(w, user, now).0, now)
  {
    if user in w.users {
      WithoutAnyInStep(w.rows, user, REASON_ACCOUNT_GONE, now);
      RowsKeepSound(w, w.users - {user}, WithoutAny(w.rows, user, REASON_ACCOUNT_GONE, now), now);
    }
  }

  lemma AccountOpsKeepSound(w: World, op: Op, now: Time)
    requires Sound(w, now)
    requires op.OpCreateUser? || op.OpSetActive? || op.OpDeleteUser?
    ensures Sound(Apply(w, op, now).0, now)
  {
    match op
    case OpCreateUser(user, role, email) => CreateUserKeepsSound(w, user, role, email, now);
    case OpSetActive(user, active) => SetActiveKeepsSound(w, user, active, now);
    case OpDeleteUser(user) => DeleteUserKeepsSound(w, user, now);
  }
}
