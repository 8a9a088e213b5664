/**
 The team and gym services as they run: every store access a step of its own, with the rechecks after a
 write and the undo branches. Each method is proved to do what the operation of module Hierarchy says.
 The history store is healthy here (failAfter == None); its failures are the business of ReconcileTeam.
 */
module HierarchyServices {
  import opened Common
  import opened Periods
  import opened Memberships
  import opened GymNames
  import MembershipStore
  import opened H = Hierarchy
  import opened SoundOperations
  import P = OperationRules

  /** A write a call sends to the store, in order: a flag, a membership or a seat in or out, a team out, an answer. */
  datatype Write =
    | FlagSet(user: Id, up: bool)
    | RowIn(coach: Id, head: Id)
    | RowOut(coach: Id)
    | TeamOut(head: Id)
    | SeatIn(head: Id)
    | SeatOut(head: Id)
    | Answer(invitation: Id, to: InviteStatus)

  class Services {
    /** What the calls of this process have sent, whatever others did in between. */
    ghost var log: seq<Write>
    var users: map<Id, User>
    var gyms: map<Id, Gym>
    var invitations: map<Id, Invitation>
    const store: MembershipStore.Store
    /** No other caller is active; otherwise anyone may change anything between two steps. */
    const alone: bool

    ghost predicate Ready()
      reads this, store
    {
      store.Valid() && store.failAfter.None?
    }

    ghost function View(): World
      reads this, store
    {
      World(users, gyms, invitations, store.View())
    }

    constructor (alone: bool)
      ensures Ready() && fresh(store) && View() == EMPTY && this.alone == alone
    {
      this.alone := alone;
      users, gyms, invitations := map[], map[], map[];
      store := new MembershipStore.Store();
    }

    /** The point between two store steps: only this contract is known of what other callers did there. */
    method Interleave()
      requires Ready()
      modifies this, store
      ensures Ready() && (alone ==> View() == old(View())) && log == old(log)
    {
    }

    // ---- user repository ----

    /** false: no such user. */
    method SetHeadCoach(id: Id, flag: bool) returns (found: bool)
      modifies this`users, this`log
      ensures found <==> id in old(users)
      ensures users == if found then SetFlag(old(users), id, flag) else old(users)
      ensures log == old(log) + [FlagSet(id, flag)]
    {
      log := log + [FlagSet(id, flag)];
      found := id in users;
      if found {
        users := users[id := users[id].(headFlag := flag)];
      }
    }

    /** Members of the head's team whose account still exists. */
    method CountByHead(head: Id) returns (n: nat)
      ensures n > 0 <==> HasCountedMember(View(), head)
    {
      var counted := set c | c in store.members && store.members[c].head == head && c in users;
      n := |counted|;
      if n > 0 {
        ghost var c :| c in counted;
        assert c in View().rows.members;
      } else {
        assert forall c :: c in View().rows.members && View().rows.members[c].head == head && c in users ==>
                 c in counted;
      }
    }

    // ---- team service ----

    method Promote(coach: Id, ghost now: Time) returns (res: Outcome)
      requires Ready()
      modifies this, store
      ensures Ready() && (alone ==> (View(), res) == H.Promote(old(View()), coach))
      ensures alone && old(Sound(View(), now)) ==> Sound(View(), now)
      ensures res == Done && !old(IsHead(users, coach)) && alone ==> IsHead(users, coach)
      ensures alone ==> P.PromoteRule(old(View()), View(), coach, res)
      ensures res == Done ==> log == old(log) || (log == old(log) + [FlagSet(coach, true)] && coach !in store.members)
      ensures res != Done ==> log == old(log) || log == old(log) + [FlagSet(coach, true), FlagSet(coach, false)]
                              || (res == NotFound && log == old(log) + [FlagSet(coach, true)])
    {
      P.PromoteFollows(View(), coach);
      if Sound(View(), now) { PromoteKeepsSound(View(), coach, now); }
      if coach !in users { return NotFound; }
      var u := users[coach];
      if u.role != Coach { return BadRequest; }
      if !u.active { return Conflict; }
      if u.headFlag { return Done; }
      Interleave();
      if coach in store.members { return Conflict; }
      Interleave();
      var found := SetHeadCoach(coach, true);
      if !found { return NotFound; }
      Interleave();
      // An assign may have put the coach into a team since the first look.
      if coach in store.members {
        Interleave();
        var _ := SetHeadCoach(coach, false);
        return Conflict;
      }
      return Done;
    }

    method Demote(head: Id, now: Time) returns (released: nat, res: Outcome)
      requires Ready()
      modifies this, store
      ensures Ready() && (alone ==> P.DemoteRule(old(View()), View(), head, now, res))
      ensures alone && old(Sound(View(), now)) ==> Sound(View(), now)
      ensures alone && res == Done ==> released == |set c | c in old(store.members)
                                                        && old(store.members)[c].head == head|
      ensures res == Done ==> head !in store.gymHeads
      ensures res == Done ==> log == old(log) + [FlagSet(head, false), TeamOut(head), SeatOut(head)]
      ensures res != Done ==> log == old(log) || (res == NotFound && log == old(log) + [FlagSet(head, false)])
    {
      P.DemoteFollows(View(), head, now);
      if Sound(View(), now) { DemoteKeepsSound(View(), head, now); }
      released, res := CutAndRelease(head, now);
    }

    /** The steps of a demotion. */
    method CutAndRelease(head: Id, now: Time) returns (released: nat, res: Outcome)
      requires Ready()
      modifies this, store
      ensures Ready() && (alone ==> (View(), res) == H.Demote(old(View()), head, now))
      ensures alone && res == Done ==> released == |set c | c in old(store.members)
                                                        && old(store.members)[c].head == head|
      ensures res == Done ==> head !in store.gymHeads
      ensures res == Done ==> log == old(log) + [FlagSet(head, false), TeamOut(head), SeatOut(head)]
      ensures res != Done ==> log == old(log) || (res == NotFound && log == old(log) + [FlagSet(head, false)])
    {
      released := 0;
      if head !in users { return 0, NotFound; }
      if !users[head].headFlag {
        Interleave();
        var remaining := CountByHead(head);
        if remaining == 0 { return 0, Conflict; }
      }
      Interleave();
      // From here on no assign passes its recheck, so the team cannot grow again.
      var found := SetHeadCoach(head, false);
      if !found { return 0, NotFound; }
      Interleave();
      released := ReleaseTeamAndSeat(head, now);
      assert log == old(log) + [FlagSet(head, false), TeamOut(head), SeatOut(head)];
      res := Done;
    }

    method ReleaseTeamAndSeat(head: Id, now: Time) returns (released: nat)
      requires Ready()
      modifies this, store
      ensures Ready() && log == old(log) + [TeamOut(head), SeatOut(head)] && head !in store.gymHeads
      ensures alone ==>
                var w := old(View());
                && released == |set c | c in w.rows.members && w.rows.members[c].head == head|
                && View() == w.(rows := WithoutGymHead(WithoutTeam(w.rows, head, REASON_DEMOTE, now), head,
                                                       REASON_DEMOTE, now))
    {
      released := store.DeleteByHead(head, REASON_DEMOTE, now);
      log := log + [TeamOut(head)];
      Interleave();
      var _ := store.ReleaseHead(head, REASON_DEMOTE, now);
      log := log + [SeatOut(head)];
    }

    method Assign(coach: Id, head: Id, now: Time) returns (res: Outcome)
      requires Ready()
      modifies this, store
      ensures Ready() && (alone ==> P.AssignRule(old(View()), View(), coach, head, now, res))
      ensures alone && old(Sound(View(), now)) ==> Sound(View(), now)
      ensures res == Done ==> log == old(log) + [RowIn(coach, head)] && IsHead(users, head) && users[head].active
      ensures res != Done ==> log == old(log) || log == old(log) + [RowIn(coach, head), RowOut(coach)]
    {
      P.AssignFollows(View(), coach, head, now);
      if Sound(View(), now) { AssignKeepsSound(View(), coach, head, now); }
      res := WriteMembership(coach, head, now);
    }

    /** The steps of an assign. */
    method WriteMembership(coach: Id, head: Id, now: Time) returns (res: Outcome)
      requires Ready()
      modifies this, store
      ensures Ready() && (alone ==> (View(), res) == H.Assign(old(View()), coach, head, now))
      ensures res == Done ==> log == old(log) + [RowIn(coach, head)] && IsHead(users, head) && users[head].active
      ensures res != Done ==> log == old(log) || log == old(log) + [RowIn(coach, head), RowOut(coach)]
    {
      if coach == "" || head == "" || coach == head { return BadRequest; }
      if coach !in users { return NotFound; }
      if users[coach].role != Coach { return BadRequest; }
      if users[coach].headFlag { return Conflict; }
      Interleave();
      if head !in users { return NotFound; }
      if users[head].role != Coach || !users[head].headFlag { return Conflict; }
      if !users[head].active { return Conflict; }
      Interleave();
      var _ := store.Upsert(TeamMember(coach, head, now), now);
      log := log + [RowIn(coach, head)];
      Interleave();
      // A demotion that ran since the head was loaded may have missed the new row.
      if head !in users || !users[head].headFlag || !users[head].active {
        Interleave();
        var _ := store.DeleteByCoach(coach, REASON_UNASSIGN, now);
        log := log + [RowOut(coach)];
        return Conflict;
      }
      return Done;
    }

    method Unassign(coach: Id, now: Time) returns (res: Outcome)
      requires Ready()
      modifies store
      ensures Ready() && (View(), res) == H.Unassign(old(View()), coach, now)
      ensures old(Sound(View(), now)) ==> Sound(View(), now)
      ensures P.UnassignRule(old(View()), View(), coach, now, res)
    {
      P.UnassignFollows(View(), coach, now);
      if Sound(View(), now) { WithoutCoachKeepsSound(View(), coach, REASON_UNASSIGN, now); }
      if coach !in store.members { return NotFound; }
      var n := store.DeleteByCoach(coach, REASON_UNASSIGN, now);
      res := if n == 0 then NotFound else Done;
    }

    method RemoveMyCoach(caller: Id, coach: Id, now: Time) returns (res: Outcome)
      requires Ready()
      modifies store
      ensures Ready() && (View(), res) == H.RemoveMyCoach(old(View()), caller, coach, now)
      ensures old(Sound(View(), now)) ==> Sound(View(), now)
      ensures P.RemoveMyCoachRule(old(View()), View(), caller, coach, now, res)
    {
      P.RemoveMyCoachFollows(View(), caller, coach, now);
      if Sound(View(), now) { WithoutCoachKeepsSound(View(), coach, REASON_REMOVED_BY_HEAD, now); }
      if !IsActiveHead(users, caller) { return Forbidden; }
      if coach !in store.members || store.members[coach].head != caller { return NotFound; }
      var n := store.DeleteByCoach(coach, REASON_REMOVED_BY_HEAD, now);
      res := if n == 0 then NotFound else Done;
    }

    // ---- gym repository: invitations ----

    /** A conditional update: nothing happens unless the invitation has the status from. */
    method TransitionInvitation(id: Id, from: InviteStatus, to: InviteStatus, invitee: Id) returns (moved: bool)
      modifies this`invitations
      ensures moved <==> id in old(invitations) && old(invitations)[id].status == from
      ensures !moved ==> invitations == old(invitations)
      ensures moved ==> invitations == H.SetStatus(old(View()), id, to, invitee).invitations
    {
      moved := id in invitations && invitations[id].status == from;
      if moved {
        var inv := invitations[id];
        invitations := invitations[id := inv.(status := to, invitee := if invitee == "" then inv.invitee else invitee)];
      }
    }

    /** Marks the pending, overdue invitations of a gym and email; an empty one stands for any. */
    method ExpireDue(gym: Id, email: string, now: Time)
      modifies this`invitations
      ensures invitations == WithExpired(old(invitations), gym, email, now)
    {
      var todo := invitations.Keys;
      while todo != {}
        invariant todo <= invitations.Keys == old(invitations).Keys
        invariant forall i :: i in invitations ==>
                    invitations[i] == if i in todo then old(invitations)[i]
                      else WithExpired(old(invitations), gym, email, now)[i]
        decreases |todo|
      {
        var i :| i in todo;
        var inv := invitations[i];
        if inv.status.Pending? && inv.expiresAt <= now && (gym == "" || inv.gym == gym)
           && (email == "" || inv.email == email) {
          invitations := invitations[i := inv.(status := Expired)];
        }
        todo := todo - {i};
      }
    }

    method RevokePendingByGym(gym: Id)
      modifies this`invitations
      ensures invitations == WithRevoked(old(invitations), gym)
    {
      var todo := invitations.Keys;
      while todo != {}
        invariant todo <= invitations.Keys == old(invitations).Keys
        invariant forall i :: i in invitations ==>
                    invitations[i] == if i in todo then old(invitations)[i] else WithRevoked(old(invitations), gym)[i]
        decreases |todo|
      {
        var i :| i in todo;
        var inv := invitations[i];
        if inv.status.Pending? && inv.gym == gym {
          invitations := invitations[i := inv.(status := Revoked)];
        }
        todo := todo - {i};
      }
    }

    // ---- gym service: invitations ----

    method Invite(owner: Id, gym: Id, email: Option<string>, id: Id, ttl: int, perDay: nat, now: Time)
      returns (res: Outcome)
      requires Ready()
      modifies this`invitations
      ensures Ready() && (View(), res) == H.Invite(old(View()), owner, gym, email, id, ttl, perDay, now)
      ensures old(Sound(View(), now)) ==> Sound(View(), now)
      ensures P.InviteRule(old(View()), View(), owner, gym, email, id, ttl, perDay, now, res)
    {
      P.InviteFollows(View(), owner, gym, email, id, ttl, perDay, now);
      if Sound(View(), now) { InviteKeepsSound(View(), owner, gym, email, id, ttl, perDay, now); }
      if !IsActiveRole(users, owner, GymOwner) { return Forbidden; }
      if gym !in gyms || gyms[gym].owner != owner { return NotFound; }
      if gyms[gym].archived { return Conflict; }
      if email.None? { return BadRequest; }
      var n := CountSince(invitations, gym, now - INVITES_WINDOW);
      if n >= perDay { return TooMany; }
      ExpireDue(gym, email.value, now);
      // The insert runs into the unique index on (gym, email) of pending invitations.
      if HasPending(invitations, gym, email.value) || id in invitations { return Conflict; }
      invitations := invitations[id := Invitation(gym, email.value, Pending, "", now, now + ttl)];
      return Done;
    }

    method RevokeInvitation(owner: Id, gym: Id, id: Id, ghost now: Time) returns (res: Outcome)
      requires Ready()
      modifies this`invitations
      ensures Ready() && (View(), res) == H.Revoke(old(View()), owner, gym, id)
      ensures old(Sound(View(), now)) ==> Sound(View(), now)
      ensures P.RevokeRule(old(View()), View(), owner, gym, id, res)
    {
      P.RevokeFollows(View(), owner, gym, id);
      if Sound(View(), now) { RevokeKeepsSound(View(), owner, gym, id, now); }
      if !IsActiveRole(users, owner, GymOwner) { return Forbidden; }
      if gym !in gyms || gyms[gym].owner != owner { return NotFound; }
      if id !in invitations || invitations[id].gym != gym { return NotFound; }
      var ok := TransitionInvitation(id, Pending, Revoked, "");
      res := if ok then Done else Conflict;
    }

    /** Done for a pending invitation in time; one past its time is refused and becomes expired on the way. */
    method PendingInvitation(id: Id, now: Time) returns (res: Outcome)
      requires id in invitations
      modifies this`invitations
      ensures res == if old(invitations)[id].status.Pending? && old(invitations)[id].expiresAt > now then Done
              else Conflict
      ensures invitations == if old(invitations)[id].status.Pending? && old(invitations)[id].expiresAt <= now
                             then H.SetStatus(old(View()), id, Expired, "").invitations else old(invitations)
    {
      if !invitations[id].status.Pending? { return Conflict; }
      if !(invitations[id].expiresAt > now) {
        var _ := TransitionInvitation(id, Pending, Expired, "");
        return Conflict;
      }
      return Done;
    }

    method DeclineInvitation(caller: Id, id: Id, now: Time) returns (res: Outcome)
      requires Ready()
      modifies this`invitations
      ensures Ready() && (View(), res) == H.Decline(old(View()), caller, id, now)
      ensures old(Sound(View(), now)) ==> Sound(View(), now)
      ensures P.DeclineRule(old(View()), View(), caller, id, now, res)
    {
      P.DeclineFollows(View(), caller, id, now);
      if Sound(View(), now) { DeclineKeepsSound(View(), caller, id, now); }
      if !IsActiveRole(users, caller, Coach) { return Forbidden; }
      if id !in invitations || invitations[id].email != users[caller].email { return NotFound; }
      res := PendingInvitation(id, now);
      if res != Done { return; }
      var ok := TransitionInvitation(id, Pending, Declined, caller);
      res := if ok then Done else Conflict;
    }

    method AcceptInvitation(caller: Id, id: Id, now: Time) returns (res: Outcome)
      requires Ready()
      modifies this, store
      ensures Ready() && (alone ==> P.AcceptRule(old(View()), View(), caller, id, now, res))
      ensures alone && old(Sound(View(), now)) ==> Sound(View(), now)
      ensures res == Done ==> id in invitations && invitations[id].status == Accepted
      ensures exists sent :: log == old(log) + sent && JoinWrites(sent, caller, id, res)
    {
      P.AcceptFollows(View(), caller, id, now);
      if Sound(View(), now) { AcceptKeepsSound(View(), caller, id, now); }
      res := CheckAndJoin(caller, id, now);
    }

    /**
     The writes of an accept. Done: the flag if it was down, the seat, the answer. Otherwise everything that
     went in has gone out again, last in first out.
     */
    predicate JoinWrites(sent: seq<Write>, caller: Id, id: Id, res: Outcome) {
      var up, down, took, left := FlagSet(caller, true), FlagSet(caller, false), SeatIn(caller), SeatOut(caller);
      if res == Done then sent == [took, Answer(id, Accepted)] || sent == [up, took, Answer(id, Accepted)]
      else || sent == [] || sent == [up, down] || sent == [took, left] || sent == [up, took, left, down]
           || (res == NotFound && sent == [up])
    }

    /** The steps of an accept. */
    method CheckAndJoin(caller: Id, id: Id, now: Time) returns (res: Outcome)
      requires Ready()
      modifies this, store
      ensures Ready() && (alone ==> (View(), res) == H.Accept(old(View()), caller, id, now))
      ensures res == Done ==> id in invitations && invitations[id].status == Accepted
      ensures exists sent :: log == old(log) + sent && JoinWrites(sent, caller, id, res)
    {
      assert log == log + [];
      if !IsActiveRole(users, caller, Coach) { return Forbidden; }
      var u := users[caller];
      Interleave();
      if id !in invitations || invitations[id].email != u.email { return NotFound; }
      var gym := invitations[id].gym;
      res := PendingInvitation(id, now);
      if res != Done { return; }
      Interleave();
      if caller in store.members { return Conflict; }
      Interleave();
      if caller in store.gymHeads { return Conflict; }
      Interleave();
      if gym !in gyms || gyms[gym].archived { return NotFound; }
      Interleave();
      res := Join(caller, id, gym, u.headFlag, now);
    }

    /** Takes the flag back that the call has set. */
    method TakeFlagBack(caller: Id, wasHead: bool) returns (ghost back: seq<Write>)
      modifies this`users, this`log
      ensures back == (if wasHead then [] else [FlagSet(caller, false)]) && log == old(log) + back
      ensures users == if !wasHead && caller in old(users) then SetFlag(old(users), caller, false) else old(users)
    {
      back := [];
      if !wasHead {
        var _ := SetHeadCoach(caller, false);
        back := [FlagSet(caller, false)];
      }
    }

    /** Raises the flag if it was down as the caller was loaded, unless the caller has come into a team. */
    method RaiseFlag(caller: Id, wasHead: bool) returns (res: Outcome, ghost sent: seq<Write>)
      requires Ready()
      modifies this, store
      ensures Ready() && log == old(log) + sent
      ensures alone && caller in old(users) && old(users)[caller].headFlag == wasHead
              && caller !in old(store.members) ==>
                res == Done && View() == old(View()).(users := SetFlag(old(users), caller, true))
      ensures res == Done ==> sent == if wasHead then [] else [FlagSet(caller, true)]
      ensures res != Done ==> !wasHead && (sent == [FlagSet(caller, true), FlagSet(caller, false)]
                                           || (res == NotFound && sent == [FlagSet(caller, true)]))
    {
      sent := [];
      if wasHead { return Done, sent; }
      var found := SetHeadCoach(caller, true);
      sent := [FlagSet(caller, true)];
      if !found { return NotFound, sent; }
      Interleave();
      if caller in store.members {
        Interleave();
        ghost var back := TakeFlagBack(caller, wasHead);
        return Conflict, sent + back;
      }
      return Done, sent;
    }

    /** The seat and the answer; the seat goes again when somebody else has answered. */
    method TakeSeat(caller: Id, id: Id, gym: Id, now: Time) returns (res: Outcome, ghost sent: seq<Write>)
      requires Ready()
      modifies this, store
      ensures Ready() && log == old(log) + sent
      ensures alone && caller !in old(store.gymHeads) && id in old(invitations)
              && old(invitations)[id].status.Pending? ==>
                var w := old(View());
                && res == Done
                && View() == H.SetStatus(w.(rows := WithGymHead(w.rows, GymHead(caller, gym, id, now), REASON_GYM_ADD)),
                                         id, Accepted, caller)
      ensures res == Done ==> id in invitations && invitations[id].status == Accepted
                              && sent == [SeatIn(caller), Answer(id, Accepted)]
      ensures res != Done ==> res == Conflict && (sent == [] || sent == [SeatIn(caller), SeatOut(caller)])
    {
      sent := [];
      var added := store.AddHeadCoach(GymHead(caller, gym, id, now), REASON_GYM_ADD);
      if !added { return Conflict, sent; }
      log, sent := log + [SeatIn(caller)], [SeatIn(caller)];
      Interleave();
      var ok := TransitionInvitation(id, Pending, Accepted, caller);
      if !ok {
        Interleave();
        var _ := store.ReleaseHead(caller, REASON_GYM_REMOVE, now);
        log, sent := log + [SeatOut(caller)], sent + [SeatOut(caller)];
        return Conflict, sent;
      }
      log, sent := log + [Answer(id, Accepted)], sent + [Answer(id, Accepted)];
      return Done, sent;
    }

    /** The writes of an accept, with their undo branches; wasHead is the flag as the caller was loaded. */
    method Join(caller: Id, id: Id, gym: Id, wasHead: bool, now: Time) returns (res: Outcome)
      requires Ready()
      modifies this, store
      ensures Ready() && (res == Done ==> id in invitations && invitations[id].status == Accepted)
      ensures exists sent :: log == old(log) + sent && JoinWrites(sent, caller, id, res)
      ensures var w := old(View());
              alone && caller in w.users && w.users[caller].headFlag == wasHead && caller !in w.rows.members
                && caller !in w.rows.gymHeads
              && id in w.invitations && w.invitations[id].status.Pending? ==>
                var joined := WithGymHead(w.rows, GymHead(caller, gym, id, now), REASON_GYM_ADD);
                && res == Done
                && View() == H.SetStatus(w.(users := SetFlag(w.users, caller, true), rows := joined), id, Accepted,
                                         caller)
    {
      ghost var flags, seats, back;
      res, flags := RaiseFlag(caller, wasHead);
      if res != Done {
        assert JoinWrites(flags, caller, id, res);
        return;
      }
      Interleave();
      res, seats := TakeSeat(caller, id, gym, now);
      if res == Done {
        assert log == old(log) + (flags + seats) && JoinWrites(flags + seats, caller, id, res);
        return;
      }
      Interleave();
      back := TakeFlagBack(caller, wasHead);
      assert log == old(log) + (flags + seats + back) && JoinWrites(flags + seats + back, caller, id, res);
    }

    // ---- gym service: memberships ----

    method LeaveGym(caller: Id, now: Time) returns (res: Outcome)
      requires Ready()
      modifies store
      ensures Ready() && (View(), res) == H.LeaveGym(old(View()), caller, now)
      ensures old(Sound(View(), now)) ==> Sound(View(), now)
      ensures P.LeaveGymRule(old(View()), View(), caller, now, res)
    {
      P.LeaveGymFollows(View(), caller, now);
      if Sound(View(), now) { RemoveFromGymKeepsSound(View(), caller, REASON_GYM_LEAVE, now); }
      if !IsActiveHead(users, caller) { return Forbidden; }
      var gym := store.ReleaseHead(caller, REASON_GYM_LEAVE, now);
      res := if gym.None? then NotFound else Done;
    }

    method RemoveHeadCoach(owner: Id, gym: Id, head: Id, now: Time) returns (res: Outcome)
      requires Ready()
      modifies store
      ensures Ready() && (View(), res) == H.OwnerRemoveHead(old(View()), owner, gym, head, now)
      ensures old(Sound(View(), now)) ==> Sound(View(), now)
      ensures P.RemoveHeadRule(old(View()), View(), owner, gym, head, now, res)
    {
      P.RemoveHeadFollows(View(), owner, gym, head, now);
      if Sound(View(), now) { RemoveFromGymKeepsSound(View(), head, REASON_GYM_REMOVE, now); }
      if !IsActiveRole(users, owner, GymOwner) { return Forbidden; }
      if gym !in gyms || gyms[gym].owner != owner { return NotFound; }
      var removed := store.RemoveHeadCoach(gym, head, REASON_GYM_REMOVE, now);
      res := if removed then Done else NotFound;
    }

    method AdminRemoveHeadCoach(gym: Id, head: Id, now: Time) returns (res: Outcome)
      requires Ready()
      modifies store
      ensures Ready() && (View(), res) == H.AdminRemoveHead(old(View()), gym, head, now)
      ensures old(Sound(View(), now)) ==> Sound(View(), now)
      ensures P.AdminRemoveHeadRule(old(View()), View(), gym, head, now, res)
    {
      P.RemoveHeadFollows(View(), "", gym, head, now);
      if Sound(View(), now) { RemoveFromGymKeepsSound(View(), head, REASON_GYM_REMOVE, now); }
      if gym !in gyms { return NotFound; }
      var removed := store.RemoveHeadCoach(gym, head, REASON_GYM_REMOVE, now);
      res := if removed then Done else NotFound;
    }

    method AdminAddHeadCoach(gym: Id, head: Id, now: Time) returns (res: Outcome)
      requires Ready()
      modifies store
      ensures Ready() && (View(), res) == H.AdminAddHead(old(View()), gym, head, now)
      ensures old(Sound(View(), now)) ==> Sound(View(), now)
      ensures P.AdminAddHeadRule(old(View()), View(), gym, head, now, res)
    {
      P.AdminAddHeadFollows(View(), gym, head, now);
      if Sound(View(), now) { AdminAddHeadKeepsSound(View(), gym, head, now); }
      if gym !in gyms { return NotFound; }
      if gyms[gym].archived { return Conflict; }
      if head !in users { return NotFound; }
      if !IsActiveHead(users, head) { return Conflict; }
      if head in store.gymHeads {
        res := if store.gymHeads[head].gym == gym then Done else Conflict;
        return;
      }
      var added := store.AddHeadCoach(GymHead(head, gym, "", now), REASON_GYM_ADD);
      res := if added then Done else Conflict;
    }

    method AdminCreateGym(gym: Id, name: string, owner: Id, ghost now: Time) returns (res: Outcome)
      requires Ready()
      modifies this`gyms
      ensures Ready() && (View(), res) == H.CreateGym(old(View()), gym, name, owner)
      ensures old(Sound(View(), now)) ==> Sound(View(), now)
      ensures P.CreateGymRule(old(View()), View(), gym, name, owner, res)
    {
      P.GymNamingFollows(View(), owner, gym, name);
      if Sound(View(), now) { NamingKeepsSound(View(), gym, name, owner, now); }
      var valid := ValidName(name);
      if valid.None? { return BadRequest; }
      if owner == "" { return BadRequest; }
      if owner !in users { return NotFound; }
      if !IsActiveRole(users, owner, GymOwner) { return BadRequest; }
      if gym in gyms { return Conflict; }
      gyms := gyms[gym := Gym(owner, false, valid.value)];
      return Done;
    }

    method RenameGym(owner: Id, gym: Id, name: string, ghost now: Time) returns (res: Outcome)
      requires Ready()
      modifies this`gyms
      ensures Ready() && (View(), res) == H.RenameGym(old(View()), owner, gym, name)
      ensures old(Sound(View(), now)) ==> Sound(View(), now)
      ensures P.RenameGymRule(old(View()), View(), owner, gym, name, res)
    {
      P.GymNamingFollows(View(), owner, gym, name);
      if Sound(View(), now) { NamingKeepsSound(View(), gym, name, owner, now); }
      if !IsActiveRole(users, owner, GymOwner) { return Forbidden; }
      if gym !in gyms || gyms[gym].owner != owner { return NotFound; }
      var valid := ValidName(name);
      if valid.None? { return BadRequest; }
      if gyms[gym].archived { return Conflict; }
      gyms := gyms[gym := gyms[gym].(name := valid.value)];
      return Done;
    }

    /** The checks of an update, and the gym with the update made. */
    method EditedGym(gym: Id, u: GymUpdate) returns (g: Gym, archiveRequested: bool, res: Outcome)
      ensures res == H.UpdateCheck(View(), gym, u)
      ensures res.Done? ==> gym in gyms && g == H.UpdatedGym(gyms[gym], u)
                            && (archiveRequested <==> u.status == Some(STATUS_ARCHIVED))
    {
      g, archiveRequested := Gym("", false, ""), false;
      if u.name.None? && u.status.None? && u.owner.None? { return g, archiveRequested, BadRequest; }
      if gym !in gyms { return g, archiveRequested, NotFound; }
      g := gyms[gym];
      if u.name.Some? {
        var valid := ValidName(u.name.value);
        if valid.None? { return g, archiveRequested, BadRequest; }
        g := g.(name := valid.value);
      }
      if u.status.Some? {
        if u.status.value !in {STATUS_ACTIVE, STATUS_ARCHIVED} { return g, archiveRequested, BadRequest; }
        archiveRequested := u.status.value == STATUS_ARCHIVED;
        g := g.(archived := archiveRequested);
      }
      if u.owner.Some? && u.owner.value != g.owner {
        if u.owner.value !in users { return g, archiveRequested, NotFound; }
        if !IsActiveRole(users, u.owner.value, GymOwner) { return g, archiveRequested, BadRequest; }
        g := g.(owner := u.owner.value);
      }
      return g, archiveRequested, Done;
    }

    method AdminUpdateGym(gym: Id, u: GymUpdate, now: Time) returns (res: Outcome)
      requires Ready()
      modifies this`gyms, this`invitations, store
      ensures Ready() && (View(), res) == H.UpdateGym(old(View()), gym, u, now)
      ensures old(Sound(View(), now)) ==> Sound(View(), now)
      ensures P.UpdateGymRule(old(View()), View(), gym, u, now, res)
    {
      P.UpdateGymFollows(View(), gym, u, now);
      if Sound(View(), now) { UpdateGymKeepsSound(View(), gym, u, now); }
      var g, archiveRequested;
      g, archiveRequested, res := EditedGym(gym, u);
      if !res.Done? { return; }
      if g != gyms[gym] {
        gyms := gyms[gym := g];
      }
      assert gyms == old(gyms)[gym := g];
      // Not only when the status changes.
      if archiveRequested {
        var _ := store.RemoveAllByGym(gym, REASON_GYM_ARCHIVE, now);
        RevokePendingByGym(gym);
      }
      return Done;
    }

    // ---- account deletion ----

    method DeleteUser(id: Id, now: Time) returns (res: Outcome)
      requires Ready()
      modifies this`users, store
      ensures Ready() && (View(), res) == H.DeleteUser(old(View()), id, now)
      ensures old(Sound(View(), now)) ==> Sound(View(), now)
      ensures P.DeleteUserRule(old(View()), View(), id, now, res)
    {
      P.DeleteUserFollows(View(), id, now);
      if Sound(View(), now) { DeleteUserKeepsSound(View(), id, now); }
      if id !in users { return NotFound; }
      users := users - {id};
      store.DeleteByAny(id, REASON_ACCOUNT_GONE, now);
      return Done;
    }
  }
}
