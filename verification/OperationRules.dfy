/**
 What each operation on teams and gyms answers and changes, told by the stored data alone: when it is done,
 which refusal each failed condition gives, and every field of the state afterwards.
 */
module OperationRules {
  import opened Common
  import opened Periods
  import opened Memberships
  import opened GymNames
  import H = Hierarchy

  type World = H.World

  // ---- who may do what ----

  predicate Coaches(w: World, u: Id) {
    u in w.users && w.users[u].role == H.Coach && w.users[u].active
  }

  predicate Heads(w: World, u: Id) {
    u in w.users && w.users[u].role == H.Coach && w.users[u].active && w.users[u].headFlag
  }

  predicate OwnsGyms(w: World, u: Id) {
    u in w.users && w.users[u].role == H.GymOwner && w.users[u].active
  }

  predicate Owns(w: World, u: Id, gym: Id) {
    OwnsGyms(w, u) && gym in w.gyms && w.gyms[gym].owner == u
  }

  predicate IsOpenGym(w: World, gym: Id) {
    gym in w.gyms && !w.gyms[gym].archived
  }

  // ---- what happens to the history ----

  /** The chosen rows end now for the reason; every other row is as it was. */
  predicate Ends(ps: seq<Period>, ps': seq<Period>, chosen: set<nat>, now: Time, reason: string) {
    |ps'| == |ps| && forall i :: 0 <= i < |ps| ==>
      ps'[i] == if i in chosen then Period(ps[i].kind, ps[i].member, ps[i].parent, ps[i].start, Some(now), reason)
                else ps[i]
  }

  /** The open rows of a member, and those under a parent. */
  function OpenOf(ps: seq<Period>, kind: Kind, member: Id): set<nat> {
    set i: nat | i < |ps| && ps[i].kind == kind && ps[i].member == member && ps[i].end == None
  }

  function OpenUnder(ps: seq<Period>, kind: Kind, parent: Id): set<nat> {
    set i: nat | i < |ps| && ps[i].kind == kind && ps[i].parent == parent && ps[i].end == None
  }

  /** The member moves to the parent now; a member already there stays. */
  predicate MovesTo(ps: seq<Period>, ps': seq<Period>, kind: Kind, member: Id, parent: Id, now: Time, reason: string) {
    var at := OpenOf(ps, kind, member);
    if exists i :: i in at && ps[i].parent == parent then ps' == ps
    else |ps'| == |ps| + 1 && Ends(ps, ps'[..|ps|], at, now, reason)
         && ps'[|ps|] == Period(kind, member, parent, now, None, reason)
  }

  /** The member leaves: its row goes, and its open period with it. */
  predicate LeavesTeam(r: Rows, r': Rows, coach: Id, now: Time, reason: string) {
    && r'.members == r.members - {coach} && r'.gymHeads == r.gymHeads
    && Ends(r.periods, r'.periods, OpenOf(r.periods, TeamKind, coach), now, reason)
  }

  predicate LeavesSeat(r: Rows, r': Rows, head: Id, now: Time, reason: string) {
    && r'.members == r.members && r'.gymHeads == r.gymHeads - {head}
    && Ends(r.periods, r'.periods, OpenOf(r.periods, GymKind, head), now, reason)
  }

  predicate TakesSeat(r: Rows, r': Rows, head: Id, gym: Id, invitation: Id, now: Time) {
    && r'.members == r.members && r'.gymHeads == r.gymHeads[head := GymHead(head, gym, invitation, now)]
    && MovesTo(r.periods, r'.periods, GymKind, head, gym, now, "gym_add")
  }

  /** Nothing but the rows changes. */
  predicate OnlyRows(w: World, w': World) {
    w' == w.(rows := w'.rows)
  }

  // ---- teams ----

  predicate PromoteRule(w: World, w': World, coach: Id, res: H.Outcome) {
    && (res == H.NotFound <==> coach !in w.users)
    && (res == H.BadRequest <==> coach in w.users && w.users[coach].role != H.Coach)
    && (res == H.Done <==> Heads(w, coach) || (Coaches(w, coach) && coach !in w.rows.members))
    && (res == H.Conflict <==> coach in w.users && w.users[coach].role == H.Coach
                               && (!w.users[coach].active || (!w.users[coach].headFlag && coach in w.rows.members)))
    && w' == if res == H.Done then w.(users := w.users[coach := w.users[coach].(headFlag := true)]) else w
  }

  /** Also for a user whose flag is down already, when members are left over. */
  predicate DemoteRule(w: World, w': World, head: Id, now: Time, res: H.Outcome) {
    && (res == H.NotFound <==> head !in w.users)
    && (res == H.Done <==> head in w.users && (w.users[head].headFlag || exists c ::
                             c in w.rows.members && w.rows.members[c].head == head && c in w.users))
    && res in {H.NotFound, H.Done, H.Conflict}
    && if res != H.Done then w' == w
       else
         && w' == w.(users := w.users[head := w.users[head].(headFlag := false)], rows := w'.rows)
         && w'.rows.members == (map c | c in w.rows.members && w.rows.members[c].head != head :: w.rows.members[c])
         && w'.rows.gymHeads == w.rows.gymHeads - {head}
         && Ends(w.rows.periods, w'.rows.periods,
                 OpenUnder(w.rows.periods, TeamKind, head)
                 + (if head in w.rows.gymHeads then OpenOf(w.rows.periods, GymKind, head) else {}), now, "demote")
  }

  predicate AssignRule(w: World, w': World, coach: Id, head: Id, now: Time, res: H.Outcome) {
    var named := coach != "" && head != "" && coach != head;
    var isCoach := coach in w.users && w.users[coach].role == H.Coach;
    && (res == H.BadRequest <==> !named || (coach in w.users && !isCoach))
    && (res == H.NotFound <==> named
                               && (coach !in w.users || (isCoach && !w.users[coach].headFlag && head !in w.users)))
    && (res == H.Done <==> named && isCoach && !w.users[coach].headFlag && Heads(w, head))
    && res in {H.BadRequest, H.NotFound, H.Done, H.Conflict}
    && if res != H.Done then w' == w
       else
         && OnlyRows(w, w') && w'.rows.gymHeads == w.rows.gymHeads
         && w'.rows.members == w.rows.members[coach := TeamMember(coach, head, now)]
         && MovesTo(w.rows.periods, w'.rows.periods, TeamKind, coach, head, now,
                    if coach in w.rows.members && w.rows.members[coach].head != head then "reassign" else "assign")
  }

  predicate UnassignRule(w: World, w': World, coach: Id, now: Time, res: H.Outcome) {
    && (res == H.Done <==> coach in w.rows.members) && (res == H.NotFound <==> coach !in w.rows.members)
    && OnlyRows(w, w')
    && if res == H.Done then LeavesTeam(w.rows, w'.rows, coach, now, "unassign") else w' == w
  }

  predicate RemoveMyCoachRule(w: World, w': World, caller: Id, coach: Id, now: Time, res: H.Outcome) {
    && (res == H.Forbidden <==> !Heads(w, caller))
    && (res == H.Done <==> Heads(w, caller) && coach in w.rows.members && w.rows.members[coach].head == caller)
    && res in {H.Forbidden, H.Done, H.NotFound} && OnlyRows(w, w')
    && if res == H.Done then LeavesTeam(w.rows, w'.rows, coach, now, "removed_by_head_coach") else w' == w
  }

  // ---- invitations ----

  /** One invitation gets a status, and perhaps an invitee; nothing else changes. */
  predicate Answers(w: World, w': World, id: Id, status: H.InviteStatus, invitee: Id)
    requires id in w.invitations
  {
    w' == w.(invitations := w.invitations[id := w.invitations[id].(status := status, invitee := invitee)])
  }

  /** Sent to the caller's address. */
  predicate IsFor(w: World, id: Id, caller: Id) {
    id in w.invitations && caller in w.users && w.invitations[id].email == w.users[caller].email
  }

  predicate Waits(w: World, id: Id, now: Time) {
    id in w.invitations && w.invitations[id].status == H.Pending && w.invitations[id].expiresAt > now
  }

  /** Past its time, a pending invitation expires as somebody tries to answer it. */
  predicate Lapses(w: World, w': World, id: Id, now: Time) {
    if id in w.invitations && w.invitations[id].status == H.Pending && w.invitations[id].expiresAt <= now
    then Answers(w, w', id, H.Expired, w.invitations[id].invitee) else w' == w
  }

  predicate AcceptRule(w: World, w': World, caller: Id, id: Id, now: Time, res: H.Outcome) {
    var mine := Coaches(w, caller) && IsFor(w, id, caller);
    var free := caller !in w.rows.members && caller !in w.rows.gymHeads;
    && (res == H.Forbidden <==> !Coaches(w, caller))
    && (res == H.Done <==> mine && Waits(w, id, now) && free && IsOpenGym(w, w.invitations[id].gym))
    && (res == H.Conflict <==> mine && (!Waits(w, id, now) || !free))
    && (res == H.NotFound <==> Coaches(w, caller) && (!mine || (Waits(w, id, now) && free
                                                                && !IsOpenGym(w, w.invitations[id].gym))))
    && res in {H.Forbidden, H.Done, H.Conflict, H.NotFound}
    && if res == H.Done
       then
         && w' == w.(users := w.users[caller := w.users[caller].(headFlag := true)], rows := w'.rows,
                     invitations := w.invitations[id := w.invitations[id].(status := H.Accepted,
                                                    invitee := if caller == "" then w.invitations[id].invitee
                                                      else caller)])
         && TakesSeat(w.rows, w'.rows, caller, w.invitations[id].gym, id, now)
       else if mine then Lapses(w, w', id, now) else w' == w
  }

  predicate DeclineRule(w: World, w': World, caller: Id, id: Id, now: Time, res: H.Outcome) {
    var mine := Coaches(w, caller) && IsFor(w, id, caller);
    && (res == H.Forbidden <==> !Coaches(w, caller))
    && (res == H.NotFound <==> Coaches(w, caller) && !mine)
    && (res == H.Done <==> mine && Waits(w, id, now))
    && (res == H.Conflict <==> mine && !Waits(w, id, now))
    && if res == H.Done
       then Answers(w, w', id, H.Declined, if caller == "" then w.invitations[id].invitee else caller)
       else if mine then Lapses(w, w', id, now) else w' == w
  }

  predicate RevokeRule(w: World, w': World, owner: Id, gym: Id, id: Id, res: H.Outcome) {
    var there := id in w.invitations && w.invitations[id].gym == gym;
    && (res == H.Forbidden <==> !OwnsGyms(w, owner))
    && (res == H.NotFound <==> OwnsGyms(w, owner) && (!Owns(w, owner, gym) || !there))
    && (res == H.Done <==> Owns(w, owner, gym) && there && w.invitations[id].status == H.Pending)
    && (res == H.Conflict <==> Owns(w, owner, gym) && there && w.invitations[id].status != H.Pending)
    && if res == H.Done then Answers(w, w', id, H.Revoked, w.invitations[id].invitee) else w' == w
  }

  /** Invitations of the gym sent in the 24 hours before now. */
  function SentToday(w: World, gym: Id, now: Time): set<Id> {
    set i | i in w.invitations && w.invitations[i].gym == gym && w.invitations[i].createdAt >= now - 24 * HOUR
  }

  predicate IsOverdue(inv: H.Invitation, gym: Id, email: string, now: Time) {
    inv.status == H.Pending && inv.expiresAt <= now && (gym == "" || inv.gym == gym)
      && (email == "" || inv.email == email)
  }

  /** Overdue invitations of gym and address expire, an empty one standing for any; no other changes. */
  predicate Expires(invs: map<Id, H.Invitation>, invs': map<Id, H.Invitation>, gym: Id, email: string, now: Time) {
    invs' == map i | i in invs :: if IsOverdue(invs[i], gym, email, now) then invs[i].(status := H.Expired) else invs[i]
  }

  /** An invitation of that gym and address that is pending and not overdue. */
  predicate StillWaits(w: World, i: Id, gym: Id, email: Option<string>, now: Time) {
    && i in w.invitations && w.invitations[i].status == H.Pending && w.invitations[i].expiresAt > now
    && w.invitations[i].gym == gym && Some(w.invitations[i].email) == email
  }

  predicate InviteRule(w: World, w': World, owner: Id, gym: Id, email: Option<string>, id: Id, ttl: int, perDay: nat,
                       now: Time, res: H.Outcome) {
    var allowed := Owns(w, owner, gym) && IsOpenGym(w, gym) && email.Some? && |SentToday(w, gym, now)| < perDay;
    var taken := id in w.invitations || exists i :: i in w.invitations && StillWaits(w, i, gym, email, now);
    && (res == H.Forbidden <==> !OwnsGyms(w, owner))
    && (res == H.NotFound <==> OwnsGyms(w, owner) && !Owns(w, owner, gym))
    && (res == H.BadRequest <==> Owns(w, owner, gym) && IsOpenGym(w, gym) && email.None?)
    && (res == H.TooMany <==> Owns(w, owner, gym) && IsOpenGym(w, gym) && email.Some?
                              && |SentToday(w, gym, now)| >= perDay)
    && (res == H.Done <==> allowed && !taken)
    && (res == H.Conflict <==> (Owns(w, owner, gym) && !IsOpenGym(w, gym)) || (allowed && taken))
    && (if !allowed then w' == w
        else
          && w' == w.(invitations := w'.invitations)
          && Expires(w.invitations, if res == H.Done then w'.invitations - {id}
                     else w'.invitations, gym, email.value, now)
          && (res == H.Done ==> id in w'.invitations && w'.invitations[id]
                                == H.Invitation(gym, email.value, H.Pending, "", now, now + ttl)))
  }

  // ---- seats ----

  predicate LeaveGymRule(w: World, w': World, caller: Id, now: Time, res: H.Outcome) {
    && (res == H.Forbidden <==> !Heads(w, caller))
    && (res == H.Done <==> Heads(w, caller) && caller in w.rows.gymHeads)
    && res in {H.Forbidden, H.Done, H.NotFound} && OnlyRows(w, w')
    && if res == H.Done then LeavesSeat(w.rows, w'.rows, caller, now, "gym_leave") else w' == w
  }

  predicate RemoveHeadRule(w: World, w': World, owner: Id, gym: Id, head: Id, now: Time, res: H.Outcome) {
    && (res == H.Forbidden <==> !OwnsGyms(w, owner))
    && (res == H.Done <==> Owns(w, owner, gym) && head in w.rows.gymHeads && w.rows.gymHeads[head].gym == gym)
    && res in {H.Forbidden, H.Done, H.NotFound} && OnlyRows(w, w')
    && if res == H.Done then LeavesSeat(w.rows, w'.rows, head, now, "gym_remove") else w' == w
  }

  predicate AdminRemoveHeadRule(w: World, w': World, gym: Id, head: Id, now: Time, res: H.Outcome) {
    && (res == H.Done <==> gym in w.gyms && head in w.rows.gymHeads && w.rows.gymHeads[head].gym == gym)
    && res in {H.Done, H.NotFound} && OnlyRows(w, w')
    && if res == H.Done then LeavesSeat(w.rows, w'.rows, head, now, "gym_remove") else w' == w
  }

  /** Adding a head coach to the gym it is in already is done without a change. */
  predicate AdminAddHeadRule(w: World, w': World, gym: Id, head: Id, now: Time, res: H.Outcome) {
    var there := head in w.rows.gymHeads && w.rows.gymHeads[head].gym == gym;
    && (res == H.NotFound <==> gym !in w.gyms || (IsOpenGym(w, gym) && head !in w.users))
    && (res == H.Done <==> IsOpenGym(w, gym) && Heads(w, head) && (head !in w.rows.gymHeads || there))
    && res in {H.NotFound, H.Done, H.Conflict} && OnlyRows(w, w')
    && if res == H.Done && !there then TakesSeat(w.rows, w'.rows, head, gym, "", now) else w' == w
  }

  // ---- accounts ----

  /** Membership, team and seat go with the account. */
  predicate DeleteUserRule(w: World, w': World, id: Id, now: Time, res: H.Outcome) {
    && (res == H.Done <==> id in w.users) && (res == H.NotFound <==> id !in w.users)
    && if res != H.Done then w' == w
       else
         && w' == w.(users := w.users - {id}, rows := w'.rows)
         && w'.rows.members == (map c | c in w.rows.members && c != id
                                && w.rows.members[c].head != id :: w.rows.members[c])
         && w'.rows.gymHeads == w.rows.gymHeads - {id}
         && Ends(w.rows.periods, w'.rows.periods,
                 OpenOf(w.rows.periods, TeamKind, id) + OpenUnder(w.rows.periods, TeamKind, id)
                 + (if id in w.rows.gymHeads then OpenOf(w.rows.periods, GymKind, id) else {}), now, "account_deleted")
  }

  // ---- gyms ----

  predicate CreateGymRule(w: World, w': World, gym: Id, name: string, owner: Id, res: H.Outcome) {
    var named := ValidName(name).Some? && owner != "";
    && (res == H.BadRequest <==> !named || (owner in w.users && !OwnsGyms(w, owner)))
    && (res == H.NotFound <==> named && owner !in w.users)
    && (res == H.Done <==> named && OwnsGyms(w, owner) && gym !in w.gyms)
    && res in {H.BadRequest, H.NotFound, H.Done, H.Conflict}
    && w' == if res == H.Done then w.(gyms := w.gyms[gym := H.Gym(owner, false, ValidName(name).value)]) else w
  }

  predicate RenameGymRule(w: World, w': World, owner: Id, gym: Id, name: string, res: H.Outcome) {
    && (res == H.Forbidden <==> !OwnsGyms(w, owner))
    && (res == H.NotFound <==> OwnsGyms(w, owner) && !Owns(w, owner, gym))
    && (res == H.BadRequest <==> Owns(w, owner, gym) && ValidName(name) == None)
    && (res == H.Done <==> Owns(w, owner, gym) && ValidName(name).Some? && IsOpenGym(w, gym))
    && (res == H.Conflict <==> Owns(w, owner, gym) && ValidName(name).Some? && !IsOpenGym(w, gym))
    && w' == if res == H.Done then w.(gyms := w.gyms[gym := w.gyms[gym].(name := ValidName(name).value)]) else w
  }

  predicate ChangesOwner(w: World, gym: Id, u: H.GymUpdate) {
    gym in w.gyms && u.owner.Some? && u.owner.value != w.gyms[gym].owner
  }

  /** Name and status of the request are usable. */
  predicate IsSensible(u: H.GymUpdate) {
    (u.name.Some? ==> ValidName(u.name.value).Some?) && (u.status.Some? ==> u.status.value in {"active", "archived"})
  }

  predicate UpdateGymRule(w: World, w': World, gym: Id, u: H.GymUpdate, now: Time, res: H.Outcome) {
    var empty := u.name == None && u.status == None && u.owner == None;
    var known := ChangesOwner(w, gym, u) ==> u.owner.value in w.users;
    var fit := ChangesOwner(w, gym, u) ==> OwnsGyms(w, u.owner.value);
    && (res == H.NotFound <==> !empty && (gym !in w.gyms || (IsSensible(u) && !known)))
    && (res == H.Done <==> !empty && gym in w.gyms && IsSensible(u) && fit)
    && res in {H.NotFound, H.Done, H.BadRequest}
    && if res != H.Done then w' == w
       else
         && w'.users == w.users
         && w'.gyms == w.gyms[gym := H.Gym(if u.owner.Some? then u.owner.value else w.gyms[gym].owner,
                                           if u.status.Some? then u.status == Some("archived")
                                           else w.gyms[gym].archived,
                                           if u.name.Some? then ValidName(u.name.value).value else w.gyms[gym].name)]
         && if u.status == Some("archived") then IsEmptied(w, w', gym, now)
            else w'.rows == w.rows && w'.invitations == w.invitations
  }

  /** Every head coach of the gym is out, every pending invitation of the gym revoked; nothing else. */
  predicate IsEmptied(w: World, w': World, gym: Id, now: Time) {
    && w'.rows.members == w.rows.members
    && w'.rows.gymHeads == (map h | h in w.rows.gymHeads && w.rows.gymHeads[h].gym != gym :: w.rows.gymHeads[h])
    && Ends(w.rows.periods, w'.rows.periods, OpenUnder(w.rows.periods, GymKind, gym), now, "gym_archive")
    && w'.invitations == map i | i in w.invitations ::
                           if w.invitations[i].status == H.Pending && w.invitations[i].gym == gym
                           then w.invitations[i].(status := H.Revoked) else w.invitations[i]
  }

  // ---- the operations follow the rules ----

  lemma PromoteFollows(w: World, coach: Id)
    ensures PromoteRule(w, H.Promote(w, coach).0, coach, H.Promote(w, coach).1)
  {
  }

  lemma DemoteFollows(w: World, head: Id, now: Time)
    ensures DemoteRule(w, H.Demote(w, head, now).0, head, now, H.Demote(w, head, now).1)
  {
  }

  lemma AssignFollows(w: World, coach: Id, head: Id, now: Time)
    requires UniqueOpen(w.rows.periods)
    ensures AssignRule(w, H.Assign(w, coach, head, now).0, coach, head, now, H.Assign(w, coach, head, now).1)
  {
    OpenedMovesTo(w.rows.periods, TeamKind, coach, head, UpsertReason(w.rows.members, TeamMember(coach, head, now)),
                  now);
  }

  /** Opening a period is such a move. */
  lemma OpenedMovesTo(ps: seq<Period>, kind: Kind, member: Id, parent: Id, reason: string, now: Time)
    requires UniqueOpen(ps)
    ensures MovesTo(ps, Opened(ps, kind, member, parent, reason, now), kind, member, parent, now, reason)
  {
    forall i: nat
      ensures i in OpenOf(ps, kind, member) <==> i < |ps| && IsOpen(ps[i], kind, member)
      ensures i in OpenOf(ps, kind, member) ==> OpenParent(ps, kind, member) == Some(ps[i].parent)
    {
      if i < |ps| && IsOpen(ps[i], kind, member) {
        OpenParentAt(ps, i);
      }
    }
    assert Closed(ps, kind, member, now, reason) == Opened(ps, kind, member, parent, reason, now)[..|ps|]
           || OpenParent(ps, kind, member) == Some(parent);
  }

  /** Written at any date, or now when it has none; a coach without a row has nothing to end. */
  lemma RowWritesFollow(r: Rows, m: TeamMember, coach: Id, reason: string, now: Time)
    requires UniqueOpen(r.periods)
    ensures var r' := Upserted(r, m, now);
            && r'.members == r.members[m.coach := m] && r'.gymHeads == r.gymHeads
            && MovesTo(r.periods, r'.periods, TeamKind, m.coach, m.head, if m.assignedAt == 0 then now
                       else m.assignedAt,
                       if m.coach in r.members && r.members[m.coach].head != m.head then "reassign" else "assign")
    ensures var r' := WithoutCoach(r, coach, reason, now);
            if coach in r.members then LeavesTeam(r, r', coach, now, reason) else r' == r
  {
    OpenedMovesTo(r.periods, TeamKind, m.coach, m.head, UpsertReason(r.members, m),
                  if m.assignedAt == ZERO_TIME then now else m.assignedAt);
  }

  lemma UnassignFollows(w: World, coach: Id, now: Time)
    ensures UnassignRule(w, H.Unassign(w, coach, now).0, coach, now, H.Unassign(w, coach, now).1)
  {
  }

  lemma RemoveMyCoachFollows(w: World, caller: Id, coach: Id, now: Time)
    ensures RemoveMyCoachRule(w, H.RemoveMyCoach(w, caller, coach, now).0, caller, coach, now,
                              H.RemoveMyCoach(w, caller, coach, now).1)
  {
  }

  lemma AcceptFollows(w: World, caller: Id, id: Id, now: Time)
    requires UniqueOpen(w.rows.periods)
    ensures AcceptRule(w, H.Accept(w, caller, id, now).0, caller, id, now, H.Accept(w, caller, id, now).1)
  {
    if id in w.invitations {
      OpenedMovesTo(w.rows.periods, GymKind, caller, w.invitations[id].gym, REASON_GYM_ADD, now);
    }
  }

  lemma DeclineFollows(w: World, caller: Id, id: Id, now: Time)
    ensures DeclineRule(w, H.Decline(w, caller, id, now).0, caller, id, now, H.Decline(w, caller, id, now).1)
  {
  }

  lemma RevokeFollows(w: World, owner: Id, gym: Id, id: Id)
    ensures RevokeRule(w, H.Revoke(w, owner, gym, id).0, owner, gym, id, H.Revoke(w, owner, gym, id).1)
  {
  }

  lemma InviteFollows(w: World, owner: Id, gym: Id, email: Option<string>, id: Id, ttl: int, perDay: nat, now: Time)
    ensures var (w', res) := H.Invite(w, owner, gym, email, id, ttl, perDay, now);
            InviteRule(w, w', owner, gym, email, id, ttl, perDay, now, res)
  {
    assert SentToday(w, gym, now) == set i | i in w.invitations && w.invitations[i].gym == gym
                                            && w.invitations[i].createdAt >= now - H.INVITES_WINDOW;
    if email.Some? {
      var invs := H.WithExpired(w.invitations, gym, email.value, now);
      forall i
        ensures i in w.invitations && StillWaits(w, i, gym, email, now) <==>
                  i in invs && invs[i].status.Pending? && invs[i].gym == gym && invs[i].email == email.value
      {
      }
      assert Expires(w.invitations, invs, gym, email.value, now);
      assert id !in invs ==> invs[id := H.Invitation(gym, email.value, H.Pending, "", now, now + ttl)] - {id} == invs;
    }
  }

  lemma LeaveGymFollows(w: World, caller: Id, now: Time)
    ensures LeaveGymRule(w, H.LeaveGym(w, caller, now).0, caller, now, H.LeaveGym(w, caller, now).1)
  {
  }

  lemma RemoveHeadFollows(w: World, owner: Id, gym: Id, head: Id, now: Time)
    ensures RemoveHeadRule(w, H.OwnerRemoveHead(w, owner, gym, head, now).0, owner, gym, head, now,
                           H.OwnerRemoveHead(w, owner, gym, head, now).1)
    ensures AdminRemoveHeadRule(w, H.AdminRemoveHead(w, gym, head, now).0, gym, head, now,
                                H.AdminRemoveHead(w, gym, head, now).1)
  {
  }

  lemma AdminAddHeadFollows(w: World, gym: Id, head: Id, now: Time)
    requires UniqueOpen(w.rows.periods)
    ensures AdminAddHeadRule(w, H.AdminAddHead(w, gym, head, now).0, gym, head, now,
                             H.AdminAddHead(w, gym, head, now).1)
  {
    OpenedMovesTo(w.rows.periods, GymKind, head, gym, REASON_GYM_ADD, now);
  }

  lemma DeleteUserFollows(w: World, id: Id, now: Time)
    ensures DeleteUserRule(w, H.DeleteUser(w, id, now).0, id, now, H.DeleteUser(w, id, now).1)
  {
  }

  lemma GymNamingFollows(w: World, owner: Id, gym: Id, name: string)
    ensures CreateGymRule(w, H.CreateGym(w, gym, name, owner).0, gym, name, owner, H.CreateGym(w, gym, name, owner).1)
    ensures RenameGymRule(w, H.RenameGym(w, owner, gym, name).0, owner, gym, name, H.RenameGym(w, owner, gym, name).1)
  {
  }

  lemma UpdateGymFollows(w: World, gym: Id, u: H.GymUpdate, now: Time)
    ensures UpdateGymRule(w, H.UpdateGym(w, gym, u, now).0, gym, u, now, H.UpdateGym(w, gym, u, now).1)
  {
  }
}
