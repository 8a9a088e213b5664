/**
 The hierarchy of heads, teams and gyms as a whole: every complete operation as a function of the stored
 state, and what all sequences of them keep. A complete operation meets no concurrent writer, so the
 rechecks and undo branches of the services leave no trace here; the services refine these functions.
 */
module Hierarchy {
  import opened Common
  import opened Periods
  import opened Memberships
  import opened GymNames

  datatype Role = Coach | GymOwner | OtherRole

  datatype User = User(role: Role, active: bool, headFlag: bool, email: string)

  datatype Gym = Gym(owner: Id, archived: bool, name: string)

  /** What an admin asks to change; a missing field is left alone. */
  datatype GymUpdate = GymUpdate(name: Option<string>, status: Option<string>, owner: Option<Id>)

  datatype InviteStatus = Pending | Accepted | Declined | Revoked | Expired

  datatype Invitation = Invitation(gym: Id, email: string, status: InviteStatus, invitee: Id, createdAt: Time,
                                   expiresAt: Time)

  datatype World = World(users: map<Id, User>, gyms: map<Id, Gym>, invitations: map<Id, Invitation>, rows: Rows)

  datatype Outcome = Done | BadRequest | Forbidden | NotFound | Conflict | TooMany

  const EMPTY := World(map[], map[], map[], Rows(map[], map[], []))

  const INVITES_WINDOW: int := 24 * HOUR

  predicate IsHead(users: map<Id, User>, id: Id) {
    id in users && users[id].headFlag
  }

  predicate IsActiveRole(users: map<Id, User>, id: Id, role: Role) {
    id in users && users[id].role == role && users[id].active
  }

  predicate IsActiveHead(users: map<Id, User>, id: Id) {
    IsActiveRole(users, id, Coach) && users[id].headFlag
  }

  function SetFlag(users: map<Id, User>, id: Id, flag: bool): map<Id, User>
    requires id in users
  {
    users[id := users[id].(headFlag := flag)]
  }

  predicate OwnsGym(w: World, owner: Id, gym: Id) {
    gym in w.gyms && w.gyms[gym].owner == owner
  }

  // ---- teams ----

  function Promote(w: World, coach: Id): (World, Outcome) {
    if coach !in w.users then (w, NotFound)
    else if w.users[coach].role != Coach then (w, BadRequest)
    else if !w.users[coach].active then (w, Conflict)
    else if w.users[coach].headFlag then (w, Done)
    else if coach in w.rows.members then (w, Conflict)
    else (w.(users := SetFlag(w.users, coach, true)), Done)
  }

  /** Members whose account is gone do not count; a demotion cut short leaves the others to be found. */
  predicate HasCountedMember(w: World, head: Id) {
    exists c :: c in w.rows.members && w.rows.members[c].head == head && c in w.users
  }

  function Demote(w: World, head: Id, now: Time): (World, Outcome) {
    if head !in w.users then (w, NotFound)
    else if !w.users[head].headFlag && !HasCountedMember(w, head) then (w, Conflict)
    else (w.(users := SetFlag(w.users, head, false),
             rows := WithoutGymHead(WithoutTeam(w.rows, head, REASON_DEMOTE, now), head, REASON_DEMOTE, now)), Done)
  }

  ghost function Assign(w: World, coach: Id, head: Id, now: Time): (World, Outcome) {
    if coach == "" || head == "" || coach == head then (w, BadRequest)
    else if coach !in w.users then (w, NotFound)
    else if w.users[coach].role != Coach then (w, BadRequest)
    else if w.users[coach].headFlag then (w, Conflict)
    else if head !in w.users then (w, NotFound)
    else if !IsActiveHead(w.users, head) then (w, Conflict)
    else (w.(rows := Upserted(w.rows, TeamMember(coach, head, now), now)), Done)
  }

  function Unassign(w: World, coach: Id, now: Time): (World, Outcome) {
    if coach !in w.rows.members then (w, NotFound)
    else (w.(rows := WithoutCoach(w.rows, coach, REASON_UNASSIGN, now)), Done)
  }

  function RemoveMyCoach(w: World, caller: Id, coach: Id, now: Time): (World, Outcome) {
    if !IsActiveHead(w.users, caller) then (w, Forbidden)
    else if HeadOf(w.rows.members, coach) != Some(caller) then (w, NotFound)
    else (w.(rows := WithoutCoach(w.rows, coach, REASON_REMOVED_BY_HEAD, now)), Done)
  }

  // ---- invitations ----

  function SetStatus(w: World, id: Id, status: InviteStatus, invitee: Id): World
    requires id in w.invitations
  {
    var inv := w.invitations[id];
    w.(invitations := w.invitations[id :=
                                    inv.(status := status, invitee := if invitee == "" then inv.invitee else invitee)])
  }

  /** An empty gym or email stands for any. */
  predicate IsDue(inv: Invitation, gym: Id, email: string, now: Time) {
    inv.status.Pending? && (gym == "" || inv.gym == gym) && (email == "" || inv.email == email) && inv.expiresAt <= now
  }

  function WithExpired(invs: map<Id, Invitation>, gym: Id, email: string, now: Time): map<Id, Invitation> {
    map i | i in invs ::
      if IsDue(invs[i], gym, email, now) then invs[i].(status := Expired) else invs[i]
  }

  function WithRevoked(invs: map<Id, Invitation>, gym: Id): map<Id, Invitation> {
    map i | i in invs :: if invs[i].status.Pending? && invs[i].gym == gym then invs[i].(status := Revoked) else invs[i]
  }

  predicate HasPending(invs: map<Id, Invitation>, gym: Id, email: string) {
    exists i :: i in invs && invs[i].status.Pending? && invs[i].gym == gym && invs[i].email == email
  }

  function CountSince(invs: map<Id, Invitation>, gym: Id, since: Time): nat {
    |set i | i in invs && invs[i].gym == gym && invs[i].createdAt >= since|
  }

  /**
   email is the normalised address, None when the request's is not one. A refusal after the rate check has
   already expired the overdue invitation of this gym and email.
   */
  function Invite(w: World, owner: Id, gym: Id, email: Option<string>, id: Id, ttl: int, perDay: nat,
                  now: Time): (World, Outcome) {
    if !IsActiveRole(w.users, owner, GymOwner) then (w, Forbidden)
    else if !OwnsGym(w, owner, gym) then (w, NotFound)
    else if w.gyms[gym].archived then (w, Conflict)
    else if email.None? then (w, BadRequest)
    else if CountSince(w.invitations, gym, now - INVITES_WINDOW) >= perDay then (w, TooMany)
    else
      var invs := WithExpired(w.invitations, gym, email.value, now);
      if HasPending(invs, gym, email.value) || id in invs then (w.(invitations := invs), Conflict)
      else (w.(invitations := invs[id := Invitation(gym, email.value, Pending, "", now, now + ttl)]), Done)
  }

  function Revoke(w: World, owner: Id, gym: Id, id: Id): (World, Outcome) {
    if !IsActiveRole(w.users, owner, GymOwner) then (w, Forbidden)
    else if !OwnsGym(w, owner, gym) then (w, NotFound)
    else if id !in w.invitations || w.invitations[id].gym != gym then (w, NotFound)
    else if !w.invitations[id].status.Pending? then (w, Conflict)
    else (SetStatus(w, id, Revoked, ""), Done)
  }

  predicate IsAddressedTo(w: World, id: Id, caller: Id)
    requires caller in w.users
  {
    id in w.invitations && w.invitations[id].email == w.users[caller].email
  }

  function Decline(w: World, caller: Id, id: Id, now: Time): (World, Outcome) {
    if !IsActiveRole(w.users, caller, Coach) then (w, Forbidden)
    else if !IsAddressedTo(w, id, caller) then (w, NotFound)
    else if !w.invitations[id].status.Pending? then (w, Conflict)
    else if w.invitations[id].expiresAt <= now then (SetStatus(w, id, Expired, ""), Conflict)
    else (SetStatus(w, id, Declined, caller), Done)
  }

  ghost function Accept(w: World, caller: Id, id: Id, now: Time): (World, Outcome) {
    if !IsActiveRole(w.users, caller, Coach) then (w, Forbidden)
    else if !IsAddressedTo(w, id, caller) then (w, NotFound)
    else if !w.invitations[id].status.Pending? then (w, Conflict)
    else if w.invitations[id].expiresAt <= now then (SetStatus(w, id, Expired, ""), Conflict)
    else if caller in w.rows.members || caller in w.rows.gymHeads then (w, Conflict)
    else
      var gym := w.invitations[id].gym;
      if gym !in w.gyms || w.gyms[gym].archived then (w, NotFound)
      else
        var joined := WithGymHead(w.rows, GymHead(caller, gym, id, now), REASON_GYM_ADD);
        (SetStatus(w.(users := SetFlag(w.users, caller, true), rows := joined), id, Accepted, caller), Done)
  }

  // ---- gyms ----

  function LeaveGym(w: World, caller: Id, now: Time): (World, Outcome) {
    if !IsActiveHead(w.users, caller) then (w, Forbidden)
    else if caller !in w.rows.gymHeads then (w, NotFound)
    else (w.(rows := WithoutGymHead(w.rows, caller, REASON_GYM_LEAVE, now)), Done)
  }

  function RemoveFromGym(w: World, gym: Id, head: Id, now: Time): (World, Outcome) {
    if GymOf(w.rows.gymHeads, head) != Some(gym) then (w, NotFound)
    else (w.(rows := WithoutGymHead(w.rows, head, REASON_GYM_REMOVE, now)), Done)
  }

  function OwnerRemoveHead(w: World, owner: Id, gym: Id, head: Id, now: Time): (World, Outcome) {
    if !IsActiveRole(w.users, owner, GymOwner) then (w, Forbidden)
    else if !OwnsGym(w, owner, gym) then (w, NotFound)
    else RemoveFromGym(w, gym, head, now)
  }

  function AdminRemoveHead(w: World, gym: Id, head: Id, now: Time): (World, Outcome) {
    if gym !in w.gyms then (w, NotFound) else RemoveFromGym(w, gym, head, now)
  }

  ghost function AdminAddHead(w: World, gym: Id, head: Id, now: Time): (World, Outcome) {
    if gym !in w.gyms then (w, NotFound)
    else if w.gyms[gym].archived then (w, Conflict)
    else if head !in w.users then (w, NotFound)
    else if !IsActiveHead(w.users, head) then (w, Conflict)
    else if head in w.rows.gymHeads then (w, if w.rows.gymHeads[head].gym == gym then Done else Conflict)
    else (w.(rows := WithGymHead(w.rows, GymHead(head, gym, "", now), REASON_GYM_ADD)), Done)
  }

  function CreateGym(w: World, gym: Id, name: string, owner: Id): (World, Outcome) {
    if ValidName(name).None? || owner == "" then (w, BadRequest)
    else if owner !in w.users then (w, NotFound)
    else if !IsActiveRole(w.users, owner, GymOwner) then (w, BadRequest)
    else if gym in w.gyms then (w, Conflict)
    else (w.(gyms := w.gyms[gym := Gym(owner, false, ValidName(name).value)]), Done)
  }

  function RenameGym(w: World, owner: Id, gym: Id, name: string): (World, Outcome) {
    if !IsActiveRole(w.users, owner, GymOwner) then (w, Forbidden)
    else if !OwnsGym(w, owner, gym) then (w, NotFound)
    else if ValidName(name).None? then (w, BadRequest)
    else if w.gyms[gym].archived then (w, Conflict)
    else (w.(gyms := w.gyms[gym := w.gyms[gym].(name := ValidName(name).value)]), Done)
  }

  const STATUS_ACTIVE := "active"
  const STATUS_ARCHIVED := "archived"

  /** The checks of an update, in the order they are made; Done lets it through. */
  function UpdateCheck(w: World, gym: Id, u: GymUpdate): Outcome {
    if u == GymUpdate(None, None, None) then BadRequest
    else if gym !in w.gyms then NotFound
    else if u.name.Some? && ValidName(u.name.value).None? then BadRequest
    else if u.status.Some? && u.status.value != STATUS_ACTIVE && u.status.value != STATUS_ARCHIVED then BadRequest
    else if u.owner.Some? && u.owner.value != w.gyms[gym].owner && u.owner.value !in w.users then NotFound
    else if u.owner.Some? && u.owner.value != w.gyms[gym].owner && !IsActiveRole(w.users, u.owner.value, GymOwner)
      then BadRequest
    else Done
  }

  function UpdatedGym(g: Gym, u: GymUpdate): Gym {
    Gym(u.owner.GetOr(g.owner), if u.status.Some? then u.status.value == STATUS_ARCHIVED else g.archived,
        if u.name.Some? then ValidName(u.name.value).GetOr(g.name) else g.name)
  }

  /** Heads out, pending invitations revoked. Archiving does this for a gym that is archived already, too. */
  function Emptied(w: World, gym: Id, now: Time): World {
    w.(rows := WithoutGym(w.rows, gym, REASON_GYM_ARCHIVE, now), invitations := WithRevoked(w.invitations, gym))
  }

  function UpdateGym(w: World, gym: Id, u: GymUpdate, now: Time): (World, Outcome) {
    var check := UpdateCheck(w, gym, u);
    if !check.Done? then (w, check)
    else
      var w1 := w.(gyms := w.gyms[gym := UpdatedGym(w.gyms[gym], u)]);
      (if u.status == Some(STATUS_ARCHIVED) then Emptied(w1, gym, now) else w1, Done)
  }

  // ---- accounts ----

  function CreateUser(w: World, id: Id, role: Role, email: string): (World, Outcome) {
    if id in w.users || id == "" then (w, Conflict)
    else (w.(users := w.users[id := User(role, true, false, email)]), Done)
  }

  function SetActive(w: World, id: Id, active: bool): (World, Outcome) {
    if id !in w.users then (w, NotFound) else (w.(users := w.users[id := w.users[id].(active := active)]), Done)
  }

  function DeleteUser(w: World, id: Id, now: Time): (World, Outcome) {
    if id !in w.users then (w, NotFound)
    else (w.(users := w.users - {id}, rows := WithoutAny(w.rows, id, REASON_ACCOUNT_GONE, now)), Done)
  }

  // ---- sequences of operations ----

  datatype Op =
    | OpPromote(coach: Id)
    | OpDemote(head: Id)
    | OpAssign(coach: Id, head: Id)
    | OpUnassign(coach: Id)
    | OpRemoveMyCoach(caller: Id, coach: Id)
    | OpInvite(owner: Id, gym: Id, address: Option<string>, id: Id, ttl: int, perDay: nat)
    | OpRevoke(owner: Id, gym: Id, id: Id)
    | OpDecline(caller: Id, id: Id)
    | OpAccept(caller: Id, id: Id)
    | OpLeaveGym(caller: Id)
    | OpOwnerRemoveHead(owner: Id, gym: Id, head: Id)
    | OpAdminRemoveHead(gym: Id, head: Id)
    | OpAdminAddHead(gym: Id, head: Id)
    | OpCreateGym(gym: Id, name: string, owner: Id)
    | OpRenameGym(owner: Id, gym: Id, name: string)
    | OpUpdateGym(gym: Id, update: GymUpdate)
    | OpCreateUser(user: Id, role: Role, email: string)
    | OpSetActive(user: Id, active: bool)
    | OpDeleteUser(user: Id)

  ghost function Apply(w: World, op: Op, now: Time): (World, Outcome) {
    match op
    case OpPromote(coach) => Promote(w, coach)
    case OpDemote(head) => Demote(w, head, now)
    case OpAssign(coach, head) => Assign(w, coach, head, now)
    case OpUnassign(coach) => Unassign(w, coach, now)
    case OpRemoveMyCoach(caller, coach) => RemoveMyCoach(w, caller, coach, now)
    case OpInvite(owner, gym, email, id, ttl, perDay) => Invite(w, owner, gym, email, id, ttl, perDay, now)
    case OpRevoke(owner, gym, id) => Revoke(w, owner, gym, id)
    case OpDecline(caller, id) => Decline(w, caller, id, now)
    case OpAccept(caller, id) => Accept(w, caller, id, now)
    case OpLeaveGym(caller) => LeaveGym(w, caller, now)
    case OpOwnerRemoveHead(owner, gym, head) => OwnerRemoveHead(w, owner, gym, head, now)
    case OpAdminRemoveHead(gym, head) => AdminRemoveHead(w, gym, head, now)
    case OpAdminAddHead(gym, head) => AdminAddHead(w, gym, head, now)
    case OpCreateGym(gym, name, owner) => CreateGym(w, gym, name, owner)
    case OpRenameGym(owner, gym, name) => RenameGym(w, owner, gym, name)
    case OpUpdateGym(gym, update) => UpdateGym(w, gym, update, now)
    case OpCreateUser(user, role, email) => CreateUser(w, user, role, email)
    case OpSetActive(user, active) => SetActive(w, user, active)
    case OpDeleteUser(user) => DeleteUser(w, user, now)
  }

  datatype Timed = Timed(op: Op, at: Time)

  ghost function Run(w: World, ops: seq<Timed>): World
    decreases |ops|
  {
    if ops == [] then w else Run(Apply(w, ops[0].op, ops[0].at).0, ops[1..])
  }

  predicate Ordered(now: Time, ops: seq<Timed>)
    decreases |ops|
  {
    ops == [] || (now <= ops[0].at && Ordered(ops[0].at, ops[1..]))
  }

  // ---- the flat hierarchy ----

  predicate MembersFlat(users: map<Id, User>, members: map<Id, TeamMember>) {
    forall c :: c in members ==> c in users && !users[c].headFlag && IsHead(users, members[c].head)
  }

  predicate GymsFlat(w: World) {
    && (forall h :: h in w.rows.gymHeads ==>
          IsHead(w.users, h) && w.rows.gymHeads[h].gym in w.gyms && !w.gyms[w.rows.gymHeads[h].gym].archived)
    && (forall i :: i in w.invitations && w.invitations[i].status.Pending? ==>
          w.invitations[i].gym in w.gyms && !w.gyms[w.invitations[i].gym].archived)
  }

  /** No two pending invitations of one gym and email. */
  predicate PendingUnique(invs: map<Id, Invitation>) {
    forall i, j :: i in invs && j in invs && i != j && invs[i].status.Pending? && invs[j].status.Pending?
                   && invs[i].gym == invs[j].gym
                   ==> invs[i].email != invs[j].email
  }

  /** A gym row that came from an invitation carries one its head coach accepted for that gym. */
  predicate RowsCarryAccepted(w: World) {
    forall h :: h in w.rows.gymHeads && w.rows.gymHeads[h].invitation != "" ==>
      var i := w.rows.gymHeads[h].invitation;
      i in w.invitations && w.invitations[i].status.Accepted? && w.invitations[i].invitee == h
        && w.invitations[i].gym == w.rows.gymHeads[h].gym
  }

  ghost predicate Sound(w: World, now: Time) {
    && "" !in w.users
    && MembersFlat(w.users, w.rows.members) && GymsFlat(w) && PendingUnique(w.invitations) && RowsCarryAccepted(w)
    && InStep(w.rows, now)
  }
}
