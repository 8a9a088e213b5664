/** Team and gym membership rows with their dated history, and the repository operations on them. */
module Memberships {
  import opened Common
  import opened Periods

  const REASON_ASSIGN := "assign"
  const REASON_REASSIGN := "reassign"
  const REASON_UNASSIGN := "unassign"
  const REASON_DEMOTE := "demote"
  const REASON_ACCOUNT_GONE := "account_deleted"
  const REASON_REMOVED_BY_HEAD := "removed_by_head_coach"
  const REASON_GYM_ADD := "gym_add"
  const REASON_GYM_REMOVE := "gym_remove"
  const REASON_GYM_LEAVE := "gym_leave"
  const REASON_GYM_ARCHIVE := "gym_archive"

  datatype TeamMember = TeamMember(coach: Id, head: Id, assignedAt: Time)

  /** invitation is "" when an admin added the head coach. */
  datatype GymHead = GymHead(head: Id, gym: Id, invitation: Id, addedAt: Time)

  /** The three collections. The maps are the unique indexes on coach_id and on head_coach_id. */
  datatype Rows = Rows(members: map<Id, TeamMember>, gymHeads: map<Id, GymHead>, periods: seq<Period>)

  function HeadOf(members: map<Id, TeamMember>, coach: Id): Option<Id> {
    if coach in members then Some(members[coach].head) else None
  }

  function GymOf(gymHeads: map<Id, GymHead>, head: Id): Option<Id> {
    if head in gymHeads then Some(gymHeads[head].gym) else None
  }

  /** The open periods say exactly what the rows say. */
  ghost predicate Mirror(r: Rows) {
    && (forall c :: OpenParent(r.periods, TeamKind, c) == HeadOf(r.members, c))
    && (forall h :: OpenParent(r.periods, GymKind, h) == GymOf(r.gymHeads, h))
  }

  // ---- the operations as functions of the collections ----

  function UpsertReason(members: map<Id, TeamMember>, m: TeamMember): string {
    if m.coach in members && members[m.coach].head != m.head then REASON_REASSIGN else REASON_ASSIGN
  }

  ghost function Upserted(r: Rows, m: TeamMember, now: Time): Rows {
    var at := if m.assignedAt == ZERO_TIME then now else m.assignedAt;
    Rows(r.members[m.coach := m], r.gymHeads,
         Opened(r.periods, TeamKind, m.coach, m.head, UpsertReason(r.members, m), at))
  }

  function WithoutCoach(r: Rows, coach: Id, reason: string, now: Time): Rows {
    if coach in r.members then Rows(r.members - {coach}, r.gymHeads, Closed(r.periods, TeamKind, coach, now, reason))
    else r
  }

  function MembersNotUnder(members: map<Id, TeamMember>, head: Id): map<Id, TeamMember> {
    map c | c in members && members[c].head != head :: members[c]
  }

  function WithoutTeam(r: Rows, head: Id, reason: string, now: Time): Rows {
    Rows(MembersNotUnder(r.members, head), r.gymHeads, ClosedByParent(r.periods, TeamKind, head, now, reason))
  }

  function WithoutGymHead(r: Rows, head: Id, reason: string, now: Time): Rows {
    if head in r.gymHeads then Rows(r.members, r.gymHeads - {head}, Closed(r.periods, GymKind, head, now, reason))
    else r
  }

  function WithoutAny(r: Rows, user: Id, reason: string, now: Time): Rows {
    var closedOwn := Closed(r.periods, TeamKind, user, now, reason);
    var r1 := Rows(MembersNotUnder(r.members - {user}, user), r.gymHeads,
                   ClosedByParent(closedOwn, TeamKind, user, now, reason));
    WithoutGymHead(r1, user, reason, now)
  }

  ghost function WithGymHead(r: Rows, h: GymHead, reason: string): Rows {
    Rows(r.members, r.gymHeads[h.head := h], Opened(r.periods, GymKind, h.head, h.gym, reason, h.addedAt))
  }

  function WithoutGym(r: Rows, gym: Id, reason: string, now: Time): Rows {
    Rows(r.members, map h | h in r.gymHeads && r.gymHeads[h].gym != gym :: r.gymHeads[h],
         ClosedByParent(r.periods, GymKind, gym, now, reason))
  }

  // ---- every operation keeps rows and history in step ----

  ghost predicate InStep(r: Rows, now: Time) {
    HistoryOk(r.periods, now) && Mirror(r)
  }

  lemma UpsertInStep(r: Rows, m: TeamMember, now: Time)
    requires InStep(r, now) && (m.assignedAt == now || m.assignedAt == ZERO_TIME)
    ensures InStep(Upserted(r, m, now), now)
  {
    var reason := UpsertReason(r.members, m);
    HistoryMeansDisjoint(r.periods, now);
    OpenedKeepsHistory(r.periods, TeamKind, m.coach, m.head, reason, now);
    OpenedMoves(r.periods, TeamKind, m.coach, m.head, reason, now);
  }

  lemma WithoutCoachInStep(r: Rows, coach: Id, reason: string, now: Time)
    requires InStep(r, now)
    ensures InStep(WithoutCoach(r, coach, reason, now), now)
  {
    HistoryMeansDisjoint(r.periods, now);
    ClosedKeepsHistory(r.periods, TeamKind, coach, now, reason);
    ClosedMoves(r.periods, TeamKind, coach, now, reason);
  }

  lemma WithoutTeamInStep(r: Rows, head: Id, reason: string, now: Time)
    requires InStep(r, now)
    ensures InStep(WithoutTeam(r, head, reason, now), now)
  {
    HistoryMeansDisjoint(r.periods, now);
    ClosedByParentKeepsHistory(r.periods, TeamKind, head, now, reason);
    ClosedByParentMoves(r.periods, TeamKind, head, now, reason);
  }

  lemma WithoutGymHeadInStep(r: Rows, head: Id, reason: string, now: Time)
    requires InStep(r, now)
    ensures InStep(WithoutGymHead(r, head, reason, now), now)
  {
    HistoryMeansDisjoint(r.periods, now);
    ClosedKeepsHistory(r.periods, GymKind, head, now, reason);
    ClosedMoves(r.periods, GymKind, head, now, reason);
  }

  lemma WithoutAnyInStep(r: Rows, user: Id, reason: string, now: Time)
    requires InStep(r, now)
    ensures InStep(WithoutAny(r, user, reason, now), now)
  {
    HistoryMeansDisjoint(r.periods, now);
    ClosedKeepsHistory(r.periods, TeamKind, user, now, reason);
    ClosedMoves(r.periods, TeamKind, user, now, reason);
    var r1 := Rows(r.members - {user}, r.gymHeads, Closed(r.periods, TeamKind, user, now, reason));
    assert InStep(r1, now);
    WithoutTeamInStep(r1, user, reason, now);
    WithoutGymHeadInStep(WithoutTeam(r1, user, reason, now), user, reason, now);
  }

  lemma WithGymHeadInStep(r: Rows, h: GymHead, reason: string)
    requires InStep(r, h.addedAt)
    ensures InStep(WithGymHead(r, h, reason), h.addedAt)
  {
    HistoryMeansDisjoint(r.periods, h.addedAt);
    OpenedKeepsHistory(r.periods, GymKind, h.head, h.gym, reason, h.addedAt);
    OpenedMoves(r.periods, GymKind, h.head, h.gym, reason, h.addedAt);
  }

  lemma WithoutGymInStep(r: Rows, gym: Id, reason: string, now: Time)
    requires InStep(r, now)
    ensures InStep(WithoutGym(r, gym, reason, now), now)
  {
    HistoryMeansDisjoint(r.periods, now);
    ClosedByParentKeepsHistory(r.periods, GymKind, gym, now, reason);
    ClosedByParentMoves(r.periods, GymKind, gym, now, reason);
  }
}
