/**
 The step machines and the complete operations are about the same calls: a call that runs alone in a step
 machine ends where the operation of Hierarchy does.
 */
module ProtocolLinks {
  import opened Common
  import opened Memberships
  import H = Hierarchy
  import T = TeamProtocol
  import A = AcceptProtocol

  // ---- team calls ----

  /** The world as the team steps see it. */
  function Seen(w: H.World): T.State {
    T.State(map id | id in w.users :: T.User(w.users[id].role.Coach?, w.users[id].active, w.users[id].headFlag),
            map c | c in w.rows.members :: w.rows.members[c].head, map[])
  }

  /** Call 0 takes n steps and nobody else moves. */
  function Drive(s: T.State, n: nat): T.State
    decreases n
  {
    if n == 0 then s else Drive(T.Step(s, T.Advance(0)), n - 1)
  }

  /** Call c, run alone from w for at most five steps. */
  function Solo(w: H.World, c: T.Call): T.State {
    Drive(T.Step(Seen(w), T.Spawn(0, c)), 5)
  }

  lemma {:induction false} DoneStays(s: T.State, n: nat)
    requires 0 !in s.calls
    ensures Drive(s, n) == s
  {
    if n > 0 {
      DoneStays(s, n - 1);
    }
  }

  /** The world w with call 0 at c. */
  function With(s: T.State, c: T.Call): T.State {
    s.(calls := map[0 := c])
  }

  predicate Idle(s: T.State) {
    s.calls == map[]
  }

  /** One step, then the rest. */
  lemma OneStep(s: T.State, c: T.Call, s': T.State, n: nat)
    requires T.AdvanceCall(With(s, c), 0, c) == s' && n > 0
    ensures Drive(With(s, c), n) == Drive(s', n - 1)
  {
  }

  /** The last step. */
  lemma LastStep(s: T.State, c: T.Call, s': T.State, n: nat)
    requires T.AdvanceCall(With(s, c), 0, c) == s' && Idle(s') && n > 0
    ensures Drive(With(s, c), n) == s'
  {
    OneStep(s, c, s', n);
    DoneStays(s', n - 1);
  }

  lemma Begins(w: H.World, c: T.Call)
    requires T.IsStart(c)
    ensures Solo(w, c) == Drive(With(Seen(w), c), 5)
  {
    assert Seen(w).calls[0 := c] == map[0 := c];
  }

  lemma NoCallLeft(s: T.State, c: T.Call)
    requires Idle(s)
    ensures T.Done(With(s, c), 0) == s
    ensures forall c' :: T.Next(With(s, c), 0, c') == With(s, c')
  {
  }

  lemma FlagSeen(w: H.World, id: Id, flag: bool)
    requires id in w.users
    ensures Seen(w.(users := H.SetFlag(w.users, id, flag))) == Seen(w).(users := T.WithFlag(Seen(w).users, id, flag))
  {
  }

  lemma PromoteWrites(s: T.State, coach: Id, n: nat)
    requires Idle(s) && coach in s.users && coach !in s.rows && n >= 2
    ensures Drive(With(s, T.Promote(coach, T.SetFlag)), n) == s.(users := T.WithFlag(s.users, coach, true))
  {
    var flag, recheck := T.Promote(coach, T.SetFlag), T.Promote(coach, T.RecheckMember);
    var s' := s.(users := T.WithFlag(s.users, coach, true));
    OneStep(s, flag, With(s', recheck), n);
    NoCallLeft(s', recheck);
    LastStep(s', recheck, s', n - 1);
  }

  lemma PromoteAlone(w: H.World, coach: Id)
    ensures Solo(w, T.Promote(coach, T.LoadCandidate)) == Seen(H.Promote(w, coach).0)
  {
    var s := Seen(w);
    var load, check := T.Promote(coach, T.LoadCandidate), T.Promote(coach, T.CheckMember);
    Begins(w, load);
    NoCallLeft(s, load);
    NoCallLeft(s, check);
    if !(coach in w.users && w.users[coach].role.Coach? && w.users[coach].active && !w.users[coach].headFlag) {
      LastStep(s, load, s, 5);
    } else {
      OneStep(s, load, With(s, check), 5);
      if coach in w.rows.members {
        LastStep(s, check, s, 4);
      } else {
        OneStep(s, check, With(s, T.Promote(coach, T.SetFlag)), 4);
        PromoteWrites(s, coach, 3);
        FlagSeen(w, coach, true);
      }
    }
  }

  lemma CountedSeen(w: H.World, head: Id)
    ensures T.HasCountedMember(Seen(w), head) <==> H.HasCountedMember(w, head)
  {
    var s := Seen(w);
    assert forall c :: c in s.rows && s.rows[c] == head && c in s.users <==>
             c in w.rows.members && w.rows.members[c].head == head && c in w.users;
  }

  lemma DemoteSeen(w: H.World, head: Id, now: Time)
    requires H.Demote(w, head, now).1.Done?
    ensures var s := Seen(w); Seen(H.Demote(w, head, now).0)
                              == s.(users := T.WithFlag(s.users, head, false), rows := T.DropHead(s.rows, head))
  {
    FlagSeen(w, head, false);
    var w1, w2 := w.(users := H.SetFlag(w.users, head, false)), H.Demote(w, head, now).0;
    assert w2.users == w1.users && w2.rows.members == MembersNotUnder(w.rows.members, head);
    assert Seen(w2).rows == T.DropHead(Seen(w).rows, head);
  }

  lemma DemoteWrites(s: T.State, head: Id, n: nat)
    requires Idle(s) && head in s.users && n >= 3
    ensures Drive(With(s, T.Demote(head, T.CutAccess)), n)
            == s.(users := T.WithFlag(s.users, head, false), rows := T.DropHead(s.rows, head))
  {
    var cut, list, release := T.Demote(head, T.CutAccess), T.Demote(head, T.ListTeam), T.Demote(head, T.ReleaseTeam);
    var s1 := s.(users := T.WithFlag(s.users, head, false));
    OneStep(s, cut, With(s1, list), n);
    OneStep(s1, list, With(s1, release), n - 1);
    var s2 := s1.(rows := T.DropHead(s1.rows, head));
    NoCallLeft(s2, release);
    LastStep(s1, release, s2, n - 2);
  }

  lemma AssignSeen(w: H.World, coach: Id, head: Id, now: Time)
    requires H.Assign(w, coach, head, now).1.Done?
    ensures var s := Seen(w); Seen(H.Assign(w, coach, head, now).0) == s.(rows := s.rows[coach := head])
  {
    assert H.Assign(w, coach, head, now).0.rows.members == w.rows.members[coach := TeamMember(coach, head, now)];
  }

  lemma AssignWrites(s: T.State, coach: Id, head: Id, n: nat)
    requires Idle(s) && T.IsHead(s, head) && s.users[head].active && n >= 2
    ensures Drive(With(s, T.Assign(coach, head, T.Upsert)), n) == s.(rows := s.rows[coach := head])
  {
    var upsert, recheck := T.Assign(coach, head, T.Upsert), T.Assign(coach, head, T.Recheck);
    var s' := s.(rows := s.rows[coach := head]);
    OneStep(s, upsert, With(s', recheck), n);
    NoCallLeft(s', recheck);
    LastStep(s', recheck, s', n - 1);
  }

  lemma DeleteUserSeen(w: H.World, user: Id, now: Time)
    requires user in w.users
    ensures var s := Seen(w);
            Seen(H.DeleteUser(w, user, now).0)
              == s.(users := s.users - {user}, rows := T.DropHead(T.DropCoach(s.rows, user), user))
  {
    var w' := H.DeleteUser(w, user, now).0;
    assert w'.rows.members == MembersNotUnder(w.rows.members - {user}, user);
    assert Seen(w').rows == T.DropHead(T.DropCoach(Seen(w).rows, user), user);
    assert Seen(w').users == Seen(w).users - {user};
  }

  lemma DemoteAlone(w: H.World, head: Id, now: Time)
    ensures Solo(w, T.Demote(head, T.LoadTarget)) == Seen(H.Demote(w, head, now).0)
  {
    var s := Seen(w);
    var load, cut := T.Demote(head, T.LoadTarget), T.Demote(head, T.CutAccess);
    Begins(w, load);
    NoCallLeft(s, load);
    CountedSeen(w, head);
    assert T.HasCountedMember(With(s, load), head) <==> T.HasCountedMember(s, head) by {
      assert With(s, load).rows == s.rows && With(s, load).users == s.users;
    }
    if !(head in w.users && (w.users[head].headFlag || H.HasCountedMember(w, head))) {
      LastStep(s, load, s, 5);
    } else {
      OneStep(s, load, With(s, cut), 5);
      DemoteWrites(s, head, 4);
      DemoteSeen(w, head, now);
    }
  }

  lemma AssignAlone(w: H.World, coach: Id, head: Id, now: Time)
    ensures Solo(w, T.Assign(coach, head, T.LoadCoach)) == Seen(H.Assign(w, coach, head, now).0)
  {
    var s := Seen(w);
    var load, loadHead := T.Assign(coach, head, T.LoadCoach), T.Assign(coach, head, T.LoadHead);
    Begins(w, load);
    NoCallLeft(s, load);
    NoCallLeft(s, loadHead);
    if coach == "" || head == "" || coach == head
       || !(coach in w.users && w.users[coach].role.Coach? && !w.users[coach].headFlag) {
      LastStep(s, load, s, 5);
    } else {
      OneStep(s, load, With(s, loadHead), 5);
      if !H.IsActiveHead(w.users, head) {
        LastStep(s, loadHead, s, 4);
      } else {
        OneStep(s, loadHead, With(s, T.Assign(coach, head, T.Upsert)), 4);
        AssignWrites(s, coach, head, 3);
        AssignSeen(w, coach, head, now);
      }
    }
  }

  lemma UnassignAlone(w: H.World, coach: Id, now: Time)
    ensures Solo(w, T.Unassign(coach, false)) == Seen(H.Unassign(w, coach, now).0)
  {
    var s := Seen(w);
    var find, drop := T.Unassign(coach, false), T.Unassign(coach, true);
    Begins(w, find);
    NoCallLeft(s, find);
    if coach !in w.rows.members {
      LastStep(s, find, s, 5);
    } else {
      OneStep(s, find, With(s, drop), 5);
      var s' := s.(rows := T.DropCoach(s.rows, coach));
      NoCallLeft(s', drop);
      LastStep(s, drop, s', 4);
      assert Seen(H.Unassign(w, coach, now).0).rows == s'.rows;
    }
  }

  lemma RemoveMyCoachAlone(w: H.World, caller: Id, coach: Id, now: Time)
    ensures Solo(w, T.RemoveMyCoach(caller, coach, T.RequireHead)) == Seen(H.RemoveMyCoach(w, caller, coach, now).0)
  {
    var s := Seen(w);
    var require', find, drop := T.RemoveMyCoach(caller, coach, T.RequireHead),
        T.RemoveMyCoach(caller, coach, T.GetMembership), T.RemoveMyCoach(caller, coach, T.DeleteRow);
    Begins(w, require');
    NoCallLeft(s, require');
    NoCallLeft(s, find);
    if !H.IsActiveHead(w.users, caller) {
      LastStep(s, require', s, 5);
    } else {
      OneStep(s, require', With(s, find), 5);
      if HeadOf(w.rows.members, coach) != Some(caller) {
        LastStep(s, find, s, 4);
      } else {
        OneStep(s, find, With(s, drop), 4);
        var s' := s.(rows := T.DropCoach(s.rows, coach));
        NoCallLeft(s', drop);
        LastStep(s, drop, s', 3);
        assert Seen(H.RemoveMyCoach(w, caller, coach, now).0).rows == s'.rows;
      }
    }
  }

  lemma DeleteUserAlone(w: H.World, user: Id, now: Time)
    ensures Solo(w, T.DeleteUser(user, false)) == Seen(H.DeleteUser(w, user, now).0)
  {
    var s := Seen(w);
    var remove, release := T.DeleteUser(user, false), T.DeleteUser(user, true);
    Begins(w, remove);
    NoCallLeft(s, remove);
    if user !in w.users {
      LastStep(s, remove, s, 5);
    } else {
      var s1 := s.(users := s.users - {user});
      OneStep(s, remove, With(s1, release), 5);
      var s2 := s1.(rows := T.DropHead(T.DropCoach(s1.rows, user), user));
      NoCallLeft(s2, release);
      LastStep(s1, release, s2, 4);
      DeleteUserSeen(w, user, now);
    }
  }

  // ---- second looks ----

  /** Call who takes n steps. */
  function Steps(s: T.State, who: nat, n: nat): T.State
    decreases n
  {
    if n == 0 then s else Steps(T.Step(s, T.Advance(who)), who, n - 1)
  }

  /**
   An assign that looks at the head again: an active head coach keeps the row; one that is gone, inactive or no
   head coach any more loses it in the next step.
   */
  lemma AssignLooksAgain(s: T.State, who: nat, coach: Id, head: Id)
    requires who in s.calls && s.calls[who] == T.Assign(coach, head, T.Recheck)
    ensures if head in s.users && s.users[head].headFlag && s.users[head].active
            then Steps(s, who, 1) == s.(calls := s.calls - {who})
            else Steps(s, who, 2) == s.(calls := s.calls - {who}, rows := s.rows - {coach})
  {
    var s1 := T.Step(s, T.Advance(who));
    assert Steps(s, who, 2) == Steps(s1, who, 1) == T.Step(s1, T.Advance(who));
  }

  /** A promote that finds its candidate in a team by now takes the flag back in the next step. */
  lemma PromoteLooksAgain(s: T.State, who: nat, coach: Id)
    requires who in s.calls && s.calls[who] == T.Promote(coach, T.RecheckMember) && coach in s.users
    ensures if coach !in s.rows then Steps(s, who, 1) == s.(calls := s.calls - {who})
            else Steps(s, who, 2) == s.(calls := s.calls - {who},
                                        users := s.users[coach := s.users[coach].(headFlag := false)])
  {
    var s1 := T.Step(s, T.Advance(who));
    assert Steps(s, who, 2) == Steps(s1, who, 1) == T.Step(s1, T.Advance(who));
  }

  /** A promote or a demotion of an account that has gone since it was loaded ends without a write. */
  lemma GoneIsLeftAlone(s: T.State, who: nat, id: Id)
    requires who in s.calls && s.calls[who] in {T.Promote(id, T.SetFlag), T.Demote(id, T.CutAccess)} && id !in s.users
    ensures T.Step(s, T.Advance(who)) == s.(calls := s.calls - {who})
  {
  }

  // ---- accepts ----

  /** The world as the steps of an accept see it. */
  function SeenByAccept(w: H.World): A.State {
    A.State(w.users.Keys, w.invitations, (set h | h in w.users && w.users[h].headFlag), w.rows.members.Keys,
            (set g | g in w.gyms && !w.gyms[g].archived),
            map h | h in w.rows.gymHeads :: w.rows.gymHeads[h].invitation, map[], map[], {}, {})
  }

  /** The accept is call 0. */
  function Advance(s: A.State, now: Time): A.State {
    A.Step(s, A.Advance(0, now))
  }

  function DriveAccept(s: A.State, now: Time, n: nat): A.State
    decreases n
  {
    if n == 0 then s else DriveAccept(Advance(s, now), now, n - 1)
  }

  /** Store contents, without the calls. */
  predicate SameStore(s: A.State, s': A.State) {
    && s.accounts == s'.accounts && s.invitations == s'.invitations && s.heads == s'.heads && s.rows == s'.rows
    && s.members == s'.members && s.activeGyms == s'.activeGyms
  }

  /** The caller's call at pc, begun in s0. */
  predicate Stands(s: A.State, s0: A.State, caller: Id, id: Id, pc: A.Pc) {
    s.calls == map[0 := A.Call(caller, id, caller in s0.heads, A.RowOf(s0, caller), pc)]
  }

  predicate Ended(s: A.State, joined: bool) {
    s.calls == map[] && 0 in s.endings && s.endings[0].joined == joined
  }

  lemma {:induction false} EndedStays(s: A.State, now: Time, n: nat)
    requires s.calls == map[]
    ensures DriveAccept(s, now, n) == s
    decreases n
  {
    if n > 0 {
      EndedStays(s, now, n - 1);
    }
  }

  /** What the one call in flight does next. */
  lemma StandingStep(s: A.State, s0: A.State, caller: Id, id: Id, pc: A.Pc, now: Time)
    requires Stands(s, s0, caller, id, pc)
    ensures var s', e := Advance(s, now), A.EffectOf(s, s.calls[0], now);
            && SameStore(s', A.Written(s, caller, id, e.write))
            && if e.Goes? then Stands(s', s0, caller, id, e.pc) else Ended(s', e.joined)
  {
    var c, e := s.calls[0], A.EffectOf(s, s.calls[0], now);
    assert e.Goes? ==> s.calls[0 := c.(pc := e.pc)] == map[0 := c.(pc := e.pc)];
    assert s.calls - {0} == map[];
    A.StepTakes(s, 0, now);
  }

  lemma ReadsInvitation(s: A.State, s0: A.State, caller: Id, id: Id, now: Time)
    requires Stands(s, s0, caller, id, A.Load) && SameStore(s, s0) && id in s.invitations
    ensures var s' := Advance(s, now);
            if !s.invitations[id].status.Pending? then Ended(s', false) && SameStore(s', s0)
            else if s.invitations[id].expiresAt <= now
            then Ended(s', false) && SameStore(s', s0.(invitations := A.Moved(s0.invitations, id, H.Expired, "")))
            else Stands(s', s0, caller, id, A.CheckMember) && SameStore(s', s0)
  {
    StandingStep(s, s0, caller, id, A.Load, now);
  }

  lemma Rechecks(s: A.State, s0: A.State, caller: Id, id: Id, now: Time)
    requires Stands(s, s0, caller, id, A.RecheckMember) && caller !in s.members
    ensures var s' := Advance(s, now); Stands(s', s0, caller, id, A.AddRow) && SameStore(s', s)
  {
    StandingStep(s, s0, caller, id, A.RecheckMember, now);
  }

  /** The two steps that raise the flag of a caller who was no head coach. */
  lemma AcceptFlags(s: A.State, s0: A.State, caller: Id, id: Id, now: Time)
    requires Stands(s, s0, caller, id, A.SetFlag) && SameStore(s, s0) && caller !in s0.members && caller in s0.accounts
    ensures var s' := Advance(Advance(s, now), now);
            Stands(s', s0, caller, id, A.AddRow) && SameStore(s', s0.(heads := s0.heads + {caller}))
  {
    Rechecks(Advance(s, now), s0, caller, id, now);
  }

  /** The row and the answer. */
  lemma AcceptJoins(s: A.State, s0: A.State, caller: Id, id: Id, now: Time)
    requires Stands(s, s0, caller, id, A.AddRow) && caller !in s.rows && id in s.invitations
             && s.invitations[id].status.Pending?
    ensures var s' := Advance(Advance(s, now), now);
            Ended(s', true) && SameStore(s',
                                         s.(rows := s.rows[caller := id],
                                            invitations := A.Moved(s.invitations, id, H.Accepted, caller)))
  {
  }

  /** The call has ended as the operation does. */
  ghost predicate AsOperation(s: A.State, w: H.World, caller: Id, id: Id, now: Time) {
    var (w', res) := H.Accept(w, caller, id, now);
    Ended(s, res.Done?) && SameStore(s, SeenByAccept(w'))
  }

  predicate MayAccept(w: H.World, caller: Id, id: Id) {
    caller != "" && id != "" && H.IsActiveRole(w.users, caller, H.Coach) && H.IsAddressedTo(w, id, caller)
  }

  lemma RefusedAccept(w: H.World, s: A.State, caller: Id, id: Id, now: Time, n: nat)
    requires Ended(s, false) && SameStore(s, SeenByAccept(w)) && H.Accept(w, caller, id, now).0 == w
             && !H.Accept(w, caller, id, now).1.Done?
    ensures AsOperation(DriveAccept(s, now, n), w, caller, id, now)
  {
    EndedStays(s, now, n);
  }

  lemma JoinedSeen(w: H.World, caller: Id, id: Id, now: Time)
    requires H.Accept(w, caller, id, now).1.Done?
    ensures var s := SeenByAccept(w);
            SameStore(SeenByAccept(H.Accept(w, caller, id, now).0),
                      s.(heads := s.heads + {caller}, rows := s.rows[caller := id],
                         invitations := A.Moved(s.invitations, id, H.Accepted, caller)))
  {
    var w' := H.Accept(w, caller, id, now).0;
    assert SeenByAccept(w').rows == SeenByAccept(w).rows[caller := id];
    assert SeenByAccept(w').heads == SeenByAccept(w).heads + {caller};
  }

  /** Both steps, told by the world before. */
  lemma JoinsAsOperation(w: H.World, s: A.State, caller: Id, id: Id, now: Time)
    requires MayAccept(w, caller, id) && Stands(s, SeenByAccept(w), caller, id, A.AddRow)
    requires SameStore(s, SeenByAccept(w).(heads := SeenByAccept(w).heads + {caller}))
    requires H.Accept(w, caller, id, now).1.Done?
    ensures AsOperation(Advance(Advance(s, now), now), w, caller, id, now)
  {
    assert caller !in w.rows.gymHeads && w.invitations[id].status.Pending?;
    AcceptJoins(s, SeenByAccept(w), caller, id, now);
    JoinedSeen(w, caller, id, now);
  }

  lemma FromAddRow(w: H.World, s: A.State, caller: Id, id: Id, now: Time, n: nat)
    requires MayAccept(w, caller, id) && Stands(s, SeenByAccept(w), caller, id, A.AddRow) && n >= 2
    requires SameStore(s, SeenByAccept(w).(heads := SeenByAccept(w).heads + {caller}))
    requires H.Accept(w, caller, id, now).1.Done?
    ensures AsOperation(DriveAccept(s, now, n), w, caller, id, now)
  {
    JoinsAsOperation(w, s, caller, id, now);
    EndedStays(Advance(Advance(s, now), now), now, n - 2);
  }

  lemma FromActive(w: H.World, s: A.State, caller: Id, id: Id, now: Time, n: nat)
    requires MayAccept(w, caller, id) && Stands(s, SeenByAccept(w), caller, id, A.CheckActive)
             && SameStore(s, SeenByAccept(w)) && n >= 5
    requires w.invitations[id].status.Pending? && w.invitations[id].expiresAt > now && caller !in w.rows.members
             && caller !in w.rows.gymHeads
    ensures AsOperation(DriveAccept(s, now, n), w, caller, id, now)
  {
    var s0 := SeenByAccept(w);
    var s1 := Advance(s, now);
    if w.invitations[id].gym !in s0.activeGyms {
      RefusedAccept(w, s1, caller, id, now, n - 1);
    } else if caller in s0.heads {
      assert s0.heads + {caller} == s0.heads;
      FromAddRow(w, s1, caller, id, now, n - 1);
    } else {
      AcceptFlags(s1, s0, caller, id, now);
      var s2 := Advance(s1, now);
      FromAddRow(w, Advance(s2, now), caller, id, now, n - 3);
      assert DriveAccept(s1, now, n - 1) == DriveAccept(s2, now, n - 2);
    }
  }

  lemma FromGym(w: H.World, s: A.State, caller: Id, id: Id, now: Time, n: nat)
    requires MayAccept(w, caller, id) && Stands(s, SeenByAccept(w), caller, id, A.CheckGym)
             && SameStore(s, SeenByAccept(w)) && n >= 6
    requires w.invitations[id].status.Pending? && w.invitations[id].expiresAt > now && caller !in w.rows.members
    ensures AsOperation(DriveAccept(s, now, n), w, caller, id, now)
  {
    var s1 := Advance(s, now);
    if caller in w.rows.gymHeads {
      RefusedAccept(w, s1, caller, id, now, n - 1);
    } else {
      FromActive(w, s1, caller, id, now, n - 1);
    }
  }

  lemma FromMember(w: H.World, s: A.State, caller: Id, id: Id, now: Time, n: nat)
    requires MayAccept(w, caller, id) && Stands(s, SeenByAccept(w), caller, id, A.CheckMember)
             && SameStore(s, SeenByAccept(w)) && n >= 7
    requires w.invitations[id].status.Pending? && w.invitations[id].expiresAt > now
    ensures AsOperation(DriveAccept(s, now, n), w, caller, id, now)
  {
    var s1 := Advance(s, now);
    if caller in w.rows.members {
      RefusedAccept(w, s1, caller, id, now, n - 1);
    } else {
      FromGym(w, s1, caller, id, now, n - 1);
    }
  }

  /** An accept by an active coach of an invitation addressed to them, run alone, is the operation of Hierarchy. */
  lemma AcceptAlone(w: H.World, caller: Id, id: Id, now: Time)
    requires MayAccept(w, caller, id)
    ensures AsOperation(DriveAccept(A.Step(SeenByAccept(w), A.Begin(0, caller, id)), now, 8), w, caller, id, now)
  {
    var s0 := SeenByAccept(w);
    var s := A.Step(s0, A.Begin(0, caller, id));
    assert Stands(s, s0, caller, id, A.Load) && SameStore(s, s0);
    ReadsInvitation(s, s0, caller, id, now);
    var s1 := Advance(s, now);
    assert DriveAccept(s, now, 8) == DriveAccept(s1, now, 7);
    if !w.invitations[id].status.Pending? {
      RefusedAccept(w, s1, caller, id, now, 7);
    } else if w.invitations[id].expiresAt <= now {
      EndedStays(s1, now, 7);
      assert SameStore(SeenByAccept(H.Accept(w, caller, id, now).0),
                       s0.(invitations := A.Moved(s0.invitations, id, H.Expired, "")));
    } else {
      FromMember(w, s1, caller, id, now, 7);
    }
  }

  /**
   An accept that finds its caller's account gone ends without a write; one that finds its caller in a team after
   the flag was raised takes the flag back and ends without a seat.
   */
  lemma AcceptLooksAgain(s: A.State, who: nat, now: Time)
    requires who in s.calls
    ensures var x := s.calls[who].caller;
            var s1 := A.Step(s, A.Advance(who, now));
            var s2 := A.Step(s1, A.Advance(who, now));
            && (s.calls[who].pc.SetFlag? && x !in s.accounts ==>
                  SameStore(s1, s) && who !in s1.calls && who in s1.endings && !s1.endings[who].joined)
            && (s.calls[who].pc.RecheckMember? && x in s.members && !s.calls[who].wasHead ==>
                  SameStore(s2, s.(heads := s.heads - {x})) && who !in s2.calls && who in s2.endings
                  && !s2.endings[who].joined)
  {
    StepWrites(s, who, now);
    var s1 := A.Step(s, A.Advance(who, now));
    if who in s1.calls {
      StepWrites(s1, who, now);
    }
  }

  /** What a call does next, beside any others. */
  lemma StepWrites(s: A.State, who: nat, now: Time)
    requires who in s.calls
    ensures var c := s.calls[who];
            var s', e := A.Step(s, A.Advance(who, now)), A.EffectOf(s, c, now);
            && SameStore(s', A.Written(s, c.caller, c.inv, e.write))
            && if e.Goes? then who in s'.calls && s'.calls[who] == c.(pc := e.pc)
               else who !in s'.calls && who in s'.endings && s'.endings[who].joined == e.joined
  {
    A.StepTakes(s, who, now);
  }
}
