/**
 What goes on around an accept: whatever any other operation does to the store is a run of outside steps of
 AcceptProtocol, so its theorems hold beside every operation.
 */
module AcceptEnvironment {
  import opened Common
  import opened Memberships
  import opened ProtocolLinks
  import H = Hierarchy
  import A = AcceptProtocol

  predicate IsOthers(a: A.Action) {
    !a.Advance? && !a.Begin?
  }

  /** Others can bring the store from s to t. */
  ghost predicate Reach(s: A.State, t: A.State) {
    exists acts: seq<A.Action> :: (forall a :: a in acts ==> IsOthers(a)) && SameStore(A.Run(s, acts), t)
  }

  lemma {:induction false} RunOnStore(s: A.State, t: A.State, acts: seq<A.Action>)
    requires SameStore(s, t) && forall a :: a in acts ==> IsOthers(a)
    ensures SameStore(A.Run(s, acts), A.Run(t, acts))
    decreases |acts|
  {
    if acts != [] {
      StepOnStore(s, t, acts[0]);
      RunOnStore(A.Step(s, acts[0]), A.Step(t, acts[0]), acts[1..]);
    }
  }

  lemma StepOnStore(s: A.State, t: A.State, a: A.Action)
    requires SameStore(s, t) && IsOthers(a)
    ensures SameStore(A.Step(s, a), A.Step(t, a))
  {
    OutsideOnStore(s, t, a);
    StepIsOutside(s, a);
    StepIsOutside(t, a);
  }

  lemma OutsideOnStore(s: A.State, t: A.State, a: A.Action)
    requires SameStore(s, t) && IsOthers(a)
    ensures SameStore(A.Outside(s, a), A.Outside(t, a))
  {
    OutsideOnPeople(s, t, a);
    OutsideOnDocuments(s, t, a);
  }

  lemma OutsideOnPeople(s: A.State, t: A.State, a: A.Action)
    requires SameStore(s, t) && IsOthers(a)
    ensures var s', t' := A.Outside(s, a), A.Outside(t, a);
            s'.accounts == t'.accounts && s'.heads == t'.heads && s'.members == t'.members
            && s'.activeGyms == t'.activeGyms
  {
    if a.FlagChange? {
      assert A.Outside(s, a).heads == A.WithFlag(s.heads, a.head, a.up) == A.Outside(t, a).heads;
    } else if a.AccountChange? {
      assert A.Outside(s, a).heads == (if a.present then s.heads else s.heads - {a.id}) == A.Outside(t, a).heads;
    } else if a.TeamChange? {
      assert A.Outside(s, a).members == A.Outside(t, a).members;
    } else if a.GymChange? {
      assert A.Outside(s, a).activeGyms == A.Outside(t, a).activeGyms;
    }
  }

  lemma OutsideOnDocuments(s: A.State, t: A.State, a: A.Action)
    requires SameStore(s, t) && IsOthers(a)
    ensures var s', t' := A.Outside(s, a), A.Outside(t, a); s'.rows == t'.rows && s'.invitations == t'.invitations
  {
  }

  lemma StepIsOutside(s: A.State, a: A.Action)
    requires IsOthers(a)
    ensures SameStore(A.Step(s, a), A.Outside(s, a))
  {
  }

  lemma {:induction false} RunOn(s: A.State, acts: seq<A.Action>, more: seq<A.Action>)
    ensures A.Run(s, acts + more) == A.Run(A.Run(s, acts), more)
    decreases |acts|
  {
    if acts == [] {
      assert acts + more == more;
    } else {
      assert (acts + more)[1..] == acts[1..] + more;
      RunOn(A.Step(s, acts[0]), acts[1..], more);
    }
  }

  lemma ReachOn(s: A.State, t: A.State, u: A.State)
    requires Reach(s, t) && Reach(t, u)
    ensures Reach(s, u)
  {
    var xs: seq<A.Action> :| (forall a :: a in xs ==> IsOthers(a)) && SameStore(A.Run(s, xs), t);
    var ys: seq<A.Action> :| (forall a :: a in ys ==> IsOthers(a)) && SameStore(A.Run(t, ys), u);
    RunOn(s, xs, ys);
    RunOnStore(A.Run(s, xs), t, ys);
    assert forall a :: a in xs + ys ==> IsOthers(a);
  }

  lemma ReachBy(s: A.State, a: A.Action, t: A.State)
    requires IsOthers(a) && SameStore(A.Outside(s, a), t)
    ensures Reach(s, t)
  {
    var acts := [a];
    assert A.Run(s, acts) == A.Run(A.Step(s, a), []) == A.Step(s, a);
  }

  lemma ReachSame(s: A.State, t: A.State)
    requires SameStore(s, t)
    ensures Reach(s, t)
  {
    var acts: seq<A.Action> := [];
    assert A.Run(s, acts) == s;
  }

  // ---- one collection at a time ----

  /** What is in one of the two sets only. */
  function Between(xs: set<Id>, ys: set<Id>): set<Id> {
    (xs - ys) + (ys - xs)
  }

  function Toggled(xs: set<Id>, x: Id, isIn: bool): set<Id> {
    if isIn then xs + {x} else xs - {x}
  }

  lemma Closer(xs: set<Id>, ys: set<Id>, x: Id)
    requires x in Between(xs, ys)
    ensures Between(Toggled(xs, x, x in ys), ys) == Between(xs, ys) - {x}
    ensures |Between(Toggled(xs, x, x in ys), ys)| < |Between(xs, ys)|
  {
    assert Between(Toggled(xs, x, x in ys), ys) == Between(xs, ys) - {x};
  }

  lemma {:induction false} MembersReach(s: A.State, members: set<Id>)
    ensures Reach(s, s.(members := members))
    decreases |Between(s.members, members)|
  {
    if Between(s.members, members) == {} {
      assert s.members == members;
      ReachSame(s, s.(members := members));
    } else {
      var c :| c in Between(s.members, members);
      var t := s.(members := Toggled(s.members, c, c in members));
      ReachBy(s, A.TeamChange(c, c in members), t);
      Closer(s.members, members, c);
      MembersReach(t, members);
      ReachOn(s, t, s.(members := members));
    }
  }

  lemma {:induction false} HeadsReach(s: A.State, heads: set<Id>)
    ensures Reach(s, s.(heads := heads))
    decreases |Between(s.heads, heads)|
  {
    if Between(s.heads, heads) == {} {
      assert s.heads == heads;
      ReachSame(s, s.(heads := heads));
    } else {
      var h :| h in Between(s.heads, heads);
      var t := s.(heads := Toggled(s.heads, h, h in heads));
      ReachBy(s, A.FlagChange(h, h in heads), t);
      Closer(s.heads, heads, h);
      HeadsReach(t, heads);
      ReachOn(s, t, s.(heads := heads));
    }
  }

  lemma {:induction false} GymsReach(s: A.State, gyms: set<Id>)
    ensures Reach(s, s.(activeGyms := gyms))
    decreases |Between(s.activeGyms, gyms)|
  {
    if Between(s.activeGyms, gyms) == {} {
      assert s.activeGyms == gyms;
      ReachSame(s, s.(activeGyms := gyms));
    } else {
      var g :| g in Between(s.activeGyms, gyms);
      var t := s.(activeGyms := Toggled(s.activeGyms, g, g in gyms));
      ReachBy(s, A.GymChange(g, g in gyms), t);
      Closer(s.activeGyms, gyms, g);
      GymsReach(t, gyms);
      ReachOn(s, t, s.(activeGyms := gyms));
    }
  }

  lemma OneAccount(s: A.State, id: Id, present: bool)
    ensures Reach(s, s.(accounts := Toggled(s.accounts, id, present),
                        heads := if present then s.heads else s.heads - {id}))
  {
    if present {
      ReachBy(s, A.AccountChange(id, true), s.(accounts := s.accounts + {id}));
    } else {
      ReachBy(s, A.AccountChange(id, false), s.(accounts := s.accounts - {id}, heads := s.heads - {id}));
    }
  }

  /** The flag of an account that goes away is gone with it. */
  lemma {:induction false} AccountsReach(s: A.State, accounts: set<Id>)
    ensures Reach(s, s.(accounts := accounts, heads := s.heads - (s.accounts - accounts)))
    decreases |Between(s.accounts, accounts)|
  {
    var u := s.(accounts := accounts, heads := s.heads - (s.accounts - accounts));
    if Between(s.accounts, accounts) == {} {
      assert s.accounts == accounts && u.heads == s.heads;
      ReachSame(s, u);
    } else {
      var id :| id in Between(s.accounts, accounts);
      var t := s.(accounts := Toggled(s.accounts, id, id in accounts),
                  heads := if id in accounts then s.heads else s.heads - {id});
      OneAccount(s, id, id in accounts);
      Closer(s.accounts, accounts, id);
      AccountsReach(t, accounts);
      FlagsLeft(s.accounts, accounts, s.heads, id);
      ReachOn(s, t, u);
    }
  }

  lemma FlagsLeft(accounts: set<Id>, accounts': set<Id>, heads: set<Id>, id: Id)
    requires id in Between(accounts, accounts')
    ensures (if id in accounts' then heads else heads - {id}) - (Toggled(accounts, id, id in accounts') - accounts')
            == heads - (accounts - accounts')
  {
  }

  /** Seats go, and admins give new ones. */
  predicate SeatsFit(rows: map<Id, Id>, rows': map<Id, Id>) {
    forall h :: h in rows' ==> if h in rows then rows'[h] == rows[h] else rows'[h] == ""
  }

  lemma {:induction false} SeatsReach(s: A.State, rows: map<Id, Id>)
    requires SeatsFit(s.rows, rows)
    ensures Reach(s, s.(rows := rows))
    decreases |Between(s.rows.Keys, rows.Keys)|
  {
    if Between(s.rows.Keys, rows.Keys) == {} {
      assert s.rows.Keys == rows.Keys;
      assert s.rows == rows;
      ReachSame(s, s.(rows := rows));
    } else {
      var h :| h in Between(s.rows.Keys, rows.Keys);
      var t := s.(rows := NextRows(s.rows, h, h in rows));
      OneSeat(s, h, h in rows);
      Closer(s.rows.Keys, rows.Keys, h);
      SeatsReach(t, rows);
      ReachOn(s, t, s.(rows := rows));
    }
  }

  function NextRows(rows: map<Id, Id>, h: Id, isIn: bool): (next: map<Id, Id>)
    ensures next.Keys == Toggled(rows.Keys, h, isIn)
    ensures forall k :: k in next ==> next[k] == if k == h then "" else rows[k]
  {
    if isIn then rows[h := ""] else rows - {h}
  }

  lemma OneSeat(s: A.State, h: Id, isIn: bool)
    requires isIn ==> h !in s.rows
    ensures Reach(s, s.(rows := NextRows(s.rows, h, isIn)))
  {
    if isIn {
      ReachBy(s, A.AdminAdd(h), s.(rows := s.rows[h := ""]));
    } else {
      ReachBy(s, A.Release(h), s.(rows := s.rows - {h}));
    }
  }

  /** How others answer an invitation: a pending one is declined, revoked, or expired when it is overdue. */
  predicate MayBecome(inv: H.Invitation, inv': H.Invitation, now: Time) {
    inv' == inv || (inv.status == H.Pending && inv' == inv.(status := inv'.status, invitee := inv'.invitee)
                    && (inv'.invitee == "" ==> inv.invitee == "")
                    && (inv'.status in {H.Declined, H.Revoked}
                        || (inv'.status == H.Expired && inv'.invitee == inv.invitee && inv.expiresAt <= now)))
  }

  /** And new ones are sent. */
  predicate AnswersFit(invs: map<Id, H.Invitation>, invs': map<Id, H.Invitation>, now: Time) {
    && (forall i :: i in invs ==> i in invs' && MayBecome(invs[i], invs'[i], now))
    && (forall i :: i in invs' && i !in invs ==> invs'[i].status == H.Pending)
  }

  function Differing(invs: map<Id, H.Invitation>, invs': map<Id, H.Invitation>): set<Id> {
    set i | i in invs' && (i !in invs || invs'[i] != invs[i])
  }

  /** The step that brings one invitation there. */
  lemma OneAnswer(s: A.State, i: Id, inv: H.Invitation, now: Time)
    requires if i in s.invitations then MayBecome(s.invitations[i], inv, now) && inv != s.invitations[i]
             else inv.status == H.Pending
    ensures Reach(s, s.(invitations := s.invitations[i := inv]))
  {
    var t := s.(invitations := s.invitations[i := inv]);
    if i !in s.invitations {
      ReachBy(s, A.Send(i, inv), t);
    } else if inv.status == H.Expired {
      ReachBy(s, A.ExpireDue(i, now), t);
    } else {
      ReachBy(s, A.Respond(i, inv.status, inv.invitee), t);
    }
  }

  lemma {:induction false} AnswersReach(s: A.State, invs: map<Id, H.Invitation>, now: Time)
    requires AnswersFit(s.invitations, invs, now)
    ensures Reach(s, s.(invitations := invs))
    decreases |Differing(s.invitations, invs)|
  {
    var rest := Differing(s.invitations, invs);
    if rest == {} {
      assert forall i :: i in invs ==> i !in rest;
      assert s.invitations == invs;
      ReachSame(s, s.(invitations := invs));
    } else {
      var i :| i in rest;
      var t := s.(invitations := s.invitations[i := invs[i]]);
      OneAnswer(s, i, invs[i], now);
      assert Differing(t.invitations, invs) == rest - {i};
      AnswersReach(t, invs, now);
      ReachOn(s, t, s.(invitations := invs));
    }
  }

  // ---- every operation ----

  /** What an operation may do to seats and invitations for others to be able to do the same. */
  predicate Fits(w: H.World, w': H.World, now: Time) {
    && AnswersFit(w.invitations, w'.invitations, now)
    && (forall h :: h in w'.rows.gymHeads && w'.rows.gymHeads[h].invitation != "" ==>
          h in w.rows.gymHeads && w.rows.gymHeads[h].invitation == w'.rows.gymHeads[h].invitation)
    && (forall h :: h in w'.rows.gymHeads && h in w.rows.gymHeads ==>
          w.rows.gymHeads[h].invitation == w'.rows.gymHeads[h].invitation)
  }

  lemma FittingIsReached(w: H.World, w': H.World, now: Time)
    requires Fits(w, w', now)
    ensures Reach(SeenByAccept(w), SeenByAccept(w'))
  {
    var s, t := SeenByAccept(w), SeenByAccept(w');
    var s1 := s.(invitations := t.invitations);
    AnswersReach(s, t.invitations, now);
    var s2 := s1.(rows := t.rows);
    SeatsReach(s1, t.rows);
    ReachOn(s, s1, s2);
    var s3 := s2.(members := t.members);
    MembersReach(s2, t.members);
    ReachOn(s, s2, s3);
    var s4 := s3.(activeGyms := t.activeGyms);
    GymsReach(s3, t.activeGyms);
    ReachOn(s, s3, s4);
    var s5 := s4.(accounts := t.accounts, heads := s4.heads - (s4.accounts - t.accounts));
    AccountsReach(s4, t.accounts);
    ReachOn(s, s4, s5);
    HeadsReach(s5, t.heads);
    ReachOn(s, s5, s5.(heads := t.heads));
    assert SameStore(s5.(heads := t.heads), t);
    ReachSame(s5.(heads := t.heads), t);
    ReachOn(s, s5.(heads := t.heads), t);
  }

  lemma FewerSeatsFit(w: H.World, w': H.World, now: Time)
    requires w'.invitations == w.invitations
    requires forall h :: h in w'.rows.gymHeads ==>
               h in w.rows.gymHeads && w'.rows.gymHeads[h] == w.rows.gymHeads[h]
    ensures Fits(w, w', now)
  {
  }

  lemma TeamOpsFit(w: H.World, op: H.Op, now: Time)
    requires op.OpPromote? || op.OpAssign? || op.OpUnassign? || op.OpRemoveMyCoach?
    ensures Fits(w, H.Apply(w, op, now).0, now)
  {
    FewerSeatsFit(w, H.Apply(w, op, now).0, now);
  }

  lemma AccountOpsFit(w: H.World, op: H.Op, now: Time)
    requires op.OpDemote? || op.OpCreateUser? || op.OpSetActive? || op.OpDeleteUser?
    ensures Fits(w, H.Apply(w, op, now).0, now)
  {
    FewerSeatsFit(w, H.Apply(w, op, now).0, now);
  }

  lemma SeatOpsFit(w: H.World, op: H.Op, now: Time)
    requires op.OpLeaveGym? || op.OpOwnerRemoveHead? || op.OpAdminRemoveHead? || op.OpCreateGym? || op.OpRenameGym?
    ensures Fits(w, H.Apply(w, op, now).0, now)
  {
    FewerSeatsFit(w, H.Apply(w, op, now).0, now);
  }

  lemma AdminAddFits(w: H.World, gym: Id, head: Id, now: Time)
    ensures Fits(w, H.AdminAddHead(w, gym, head, now).0, now)
  {
  }

  lemma UpdateGymFits(w: H.World, gym: Id, u: H.GymUpdate, now: Time)
    ensures Fits(w, H.UpdateGym(w, gym, u, now).0, now)
  {
  }

  lemma InviteFits(w: H.World, owner: Id, gym: Id, email: Option<string>, id: Id, ttl: int, perDay: nat, now: Time)
    ensures Fits(w, H.Invite(w, owner, gym, email, id, ttl, perDay, now).0, now)
  {
  }

  lemma RevokeFits(w: H.World, owner: Id, gym: Id, id: Id, now: Time)
    ensures Fits(w, H.Revoke(w, owner, gym, id).0, now)
  {
  }

  lemma DeclineFits(w: H.World, caller: Id, id: Id, now: Time)
    ensures Fits(w, H.Decline(w, caller, id, now).0, now)
  {
  }

  /** Whatever any operation but an accept does, others can do in AcceptProtocol. */
  lemma EveryOperationIsOutside(w: H.World, op: H.Op, now: Time)
    requires !op.OpAccept?
    ensures Reach(SeenByAccept(w), SeenByAccept(H.Apply(w, op, now).0))
  {
    match op {
      case OpInvite(owner, gym, email, id, ttl, perDay) => InviteFits(w, owner, gym, email, id, ttl, perDay, now);
      case OpRevoke(owner, gym, id) => RevokeFits(w, owner, gym, id, now);
      case OpDecline(caller, id) => DeclineFits(w, caller, id, now);
      case OpAdminAddHead(gym, head) => AdminAddFits(w, gym, head, now);
      case OpUpdateGym(gym, u) => UpdateGymFits(w, gym, u, now);
      case _ => OtherOpsFit(w, op, now);
    }
    FittingIsReached(w, H.Apply(w, op, now).0, now);
  }

  lemma OtherOpsFit(w: H.World, op: H.Op, now: Time)
    requires !op.OpAccept? && !op.OpInvite? && !op.OpRevoke? && !op.OpDecline? && !op.OpAdminAddHead?
             && !op.OpUpdateGym?
    ensures Fits(w, H.Apply(w, op, now).0, now)
  {
    if op.OpPromote? || op.OpAssign? || op.OpUnassign? || op.OpRemoveMyCoach? {
      TeamOpsFit(w, op, now);
    } else if op.OpDemote? || op.OpCreateUser? || op.OpSetActive? || op.OpDeleteUser? {
      AccountOpsFit(w, op, now);
    } else {
      SeatOpsFit(w, op, now);
    }
  }

  lemma AnswersOnly(s: A.State, a: A.Action)
    requires IsOthers(a)
    ensures AnswersFit(s.invitations, A.Outside(s, a).invitations, if a.ExpireDue? then a.now else 0)
  {
  }

  /** And no more: others never accept, expire only what is overdue, and fill a seat only as admins do. */
  lemma OthersOnly(s: A.State, a: A.Action)
    requires IsOthers(a)
    ensures AnswersFit(s.invitations, A.Outside(s, a).invitations, if a.ExpireDue? then a.now else 0)
    ensures SeatsFit(s.rows, A.Outside(s, a).rows)
  {
    AnswersOnly(s, a);
  }
}
