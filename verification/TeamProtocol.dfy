/**
 The team operations interleaved at single store steps. A run is any sequence of actions: a call is
 spawned, a call in flight takes its next store step, an account is created or changes status.
 Store calls succeed.
 */
module TeamProtocol {
  import opened Common

  datatype User = User(isCoach: bool, active: bool, headFlag: bool)

  datatype AssignPc = LoadCoach | LoadHead | Upsert | Recheck | Undo
  datatype DemotePc = LoadTarget | CutAccess | ListTeam | ReleaseTeam
  datatype PromotePc = LoadCandidate | CheckMember | SetFlag | RecheckMember | RollbackFlag
  datatype RemovePc = RequireHead | GetMembership | DeleteRow

  /** A call in flight, with the step it takes next. */
  datatype Call =
    | Assign(coach: Id, head: Id, apc: AssignPc)
    | Demote(target: Id, dpc: DemotePc)
    | Promote(candidate: Id, ppc: PromotePc)
    | Unassign(coach: Id, found: bool)
    | RemoveMyCoach(caller: Id, coach: Id, rpc: RemovePc)
    | DeleteUser(user: Id, gone: bool)

  /** rows maps a member to its head coach: the unique index on coach_id. Finished calls leave the map. */
  datatype State = State(users: map<Id, User>, rows: map<Id, Id>, calls: map<nat, Call>)

  datatype Action =
    | Spawn(who: nat, call: Call)
    | Advance(who: nat)
    | CreateUser(id: Id, isCoach: bool)
    | SetActive(id: Id, active: bool)

  predicate IsStart(c: Call) {
    match c
    case Assign(coach, head, pc) => pc.LoadCoach?
    case Demote(_, pc) => pc.LoadTarget?
    case Promote(_, pc) => pc.LoadCandidate?
    case Unassign(_, found) => !found
    case RemoveMyCoach(_, _, pc) => pc.RequireHead?
    case DeleteUser(_, gone) => !gone
  }

  predicate IsHead(s: State, id: Id) {
    id in s.users && s.users[id].headFlag
  }

  function WithFlag(users: map<Id, User>, id: Id, flag: bool): map<Id, User> {
    if id in users then users[id := users[id].(headFlag := flag)] else users
  }

  function DropCoach(rows: map<Id, Id>, coach: Id): map<Id, Id> {
    rows - {coach}
  }

  function DropHead(rows: map<Id, Id>, head: Id): map<Id, Id> {
    map c | c in rows && rows[c] != head :: rows[c]
  }

  /** A team as the counting query sees it: members whose account is gone are not counted. */
  predicate HasCountedMember(s: State, head: Id) {
    exists c :: c in s.rows && s.rows[c] == head && c in s.users
  }

  function Done(s: State, who: nat): State {
    s.(calls := s.calls - {who})
  }

  function Next(s: State, who: nat, c: Call): State {
    s.(calls := s.calls[who := c])
  }

  function AdvanceAssign(s: State, who: nat, coach: Id, head: Id, pc: AssignPc): State {
    match pc
    case LoadCoach =>
      if coach == "" || head == "" || coach == head then Done(s, who)
      else if coach in s.users && s.users[coach].isCoach && !s.users[coach].headFlag
        then Next(s, who, Assign(coach, head, LoadHead))
      else Done(s, who)
    case LoadHead =>
      if IsHead(s, head) && s.users[head].isCoach && s.users[head].active then Next(s, who, Assign(coach, head, Upsert))
      else Done(s, who)
    case Upsert => Next(s.(rows := s.rows[coach := head]), who, Assign(coach, head, Recheck))
    case Recheck =>
      if IsHead(s, head) && s.users[head].active then Done(s, who) else Next(s, who, Assign(coach, head, Undo))
    case Undo => Done(s.(rows := DropCoach(s.rows, coach)), who)
  }

  function AdvanceDemote(s: State, who: nat, target: Id, pc: DemotePc): State {
    match pc
    case LoadTarget =>
      if target in s.users && (s.users[target].headFlag || HasCountedMember(s, target))
        then Next(s, who, Demote(target, CutAccess))
      else Done(s, who)
    case CutAccess =>
      if target in s.users then Next(s.(users := WithFlag(s.users, target, false)), who, Demote(target, ListTeam))
      else Done(s, who)
    case ListTeam => Next(s, who, Demote(target, ReleaseTeam))
    case ReleaseTeam => Done(s.(rows := DropHead(s.rows, target)), who)
  }

  function AdvancePromote(s: State, who: nat, candidate: Id, pc: PromotePc): State {
    match pc
    case LoadCandidate =>
      if candidate in s.users && s.users[candidate].isCoach && s.users[candidate].active && !s.users[candidate].headFlag
      then Next(s, who, Promote(candidate, CheckMember)) else Done(s, who)
    case CheckMember => if candidate in s.rows then Done(s, who) else Next(s, who, Promote(candidate, SetFlag))
    case SetFlag =>
      if candidate in s.users then Next(s.(users := WithFlag(s.users, candidate, true)), who,
                                        Promote(candidate, RecheckMember))
      else Done(s, who)
    case RecheckMember => if candidate in s.rows then Next(s, who, Promote(candidate, RollbackFlag)) else Done(s, who)
    case RollbackFlag => Done(s.(users := WithFlag(s.users, candidate, false)), who)
  }

  function AdvanceRemove(s: State, who: nat, caller: Id, coach: Id, pc: RemovePc): State {
    match pc
    case RequireHead =>
      if IsHead(s, caller) && s.users[caller].isCoach && s.users[caller].active
        then Next(s, who, RemoveMyCoach(caller, coach, GetMembership))
      else Done(s, who)
    case GetMembership =>
      if coach in s.rows && s.rows[coach] == caller then Next(s, who, RemoveMyCoach(caller, coach, DeleteRow))
      else Done(s, who)
    case DeleteRow => Done(s.(rows := DropCoach(s.rows, coach)), who)
  }

  function AdvanceCall(s: State, who: nat, c: Call): State {
    match c
    case Assign(coach, head, pc) => AdvanceAssign(s, who, coach, head, pc)
    case Demote(target, pc) => AdvanceDemote(s, who, target, pc)
    case Promote(candidate, pc) => AdvancePromote(s, who, candidate, pc)
    case Unassign(coach, found) =>
      if found then Done(s.(rows := DropCoach(s.rows, coach)), who)
      else if coach in s.rows then Next(s, who, Unassign(coach, true)) else Done(s, who)
    case RemoveMyCoach(caller, coach, pc) => AdvanceRemove(s, who, caller, coach, pc)
    case DeleteUser(user, gone) =>
      if gone then Done(s.(rows := DropHead(DropCoach(s.rows, user), user)), who)
      else if user in s.users then Next(s.(users := s.users - {user}), who, DeleteUser(user, true)) else Done(s, who)
  }

  function Step(s: State, a: Action): State {
    match a
    case Spawn(who, call) => if who !in s.calls && IsStart(call) then Next(s, who, call) else s
    case Advance(who) => if who in s.calls then AdvanceCall(s, who, s.calls[who]) else s
    case CreateUser(id, isCoach) => if id in s.users then s else s.(users := s.users[id := User(isCoach, true, false)])
    case SetActive(id, active) => if id in s.users then s.(users := s.users[id := s.users[id].(active := active)])
                                  else s
  }

  function Run(s: State, acts: seq<Action>): State
    decreases |acts|
  {
    if acts == [] then s else Run(Step(s, acts[0]), acts[1..])
  }

  // ---- every membership row names a flagged head coach ----

  /** The call will still look at, or remove, the row (coach, head). */
  predicate Covers(c: Call, coach: Id, head: Id) {
    match c
    case Assign(cc, h, pc) => cc == coach && h == head && (pc.Recheck? || pc.Undo?)
    case Demote(t, pc) => t == head && (pc.ListTeam? || pc.ReleaseTeam?)
    case DeleteUser(u, gone) => u == head && gone
    case _ => false
  }

  ghost predicate Covered(s: State, coach: Id, head: Id) {
    exists who :: who in s.calls && Covers(s.calls[who], coach, head)
  }

  ghost predicate RowOk(s: State, coach: Id) {
    coach in s.rows ==> IsHead(s, s.rows[coach]) || Covered(s, coach, s.rows[coach])
  }

  ghost predicate Inv(s: State) {
    forall coach :: RowOk(s, coach)
  }

  predicate IsRollback(s: State, a: Action) {
    a.Advance? && a.who in s.calls && s.calls[a.who].Promote? && s.calls[a.who].ppc.RollbackFlag?
  }

  /** A promote takes its flag back over the row of coach, which no other call looks after. */
  ghost predicate Strips(s: State, a: Action, coach: Id) {
    && IsRollback(s, a) && s.calls[a.who].candidate in s.users
    && coach in s.rows && s.rows[coach] == s.calls[a.who].candidate && !Covered(s, coach, s.rows[coach])
  }

  /** Every row headed by the candidate is still being looked after by some other call. */
  ghost predicate RollbackHarmless(s: State, a: Action) {
    forall coach :: !Strips(s, a, coach)
  }

  /** Only call who moved, and it still covers the row if it did before. */
  lemma KeepsCover(s: State, s': State, who: nat, coach: Id, head: Id)
    requires Covered(s, coach, head)
    requires forall w :: w in s.calls && w != who ==> w in s'.calls && s'.calls[w] == s.calls[w]
    requires who in s.calls && Covers(s.calls[who], coach, head) ==>
               who in s'.calls && Covers(s'.calls[who], coach, head)
    ensures Covered(s', coach, head)
  {
    var w :| w in s.calls && Covers(s.calls[w], coach, head);
    assert w in s'.calls && Covers(s'.calls[w], coach, head);
  }

  /** What one step of a call does to one row: it writes the row and covers it, or the row was there. */
  lemma AdvanceWritesRow(s: State, who: nat, coach: Id)
    requires who in s.calls
    ensures var s' := AdvanceCall(s, who, s.calls[who]);
            coach in s'.rows ==> (coach in s.rows && s.rows[coach] == s'.rows[coach])
                                 || (who in s'.calls && Covers(s'.calls[who], coach, s'.rows[coach]))
  {
  }

  /** A call stops covering a row only when the row is gone or sound. */
  lemma AdvanceEndsCover(s: State, who: nat, coach: Id, head: Id)
    requires who in s.calls && Covers(s.calls[who], coach, head)
    ensures var s' := AdvanceCall(s, who, s.calls[who]);
            (who in s'.calls && Covers(s'.calls[who], coach, head)) || IsHead(s', head)
              || !(coach in s'.rows && s'.rows[coach] == head)
  {
  }

  /** A row that is in both states and whose head kept its flag, or that stays covered, stays sound. */
  lemma AdvanceKeepsRow(s: State, who: nat, coach: Id)
    requires RowOk(s, coach) && who in s.calls && !Strips(s, Advance(who), coach)
    ensures RowOk(AdvanceCall(s, who, s.calls[who]), coach)
  {
    var s' := AdvanceCall(s, who, s.calls[who]);
    if coach in s'.rows && !IsHead(s', s'.rows[coach]) {
      var head := s'.rows[coach];
      AdvanceWritesRow(s, who, coach);
      if who in s'.calls && Covers(s'.calls[who], coach, head) {
        assert Covered(s', coach, head);
      } else {
        assert Covered(s, coach, head);
        if Covers(s.calls[who], coach, head) {
          AdvanceEndsCover(s, who, coach, head);
        }
        KeepsCover(s, s', who, coach, head);
      }
    }
  }

  lemma StepKeepsRow(s: State, a: Action, coach: Id)
    requires RowOk(s, coach) && !Strips(s, a, coach)
    ensures RowOk(Step(s, a), coach)
  {
    var s' := Step(s, a);
    if a.Advance? && a.who in s.calls {
      AdvanceKeepsRow(s, a.who, coach);
    } else if coach in s'.rows && !IsHead(s', s'.rows[coach]) {
      KeepsCover(s, s', if a.Spawn? then a.who else 0, coach, s'.rows[coach]);
    }
  }

  lemma StepKeepsInv(s: State, a: Action)
    requires Inv(s) && RollbackHarmless(s, a)
    ensures Inv(Step(s, a))
  {
    forall coach
      ensures RowOk(Step(s, a), coach)
    {
      assert RowOk(s, coach) && !Strips(s, a, coach);
      StepKeepsRow(s, a, coach);
    }
  }

  /**
   A promote that undoes its flag keeps the step invariant exactly when other calls still look after every
   row of the candidate.
   */
  lemma RollbackExact(s: State, a: Action)
    requires Inv(s) && IsRollback(s, a)
    ensures Inv(Step(s, a)) <==> RollbackHarmless(s, a)
  {
    var s', c := Step(s, a), s.calls[a.who].candidate;
    if RollbackHarmless(s, a) {
      StepKeepsInv(s, a);
    } else {
      var coach :| Strips(s, a, coach);
      assert !Covered(s', coach, c);
      assert !RowOk(s', coach);
    }
  }

  /** The call may still change the row of coach under head, or the flag of head. */
  predicate MayRelease(c: Call, coach: Id, head: Id) {
    match c
    case Assign(cc, _, _) => cc == coach
    case Demote(t, _) => t == head
    case Promote(x, _) => x == head
    case Unassign(x, _) => x == coach
    case RemoveMyCoach(_, x, _) => x == coach
    case DeleteUser(u, _) => u == coach || u == head
  }

  /** A row under an existing, unflagged user that no call in flight is about to touch. */
  predicate Stranded(s: State, coach: Id, head: Id) {
    && coach in s.rows && s.rows[coach] == head && head in s.users && !s.users[head].headFlag
    && forall who :: who in s.calls ==> !MayRelease(s.calls[who], coach, head)
  }

  /** None of the run's new calls touches the row. */
  predicate SpawnsLeave(acts: seq<Action>, coach: Id, head: Id) {
    forall i :: 0 <= i < |acts| && acts[i].Spawn? ==> !MayRelease(acts[i].call, coach, head)
  }

  lemma {:induction false} StrandedStays(s: State, acts: seq<Action>, coach: Id, head: Id)
    requires Stranded(s, coach, head) && SpawnsLeave(acts, coach, head)
    ensures Stranded(Run(s, acts), coach, head)
    decreases |acts|
  {
    if acts != [] {
      StrandedStays(Step(s, acts[0]), acts[1..], coach, head);
    }
  }

  /**
   The converse, for the property itself: a promote that takes its flag back over a row that no other call
   in flight touches leaves that row under an unflagged user in every continuation, until somebody starts a
   call on it.
   */
  lemma RollbackStrands(s: State, a: Action, acts: seq<Action>, coach: Id)
    requires IsRollback(s, a)
    requires var c := s.calls[a.who].candidate;
             && coach in s.rows && s.rows[coach] == c && c in s.users && SpawnsLeave(acts, coach, c)
             && forall who :: who in s.calls && who != a.who ==> !MayRelease(s.calls[who], coach, c)
    ensures var c, s' := s.calls[a.who].candidate, Run(Step(s, a), acts);
            coach in s'.rows && s'.rows[coach] == c && !IsHead(s', c)
  {
    StrandedStays(Step(s, a), acts, coach, s.calls[a.who].candidate);
  }

  predicate Quiet(s: State) {
    s.calls == map[]
  }

  /** The step flags the head: the one way a flag goes up. */
  predicate Flags(s: State, a: Action, head: Id) {
    a.Advance? && a.who in s.calls && s.calls[a.who] == Promote(head, SetFlag) && head in s.users
  }

  /** The row of coach is the one it was. */
  predicate SameRow(s: State, s': State, coach: Id) {
    coach in s.rows && coach in s'.rows && s'.rows[coach] == s.rows[coach]
  }

  /**
   Rows without a flagged head: those so far, while they stand and their head is not flagged, and those a
   rollback strips.
   */
  ghost function Stripped(s: State, a: Action, so: set<Id>): set<Id> {
    set c | c in Step(s, a).rows && SameRow(s, Step(s, a), c)
      && (Strips(s, a, c) || (c in so && !Flags(s, a, s.rows[c])))
  }

  ghost function StrippedBy(s: State, acts: seq<Action>, so: set<Id>): set<Id>
    decreases |acts|
  {
    if acts == [] then so else StrippedBy(Step(s, acts[0]), acts[1..], Stripped(s, acts[0], so))
  }

  predicate Headless(s: State, coach: Id) {
    coach in s.rows && !IsHead(s, s.rows[coach])
  }

  /** The rows told by the run are headless, and every other headless row is covered. */
  lemma StepKeepsStripped(s: State, a: Action, so: set<Id>, coach: Id)
    requires RowOk(s, coach) || coach in so
    requires coach in so ==> Headless(s, coach)
    ensures RowOk(Step(s, a), coach) || coach in Stripped(s, a, so)
    ensures coach in Stripped(s, a, so) ==> Headless(Step(s, a), coach)
  {
    var s' := Step(s, a);
    if !Strips(s, a, coach) {
      if RowOk(s, coach) {
        StepKeepsRow(s, a, coach);
      } else if coach in s'.rows && a.Advance? && a.who in s.calls {
        AdvanceWritesRow(s, a.who, coach);
        if !SameRow(s, s', coach) {
          assert Covered(s', coach, s'.rows[coach]);
        }
      }
    }
  }

  lemma {:induction false} RunKeepsStripped(s: State, acts: seq<Action>, so: set<Id>)
    requires forall c :: (RowOk(s, c) || c in so) && (c in so ==> Headless(s, c))
    ensures forall c :: (RowOk(Run(s, acts), c) || c in StrippedBy(s, acts, so))
                        && (c in StrippedBy(s, acts, so) ==> Headless(Run(s, acts), c))
    decreases |acts|
  {
    if acts != [] {
      var next := Stripped(s, acts[0], so);
      forall c
        ensures (RowOk(Step(s, acts[0]), c) || c in next) && (c in next ==> Headless(Step(s, acts[0]), c))
      {
        StepKeepsStripped(s, acts[0], so, c);
      }
      RunKeepsStripped(Step(s, acts[0]), acts[1..], next);
    }
  }

  /**
   Whatever the interleaving of assigns, demotes, promotes, unassigns, removals and account deletions, once
   no call is in flight a membership row lacks an existing, flagged head coach exactly when it was headless
   before the run, or was stripped by a promote's rollback while no other call looked after it, and since
   then has neither been written nor had its head flagged.
   */
  lemma RowsNameHeadsAtRest(init: State, acts: seq<Action>)
    requires Quiet(init)
    ensures var s, stripped := Run(init, acts), StrippedBy(init, acts, set c | c in init.rows && Headless(init, c));
            Quiet(s) ==> forall c :: c in s.rows ==> (IsHead(s, s.rows[c]) <==> c !in stripped)
  {
    var so := set c | c in init.rows && Headless(init, c);
    RunKeepsStripped(init, acts, so);
    var s := Run(init, acts);
    forall c | Quiet(s) && c in s.rows
      ensures IsHead(s, s.rows[c]) <==> c !in StrippedBy(init, acts, so)
    {
      assert RowOk(s, c) || c in StrippedBy(init, acts, so);
    }
  }

  /** No promote of the run undoes its flag under a settled row. */
  ghost predicate HarmlessRun(s: State, acts: seq<Action>)
    decreases |acts|
  {
    acts == [] || (RollbackHarmless(s, acts[0]) && HarmlessRun(Step(s, acts[0]), acts[1..]))
  }

  lemma {:induction false} HarmlessRunsStripNothing(s: State, acts: seq<Action>)
    requires HarmlessRun(s, acts)
    ensures StrippedBy(s, acts, {}) == {}
    decreases |acts|
  {
    if acts != [] {
      assert Stripped(s, acts[0], {}) == {};
      HarmlessRunsStripNothing(Step(s, acts[0]), acts[1..]);
    }
  }

  /** Without such a rollback every row names a flagged head coach. */
  lemma HarmlessRunsKeepHeads(init: State, acts: seq<Action>)
    requires Quiet(init) && HarmlessRun(init, acts) && forall c :: c in init.rows ==> IsHead(init, init.rows[c])
    ensures var s := Run(init, acts); Quiet(s) ==> forall c :: c in s.rows ==> IsHead(s, s.rows[c])
  {
    RowsNameHeadsAtRest(init, acts);
    assert (set c | c in init.rows && Headless(init, c)) == {};
    HarmlessRunsStripNothing(init, acts);
  }

  // ---- no head coach is a member ----

  /** The call has flagged the coach and will still look for a membership. */
  predicate Rechecks(c: Call, coach: Id) {
    c.Promote? && c.candidate == coach && (c.ppc.RecheckMember? || c.ppc.RollbackFlag?)
  }

  ghost predicate Rechecked(s: State, coach: Id) {
    exists who :: who in s.calls && Rechecks(s.calls[who], coach)
  }

  ghost predicate NestOk(s: State, coach: Id) {
    IsHead(s, coach) && coach in s.rows ==> Rechecked(s, coach)
  }

  ghost predicate NestInv(s: State) {
    forall coach :: NestOk(s, coach)
  }

  predicate IsUpsert(s: State, a: Action) {
    a.Advance? && a.who in s.calls && s.calls[a.who].Assign? && s.calls[a.who].apc.Upsert?
  }

  /** An assign writes the row of a flagged coach whom no promote will recheck. */
  ghost predicate Nests(s: State, a: Action, coach: Id) {
    IsUpsert(s, a) && s.calls[a.who].coach == coach && IsHead(s, coach) && !Rechecked(s, coach)
  }

  /**
   The guard the code does not test: the coach is not flagged as the row is written, or a promote will still
   recheck.
   */
  ghost predicate UpsertGuarded(s: State, a: Action)
    requires IsUpsert(s, a)
  {
    IsHead(s, s.calls[a.who].coach) ==> Rechecked(s, s.calls[a.who].coach)
  }

  /** Only call who moved, and it still rechecks the coach if it did before. */
  lemma KeepsRecheck(s: State, s': State, who: nat, coach: Id)
    requires Rechecked(s, coach)
    requires forall w :: w in s.calls && w != who ==> w in s'.calls && s'.calls[w] == s.calls[w]
    requires who in s.calls && Rechecks(s.calls[who], coach) ==> who in s'.calls && Rechecks(s'.calls[who], coach)
    ensures Rechecked(s', coach)
  {
    var w :| w in s.calls && Rechecks(s.calls[w], coach);
    assert w in s'.calls && Rechecks(s'.calls[w], coach);
  }

  lemma AdvanceKeepsNest(s: State, who: nat, coach: Id)
    requires NestOk(s, coach) && who in s.calls && !Nests(s, Advance(who), coach)
    ensures NestOk(AdvanceCall(s, who, s.calls[who]), coach)
  {
    var c, s' := s.calls[who], AdvanceCall(s, who, s.calls[who]);
    if IsHead(s', coach) && coach in s'.rows {
      if who in s'.calls && Rechecks(s'.calls[who], coach) {
        assert Rechecked(s', coach);
      } else {
        assert IsHead(s, coach);
        assert Rechecked(s, coach);
        assert !Rechecks(c, coach);
        KeepsRecheck(s, s', who, coach);
      }
    }
  }

  lemma StepKeepsNest(s: State, a: Action, coach: Id)
    requires NestOk(s, coach) && !Nests(s, a, coach)
    ensures NestOk(Step(s, a), coach)
  {
    var s' := Step(s, a);
    if a.Advance? && a.who in s.calls {
      AdvanceKeepsNest(s, a.who, coach);
    } else if IsHead(s', coach) && coach in s'.rows {
      KeepsRecheck(s, s', if a.Spawn? then a.who else 0, coach);
    }
  }

  lemma StepKeepsNestInv(s: State, a: Action)
    requires NestInv(s)
    requires IsUpsert(s, a) ==> UpsertGuarded(s, a)
    ensures NestInv(Step(s, a))
  {
    forall coach
      ensures NestOk(Step(s, a), coach)
    {
      assert NestOk(s, coach);
      StepKeepsNest(s, a, coach);
    }
  }

  /** Writing a membership keeps the invariant exactly when the guard holds that the code does not test. */
  lemma UpsertExact(s: State, a: Action)
    requires NestInv(s) && IsUpsert(s, a)
    ensures NestInv(Step(s, a)) <==> UpsertGuarded(s, a)
  {
    if UpsertGuarded(s, a) {
      StepKeepsNestInv(s, a);
    } else {
      var coach := s.calls[a.who].coach;
      assert !Rechecked(Step(s, a), coach);
      assert !NestOk(Step(s, a), coach);
    }
  }

  predicate IsNested(s: State, coach: Id) {
    coach in s.rows && IsHead(s, coach)
  }

  /** The step takes the flag of coach down: a demotion, a rollback, or the account's deletion. */
  predicate Unflags(s: State, a: Action, coach: Id) {
    a.Advance? && a.who in s.calls
    && s.calls[a.who] in {Demote(coach, CutAccess), Promote(coach, RollbackFlag), DeleteUser(coach, false)}
  }

  /** Head coaches in a team: those so far, while row and flag stand, and those an assign nests. */
  ghost function NestedNow(s: State, a: Action, so: set<Id>): set<Id> {
    set c | c in Step(s, a).rows && (Nests(s, a, c) || (c in so && !Unflags(s, a, c)))
  }

  ghost function NestedBy(s: State, acts: seq<Action>, so: set<Id>): set<Id>
    decreases |acts|
  {
    if acts == [] then so else NestedBy(Step(s, acts[0]), acts[1..], NestedNow(s, acts[0], so))
  }

  lemma StepKeepsNestedSet(s: State, a: Action, so: set<Id>, coach: Id)
    requires (NestOk(s, coach) || coach in so) && (coach in so ==> IsNested(s, coach))
    ensures NestOk(Step(s, a), coach) || coach in NestedNow(s, a, so)
    ensures coach in NestedNow(s, a, so) ==> IsNested(Step(s, a), coach)
  {
    if coach !in so && !Nests(s, a, coach) {
      StepKeepsNest(s, a, coach);
    }
  }

  lemma {:induction false} RunKeepsNested(s: State, acts: seq<Action>, so: set<Id>)
    requires forall c :: (NestOk(s, c) || c in so) && (c in so ==> IsNested(s, c))
    ensures forall c :: (NestOk(Run(s, acts), c) || c in NestedBy(s, acts, so))
                        && (c in NestedBy(s, acts, so) ==> IsNested(Run(s, acts), c))
    decreases |acts|
  {
    if acts != [] {
      var next := NestedNow(s, acts[0], so);
      forall c
        ensures (NestOk(Step(s, acts[0]), c) || c in next) && (c in next ==> IsNested(Step(s, acts[0]), c))
      {
        StepKeepsNestedSet(s, acts[0], so, c);
      }
      RunKeepsNested(Step(s, acts[0]), acts[1..], next);
    }
  }

  /**
   Once no call is in flight, a head coach is in a team exactly when that was so before the run, or an
   assign wrote the row without the missing guard, and since then neither row nor flag has gone.
   */
  lemma NoHeadIsMemberAtRest(init: State, acts: seq<Action>)
    requires Quiet(init)
    ensures var s, nested := Run(init, acts), NestedBy(init, acts, set c | c in init.rows && IsNested(init, c));
            Quiet(s) ==> forall c :: IsNested(s, c) <==> c in nested
  {
    var so := set c | c in init.rows && IsNested(init, c);
    RunKeepsNested(init, acts, so);
    var s := Run(init, acts);
    forall c | Quiet(s)
      ensures IsNested(s, c) <==> c in NestedBy(init, acts, so)
    {
      assert NestOk(s, c) || c in NestedBy(init, acts, so);
    }
  }

  /** Every membership the run writes passes the missing guard. */
  ghost predicate GuardedRun(s: State, acts: seq<Action>)
    decreases |acts|
  {
    acts == [] ||
    ((IsUpsert(s, acts[0]) ==> UpsertGuarded(s, acts[0])) && GuardedRun(Step(s, acts[0]), acts[1..]))
  }

  lemma {:induction false} GuardedRunsNestNobody(s: State, acts: seq<Action>)
    requires GuardedRun(s, acts)
    ensures NestedBy(s, acts, {}) == {}
    decreases |acts|
  {
    if acts != [] {
      assert NestedNow(s, acts[0], {}) == {};
      GuardedRunsNestNobody(Step(s, acts[0]), acts[1..]);
    }
  }

  predicate Flat(s: State) {
    forall c :: c in s.rows ==> !IsHead(s, c)
  }

  /** With the guard, racing calls, too, leave no head coach in a team. */
  lemma GuardedRunsStayFlat(init: State, acts: seq<Action>)
    requires Quiet(init) && Flat(init) && GuardedRun(init, acts)
    ensures Quiet(Run(init, acts)) ==> Flat(Run(init, acts))
  {
    NoHeadIsMemberAtRest(init, acts);
    assert (set c | c in init.rows && IsNested(init, c)) == {};
    GuardedRunsNestNobody(init, acts);
    forall c | Quiet(Run(init, acts)) && c in Run(init, acts).rows
      ensures !IsHead(Run(init, acts), c)
    {
      assert IsNested(Run(init, acts), c) <==> c in NestedBy(init, acts, {});
    }
  }

  /** The call may still change the row of coach under head, or the flag of coach. */
  predicate MayUnnest(c: Call, coach: Id, head: Id) {
    match c
    case Assign(cc, _, _) => cc == coach
    case Demote(t, _) => t == head || t == coach
    case Promote(x, _) => x == coach
    case Unassign(x, _) => x == coach
    case RemoveMyCoach(_, x, _) => x == coach
    case DeleteUser(u, _) => u == coach || u == head
  }

  /** A flagged coach in a team, with no call in flight about to change that. */
  predicate Nested(s: State, coach: Id, head: Id) {
    && coach in s.rows && s.rows[coach] == head && IsHead(s, coach)
    && forall who :: who in s.calls ==> !MayUnnest(s.calls[who], coach, head)
  }

  predicate SpawnsKeepNest(acts: seq<Action>, coach: Id, head: Id) {
    forall i :: 0 <= i < |acts| && acts[i].Spawn? ==> !MayUnnest(acts[i].call, coach, head)
  }

  lemma {:induction false} NestedStays(s: State, acts: seq<Action>, coach: Id, head: Id)
    requires Nested(s, coach, head) && SpawnsKeepNest(acts, coach, head)
    ensures Nested(Run(s, acts), coach, head)
    decreases |acts|
  {
    if acts != [] {
      NestedStays(Step(s, acts[0]), acts[1..], coach, head);
    }
  }

  /**
   The converse, for the property itself: an assign that writes the row of a flagged coach, with its head
   still a head coach at the recheck and no other call about to touch the two, leaves a head coach in a team
   in every continuation, until somebody starts a call on them.
   */
  lemma UnguardedUpsertNests(s: State, who: nat, acts: seq<Action>)
    requires IsUpsert(s, Advance(who))
    requires var c := s.calls[who];
             && IsHead(s, c.coach) && IsHead(s, c.head) && s.users[c.head].active
                && SpawnsKeepNest(acts, c.coach, c.head)
             && forall w :: w in s.calls && w != who ==> !MayUnnest(s.calls[w], c.coach, c.head)
    ensures var c, s' := s.calls[who], Run(Step(Step(s, Advance(who)), Advance(who)), acts);
            c.coach in s'.rows && s'.rows[c.coach] == c.head && IsHead(s', c.coach)
  {
    var c := s.calls[who];
    var settled := Step(Step(s, Advance(who)), Advance(who));
    assert settled.calls == s.calls - {who};
    NestedStays(settled, acts, c.coach, c.head);
  }

  // ---- where the code falls short ----

  lemma {:induction false} RunSnoc(s: State, acts: seq<Action>, a: Action)
    ensures Run(s, acts + [a]) == Step(Run(s, acts), a)
    decreases |acts|
  {
    if acts != [] {
      assert (acts + [a])[1..] == acts[1..] + [a];
      RunSnoc(Step(s, acts[0]), acts[1..], a);
    }
  }

  /** One more action of a concrete run. */
  lemma Then(init: State, acts: seq<Action>, s: State, a: Action) returns (acts': seq<Action>, s': State)
    requires Run(init, acts) == s
    ensures acts' == acts + [a] && s' == Step(s, a) && Run(init, acts') == s'
  {
    RunSnoc(init, acts, a);
    acts', s' := acts + [a], Step(s, a);
  }

  lemma ThenTwice(init: State, acts: seq<Action>, s: State, a: Action) returns (acts': seq<Action>, s': State)
    requires Run(init, acts) == s
    ensures s' == Step(Step(s, a), a) && Run(init, acts') == s'
  {
    acts', s' := Then(init, acts, s, a);
    acts', s' := Then(init, acts', s', a);
  }

  /** Three calls have begun: promote "c", assign "c" to "h", assign "x" to "c". */
  lemma ThreeCallsBegun() returns (init: State, acts: seq<Action>)
    ensures Quiet(init) && init.rows == map[]
    ensures Run(init, acts) == State(
                map["c" := User(true, true, false), "x" := User(true, true, false), "h" := User(true, true, true)],
                  map[],
                map[1 := Promote("c", LoadCandidate), 2 := Assign("c", "h", LoadCoach),
                    3 := Assign("x", "c", LoadCoach)])
  {
    var coach := User(true, true, false);
    init := State(map["c" := coach, "x" := coach, "h" := User(true, true, true)], map[], map[]);
    acts := [];
    var s := init;
    acts, s := Then(init, acts, s, Spawn(1, Promote("c", LoadCandidate)));
    acts, s := Then(init, acts, s, Spawn(2, Assign("c", "h", LoadCoach)));
    acts, s := Then(init, acts, s, Spawn(3, Assign("x", "c", LoadCoach)));
    assert s.calls == map[1 := Promote("c", LoadCandidate), 2 := Assign("c", "h", LoadCoach),
                          3 := Assign("x", "c", LoadCoach)];
  }

  /** The assign of "c" has passed its checks. */
  lemma AssignedMidway() returns (init: State, acts: seq<Action>)
    ensures Quiet(init) && init.rows == map[]
    ensures Run(init, acts) == State(
                map["c" := User(true, true, false), "x" := User(true, true, false), "h" := User(true, true, true)],
                  map[],
                map[1 := Promote("c", LoadCandidate), 2 := Assign("c", "h", Upsert), 3 := Assign("x", "c", LoadCoach)])
  {
    init, acts := ThreeCallsBegun();
    var s := Run(init, acts);
    acts, s := ThenTwice(init, acts, s, Advance(2));
    assert s.calls == map[1 := Promote("c", LoadCandidate), 2 := Assign("c", "h", Upsert),
                          3 := Assign("x", "c", LoadCoach)];
  }

  /** The promote of "c" has found no membership. */
  lemma CheckedMidway() returns (init: State, acts: seq<Action>)
    ensures Quiet(init) && init.rows == map[]
    ensures Run(init, acts) == State(
                map["c" := User(true, true, false), "x" := User(true, true, false), "h" := User(true, true, true)],
                  map[],
                map[1 := Promote("c", SetFlag), 2 := Assign("c", "h", Upsert), 3 := Assign("x", "c", LoadCoach)])
  {
    init, acts := AssignedMidway();
    var s := Run(init, acts);
    acts, s := ThenTwice(init, acts, s, Advance(1));
    assert s.calls == map[1 := Promote("c", SetFlag), 2 := Assign("c", "h", Upsert), 3 := Assign("x", "c", LoadCoach)];
  }

  /** "c" carries the flag its promote just set, and an assign of "c" has passed its checks. */
  lemma PromotedMidway() returns (init: State, acts: seq<Action>)
    ensures Quiet(init) && init.rows == map[]
    ensures Run(init, acts) == State(
                map["c" := User(true, true, true), "x" := User(true, true, false), "h" := User(true, true, true)],
                  map[],
                map[1 := Promote("c", RecheckMember), 2 := Assign("c", "h", Upsert), 3 := Assign("x", "c", LoadCoach)])
  {
    init, acts := CheckedMidway();
    var s := Run(init, acts);
    acts, s := Then(init, acts, s, Advance(1));
    assert s.users == map["c" := User(true, true, true), "x" := User(true, true, false), "h" := User(true, true, true)];
    assert s.calls == map[1 := Promote("c", RecheckMember), 2 := Assign("c", "h", Upsert),
                          3 := Assign("x", "c", LoadCoach)];
  }

  /** The assign of "x" to "c" has passed its checks, too. */
  lemma AssignedToCandidate() returns (init: State, acts: seq<Action>)
    ensures Quiet(init) && init.rows == map[]
    ensures Run(init, acts) == State(
                map["c" := User(true, true, true), "x" := User(true, true, false), "h" := User(true, true, true)],
                  map[],
                map[1 := Promote("c", RecheckMember), 2 := Assign("c", "h", Upsert), 3 := Assign("x", "c", Upsert)])
  {
    init, acts := PromotedMidway();
    var s := Run(init, acts);
    acts, s := ThenTwice(init, acts, s, Advance(3));
    assert s.calls == map[1 := Promote("c", RecheckMember), 2 := Assign("c", "h", Upsert),
                          3 := Assign("x", "c", Upsert)];
  }

  /** From there "x" has been assigned to "c" and settled. */
  lemma SettledUnderCandidate() returns (init: State, acts: seq<Action>)
    ensures Quiet(init) && init.rows == map[]
    ensures Run(init, acts) == State(
                map["c" := User(true, true, true), "x" := User(true, true, false), "h" := User(true, true, true)],
                  map["x" := "c"],
                map[1 := Promote("c", RecheckMember), 2 := Assign("c", "h", Upsert)])
  {
    init, acts := AssignedToCandidate();
    var s := Run(init, acts);
    acts, s := ThenTwice(init, acts, s, Advance(3));
    assert s.calls == map[1 := Promote("c", RecheckMember), 2 := Assign("c", "h", Upsert)] && s.rows == map["x" := "c"];
  }

  /**
   The rollback condition is needed. A promote of "c" races with assigning "c" to "h"; while the flag is
   up, "x" is assigned to "c" and settles. The promote then takes the flag back and nobody releases "x".
   */
  lemma RollbackCanStrandATeam() returns (init: State, acts: seq<Action>)
    ensures Quiet(init) && init.rows == map[]
    ensures var s := Run(init, acts); Quiet(s) && "x" in s.rows && s.rows["x"] == "c" && !IsHead(s, "c")
  {
    init, acts := SettledUnderCandidate();
    var s := Run(init, acts);
    acts, s := ThenTwice(init, acts, s, Advance(2));
    assert s.calls == map[1 := Promote("c", RecheckMember)];
    acts, s := ThenTwice(init, acts, s, Advance(1));
    assert Quiet(s);
  }

  /** A promote of "c" is under way while an assign of "c" to "h" is about to write its row. */
  lemma AssignAboutToWrite() returns (init: State, acts: seq<Action>)
    ensures Quiet(init) && init.rows == map[]
    ensures Run(init, acts) == State(map["c" := User(true, true, false), "h" := User(true, true, true)], map[],
                                     map[1 := Promote("c", LoadCandidate), 2 := Assign("c", "h", Upsert)])
  {
    init := State(map["c" := User(true, true, false), "h" := User(true, true, true)], map[], map[]);
    acts := [];
    var s := init;
    acts, s := Then(init, acts, s, Spawn(1, Promote("c", LoadCandidate)));
    acts, s := Then(init, acts, s, Spawn(2, Assign("c", "h", LoadCoach)));
    acts, s := ThenTwice(init, acts, s, Advance(2));
    assert s.calls == map[1 := Promote("c", LoadCandidate), 2 := Assign("c", "h", Upsert)];
  }

  /** The promote has finished; the assign still has its row to write. */
  lemma PromotedBeforeWrite() returns (init: State, acts: seq<Action>)
    ensures Quiet(init) && init.rows == map[]
    ensures Run(init, acts) == State(map["c" := User(true, true, true), "h" := User(true, true, true)], map[],
                                     map[2 := Assign("c", "h", Upsert)])
  {
    init, acts := AssignAboutToWrite();
    var s := Run(init, acts);
    acts, s := ThenTwice(init, acts, s, Advance(1));
    assert s.calls == map[1 := Promote("c", SetFlag), 2 := Assign("c", "h", Upsert)];
    acts, s := ThenTwice(init, acts, s, Advance(1));
    assert s.users == map["c" := User(true, true, true), "h" := User(true, true, true)];
    assert s.calls == map[2 := Assign("c", "h", Upsert)];
  }

  /**
   The guard is needed. Nothing rechecks the member's own flag: an assign that loaded "c" before its promotion
   writes the row after the promote has finished, and a head coach ends up in another head coach's team.
   */
  lemma PromoteRaceCanNestTeams() returns (init: State, acts: seq<Action>)
    ensures Quiet(init) && init.rows == map[]
    ensures var s := Run(init, acts); Quiet(s) && IsHead(s, "c") && "c" in s.rows && s.rows["c"] == "h"
  {
    init, acts := PromotedBeforeWrite();
    var s := Run(init, acts);
    acts, s := ThenTwice(init, acts, s, Advance(2));
    assert Quiet(s);
  }
}
