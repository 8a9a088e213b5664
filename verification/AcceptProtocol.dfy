/**
 Accepting gym invitations, one store step at a time, in a store that everybody else keeps changing:
 invitations are sent, revoked, declined and expired; seats are released and given by admins; flags go up
 and down; accounts come and go. Any number of accepts are in flight, also of one caller. Store calls succeed.
 */
module AcceptProtocol {
  import opened Common
  import opened Hierarchy

  datatype Pc =
    | Load | CheckMember | CheckGym | CheckActive
    | SetFlag | RecheckMember | AddRow
    | Transition | UndoRow | UndoFlag

  /** wasHead is the flag the call read as it loaded its caller; rowBefore is history: the caller's row then. */
  datatype Call = Call(caller: Id, inv: Id, wasHead: bool, rowBefore: Option<Id>, pc: Pc)

  datatype Ending = Ending(call: Call, joined: bool)

  /**
   rows maps a head coach to the invitation its gym row carries ("" for an admin's). endings, lost and
   spoiled are history: how calls ended; the rows (of whom, carrying what) taken away by anyone but the call
   that added them; and the calls whose caller's flag or row somebody else has changed since they began.
   */
  datatype State = State(accounts: set<Id>, invitations: map<Id, Invitation>, heads: set<Id>, members: set<Id>,
                         activeGyms: set<Id>, rows: map<Id, Id>, calls: map<nat, Call>,
                         endings: map<nat, Ending>, lost: set<(Id, Id)>, spoiled: set<nat>)

  datatype Action =
    | Begin(who: nat, caller: Id, inv: Id)
    | Advance(who: nat, now: Time)
    | Send(inv: Id, sent: Invitation)
    | Respond(inv: Id, to: InviteStatus, invitee: Id)
    | ExpireDue(inv: Id, now: Time)
    | TeamChange(coach: Id, joins: bool)
    | GymChange(gym: Id, active: bool)
    | FlagChange(head: Id, up: bool)
    | Release(head: Id)
    | AdminAdd(head: Id)
    | AccountChange(id: Id, present: bool)

  function RowOf(s: State, h: Id): Option<Id> {
    if h in s.rows then Some(s.rows[h]) else None
  }

  // ---- one store access ----

  /** The writes of an accept, for its own caller and invitation. */
  datatype Write = Nothing | Flag(up: bool) | Place | Drop | Answer(to: InviteStatus, invitee: Id)

  /** What a call does next: one write, and the step after it or the end. */
  datatype Effect = Goes(write: Write, pc: Pc) | Ends(write: Write, joined: bool)

  predicate Pends(invitations: map<Id, Invitation>, i: Id) {
    i in invitations && invitations[i].status.Pending?
  }

  predicate IsPending(s: State, i: Id) {
    Pends(s.invitations, i)
  }

  function EffectOf(s: State, c: Call, now: Time): Effect {
    match c.pc
    case Load =>
      if !IsPending(s, c.inv) then Ends(Nothing, false)
      else if s.invitations[c.inv].expiresAt <= now then Ends(Answer(Expired, ""), false)
      else Goes(Nothing, CheckMember)
    case CheckMember => if c.caller in s.members then Ends(Nothing, false) else Goes(Nothing, CheckGym)
    case CheckGym => if c.caller in s.rows then Ends(Nothing, false) else Goes(Nothing, CheckActive)
    case CheckActive =>
      if c.inv !in s.invitations || s.invitations[c.inv].gym !in s.activeGyms then Ends(Nothing, false)
      else Goes(Nothing, if c.wasHead then AddRow else SetFlag)
    case SetFlag => if c.caller !in s.accounts then Ends(Nothing, false) else Goes(Flag(true), RecheckMember)
    case RecheckMember => Goes(Nothing, if c.caller in s.members then UndoFlag else AddRow)
    case AddRow => if c.caller in s.rows then Goes(Nothing, UndoFlag) else Goes(Place, Transition)
    case Transition => if IsPending(s, c.inv) then Ends(Answer(Accepted, c.caller), true) else Goes(Nothing, UndoRow)
    case UndoRow => Goes(Drop, UndoFlag)
    case UndoFlag => Ends(if c.wasHead then Nothing else Flag(false), false)
  }

  /** The conditional status update: only a pending invitation moves. */
  function Moved(invitations: map<Id, Invitation>, i: Id, to: InviteStatus, invitee: Id): map<Id, Invitation> {
    if Pends(invitations, i)
    then
      var whom := if invitee == "" then invitations[i].invitee else invitee;
      invitations[i := invitations[i].(status := to, invitee := whom)]
    else invitations
  }

  function WithFlag(heads: set<Id>, h: Id, up: bool): set<Id> {
    if up then heads + {h} else heads - {h}
  }

  /** What is lost when somebody whose own row would carry own takes the row of h away. */
  function WithoutRow(s: State, h: Id, own: Id): set<(Id, Id)> {
    if h in s.rows && s.rows[h] != own then s.lost + {(h, s.rows[h])} else s.lost
  }

  function FlagsAfter(s: State, x: Id, w: Write): set<Id> {
    if w.Flag? then WithFlag(s.heads, x, w.up) else s.heads
  }

  function RowsAfter(s: State, x: Id, i: Id, w: Write): map<Id, Id> {
    if w.Place? then s.rows[x := i] else if w.Drop? then s.rows - {x} else s.rows
  }

  function LostAfter(s: State, x: Id, i: Id, w: Write): set<(Id, Id)> {
    if w.Drop? then WithoutRow(s, x, i) else s.lost
  }

  function AnswersAfter(s: State, i: Id, w: Write): map<Id, Invitation> {
    if w.Answer? then Moved(s.invitations, i, w.to, w.invitee) else s.invitations
  }

  function Written(s: State, x: Id, i: Id, w: Write): State {
    s.(heads := FlagsAfter(s, x, w), rows := RowsAfter(s, x, i, w), lost := LostAfter(s, x, i, w),
       invitations := AnswersAfter(s, i, w))
  }

  function AfterEffect(s: State, who: nat, c: Call, e: Effect): State {
    match e
    case Goes(_, pc) => s.(calls := s.calls[who := c.(pc := pc)])
    case Ends(_, joined) => s.(calls := s.calls - {who}, endings := s.endings[who := Ending(c, joined)])
  }

  function AdvanceCall(s: State, who: nat, c: Call, now: Time): State {
    var e := EffectOf(s, c, now);
    AfterEffect(Written(s, c.caller, c.inv, e.write), who, c, e)
  }

  /** What an action of anybody else does. */
  function Outside(s: State, a: Action): State
    requires !a.Advance?
  {
    match a
    case Begin(who, caller, inv) =>
      if who in s.calls || who in s.endings || caller == "" || inv == "" then s
      else s.(calls := s.calls[who := Call(caller, inv, caller in s.heads, RowOf(s, caller), Load)],
              spoiled := s.spoiled - {who})
    case Send(i, sent) =>
      if i in s.invitations || !sent.status.Pending? then s else s.(invitations := s.invitations[i := sent])
    case Respond(i, to, invitee) =>
      if to.Declined? || to.Revoked? then s.(invitations := Moved(s.invitations, i, to, invitee)) else s
    case ExpireDue(i, now) =>
      if i in s.invitations && s.invitations[i].expiresAt <= now
      then s.(invitations := Moved(s.invitations, i, Expired, "")) else s
    case TeamChange(coach, joins) => s.(members := if joins then s.members + {coach} else s.members - {coach})
    case GymChange(gym, active) => s.(activeGyms := if active then s.activeGyms + {gym} else s.activeGyms - {gym})
    case FlagChange(head, up) => s.(heads := WithFlag(s.heads, head, up))
    case Release(head) => s.(rows := s.rows - {head}, lost := WithoutRow(s, head, ""))
    case AdminAdd(head) => if head in s.rows then s else s.(rows := s.rows[head := ""])
    case AccountChange(id, present) =>
      if present then s.(accounts := s.accounts + {id})
      else s.(accounts := s.accounts - {id}, heads := s.heads - {id})
  }

  predicate SameFor(s: State, s': State, x: Id) {
    (x in s'.heads <==> x in s.heads) && RowOf(s', x) == RowOf(s, x)
  }

  /** The calls, ended or not, whose caller's flag or row another step has just changed. */
  function Spoilt(s: State, s': State, mover: Option<nat>): set<nat> {
    (set w | w in s.calls && Some(w) != mover && !SameFor(s, s', s.calls[w].caller))
    + (set w | w in s.endings && Some(w) != mover && !SameFor(s, s', s.endings[w].call.caller))
  }

  function Step(s: State, a: Action): State {
    if !a.Advance? then
      var s' := Outside(s, a);
      s'.(spoiled := s'.spoiled + Spoilt(s, s', None))
    else if a.who in s.calls then
      var s' := AdvanceCall(s, a.who, s.calls[a.who], a.now);
      s'.(spoiled := s'.spoiled + Spoilt(s, s', Some(a.who)))
    else s
  }

  function Run(s: State, acts: seq<Action>): State
    decreases |acts|
  {
    if acts == [] then s else Run(Step(s, acts[0]), acts[1..])
  }

  // ---- what every step keeps ----

  /** The caller's flag, as its call has it at this point. */
  predicate FlagOk(pc: Pc, wasHead: bool, flag: bool) {
    match pc
    case Load | CheckMember | CheckGym | CheckActive => flag == wasHead
    case SetFlag => !flag && !wasHead
    case RecheckMember => flag && !wasHead
    case AddRow | Transition | UndoRow => flag
    case UndoFlag => wasHead ==> flag
  }

  /** The caller's gym row, as its call has it at this point. */
  predicate RowFits(pc: Pc, inv: Id, before: Option<Id>, row: Option<Id>) {
    match pc
    case Load | CheckMember | CheckGym => row == before
    case CheckActive | SetFlag | RecheckMember | AddRow | UndoFlag => row == before == None
    case Transition | UndoRow => before == None && row == Some(inv)
  }

  /** The call has added its row and not taken it back. */
  predicate Placed(c: Call) {
    c.pc.Transition? || c.pc.UndoRow?
  }

  predicate HasPlaced(s: State, w: nat, x: Id, i: Id) {
    w in s.calls && Placed(s.calls[w]) && s.calls[w].caller == x && s.calls[w].inv == i
  }

  /** A row a call has added is there and nobody else's, or it was taken away. */
  ghost predicate PlacedOk(s: State, w: nat)
    requires w in s.calls
  {
    var c := s.calls[w];
    Placed(c) && (c.caller, c.inv) !in s.lost ==>
      RowOf(s, c.caller) == Some(c.inv) && forall v :: HasPlaced(s, v, c.caller, c.inv) ==> v == w
  }

  ghost predicate CallOk(s: State, w: nat) {
    w in s.calls ==>
      var c := s.calls[w];
      && c.caller != "" && c.inv != "" && w !in s.endings && PlacedOk(s, w)
      && (w !in s.spoiled ==>
            FlagOk(c.pc, c.wasHead, c.caller in s.heads) && RowFits(c.pc, c.inv, c.rowBefore, RowOf(s, c.caller)))
  }

  predicate WasAccepted(s: State, i: Id) {
    i in s.invitations && s.invitations[i].status.Accepted?
  }

  predicate IsAcceptedBy(s: State, i: Id, x: Id) {
    i in s.invitations && s.invitations[i].status.Accepted? && s.invitations[i].invitee == x
  }

  /** A row that carries an invitation carries one its holder accepted, or is still being dealt with. */
  ghost predicate RowCarries(s: State, x: Id) {
    x in s.rows && s.rows[x] != "" ==> IsAcceptedBy(s, s.rows[x], x) || exists w :: HasPlaced(s, w, x, s.rows[x])
  }

  /**
   An accepted invitation is carried by its holder's row, which no call will take back, unless that row was
   taken away.
   */
  ghost predicate AcceptedOk(s: State, i: Id) {
    i in s.invitations && i != "" && s.invitations[i].status.Accepted? ==>
      var x := s.invitations[i].invitee;
      (x, i) in s.lost || (RowOf(s, x) == Some(i) && forall w :: !HasPlaced(s, w, x, i))
  }

  /**
   Joined: the invitation is the caller's, who has the flag and the row. Otherwise flag and row are as the
   call found them. Flag and row are promised while nobody else has changed them since the call began.
   */
  predicate EndingOk(s: State, w: nat) {
    w in s.endings ==>
      var c, joined := s.endings[w].call, s.endings[w].joined;
      && (joined ==> IsAcceptedBy(s, c.inv, c.caller))
      && (w !in s.spoiled ==>
            if joined then c.caller in s.heads && RowOf(s, c.caller) == Some(c.inv) && c.rowBefore == None
            else (c.caller in s.heads <==> c.wasHead) && RowOf(s, c.caller) == c.rowBefore)
  }

  /** past: the invitations accepted before the run; what became of their rows is not followed. */
  ghost predicate Inv(s: State, past: set<Id>) {
    && (forall w :: CallOk(s, w)) && (forall w :: EndingOk(s, w))
    && (forall x :: RowCarries(s, x)) && (forall i :: i !in past ==> AcceptedOk(s, i))
  }

  // ---- a step of a call ----

  /** s' is s after the next step of a call, told field by field. */
  predicate Took(s: State, who: nat, now: Time, s': State)
    requires who in s.calls
  {
    var c := s.calls[who];
    var e := EffectOf(s, c, now);
    && s'.heads == FlagsAfter(s, c.caller, e.write) && s'.rows == RowsAfter(s, c.caller, c.inv, e.write)
    && s'.lost == LostAfter(s, c.caller, c.inv, e.write) && s'.invitations == AnswersAfter(s, c.inv, e.write)
    && s'.calls == (if e.Goes? then s.calls[who := c.(pc := e.pc)] else s.calls - {who})
    && s'.endings == (if e.Goes? then s.endings else s.endings[who := Ending(c, e.joined)])
    && s'.spoiled == s.spoiled + Spoilt(s, s', Some(who))
    && s'.accounts == s.accounts && s'.members == s.members && s'.activeGyms == s.activeGyms
  }

  lemma StepTakes(s: State, who: nat, now: Time)
    requires who in s.calls
    ensures Took(s, who, now, Step(s, Advance(who, now)))
  {
    assert Spoilt(s, Step(s, Advance(who, now)), Some(who))
           == Spoilt(s, AdvanceCall(s, who, s.calls[who], now), Some(who));
  }

  /** Whom the step does not spoil has flag and row as before. */
  lemma OthersUnspoiled(s: State, who: nat, s': State, w: nat)
    requires s'.spoiled == s.spoiled + Spoilt(s, s', Some(who)) && w != who && w !in s'.spoiled
    ensures w !in s.spoiled && (w in s.calls ==> SameFor(s, s', s.calls[w].caller))
    ensures w in s.endings ==> SameFor(s, s', s.endings[w].call.caller)
  {
  }

  lemma OwnPlacedKept(s: State, who: nat, now: Time, s': State)
    requires who in s.calls && Took(s, who, now, s') && (forall w :: CallOk(s, w)) && who in s'.calls
    ensures PlacedOk(s', who)
  {
    var c := s.calls[who];
    assert CallOk(s, who);
    forall v
      ensures v != who && (c.caller, c.inv) !in s'.lost && Placed(s'.calls[who]) ==> !HasPlaced(s', v, c.caller, c.inv)
    {
      assert CallOk(s, v);
      assert v != who && HasPlaced(s', v, c.caller, c.inv) ==> HasPlaced(s, v, c.caller, c.inv);
    }
  }

  /** A call has its row added after the step if it had before, or adds it now, where there was none. */
  lemma PlacedAfter(s: State, who: nat, now: Time, s': State, v: nat, x: Id, i: Id)
    requires who in s.calls && Took(s, who, now, s') && HasPlaced(s', v, x, i)
    ensures HasPlaced(s, v, x, i) || (v == who && x !in s.rows)
  {
  }

  /** A row goes in a step only if it is the caller's own, or is recorded. */
  lemma RowAfter(s: State, who: nat, now: Time, s': State, x: Id, i: Id)
    requires who in s.calls && Took(s, who, now, s') && RowOf(s, x) == Some(i) && !HasPlaced(s, who, x, i)
    ensures s.lost <= s'.lost && (RowOf(s', x) == Some(i) || (x, i) in s'.lost)
  {
  }

  /** Another call's row: only its caller's own calls write it, and taking it away is recorded. */
  lemma OtherPlacedKept(s: State, who: nat, now: Time, s': State, w: nat)
    requires who in s.calls && Took(s, who, now, s') && CallOk(s, who) && CallOk(s, w) && w in s.calls && w != who
    ensures PlacedOk(s', w)
  {
    var c := s.calls[w];
    assert PlacedOk(s, w);
    if Placed(c) && (c.caller, c.inv) !in s'.lost && (c.caller, c.inv) !in s.lost {
      assert !HasPlaced(s, who, c.caller, c.inv);
      RowAfter(s, who, now, s', c.caller, c.inv);
      forall v | HasPlaced(s', v, c.caller, c.inv)
        ensures v == w
      {
        PlacedAfter(s, who, now, s', v, c.caller, c.inv);
      }
    }
  }

  lemma AdvanceKeepsCall(s: State, who: nat, now: Time, s': State, w: nat)
    requires who in s.calls && Took(s, who, now, s') && (forall v :: CallOk(s, v))
    ensures CallOk(s', w)
  {
    assert CallOk(s, w) && CallOk(s, who);
    if w in s'.calls {
      if w == who {
        OwnPlacedKept(s, who, now, s');
      } else {
        OtherPlacedKept(s, who, now, s', w);
        if w !in s'.spoiled {
          OthersUnspoiled(s, who, s', w);
        }
      }
    }
  }

  /**
   An invitation that is not pending stays as it is; one that becomes accepted is the caller's own, at its
   last step.
   */
  lemma AdvanceAnswers(s: State, who: nat, now: Time, s': State, i: Id)
    requires who in s.calls && Took(s, who, now, s') && CallOk(s, who)
    ensures i in s'.invitations <==> i in s.invitations
    ensures i in s.invitations && !IsPending(s, i) ==> s'.invitations[i] == s.invitations[i]
    ensures IsPending(s, i) && s'.invitations[i].status.Accepted? ==>
              var c := s.calls[who]; i == c.inv && c.pc.Transition? && IsAcceptedBy(s', i, c.caller)
  {
  }

  lemma AdvanceKeepsEnding(s: State, who: nat, now: Time, s': State, w: nat)
    requires who in s.calls && Took(s, who, now, s') && CallOk(s, who) && EndingOk(s, w)
    ensures EndingOk(s', w)
  {
    if w == who {
    } else if w in s.endings {
      AdvanceAnswers(s, who, now, s', s.endings[w].call.inv);
      if w !in s'.spoiled {
        OthersUnspoiled(s, who, s', w);
      }
    }
  }

  /** A call that has added a row either still has it added, or took it back, or answered. */
  lemma PlacedStays(s: State, who: nat, now: Time, s': State, w: nat, x: Id, i: Id)
    requires who in s.calls && Took(s, who, now, s') && CallOk(s, who) && HasPlaced(s, w, x, i)
    ensures HasPlaced(s', w, x, i) || (w == who && (x !in s'.rows || IsAcceptedBy(s', i, x)))
  {
  }

  lemma AdvanceKeepsRow(s: State, who: nat, now: Time, s': State, x: Id)
    requires who in s.calls && Took(s, who, now, s') && CallOk(s, who) && RowCarries(s, x)
    ensures RowCarries(s', x)
  {
    if x in s'.rows && s'.rows[x] != "" {
      var i := s'.rows[x];
      AdvanceAnswers(s, who, now, s', i);
      if RowOf(s, x) != Some(i) {
        assert HasPlaced(s', who, x, i);
      } else if w :| HasPlaced(s, w, x, i) {
        PlacedStays(s, who, now, s', w, x, i);
      }
    }
  }

  /** An invitation accepted just now is carried by the row its call has added, or that row was taken away. */
  lemma JoinedIsCarried(s: State, who: nat, now: Time, s': State, i: Id)
    requires who in s.calls && Took(s, who, now, s') && CallOk(s, who) && IsPending(s, i)
    ensures AcceptedOk(s', i)
  {
    var c := s.calls[who];
    AdvanceAnswers(s, who, now, s', i);
    if s'.invitations[i].status.Accepted? {
      assert s'.calls == s.calls - {who};
      forall w
        ensures HasPlaced(s', w, c.caller, i) ==> w != who && HasPlaced(s, w, c.caller, i)
      {
      }
    }
  }

  lemma AdvanceKeepsAccepted(s: State, who: nat, now: Time, s': State, i: Id)
    requires who in s.calls && Took(s, who, now, s') && CallOk(s, who) && AcceptedOk(s, i) && !IsPending(s, i)
    ensures AcceptedOk(s', i)
  {
    AdvanceAnswers(s, who, now, s', i);
    if WasAccepted(s, i) && i != "" {
      var x := s.invitations[i].invitee;
      assert (x, i) in s.lost || !HasPlaced(s, who, x, i);
      forall w
        ensures (x, i) !in s.lost ==> !HasPlaced(s', w, x, i)
      {
        assert w != who && HasPlaced(s', w, x, i) ==> HasPlaced(s, w, x, i);
      }
    }
  }

  // ---- a step of anybody else ----

  /** Calls and endings stand, except that a call may begin. */
  lemma OutsideCalls(s: State, a: Action, w: nat)
    requires !a.Advance?
    ensures var s' := Step(s, a);
            && (w in s'.endings <==> w in s.endings) && (w in s.endings ==> s'.endings[w] == s.endings[w])
            && (w in s.calls ==> w in s'.calls && s'.calls[w] == s.calls[w])
            && (w in s'.calls && w !in s.calls ==>
                  var c := s'.calls[w];
                  && c.pc.Load? && w !in s.endings && c.caller != "" && c.inv != ""
                  && c.wasHead == (c.caller in s'.heads) && c.rowBefore == RowOf(s', c.caller))
  {
  }

  lemma OutsideSpoils(s: State, a: Action, w: nat)
    requires !a.Advance? && (w in s.calls || w in s.endings) && w !in Step(s, a).spoiled
    requires w in s.endings ==> w !in s.calls
    ensures var s' := Step(s, a);
            && w !in s.spoiled && (w in s.calls ==> SameFor(s, s', s.calls[w].caller))
            && (w in s.endings ==> SameFor(s, s', s.endings[w].call.caller))
  {
    assert Outside(s, a).heads == Step(s, a).heads && Outside(s, a).rows == Step(s, a).rows;
  }

  /** A row goes, and is recorded when it carries an invitation, or an admin adds one where there is none. */
  lemma OutsideRows(s: State, a: Action, x: Id)
    requires !a.Advance?
    ensures var s' := Step(s, a);
            && s.lost <= s'.lost
            && (RowOf(s', x) == RowOf(s, x)
                || (x in s.rows && x !in s'.rows && (s.rows[x] == "" || (x, s.rows[x]) in s'.lost))
                || (x !in s.rows && RowOf(s', x) == Some("")))
  {
  }

  lemma OutsideAnswers(s: State, a: Action, i: Id)
    requires !a.Advance?
    ensures var s' := Step(s, a);
            && (i in s.invitations ==> i in s'.invitations)
            && (i in s'.invitations && s'.invitations[i].status.Accepted? ==>
                  i in s.invitations && s.invitations[i].status.Accepted?)
            && (i in s.invitations && !IsPending(s, i) ==> s'.invitations[i] == s.invitations[i])
  {
  }

  lemma OutsideKeepsPlaced(s: State, a: Action, w: nat)
    requires !a.Advance? && CallOk(s, w) && w in s.calls
    ensures w in Step(s, a).calls && PlacedOk(Step(s, a), w)
  {
    var s', c := Step(s, a), s.calls[w];
    OutsideCalls(s, a, w);
    OutsideRows(s, a, c.caller);
    forall v
      ensures HasPlaced(s', v, c.caller, c.inv) ==> HasPlaced(s, v, c.caller, c.inv)
    {
      OutsideCalls(s, a, v);
    }
  }

  lemma OutsideKeepsCall(s: State, a: Action, w: nat)
    requires !a.Advance? && CallOk(s, w)
    ensures CallOk(Step(s, a), w)
  {
    OutsideCalls(s, a, w);
    if w in s.calls {
      OutsideKeepsPlaced(s, a, w);
      if w !in Step(s, a).spoiled {
        OutsideSpoils(s, a, w);
      }
    }
  }

  lemma OutsideKeepsRow(s: State, a: Action, x: Id)
    requires !a.Advance? && RowCarries(s, x)
    ensures RowCarries(Step(s, a), x)
  {
    var s' := Step(s, a);
    OutsideRows(s, a, x);
    if x in s'.rows && s'.rows[x] != "" {
      OutsideAnswers(s, a, s.rows[x]);
      if w :| HasPlaced(s, w, x, s.rows[x]) {
        OutsideCalls(s, a, w);
        assert HasPlaced(s', w, x, s'.rows[x]);
      }
    }
  }

  lemma OutsideKeepsAccepted(s: State, a: Action, i: Id)
    requires !a.Advance? && AcceptedOk(s, i)
    ensures AcceptedOk(Step(s, a), i)
  {
    var s' := Step(s, a);
    OutsideAnswers(s, a, i);
    if i in s'.invitations && i != "" && s'.invitations[i].status.Accepted? {
      var x := s.invitations[i].invitee;
      OutsideRows(s, a, x);
      forall w
        ensures HasPlaced(s', w, x, i) ==> HasPlaced(s, w, x, i)
      {
        OutsideCalls(s, a, w);
      }
    }
  }

  lemma OutsideKeepsEnding(s: State, a: Action, w: nat)
    requires !a.Advance? && EndingOk(s, w) && CallOk(s, w)
    ensures EndingOk(Step(s, a), w)
  {
    OutsideCalls(s, a, w);
    if w in s.endings {
      OutsideAnswers(s, a, s.endings[w].call.inv);
      if w !in Step(s, a).spoiled {
        OutsideSpoils(s, a, w);
      }
    }
  }
}
