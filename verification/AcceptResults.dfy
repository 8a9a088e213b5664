/** What accepting invitations promises, however the calls interleave with each other and with everything else. */
module AcceptResults {
  import opened Common
  import opened AcceptProtocol

  // ---- what holds of every interleaving ----

  lemma StepKeepsInv(s: State, a: Action, past: set<Id>)
    requires Inv(s, past)
    ensures Inv(Step(s, a), past)
  {
    var s' := Step(s, a);
    forall w
      ensures CallOk(s', w) && EndingOk(s', w)
    {
      assert CallOk(s, w) && EndingOk(s, w);
      if !a.Advance? {
        OutsideKeepsCall(s, a, w);
        OutsideKeepsEnding(s, a, w);
      } else if a.who in s.calls {
        assert CallOk(s, a.who);
        StepTakes(s, a.who, a.now);
        AdvanceKeepsCall(s, a.who, a.now, s', w);
        AdvanceKeepsEnding(s, a.who, a.now, s', w);
      }
    }
    forall x
      ensures RowCarries(s', x)
    {
      assert RowCarries(s, x);
      if !a.Advance? {
        OutsideKeepsRow(s, a, x);
      } else if a.who in s.calls {
        assert CallOk(s, a.who);
        StepTakes(s, a.who, a.now);
        AdvanceKeepsRow(s, a.who, a.now, s', x);
      }
    }
    forall i | i !in past
      ensures AcceptedOk(s', i)
    {
      assert AcceptedOk(s, i);
      if !a.Advance? {
        OutsideKeepsAccepted(s, a, i);
      } else if a.who in s.calls {
        assert CallOk(s, a.who);
        StepTakes(s, a.who, a.now);
        if IsPending(s, i) {
          JoinedIsCarried(s, a.who, a.now, s', i);
        } else {
          AdvanceKeepsAccepted(s, a.who, a.now, s', i);
        }
      }
    }
  }

  lemma {:induction false} RunKeepsInv(s: State, acts: seq<Action>, past: set<Id>)
    requires Inv(s, past)
    ensures Inv(Run(s, acts), past)
    decreases |acts|
  {
    if acts != [] {
      StepKeepsInv(s, acts[0], past);
      RunKeepsInv(Step(s, acts[0]), acts[1..], past);
    }
  }

  /** A seat that carries an invitation carries one its holder accepted; heads that left a gym are no concern here. */
  predicate SeatsAreAccepted(s: State) {
    forall x :: x in s.rows && s.rows[x] != "" ==> IsAcceptedBy(s, s.rows[x], x)
  }

  /**
   All or nothing, from any store nobody is accepting in, however accepts interleave with each other and
   with everything else. A call that joined has accepted its invitation; as long as nobody else has changed
   its caller's flag or row since it began, it has flag and row, and a call that did not join left both as
   it found them. Once no call is in flight, an invitation accepted in the run is accepted by x exactly when
   x holds a gym row carrying it, unless that row was taken away; and no row carries any other invitation.
   */
  lemma AcceptIsAllOrNothing(init: State, acts: seq<Action>)
    requires init.calls == map[] && init.endings == map[] && SeatsAreAccepted(init)
    ensures var s := Run(init, acts);
            && (forall w :: EndingOk(s, w))
            && (s.calls == map[] ==>
                  && SeatsAreAccepted(s)
                  && forall i, x :: i != "" && !WasAccepted(init, i) && (x, i) !in s.lost ==>
                                      (IsAcceptedBy(s, i, x) <==> RowOf(s, x) == Some(i)))
  {
    var past := set i | i in init.invitations && WasAccepted(init, i);
    assert Inv(init, past);
    RunKeepsInv(init, acts, past);
    var s := Run(init, acts);
    forall i, x
      ensures s.calls == map[] && i != "" && !WasAccepted(init, i) && (x, i) !in s.lost ==>
                (IsAcceptedBy(s, i, x) <==> RowOf(s, x) == Some(i))
    {
      assert RowCarries(s, x) && (i !in past ==> AcceptedOk(s, i));
    }
    forall x
      ensures s.calls == map[] && x in s.rows && s.rows[x] != "" ==> IsAcceptedBy(s, s.rows[x], x)
    {
      assert RowCarries(s, x);
    }
  }

  predicate IsCallOf(s: State, w: nat, x: Id) {
    (w in s.calls && s.calls[w].caller == x) || (w in s.endings && s.endings[w].call.caller == x)
  }

  /** x accepts in call who only, and nobody has come in between. */
  ghost predicate LoneCall(s: State, who: nat, x: Id) {
    (forall w :: IsCallOf(s, w, x) ==> w == who) && (IsCallOf(s, who, x) ==> who !in s.spoiled)
  }

  /** The action is no other accept of x, and not one that writes the flag or the row of x. */
  predicate LeavesAlone(a: Action, who: nat, x: Id) {
    match a
    case Begin(w, caller, _) => caller == x ==> w == who
    case FlagChange(h, _) => h != x
    case Release(h) => h != x
    case AdminAdd(h) => h != x
    case AccountChange(id, _) => id != x
    case _ => true
  }

  /**
   An accept whose caller is left alone, whatever anybody else does, ends with the invitation accepted, the
   flag up and the row in place, or with flag and row as it found them.
   */
  lemma LoneAcceptIsAllOrNothing(init: State, acts: seq<Action>, who: nat, x: Id)
    requires init.calls == map[] && init.endings == map[] && SeatsAreAccepted(init)
    requires forall k :: 0 <= k < |acts| ==> LeavesAlone(acts[k], who, x)
    ensures var s := Run(init, acts);
            who in s.endings && s.endings[who].call.caller == x ==>
              var c := s.endings[who].call;
              if s.endings[who].joined
              then IsAcceptedBy(s, c.inv, x) && x in s.heads && RowOf(s, x) == Some(c.inv) && c.rowBefore == None
              else (x in s.heads <==> c.wasHead) && RowOf(s, x) == c.rowBefore
  {
    var past := set i | i in init.invitations && WasAccepted(init, i);
    assert Inv(init, past) && LoneCall(init, who, x);
    AcceptIsAllOrNothing(init, acts);
    RunKeepsLoneCall(init, acts, past, who, x);
    assert EndingOk(Run(init, acts), who);
  }

  /**
   Where nobody leaves or is removed, an invitation accepted in the run and its seat go together without
   exception.
   */
  lemma AcceptedIsSeated(init: State, acts: seq<Action>)
    requires init.calls == map[] && init.endings == map[] && SeatsAreAccepted(init) && init.lost == {}
    requires forall k :: 0 <= k < |acts| ==> !acts[k].Release?
    ensures var s := Run(init, acts);
            s.calls == map[] ==>
              forall i, x :: i != "" && !WasAccepted(init, i) ==> (IsAcceptedBy(s, i, x) <==> RowOf(s, x) == Some(i))
  {
    assert Inv(init, set i | i in init.invitations && WasAccepted(init, i));
    AcceptIsAllOrNothing(init, acts);
    OnlyReleasesLose(init, acts, set i | i in init.invitations && WasAccepted(init, i));
  }

  /** A status other than pending is final: nothing any run does changes that invitation again. */
  lemma {:induction false} AnsweredIsFinal(s: State, acts: seq<Action>, i: Id)
    requires i in s.invitations && !IsPending(s, i)
    ensures i in Run(s, acts).invitations && Run(s, acts).invitations[i] == s.invitations[i]
    decreases |acts|
  {
    if acts != [] {
      StepKeepsAnswer(s, acts[0], i);
      AnsweredIsFinal(Step(s, acts[0]), acts[1..], i);
    }
  }

  // ---- seats and flags ----

  predicate SeatsAreFlagged(s: State) {
    forall x :: x in s.rows ==> x in s.heads
  }

  /** What an accept does not test: the flag is up as it adds the row, and there is no row as it takes the flag back. */
  predicate SeatGuard(s: State, c: Call) {
    && (c.pc.AddRow? && c.caller !in s.rows ==> c.caller in s.heads)
    && (c.pc.UndoFlag? && !c.wasHead ==> c.caller !in s.rows)
  }

  /** A step of an accept leaves every seat with a flagged head coach exactly under that guard. */
  lemma SeatGuardIsExact(s: State, who: nat, now: Time)
    requires SeatsAreFlagged(s) && who in s.calls
    ensures SeatsAreFlagged(Step(s, Advance(who, now))) <==> SeatGuard(s, s.calls[who])
  {
    var s', c := Step(s, Advance(who, now)), s.calls[who];
    StepTakes(s, who, now);
    SeatOfCaller(s, who, now, s');
    forall x | x != c.caller
      ensures (x in s'.rows <==> x in s.rows) && (x in s'.heads <==> x in s.heads)
    {
    }
  }

  /** It always holds for a call whose caller's flag and row nobody else has changed. */
  lemma LoneCallsAreGuarded(s: State, who: nat, past: set<Id>)
    requires Inv(s, past) && who in s.calls && who !in s.spoiled
    ensures SeatGuard(s, s.calls[who])
  {
    assert CallOk(s, who);
  }

  lemma SeatOfCaller(s: State, who: nat, now: Time, s': State)
    requires SeatsAreFlagged(s) && who in s.calls && Took(s, who, now, s')
    ensures var c := s.calls[who]; (c.caller in s'.rows ==> c.caller in s'.heads) <==> SeatGuard(s, c)
  {
    var c := s.calls[who];
    var w := EffectOf(s, c, now).write;
    assert c.pc.AddRow? && c.caller !in s.rows <==> w.Place?;
    assert c.pc.UndoFlag? && !c.wasHead <==> w == Flag(false);
  }

  // ---- rows taken away, and callers left alone ----

  lemma StepLosesNothing(s: State, a: Action, past: set<Id>)
    requires Inv(s, past) && s.lost == {} && !a.Release?
    ensures Step(s, a).lost == {}
  {
    if a.Advance? && a.who in s.calls {
      assert CallOk(s, a.who);
      assert PlacedOk(s, a.who);
      StepTakes(s, a.who, a.now);
    }
  }

  /** An accept undoes its own row only, as long as nobody else takes rows away. */
  lemma {:induction false} OnlyReleasesLose(s: State, acts: seq<Action>, past: set<Id>)
    requires Inv(s, past) && s.lost == {} && forall k :: 0 <= k < |acts| ==> !acts[k].Release?
    ensures Run(s, acts).lost == {}
    decreases |acts|
  {
    if acts != [] {
      StepLosesNothing(s, acts[0], past);
      StepKeepsInv(s, acts[0], past);
      OnlyReleasesLose(Step(s, acts[0]), acts[1..], past);
    }
  }

  lemma OutsideLeavesAlone(s: State, a: Action, who: nat, x: Id)
    requires !a.Advance? && LeavesAlone(a, who, x)
    ensures SameFor(s, Step(s, a), x)
  {
  }

  /** A new call is not spoiled, nor is one whose caller keeps flag and row. */
  lemma OutsideSpares(s: State, a: Action, w: nat, x: Id)
    requires !a.Advance? && SameFor(s, Step(s, a), x) && IsCallOf(Step(s, a), w, x) && CallOk(s, w)
    requires IsCallOf(s, w, x) ==> w !in s.spoiled
    ensures w !in Step(s, a).spoiled
  {
    OutsideCalls(s, a, w);
  }

  lemma OutsideKeepsLone(s: State, a: Action, who: nat, x: Id)
    requires LoneCall(s, who, x) && LeavesAlone(a, who, x) && CallOk(s, who) && !a.Advance?
    ensures LoneCall(Step(s, a), who, x)
  {
    var s' := Step(s, a);
    OutsideLeavesAlone(s, a, who, x);
    forall w
      ensures IsCallOf(s', w, x) ==> w == who
    {
      OutsideCalls(s, a, w);
      assert IsCallOf(s, w, x) ==> w == who;
    }
    if IsCallOf(s', who, x) {
      OutsideSpares(s, a, who, x);
    }
  }

  lemma AdvanceKeepsLone(s: State, mover: nat, now: Time, s': State, who: nat, x: Id)
    requires LoneCall(s, who, x) && mover in s.calls && Took(s, mover, now, s') && CallOk(s, who)
    ensures LoneCall(s', who, x)
  {
    assert s.calls[mover].caller == x ==> IsCallOf(s, mover, x);
    forall w
      ensures IsCallOf(s', w, x) ==> IsCallOf(s, w, x)
    {
    }
    if mover != who {
      assert SameFor(s, s', x);
    }
  }

  lemma StepKeepsLoneCall(s: State, a: Action, who: nat, x: Id)
    requires LoneCall(s, who, x) && LeavesAlone(a, who, x) && CallOk(s, who)
    ensures LoneCall(Step(s, a), who, x)
  {
    if !a.Advance? {
      OutsideKeepsLone(s, a, who, x);
    } else if a.who in s.calls {
      StepTakes(s, a.who, a.now);
      AdvanceKeepsLone(s, a.who, a.now, Step(s, a), who, x);
    }
  }

  lemma {:induction false} RunKeepsLoneCall(s: State, acts: seq<Action>, past: set<Id>, who: nat, x: Id)
    requires Inv(s, past) && LoneCall(s, who, x) && forall k :: 0 <= k < |acts| ==> LeavesAlone(acts[k], who, x)
    ensures LoneCall(Run(s, acts), who, x)
    decreases |acts|
  {
    if acts != [] {
      assert CallOk(s, who);
      StepKeepsLoneCall(s, acts[0], who, x);
      StepKeepsInv(s, acts[0], past);
      RunKeepsLoneCall(Step(s, acts[0]), acts[1..], past, who, x);
    }
  }

  lemma StepKeepsAnswer(s: State, a: Action, i: Id)
    requires i in s.invitations && !IsPending(s, i)
    ensures i in Step(s, a).invitations && Step(s, a).invitations[i] == s.invitations[i]
  {
    if !a.Advance? {
      OutsideAnswers(s, a, i);
    } else if a.who in s.calls {
      StepTakes(s, a.who, a.now);
    }
  }
}
