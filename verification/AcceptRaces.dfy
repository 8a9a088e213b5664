/** Two accepts of one newcomer at once. */
module AcceptRaces {
  import opened Common
  import opened AcceptProtocol

  /** x may accept i: an account outside every team and gym, and a pending invitation to an active gym. */
  predicate MayJoin(s: State, x: Id, i: Id, now: Time) {
    && x in s.accounts && x !in s.members && x !in s.rows && x != ""
    && i != "" && IsPending(s, i) && s.invitations[i].expiresAt > now && s.invitations[i].gym in s.activeGyms
  }

  /**
   The guard is needed, for every newcomer with two invitations that can be accepted, or with one accepted
   twice at once: the accept that comes second to the row takes back the flag that the first one relies on.
   */
  lemma ParallelAcceptsCanUnflag(init: State, x: Id, i: Id, j: Id, now: Time) returns (acts: seq<Action>)
    requires init.calls == map[] && init.endings == map[] && x !in init.heads
    requires MayJoin(init, x, i, now) && MayJoin(init, x, j, now)
    ensures var s := Run(init, acts);
            s.calls == map[] && RowOf(s, x) == Some(i) && IsAcceptedBy(s, i, x) && x !in s.heads
  {
    var s, race := init, [Advance(1, now), Advance(2, now)];
    acts, s := BothGetToAddRow(init, x, i, j, now);
    s := FirstAdds(s, x, i, j, now);
    RunAppend(init, acts, race);
    RunAppend(init, acts + race, race);
    s := SecondUndoes(s, x, i, j, now);
    acts := acts + race + race;
  }

  /** A call of x at pc, begun before x had flag or row. */
  predicate StandsAt(s: State, who: nat, x: Id, i: Id, pc: Pc) {
    who in s.calls && s.calls[who] == Call(x, i, false, None, pc)
  }

  /** The way to AddRow. */
  function StepsLeft(pc: Pc): nat {
    match pc
    case Load => 6
    case CheckMember => 5
    case CheckGym => 4
    case CheckActive => 3
    case SetFlag => 2
    case RecheckMember => 1
    case _ => 0
  }

  lemma {:induction false} RunAppend(s: State, xs: seq<Action>, ys: seq<Action>)
    ensures Run(s, xs + ys) == Run(Run(s, xs), ys)
    decreases |xs|
  {
    if xs == [] {
      assert xs + ys == ys;
    } else {
      assert (xs + ys)[1..] == xs[1..] + ys;
      RunAppend(Step(s, xs[0]), xs[1..], ys);
    }
  }

  /** Left to itself, it gets there. */
  lemma {:induction false} GetsToAddRow(s: State, who: nat, x: Id, i: Id, j: Id, pc: Pc,
                                        now: Time) returns (acts: seq<Action>, s': State)
    requires StandsAt(s, who, x, i, pc) && StepsLeft(pc) > 0 && (pc.RecheckMember? ==> x in s.heads)
    requires MayJoin(s, x, i, now) && MayJoin(s, x, j, now)
    ensures s' == Run(s, acts) && s'.calls == s.calls[who := Call(x, i, false, None, AddRow)]
    ensures MayJoin(s', x, i, now) && MayJoin(s', x, j, now)
    decreases StepsLeft(pc)
  {
    var a := Advance(who, now);
    acts, s' := [], Step(s, a);
    if StepsLeft(pc) > 1 {
      acts, s' := GetsToAddRow(s', who, x, i, j, s'.calls[who].pc, now);
    }
    assert ([a] + acts)[1..] == acts;
    acts := [a] + acts;
  }

  lemma BothGetToAddRow(init: State, x: Id, i: Id, j: Id, now: Time) returns (acts: seq<Action>, s: State)
    requires init.calls == map[] && init.endings == map[] && x !in init.heads
    requires MayJoin(init, x, i, now) && MayJoin(init, x, j, now)
    ensures s == Run(init, acts) && MayJoin(s, x, i, now)
    ensures s.calls == map[1 := Call(x, i, false, None, AddRow), 2 := Call(x, j, false, None, AddRow)]
  {
    var first, second;
    acts := [Begin(1, x, i), Begin(2, x, j)];
    s := BothBegin(init, x, i, j, now);
    first, s := GetsToAddRow(s, 1, x, i, j, Load, now);
    RunAppend(init, acts, first);
    acts := acts + first;
    second, s := GetsToAddRow(s, 2, x, j, i, Load, now);
    RunAppend(init, acts, second);
    acts := acts + second;
  }

  lemma RunPair(s: State, a: Action, b: Action)
    ensures Run(s, [a, b]) == Step(Step(s, a), b)
  {
    assert [a, b][1..] == [b];
    assert Run(Step(s, a), [b]) == Step(Step(s, a), b);
  }

  lemma BothBegin(init: State, x: Id, i: Id, j: Id, now: Time) returns (s: State)
    requires init.calls == map[] && init.endings == map[] && x !in init.heads
    requires MayJoin(init, x, i, now) && MayJoin(init, x, j, now)
    ensures s == Run(init, [Begin(1, x, i), Begin(2, x, j)])
    ensures s.calls == map[1 := Call(x, i, false, None, Load), 2 := Call(x, j, false, None, Load)]
    ensures MayJoin(s, x, i, now) && MayJoin(s, x, j, now)
  {
    RunPair(init, Begin(1, x, i), Begin(2, x, j));
    s := Step(Step(init, Begin(1, x, i)), Begin(2, x, j));
  }

  lemma FirstAdds(s: State, x: Id, i: Id, j: Id, now: Time) returns (s2: State)
    requires s.calls == map[1 := Call(x, i, false, None, AddRow), 2 := Call(x, j, false, None, AddRow)]
    requires MayJoin(s, x, i, now)
    ensures s2 == Run(s, [Advance(1, now), Advance(2, now)])
    ensures s2.calls == map[1 := Call(x, i, false, None, Transition), 2 := Call(x, j, false, None, UndoFlag)]
    ensures RowOf(s2, x) == Some(i) && IsPending(s2, i) && x != ""
  {
    var s1 := Step(s, Advance(1, now));
    StepTakes(s, 1, now);
    assert s1.calls == map[1 := Call(x, i, false, None, Transition), 2 := Call(x, j, false, None, AddRow)];
    s2 := Step(s1, Advance(2, now));
    StepTakes(s1, 2, now);
    RunPair(s, Advance(1, now), Advance(2, now));
  }

  lemma FirstJoins(s: State, x: Id, i: Id, j: Id, now: Time)
    requires s.calls == map[1 := Call(x, i, false, None, Transition), 2 := Call(x, j, false, None, UndoFlag)]
    requires RowOf(s, x) == Some(i) && IsPending(s, i) && x != ""
    ensures var s' := Step(s, Advance(1, now));
            s'.calls == map[2 := Call(x, j, false, None, UndoFlag)] && RowOf(s', x) == Some(i) && IsAcceptedBy(s', i, x)
  {
    StepTakes(s, 1, now);
  }

  lemma SecondUndoes(s: State, x: Id, i: Id, j: Id, now: Time) returns (s2: State)
    requires s.calls == map[1 := Call(x, i, false, None, Transition), 2 := Call(x, j, false, None, UndoFlag)]
    requires RowOf(s, x) == Some(i) && IsPending(s, i) && x != ""
    ensures s2 == Run(s, [Advance(1, now), Advance(2, now)])
    ensures s2.calls == map[] && RowOf(s2, x) == Some(i) && IsAcceptedBy(s2, i, x) && x !in s2.heads
  {
    var s1 := Step(s, Advance(1, now));
    FirstJoins(s, x, i, j, now);
    s2 := Step(s1, Advance(2, now));
    StepTakes(s1, 2, now);
    assert s2.calls == map[];
    RunPair(s, Advance(1, now), Advance(2, now));
  }
}
