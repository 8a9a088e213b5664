/**
 The guess budget when a guess is counted at one instant and its lock or clear lands at a later one, with
 anything in between.
 */
module LateWrites {
  import opened Common
  import opened Activation
  import opened CodeRuns

  /** With nothing in between, a try and its landing are the whole guess. */
  lemma TryAndLandAreVerify(s: System, who: nat, at: Time, given: string)
    requires who !in s.writes
    ensures var s' := Step(Step(s, Try(at, who, given, at)), Land(at, who));
            s'.doc == Step(s, Verify(at, given)).doc && s'.writes == s.writes && s'.pending == s.pending
    ensures Compares(s, Try(at, who, given, at)) <==> Compares(s, Verify(at, given))
    ensures IsRight(s, Try(at, who, given, at)) <==> IsRight(s, Verify(at, given))
  {
  }

  // ---- every lock lands soon enough ----

  /** A lock lands no later than delay after the clock reading it counts from. */
  predicate IsPrompt(s: System, e: Event, delay: int) {
    e.Land? && e.who in s.writes && s.writes[e.who].LateLock? ==> e.at <= s.writes[e.who].until - CODE_LOCKOUT + delay
  }

  predicate AllPrompt(s: System, es: seq<Event>, delay: int)
    decreases |es|
  {
    es == [] || (IsPrompt(s, es[0], delay) && AllPrompt(Step(s, es[0]), es[1..], delay))
  }

  // ---- refills are a lockout less the delay apart ----

  /** from is when the next refill may come, if a lock that lands late does not come first. */
  predicate WaitsFor(s: System, p: Pending, from: Time) {
    match p
    case Loaded(d) => d.LastIssued() == s.doc.LastIssued() && d.lockedUntil != ZERO_TIME ==> d.lockedUntil >= from
    case Planned(prev, plan, _, _) =>
      prev == s.doc.LastIssued() && plan.resetAttempts ==> plan.next.lastIssuedAt >= from
  }

  ghost predicate NoRefillBefore(s: System, from: Time) {
    && (s.doc.lockedUntil != ZERO_TIME ==> s.doc.lockedUntil >= from)
    && forall who :: who in s.pending ==> WaitsFor(s, s.pending[who], from)
  }

  /** The instant from which a refill is possible again after one at `at`. */
  function NextRefill(at: Time, delay: int): Time {
    at + CODE_LOCKOUT - delay
  }

  lemma StepKeepsNoRefill(s: System, e: Event, from: Time, delay: int)
    requires Inv(s) && NoRefillBefore(s, from) && s.now <= e.at && IsPrompt(s, e, delay)
             && from <= NextRefill(e.at, delay)
    requires !Refills(s, e) && delay >= 0
    ensures NoRefillBefore(Step(s, e), from)
  {
    var s' := Step(s, e);
    if Succeeds(s, e) {
      assert PendingOk(s, s.pending[e.who]);
    }
    forall who | who in s'.pending
      ensures WaitsFor(s', s'.pending[who], from)
    {
      assert who in s.pending ==> PendingOk(s, s.pending[who]) && WaitsFor(s, s.pending[who], from);
    }
  }

  /** A refill comes no earlier, and the next one a lockout less the delay later. */
  lemma RefillStarts(s: System, e: Event, from: Time, delay: int)
    requires Inv(s) && NoRefillBefore(s, from) && s.now <= e.at && Refills(s, e)
    ensures e.at >= from && NoRefillBefore(Step(s, e), NextRefill(e.at, delay))
  {
    var s' := Step(s, e);
    assert PendingOk(s, s.pending[e.who]) && WaitsFor(s, s.pending[e.who], from);
    forall who | who in s'.pending
      ensures WaitsFor(s', s'.pending[who], NextRefill(e.at, delay))
    {
      assert PendingOk(s, s.pending[who]);
    }
  }

  function RefillCount(s: System, es: seq<Event>): nat
    decreases |es|
  {
    if es == [] then 0 else (if Refills(s, es[0]) then 1 else 0) + RefillCount(Step(s, es[0]), es[1..])
  }

  /** Refills of a run inside [b, end], none of which comes before from. */
  lemma {:induction false} RefillsAreApart(s: System, es: seq<Event>, from: Time, b: Time, end: Time, delay: int)
    requires Inv(s) && NoRefillBefore(s, from) && Ordered(s.now, es) && AllPrompt(s, es, delay)
    requires 0 <= delay < CODE_LOCKOUT && from <= NextRefill(s.now, delay)
    requires (es != [] ==> b <= es[0].at) && forall i :: 0 <= i < |es| ==> es[i].at <= end
    ensures RefillCount(s, es) > 0 ==> (RefillCount(s, es) - 1) * (CODE_LOCKOUT - delay) <= end - Max(from, b)
    decreases |es|
  {
    if es != [] {
      var e, s', rest := es[0], Step(s, es[0]), es[1..];
      assert forall i :: 0 <= i < |rest| ==> rest[i] == es[i + 1];
      StepKeepsInv(s, e);
      if Refills(s, e) {
        RefillStarts(s, e, from, delay);
        RefillsAreApart(s', rest, NextRefill(e.at, delay), e.at, end, delay);
        OneMoreRefill(RefillCount(s', rest), e.at, end, delay);
      } else {
        StepKeepsNoRefill(s, e, from, delay);
        RefillsAreApart(s', rest, from, e.at, end, delay);
      }
    }
  }

  lemma OneMoreRefill(n: nat, at: Time, end: Time, delay: int)
    requires at <= end && 0 <= delay < CODE_LOCKOUT
    requires n > 0 ==> (n - 1) * (CODE_LOCKOUT - delay) <= end - Max(NextRefill(at, delay), at)
    ensures n * (CODE_LOCKOUT - delay) <= end - at
  {
    if n > 0 {
      assert n * (CODE_LOCKOUT - delay) == (n - 1) * (CODE_LOCKOUT - delay) + CODE_LOCKOUT - delay;
    }
  }

  // ---- guesses between refills and clears ----

  /** The event resets the attempts after a right guess: with the guess itself, or by a clear that lands. */
  predicate Clears(s: System, e: Event) {
    (e.Verify? && IsRight(s, e)) || (e.Land? && e.who in s.writes && s.writes[e.who].LateClear?)
  }

  function ClearCount(s: System, es: seq<Event>): nat
    decreases |es|
  {
    if es == [] then 0 else (if Clears(s, es[0]) then 1 else 0) + ClearCount(Step(s, es[0]), es[1..])
  }

  /** Every live guess costs one of the five attempts of a refill, a clear or the start. */
  lemma {:induction false} GuessesArePaid(s: System, es: seq<Event>)
    requires Inv(s) && Ordered(s.now, es)
    ensures Guesses(s, es) + Min(MAX_CODE_ATTEMPTS, s.doc.attempts)
            <= MAX_CODE_ATTEMPTS * (1 + RefillCount(s, es) + ClearCount(s, es))
    decreases |es|
  {
    if es != [] {
      StepKeepsInv(s, es[0]);
      GuessesArePaid(Step(s, es[0]), es[1..]);
    }
  }

  /** The right guesses whose clear is still to land. */
  function ClearsToLand(s: System): set<nat> {
    set who | who in s.writes && s.writes[who].LateClear?
  }

  lemma ClearLands(s: System, e: Event)
    requires e.Land? && e.who in s.writes
    ensures ClearsToLand(Step(s, e)) == ClearsToLand(s) - {e.who} && (Clears(s, e) <==> e.who in ClearsToLand(s))
  {
    assert Step(s, e).writes == s.writes - {e.who};
  }

  lemma ClearIsPromised(s: System, e: Event)
    requires e.Try? && e.who !in s.writes
    ensures ClearsToLand(Step(s, e)) == if IsRight(s, e) then ClearsToLand(s) + {e.who} else ClearsToLand(s)
    ensures e.who !in ClearsToLand(s)
  {
    var after := Follows(s, e);
    assert Step(s, e).writes == if after.Some? then s.writes[e.who := after.value] else s.writes;
  }

  lemma ClearIsOwed(s: System, e: Event)
    ensures |ClearsToLand(Step(s, e))| + (if Clears(s, e) then 1 else 0)
            <= |ClearsToLand(s)| + (if IsRight(s, e) then 1 else 0)
  {
    if e.Land? && e.who in s.writes {
      ClearLands(s, e);
    } else if e.Try? && e.who !in s.writes {
      ClearIsPromised(s, e);
    } else {
      assert Step(s, e).writes == s.writes;
    }
  }

  lemma {:induction false} ClearsAreRightGuesses(s: System, es: seq<Event>)
    ensures ClearCount(s, es) <= |ClearsToLand(s)| + Rights(s, es)
    decreases |es|
  {
    if es != [] {
      ClearIsOwed(s, es[0]);
      ClearsAreRightGuesses(Step(s, es[0]), es[1..]);
    }
  }

  // ---- the budget ----

  lemma {:induction false} RunKeepsNoRefill(s: System, es: seq<Event>, from: Time, delay: int) returns (from': Time)
    requires Inv(s) && NoRefillBefore(s, from) && Ordered(s.now, es) && AllPrompt(s, es, delay)
    requires 0 <= delay < CODE_LOCKOUT && from <= NextRefill(s.now, delay)
    ensures Inv(Run(s, es)) && NoRefillBefore(Run(s, es), from') && from' <= NextRefill(Run(s, es).now, delay)
    decreases |es|
  {
    from' := from;
    if es != [] {
      var e := es[0];
      StepKeepsInv(s, e);
      if Refills(s, e) {
        RefillStarts(s, e, from, delay);
        from' := NextRefill(e.at, delay);
      } else {
        StepKeepsNoRefill(s, e, from, delay);
      }
      from' := RunKeepsNoRefill(Step(s, e), es[1..], from', delay);
    }
  }

  lemma LessTimes(k: int, m: int, apart: int)
    requires m <= k && apart > 0
    ensures m * apart <= k * apart
  {
    assert k * apart == m * apart + (k - m) * apart;
  }

  lemma RefillBound(n: int, length: int, apart: int)
    requires apart > 0 && length >= 0 && (n > 0 ==> (n - 1) * apart <= length)
    ensures n <= length / apart + 1
  {
    var m := length / apart + 1;
    assert m * apart == length / apart * apart + apart;
    assert length < m * apart;
    if n - 1 >= m {
      LessTimes(n - 1, m, apart);
    }
  }

  /**
   In any window of length L, after any history from any document, with locks that land within delay: at
   most five live guesses for each L / (15 min - delay), plus ten, plus five for each right guess of the
   window or still owed its clear as the window starts. Regenerations may take as long as they like.
   */
  lemma LateGuessBudget(init: System, before: seq<Event>, window: seq<Event>, start: Time, length: nat, delay: int)
    requires Init(init) && 0 <= delay < 15 * MINUTE
    requires Ordered(init.now, before) && Run(init, before).now <= start && Ordered(start, window)
    requires AllPrompt(init, before, delay) && AllPrompt(Run(init, before), window, delay)
    requires forall i :: 0 <= i < |window| ==> window[i].at <= start + length
    ensures var s := Run(init, before);
            Guesses(s, window)
            <= 5 * (length / (15 * MINUTE - delay) + 2 + |ClearsToLand(s)| + Rights(s, window))
  {
    var s := Run(init, before);
    var from := Min(init.doc.lockedUntil, init.now);
    from := RunKeepsNoRefill(init, before, from, delay);
    RefillsAreApart(s, window, from, start, start + length, delay);
    RefillBound(RefillCount(s, window), length, CODE_LOCKOUT - delay);
    GuessesArePaid(s, window);
    ClearsAreRightGuesses(s, window);
  }

  // ---- the bound is reached ----

  lemma {:induction false} CountsAppend(s: System, xs: seq<Event>, ys: seq<Event>)
    ensures Guesses(s, xs + ys) == Guesses(s, xs) + Guesses(Run(s, xs), ys)
    ensures Rights(s, xs + ys) == Rights(s, xs) + Rights(Run(s, xs), ys)
    decreases |xs|
  {
    if xs == [] {
      assert xs + ys == ys;
    } else {
      assert (xs + ys)[1..] == xs[1..] + ys;
      CountsAppend(Step(s, xs[0]), xs[1..], ys);
    }
  }

  /** All events at one instant, and none of them a landing. */
  predicate AllAt(es: seq<Event>, t: Time) {
    forall i :: 0 <= i < |es| ==> es[i].at == t && !es[i].Land?
  }

  lemma {:induction false} AtOnce(s: System, es: seq<Event>, t: Time)
    requires s.now <= t && AllAt(es, t)
    ensures Ordered(s.now, es) && AllPrompt(s, es, 0) && Run(s, es).now <= t
    decreases |es|
  {
    if es != [] {
      assert AllAt(es[1..], t);
      AtOnce(Step(s, es[0]), es[1..], t);
    }
  }

  /** n wrong guesses, as calls from first on. */
  function Misses(t: Time, first: nat, n: nat): seq<Event>
    decreases n
  {
    if n == 0 then [] else [Try(t, first, "bad", t)] + Misses(t, first + 1, n - 1)
  }

  lemma {:induction false} MissesMeetTheCode(s: System, t: Time, first: nat, n: nat)
    requires 0 <= s.doc.attempts && s.doc.attempts + n <= MAX_CODE_ATTEMPTS
    requires s.doc.code !in {"", "bad"} && s.doc.expiry > t && (forall w :: w in s.writes ==> w < first)
    requires forall w :: w in s.writes ==> s.writes[w].LateLock?
    ensures var es := Misses(t, first, n);
            var s' := Run(s, es);
            && AllAt(es, t) && Guesses(s, es) == n && Rights(s, es) == 0
            && s'.doc == s.doc.(attempts := s.doc.attempts + n) && s'.pending == s.pending
            && (forall w :: w in s'.writes ==> w < first + n && s'.writes[w].LateLock?)
    decreases n
  {
    if n > 0 {
      var e := Try(t, first, "bad", t);
      assert Misses(t, first, n)[1..] == Misses(t, first + 1, n - 1);
      MissesMeetTheCode(Step(s, e), t, first + 1, n - 1);
    }
  }

  /** One account's budget before it all: a code with three wrong guesses counted, and no lockout. */
  function Fresh(): System {
    System(CodeDoc("x", 2 * HOUR, 3, ZERO_TIME, None, ZERO_TIME, 0), map[], map[], 1, [], 0, 0)
  }

  /** A right guess and a wrong one are counted; a regeneration is planned; then clear, lock and store land. */
  function Crossing(): seq<Event> {
    [Try(1, 1, "x", 1), Try(1, 2, "bad", 1), Load(1, 0), Plan(1, 0, "y", HOUR)] + [Land(1, 1), Land(1, 2), Store(1, 0)]
  }

  lemma RunFour(s: System, a: Event, b: Event, c: Event, d: Event)
    ensures Run(s, [a, b, c, d]) == Step(Step(Step(Step(s, a), b), c), d)
  {
    RunThree(Step(s, a), b, c, d);
    assert [a, b, c, d][1..] == [b, c, d];
  }

  lemma RunThree(s: System, a: Event, b: Event, c: Event)
    ensures Run(s, [a, b, c]) == Step(Step(Step(s, a), b), c)
  {
    assert [a, b, c][1..] == [b, c] && [b, c][1..] == [c];
    assert Run(Step(Step(s, a), b), [c]) == Step(Step(Step(s, a), b), c);
    assert Run(Step(s, a), [b, c]) == Run(Step(Step(s, a), b), [c]);
  }

  /** Up to the plan: the copy is not locked, and both writes are still to land. */
  lemma CrossingBegins()
    ensures var s := Run(Fresh(), Crossing()[..4]);
            && s.now == 1 && s.doc == CodeDoc("x", 2 * HOUR, 5, ZERO_TIME, None, ZERO_TIME, 0) && s.issued == []
            && s.writes == map[1 := LateClear, 2 := LateLock(1 + CODE_LOCKOUT)]
            && s.pending == map[0 := Planned(ZERO_TIME, PlanResult(CodeBudget(1, 1, 1, ZERO_TIME), false, true), "y",
                                             1 + HOUR)]
  {
    var s0 := Fresh();
    var s1 := Step(s0, Try(1, 1, "x", 1));
    assert s1.writes == map[1 := LateClear];
    var s2 := Step(s1, Try(1, 2, "bad", 1));
    assert s2.writes == map[1 := LateClear, 2 := LateLock(1 + CODE_LOCKOUT)] && s2.doc.attempts == 5;
    var s3 := Step(s2, Load(1, 0));
    assert s3.pending == map[0 := Loaded(s2.doc)] && s3.doc == s2.doc;
    assert Crossing()[..4] == [Try(1, 1, "x", 1), Try(1, 2, "bad", 1), Load(1, 0), Plan(1, 0, "y", HOUR)];
    RunFour(s0, Crossing()[0], Crossing()[1], Crossing()[2], Crossing()[3]);
  }

  /** Afterwards a live code stands beside a running lockout, with its five attempts. */
  lemma CrossingEnds()
    ensures var s := Run(Fresh(), Crossing());
            && s.now == 1 && s.doc == CodeDoc("y", 1 + HOUR, 0, 1 + CODE_LOCKOUT, Some(1), 1, 1)
            && s.writes == map[] && s.pending == map[]
  {
    CrossingBegins();
    var s4 := Run(Fresh(), Crossing()[..4]);
    assert Crossing() == Crossing()[..4] + [Land(1, 1), Land(1, 2), Store(1, 0)];
    RunAppend(Fresh(), Crossing()[..4], [Land(1, 1), Land(1, 2), Store(1, 0)]);
    RunThree(s4, Land(1, 1), Land(1, 2), Store(1, 0));
    var s5 := Step(s4, Land(1, 1));
    assert s5.writes == map[2 := LateLock(1 + CODE_LOCKOUT)];
    var s6 := Step(s5, Land(1, 2));
    assert s6.writes == map[] && s6.doc == CodeDoc("", 2 * HOUR, 0, 1 + CODE_LOCKOUT, None, ZERO_TIME, 0);
    var s7 := Step(s6, Store(1, 0));
    assert s7.pending == map[];
  }

  lemma CrossingIsPrompt()
    ensures Ordered(1, Crossing()) && AllPrompt(Fresh(), Crossing(), 0)
  {
  }

  /** An issue at once: the lockout is just over, and the attempts are reset. */
  function Reissue(t: Time): seq<Event> {
    [Load(t, 0), Plan(t, 0, "z", HOUR), Store(t, 0)]
  }

  predicate NoGuess(es: seq<Event>) {
    forall i :: 0 <= i < |es| ==> es[i].Load? || es[i].Plan? || es[i].Store?
  }

  lemma {:induction false} NoGuessCounts(s: System, es: seq<Event>)
    requires NoGuess(es)
    ensures Guesses(s, es) == 0 && Rights(s, es) == 0
    decreases |es|
  {
    if es != [] {
      NoGuessCounts(Step(s, es[0]), es[1..]);
    }
  }

  lemma ReissueRefills(s: System, t: Time)
    requires s.pending == map[] && t == 1 + CODE_LOCKOUT
    requires s.doc == CodeDoc("y", 1 + HOUR, 5, t, Some(1), 1, 1)
    ensures var s' := Run(s, Reissue(t));
            s'.doc == CodeDoc("z", t + HOUR, 0, ZERO_TIME, Some(t), 1, 2) && s'.writes == s.writes
    ensures AllAt(Reissue(t), t) && Guesses(s, Reissue(t)) == 0 && Rights(s, Reissue(t)) == 0
  {
    NoGuessCounts(s, Reissue(t));
    RunThree(s, Load(t, 0), Plan(t, 0, "z", HOUR), Store(t, 0));
    var s1 := Step(s, Load(t, 0));
    assert s1.pending == map[0 := Loaded(s.doc)];
    var s2 := Step(s1, Plan(t, 0, "z", HOUR));
    assert s2.pending[0] == Planned(1, PlanResult(CodeBudget(t, 1, 2, ZERO_TIME), true, true), "z", t + HOUR);
  }

  /** Five guesses, the refill, five guesses. */
  function TenGuesses(t: Time): seq<Event> {
    Misses(t, 1, 5) + (Reissue(t) + Misses(t, 6, 5))
  }

  lemma TenGuessesCount(s: System, t: Time)
    requires s.writes == map[] && s.pending == map[] && t == 1 + CODE_LOCKOUT
    requires s.doc == CodeDoc("y", 1 + HOUR, 0, t, Some(1), 1, 1)
    ensures AllAt(TenGuesses(t), t) && Guesses(s, TenGuesses(t)) == 2 * MAX_CODE_ATTEMPTS
            && Rights(s, TenGuesses(t)) == 0
  {
    MissesMeetTheCode(s, t, 1, 5);
    var s1 := Run(s, Misses(t, 1, 5));
    ReissueRefills(s1, t);
    MissesMeetTheCode(Run(s1, Reissue(t)), t, 6, 5);
    CountsAppend(s, Misses(t, 1, 5), Reissue(t) + Misses(t, 6, 5));
    CountsAppend(s1, Reissue(t), Misses(t, 6, 5));
  }

  /**
   Ten live guesses at one instant, no right one, nothing delayed by any time at all: a clear and a lock that
   cross leave a live code under a running lockout, and its end refills what has just been spent.
   */
  lemma LateBudgetIsTight() returns (init: System, before: seq<Event>, window: seq<Event>, t: Time)
    ensures Init(init) && init.doc.lockedUntil == ZERO_TIME && Ordered(init.now, before) && AllPrompt(init, before, 0)
    ensures var s := Run(init, before);
            && s.now <= t && Ordered(t, window) && AllPrompt(s, window, 0) && AllAt(window, t)
            && ClearsToLand(s) == {} && Rights(s, window) == 0 && Guesses(s, window) == 10
  {
    init, before, t := Fresh(), Crossing(), 1 + CODE_LOCKOUT;
    CrossingEnds();
    CrossingIsPrompt();
    var s := Run(init, before);
    window := TenGuesses(t);
    TenGuessesCount(s, t);
    AtOnce(s.(now := t), window, t);
    AtOnce(s, window, t);
  }
}
