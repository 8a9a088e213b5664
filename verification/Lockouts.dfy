/** What the fifth wrong guess does, when it is over, and when a code may be issued. */
module Lockouts {
  import opened Common
  import opened Activation
  import opened CodeRuns

  /** No regeneration is stored in the run. */
  ghost predicate NothingStored(s: System, es: seq<Event>)
    decreases |es|
  {
    es == [] || (!Succeeds(s, es[0]) && NothingStored(Step(s, es[0]), es[1..]))
  }

  lemma {:induction false} BlankStays(s: System, es: seq<Event>)
    requires s.doc.code == "" && AllWhole(es) && NothingStored(s, es)
    ensures var s' := Run(s, es);
            s'.doc.code == "" && s'.doc.lockedUntil == s.doc.lockedUntil && Guesses(s, es) == 0 && Rights(s, es) == 0
    decreases |es|
  {
    if es != [] {
      BlankStays(Step(s, es[0]), es[1..]);
    }
  }

  /**
   The guess that leaves five attempts on a stored code without being right takes the code away and locks
   for 15 minutes from itself. Until a regeneration is stored no guess gives a code back, meets one, or
   moves the end of the lockout.
   */
  lemma FifthMissLocks(s: System, at: Time, given: string, es: seq<Event>)
    requires s.doc.code != "" && s.doc.attempts >= 4
             && (s.doc.attempts > 4 || given != s.doc.code || s.doc.expiry <= at)
    requires AllWhole(es) && NothingStored(Step(s, Verify(at, given)), es)
    ensures var locked := Step(s, Verify(at, given));
            && locked.doc == s.doc.(code := "", attempts := s.doc.attempts + 1, lockedUntil := at + 15 * MINUTE)
            && Run(locked, es).doc.code == "" && Run(locked, es).doc.lockedUntil == at + 15 * MINUTE
            && Guesses(locked, es) == 0
  {
    BlankStays(Step(s, Verify(at, given)), es);
  }

  /** A guess before that changes the count alone; a right one in time clears count and lockout. */
  lemma EarlierGuesses(s: System, at: Time, given: string)
    requires 0 <= s.doc.attempts < 5 && s.doc.code != ""
    ensures var d := Step(s, Verify(at, given)).doc;
            && (given == s.doc.code && s.doc.expiry > at ==> d == s.doc.(attempts := 0, lockedUntil := ZERO_TIME))
            && ((given != s.doc.code || s.doc.expiry <= at) && s.doc.attempts < 4 ==>
                  d == s.doc.(attempts := s.doc.attempts + 1))
  {
  }

  /**
   A regeneration is let through exactly when no lockout runs, a minute has passed since the last one, and
   the hour that opened with the stored window start has room: five to a window. It is counted in its window
   or opens a new one, and resets the attempts exactly when it ends a lockout.
   */
  lemma MayIssueExactly(b: CodeBudget, now: Time)
    requires now > ZERO_TIME
    ensures var plan := PlanIssue(b, now);
            var opens := b.regenWindowStart == ZERO_TIME || now - b.regenWindowStart >= HOUR;
            && (plan.ok <==> b.lockedUntil <= now
                             && (b.lastIssuedAt == ZERO_TIME || now - b.lastIssuedAt >= 60 * SECOND)
                             && (opens || b.regenCount < 5))
            && (plan.ok ==> plan.next == CodeBudget(now, if opens then now else b.regenWindowStart,
                                                    if opens then 1 else b.regenCount + 1, ZERO_TIME))
            && (plan.resetAttempts <==> plan.ok && b.lockedUntil != ZERO_TIME)
  {
  }

  /** Every regeneration in flight knows of the lockout, or is late. */
  predicate KnowsLockout(s: System, p: Pending, until: Time) {
    match p
    case Loaded(d) => d.LastIssued() == s.doc.LastIssued() ==> d.lockedUntil == until
    case Planned(prev, plan, _, _) => prev == s.doc.LastIssued() ==>
                                        plan.next.lastIssuedAt >= until && plan.resetAttempts
  }

  ghost predicate AllKnowLockout(s: System, until: Time) {
    forall who :: who in s.pending ==> KnowsLockout(s, s.pending[who], until)
  }

  lemma StepKeepsLockout(s: System, e: Event, until: Time)
    requires Inv(s) && s.doc.code == "" && s.doc.lockedUntil == until != ZERO_TIME && AllKnowLockout(s, until)
    requires IsWhole(e) && s.now <= e.at && !Succeeds(s, e)
    ensures AllKnowLockout(Step(s, e), until)
  {
    var s' := Step(s, e);
    forall who | who in s'.pending
      ensures KnowsLockout(s', s'.pending[who], until)
    {
      assert who in s.pending ==> PendingOk(s, s.pending[who]) && KnowsLockout(s, s.pending[who], until);
    }
  }

  /**
   While regenerations that were read before the lock are out of the way, the first one stored after it is
   stamped no earlier than the lockout's end, and starts with no attempts spent.
   */
  lemma {:induction false} LockoutIsWaitedOut(s: System, es: seq<Event>, until: Time)
    requires Inv(s) && s.doc.code == "" && s.doc.lockedUntil == until != ZERO_TIME && AllKnowLockout(s, until)
    requires AllWhole(es) && Ordered(s.now, es)
    ensures var issued := Run(s, es).issued;
            |issued| >= |s.issued| && (|issued| > |s.issued| ==> issued[|s.issued|] >= until)
    decreases |es|
  {
    if es != [] {
      StepKeepsInv(s, es[0]);
      if Succeeds(s, es[0]) {
        assert PendingOk(s, s.pending[es[0].who]) && KnowsLockout(s, s.pending[es[0].who], until);
        IssuedGrows(Step(s, es[0]), es[1..]);
      } else {
        StepKeepsLockout(s, es[0], until);
        BlankStays(s, [es[0]]);
        assert Run(s, [es[0]]) == Step(s, es[0]);
        LockoutIsWaitedOut(Step(s, es[0]), es[1..], until);
      }
    }
  }

  lemma {:induction false} IssuedGrows(s: System, es: seq<Event>)
    ensures s.issued <= Run(s, es).issued
    decreases |es|
  {
    if es != [] {
      IssuedGrows(Step(s, es[0]), es[1..]);
    }
  }
}
