/** Regenerations over whole runs: how they are written, how often they come, and that no more can be promised. */
module IssueRuns {
  import opened Common
  import opened Activation
  import opened CodeRuns

  // ---- which write an issue uses ----

  /** planResetIssue's test for a usable prior document; without one the whole document is overwritten. */
  predicate HadResetCode(d: CodeDoc) {
    d.code != "" || d.expiry != ZERO_TIME || d.LastIssued() != ZERO_TIME
  }

  /**
   Once a document carries an expiry or a stamp, a lock that blanks the code never makes a later issue
   unconditional.
   */
  lemma {:induction false} IssuesStayConditional(s: System, es: seq<Event>)
    requires Inv(s) && Ordered(s.now, es)
    requires s.doc.expiry != ZERO_TIME || s.doc.LastIssued() != ZERO_TIME
    ensures HadResetCode(Run(s, es).doc)
    decreases |es|
  {
    if es != [] {
      if Succeeds(s, es[0]) {
        assert PendingOk(s, s.pending[es[0].who]);
      }
      StepKeepsInv(s, es[0]);
      IssuesStayConditional(Step(s, es[0]), es[1..]);
    }
  }

  // ---- the issue rate ----

  /** Stamps that one sequential caller could have produced from a budget ending at last in window w. */
  predicate Chain(last: Time, w: Window, stamps: seq<Time>)
    decreases |stamps|
  {
    stamps == [] || (MayFollow(last, w, stamps[0]) && Chain(stamps[0], w.After(stamps[0]), stamps[1..]))
  }

  function ChainLast(last: Time, stamps: seq<Time>): Time {
    if stamps == [] then last else stamps[|stamps| - 1]
  }

  function ChainWindow(w: Window, stamps: seq<Time>): Window
    decreases |stamps|
  {
    if stamps == [] then w else ChainWindow(w.After(stamps[0]), stamps[1..])
  }

  lemma {:induction false} ChainAppend(last: Time, w: Window, stamps: seq<Time>, t: Time)
    requires Chain(last, w, stamps)
    requires MayFollow(ChainLast(last, stamps), ChainWindow(w, stamps), t)
    ensures Chain(last, w, stamps + [t])
    ensures ChainLast(last, stamps + [t]) == t
    ensures ChainWindow(w, stamps + [t]) == ChainWindow(w, stamps).After(t)
    decreases |stamps|
  {
    if stamps == [] {
      assert stamps + [t] == [t];
    } else {
      assert (stamps + [t])[1..] == stamps[1..] + [t];
      ChainAppend(stamps[0], w.After(stamps[0]), stamps[1..], t);
    }
  }

  /** However many regenerations race, the stored stamps are those of one sequential caller. */
  lemma {:induction false} RacingIssuesAreSequential(s: System, es: seq<Event>, last: Time, w: Window)
    requires Inv(s) && Ordered(s.now, es)
    requires Chain(last, w, s.issued) && ChainLast(last, s.issued) == s.doc.LastIssued()
             && ChainWindow(w, s.issued) == WindowOf(s.doc)
    ensures var s' := Run(s, es);
            Chain(last, w, s'.issued) && ChainLast(last, s'.issued) == s'.doc.LastIssued()
              && ChainWindow(w, s'.issued) == WindowOf(s'.doc)
    decreases |es|
  {
    if es != [] {
      if Succeeds(s, es[0]) {
        assert PendingOk(s, s.pending[es[0].who]);
        ChainAppend(last, w, s.issued, s.pending[es[0].who].plan.next.lastIssuedAt);
      }
      StepKeepsInv(s, es[0]);
      RacingIssuesAreSequential(Step(s, es[0]), es[1..], last, w);
    }
  }

  function CountIn(stamps: seq<Time>, lo: Time, hi: Time): nat {
    if stamps == [] then 0 else (if lo <= stamps[0] < hi then 1 else 0) + CountIn(stamps[1..], lo, hi)
  }

  lemma {:induction false} ChainSpacing(last: Time, w: Window, stamps: seq<Time>, i: nat, j: nat)
    requires Chain(last, w, stamps) && i < j < |stamps|
    ensures stamps[j] - stamps[i] >= (j - i) * REGEN_COOLDOWN
    decreases |stamps|
  {
    if i > 0 {
      ChainSpacing(stamps[0], w.After(stamps[0]), stamps[1..], i - 1, j - 1);
    } else if j > 1 {
      ChainSpacing(stamps[0], w.After(stamps[0]), stamps[1..], 0, j - 1);
      assert stamps[1] - stamps[0] >= REGEN_COOLDOWN;
    }
  }

  function HourCount(stamps: seq<Time>, lo: Time): nat {
    CountIn(stamps, lo, lo + HOUR)
  }

  lemma {:induction false} NoneBefore(last: Time, w: Window, stamps: seq<Time>, lo: Time, hi: Time)
    requires Chain(last, w, stamps) && (stamps != [] ==> stamps[0] >= hi)
    ensures CountIn(stamps, lo, hi) == 0
    decreases |stamps|
  {
    if |stamps| > 1 {
      NoneBefore(stamps[0], w.After(stamps[0]), stamps[1..], lo, hi);
    }
  }

  /** Stamps still to come before hi: five per window that can start before it, less those already used. */
  lemma {:induction false} RoomLeft(last: Time, w: Window, stamps: seq<Time>, lo: Time, hi: Time)
    requires Chain(last, w, stamps) && w.start != ZERO_TIME && w.count <= MAX_REGENS_PER_WINDOW
    requires hi <= w.start + 2 * REGEN_WINDOW
    ensures CountIn(stamps, lo, hi) <= (if hi <= w.start + REGEN_WINDOW then 1 else 2) * MAX_REGENS_PER_WINDOW - w.count
    decreases |stamps|
  {
    if stamps != [] {
      var t := stamps[0];
      if t < hi {
        RoomLeft(t, w.After(t), stamps[1..], lo, hi);
      } else {
        NoneBefore(last, w, stamps, lo, hi);
      }
    }
  }

  lemma {:induction false} ChainHourlyCap(last: Time, w: Window, stamps: seq<Time>, lo: Time)
    requires Chain(last, w, stamps) && (w.start != ZERO_TIME ==> w.count >= 1)
    ensures HourCount(stamps, lo) < 2 * MAX_REGENS_PER_WINDOW
    decreases |stamps|
  {
    if stamps != [] {
      var t := stamps[0];
      if t < lo {
        ChainHourlyCap(t, w.After(t), stamps[1..], lo);
      } else if t < lo + REGEN_WINDOW {
        RoomLeft(t, w.After(t), stamps[1..], lo, lo + REGEN_WINDOW);
      } else {
        NoneBefore(last, w, stamps, lo, lo + REGEN_WINDOW);
      }
    }
  }

  /**
   Stored stamps are at least a cooldown apart (also from the stamp found at the start), and any half-open
   hour holds at most nine of them, whatever number of callers read the same state: a window opens with an
   issue, so an hour that reaches into the next window has already left the first issue of the previous one.
   */
  lemma IssueRate(init: System, es: seq<Event>)
    requires Init(init) && Ordered(init.now, es)
    requires init.doc.regenWindowStart != ZERO_TIME ==> init.doc.regenCount >= 1
    ensures var stamps := Run(init, es).issued;
            && (forall i, j :: 0 <= i < j < |stamps| ==> stamps[j] - stamps[i] >= (j - i) * (60 * SECOND))
            && (stamps != [] && init.doc.LastIssued() != ZERO_TIME ==>
                  stamps[0] - init.doc.LastIssued() >= 60 * SECOND)
            && (forall lo :: HourCount(stamps, lo) <= 9)
  {
    var last, w := init.doc.LastIssued(), WindowOf(init.doc);
    RacingIssuesAreSequential(init, es, last, w);
    var stamps := Run(init, es).issued;
    forall i, j | 0 <= i < j < |stamps|
      ensures stamps[j] - stamps[i] >= (j - i) * REGEN_COOLDOWN
    {
      ChainSpacing(last, w, stamps, i, j);
    }
    forall lo
      ensures HourCount(stamps, lo) < 2 * MAX_REGENS_PER_WINDOW
    {
      ChainHourlyCap(last, w, stamps, lo);
    }
  }

  lemma Prepend(last: Time, w: Window, t: Time, rest: seq<Time>, lo: Time)
    requires MayFollow(last, w, t) && Chain(t, w.After(t), rest)
    ensures Chain(last, w, [t] + rest)
    ensures HourCount([t] + rest, lo) == (if lo <= t < lo + REGEN_WINDOW then 1 else 0) + HourCount(rest, lo)
  {
    assert ([t] + rest)[1..] == rest;
  }

  /** Nine stamps in an hour: four issues at the end of a window and five at the start of the next. */
  lemma NineInAnHour(t: Time) returns (stamps: seq<Time>)
    requires t > ZERO_TIME
    ensures Chain(ZERO_TIME, Window(ZERO_TIME, 0), stamps)
    ensures HourCount(stamps, t + 56 * MINUTE) == 2 * MAX_REGENS_PER_WINDOW - 1
    ensures stamps != [] && stamps[0] == t
  {
    stamps := [];
    var lo := t + 56 * MINUTE;
    for k := 5 downto 0
      invariant k > 0 ==> Chain(t + (59 + k) * MINUTE, Window(t + 60 * MINUTE, k), stamps)
      invariant k == 0 ==> Chain(t + 59 * MINUTE, Window(t, 5), stamps)
      invariant HourCount(stamps, lo) == 5 - k
    {
      var w := if k == 0 then Window(t, 5) else Window(t + 60 * MINUTE, k);
      Prepend(t + (59 + k) * MINUTE, w, t + (60 + k) * MINUTE, stamps, lo);
      stamps := [t + (60 + k) * MINUTE] + stamps;
    }
    for k := 4 downto 0
      invariant k > 0 ==> Chain(t + (55 + k) * MINUTE, Window(t, k + 1), stamps)
      invariant k == 0 ==> Chain(t, Window(t, 1), stamps)
      invariant HourCount(stamps, lo) == 9 - k
    {
      var last := if k == 0 then t else t + (55 + k) * MINUTE;
      Prepend(last, Window(t, k + 1), t + (56 + k) * MINUTE, stamps, lo);
      stamps := [t + (56 + k) * MINUTE] + stamps;
    }
    Prepend(ZERO_TIME, Window(ZERO_TIME, 0), t, stamps, lo);
    stamps := [t] + stamps;
  }

  // ---- every such sequence of stamps is reached ----

  /** One caller reads, plans and stores at one instant. */
  function OneIssue(t: Time): seq<Event> {
    [Load(t, 0), Plan(t, 0, "code", HOUR), Store(t, 0)]
  }

  function Issues(stamps: seq<Time>): seq<Event> {
    if stamps == [] then [] else OneIssue(stamps[0]) + Issues(stamps[1..])
  }

  /** No regeneration in flight, no lockout, and time has not passed t. */
  predicate IdleBy(s: System, t: Time) {
    s.pending == map[] && s.doc.lockedUntil == ZERO_TIME && s.now <= t
  }

  lemma IssueOnce(s: System, t: Time)
    requires IdleBy(s, t) && MayFollow(s.doc.LastIssued(), WindowOf(s.doc), t)
    ensures var s' := Run(s, OneIssue(t));
            && IdleBy(s', t) && s'.now == t && s'.issued == s.issued + [t]
            && s'.doc.LastIssued() == t && WindowOf(s'.doc) == WindowOf(s.doc).After(t)
  {
    var es := OneIssue(t);
    var s1 := Step(s, es[0]);
    var s2 := Step(s1, es[1]);
    assert s1.pending == map[0 := Loaded(s.doc)] && s1.doc == s.doc;
    assert PlanIssue(s.doc.Budget(), t).ok;
    assert s2.pending[0].Planned? && s2.doc == s.doc && s2.pending.Keys == {0};
    var s3 := Step(s2, es[2]);
    assert s3.pending == map[];
    assert Run(s2, [es[2]]) == s3;
    assert es[1..] == [es[1], es[2]] && es[1..][1..] == [es[2]];
  }

  /** The converse of RacingIssuesAreSequential: every chain of stamps is what some ordered run stores. */
  lemma {:induction false} ChainIsReached(s: System, stamps: seq<Time>)
    requires stamps != [] ==> IdleBy(s, stamps[0])
    requires Chain(s.doc.LastIssued(), WindowOf(s.doc), stamps)
    ensures Ordered(s.now, Issues(stamps)) && Run(s, Issues(stamps)).issued == s.issued + stamps
    decreases |stamps|
  {
    if stamps != [] {
      var t, rest := stamps[0], stamps[1..];
      IssueOnce(s, t);
      var s' := Run(s, OneIssue(t));
      if rest != [] {
        assert MayFollow(t, WindowOf(s.doc).After(t), rest[0]);
      }
      ChainIsReached(s', rest);
      RunAppend(s, OneIssue(t), Issues(rest));
      assert s.issued + [t] + rest == s.issued + stamps;
    }
  }

  /** The bound of IssueRate is reached: a run whose stored stamps put nine into one half-open hour. */
  lemma HourlyCapIsTight() returns (init: System, es: seq<Event>, lo: Time)
    ensures Init(init) && Ordered(init.now, es) && init.doc.regenWindowStart == ZERO_TIME
    ensures HourCount(Run(init, es).issued, lo) == 9
  {
    init := System(CodeDoc("code", HOUR, 0, ZERO_TIME, None, ZERO_TIME, 0), map[], map[], 1, [], 0, 0);
    var stamps := NineInAnHour(1);
    es, lo := Issues(stamps), 1 + 56 * MINUTE;
    ChainIsReached(init, stamps);
    assert [] + stamps == stamps;
  }
}
