/**
 Runs of one account's code: guesses, and regenerations split into reading the document, planning
 from that copy, and the conditional write. Any number of regenerations may be in flight. A guess is either
 one event, or a try and a later landing of the lock or clear that follows from it.
 */
module CodeRuns {
  import opened Common
  import opened Activation

  /** One regeneration in flight: the copy it read, then the write it planned. */
  datatype Pending =
    | Loaded(doc: CodeDoc)
    | Planned(prev: Time, plan: PlanResult, code: string, expiry: Time)

  /** The second write of a guess, still to land. */
  datatype LateWrite = LateLock(until: Time) | LateClear

  /**
   issued, lastCompared and refilled are history: the stamps stored so far, the last instant a whole guess
   met a live code, and the last instant an issue reset the attempts.
   */
  datatype System = System(doc: CodeDoc, pending: map<nat, Pending>, writes: map<nat, LateWrite>, now: Time,
                           issued: seq<Time>, lastCompared: Time, refilled: Time)

  /** read is the clock reading a try compares with, taken before its attempt is counted. */
  datatype Event =
    | Verify(at: Time, given: string)
    | Try(at: Time, who: nat, given: string, read: Time)
    | Land(at: Time, who: nat)
    | Load(at: Time, who: nat)
    | Plan(at: Time, who: nat, newCode: string, ttl: int)
    | Store(at: Time, who: nat)

  /** Any stored code, nothing in flight, and stamps in the past. */
  predicate Init(s: System) {
    && s.now > ZERO_TIME
    && s.doc.attempts >= 0
    && ZERO_TIME <= s.doc.LastIssued() <= s.now
    && s.pending == map[] && s.writes == map[]
    && s.issued == []
  }

  /** The reading a guess compares with; None when the event is no guess. */
  function Reading(s: System, e: Event): Option<Time> {
    if e.Verify? then Some(e.at) else if e.Try? && e.who !in s.writes then Some(e.read) else None
  }

  predicate Compares(s: System, e: Event) {
    Reading(s, e).Some? && IsLive(s.doc.code, s.doc.expiry, s.doc.attempts + 1, Reading(s, e).value)
  }

  function Given(e: Event): string {
    if e.Verify? || e.Try? then e.given else ""
  }

  predicate IsRight(s: System, e: Event) {
    && Reading(s, e).Some?
    && CheckCode(s.doc.code, s.doc.expiry, s.doc.attempts + 1, Given(e), Reading(s, e).value) == CodeOK
  }

  predicate Succeeds(s: System, e: Event) {
    e.Store? && e.who in s.pending && s.pending[e.who].Planned? && IssueMatches(s.doc, s.pending[e.who].prev)
  }

  predicate Refills(s: System, e: Event) {
    Succeeds(s, e) && s.pending[e.who].plan.resetAttempts
  }

  /** The write a try leads to, if any. */
  function Follows(s: System, e: Event): Option<LateWrite>
    requires e.Try?
  {
    if IsRight(s, e) then Some(LateClear)
    else if s.doc.code != "" && ShouldLock(s.doc.attempts + 1) then Some(LateLock(e.read + CODE_LOCKOUT))
    else None
  }

  function Landed(d: CodeDoc, w: LateWrite): CodeDoc {
    match w
    case LateLock(until) => Locked(d, until)
    case LateClear => Cleared(d)
  }

  function Guess(s: System, e: Event): System
    requires e.Verify? || e.Try? || e.Land?
  {
    match e
    case Verify(at, given) =>
      s.(doc := Verified(s.doc, given, at), lastCompared := if Compares(s, e) then at else s.lastCompared)
    case Try(at, who, given, read) =>
      if who in s.writes then s
      else
        var after := Follows(s, e);
        s.(doc := Consumed(s.doc), writes := if after.Some? then s.writes[who := after.value] else s.writes)
    case Land(at, who) =>
      if who in s.writes then s.(doc := Landed(s.doc, s.writes[who]), writes := s.writes - {who}) else s
  }

  function Issue(s: System, e: Event): System
    requires e.Load? || e.Plan? || e.Store?
  {
    match e
    case Load(at, who) =>
      s.(pending := s.pending[who := Loaded(s.doc)])
    case Plan(at, who, newCode, ttl) =>
      if who in s.pending && s.pending[who].Loaded? then
        var read := s.pending[who].doc;
        var plan := PlanIssue(read.Budget(), at);
        // A refused plan ends the request; nothing is written.
        if plan.ok then s.(pending := s.pending[who := Planned(read.LastIssued(), plan, newCode, at + ttl)])
        else s.(pending := s.pending - {who})
      else s
    case Store(at, who) =>
      if who in s.pending && s.pending[who].Planned? then
        var p := s.pending[who];
        var s1 := s.(pending := s.pending - {who});
        if IssueMatches(s.doc, p.prev) then
          s1.(doc := Issued(s.doc, p.code, p.expiry, p.plan.next, p.plan.resetAttempts),
              issued := s.issued + [p.plan.next.lastIssuedAt],
              refilled := if p.plan.resetAttempts then at else s.refilled)
        else s1
      else s
  }

  function Step(s: System, e: Event): System {
    var s := s.(now := e.at);
    if e.Load? || e.Plan? || e.Store? then Issue(s, e) else Guess(s, e)
  }

  function Run(s: System, es: seq<Event>): System
    decreases |es|
  {
    if es == [] then s else Run(Step(s, es[0]), es[1..])
  }

  /** The clock never goes back. */
  predicate Ordered(now: Time, es: seq<Event>)
    decreases |es|
  {
    es == [] || (now <= es[0].at && Ordered(es[0].at, es[1..]))
  }

  /** How many guesses of the run were compared with a live code. */
  function Guesses(s: System, es: seq<Event>): nat
    decreases |es|
  {
    if es == [] then 0 else (if Compares(s, es[0]) then 1 else 0) + Guesses(Step(s, es[0]), es[1..])
  }

  function Rights(s: System, es: seq<Event>): nat
    decreases |es|
  {
    if es == [] then 0 else (if IsRight(s, es[0]) then 1 else 0) + Rights(Step(s, es[0]), es[1..])
  }

  // ---- what every step keeps ----

  /** The issue window after a stamp: rolled over, or one issue fuller. */
  datatype Window = Window(start: Time, count: int)
  {
    predicate Rolls(t: Time) {
      start == ZERO_TIME || t - start >= REGEN_WINDOW
    }

    function After(t: Time): Window {
      if Rolls(t) then Window(t, 1) else Window(start, count + 1)
    }
  }

  /** A stamp t may follow a stamp last inside window w: past the cooldown and not over the cap. */
  predicate MayFollow(last: Time, w: Window, t: Time) {
    && t > ZERO_TIME
    && (last != ZERO_TIME ==> t - last >= REGEN_COOLDOWN)
    && (!w.Rolls(t) ==> w.count < MAX_REGENS_PER_WINDOW)
  }

  function WindowOf(d: CodeDoc): Window {
    Window(d.regenWindowStart, d.regenCount)
  }

  /** A planned budget carries on from the stored one. */
  predicate NextLink(last: Time, w: Window, b: CodeBudget) {
    MayFollow(last, w, b.lastIssuedAt) && Window(b.regenWindowStart, b.regenCount) == w.After(b.lastIssuedAt)
  }

  predicate PendingOk(s: System, p: Pending) {
    match p
    case Loaded(d) =>
      && ZERO_TIME <= d.LastIssued() <= s.doc.LastIssued()
      && (d.LastIssued() == s.doc.LastIssued() ==> WindowOf(d) == WindowOf(s.doc))
    case Planned(prev, plan, _, _) =>
      && ZERO_TIME <= prev <= s.doc.LastIssued()
      && plan.next.lastIssuedAt <= s.now
      && (prev == s.doc.LastIssued() ==> NextLink(prev, WindowOf(s.doc), plan.next))
  }

  /** Stamps run forward, and what is in flight is late or follows the stored stamp. */
  ghost predicate Inv(s: System) {
    && s.now > ZERO_TIME
    && s.doc.attempts >= 0
    && ZERO_TIME <= s.doc.LastIssued() <= s.now
    && forall who :: who in s.pending ==> PendingOk(s, s.pending[who])
  }

  /** Guesses touch neither stamps nor what regenerations have in flight. */
  lemma GuessesLeaveIssues(s: System, e: Event)
    requires e.Verify? || e.Try? || e.Land?
    ensures var s' := Step(s, e);
            && s'.pending == s.pending && s'.issued == s.issued && s'.now == e.at && s'.refilled == s.refilled
            && s'.doc.LastIssued() == s.doc.LastIssued() && WindowOf(s'.doc) == WindowOf(s.doc)
            && (s.doc.attempts >= 0 ==> s'.doc.attempts >= 0)
  {
  }

  lemma StepKeepsInv(s: System, e: Event)
    requires Inv(s) && s.now <= e.at
    ensures Inv(Step(s, e))
  {
    if e.Verify? || e.Try? || e.Land? {
      GuessesLeaveIssues(s, e);
    } else if Succeeds(s, e) {
      assert PendingOk(s, s.pending[e.who]);
    }
    forall who | who in Step(s, e).pending
      ensures PendingOk(Step(s, e), Step(s, e).pending[who])
    {
    }
  }

  lemma {:induction false} RunKeepsInv(s: System, es: seq<Event>)
    requires Inv(s) && Ordered(s.now, es)
    ensures Inv(Run(s, es))
    decreases |es|
  {
    if es != [] {
      StepKeepsInv(s, es[0]);
      RunKeepsInv(Step(s, es[0]), es[1..]);
    }
  }

  lemma {:induction false} RunAppend(s: System, xs: seq<Event>, ys: seq<Event>)
    ensures Run(s, xs + ys) == Run(Run(s, xs), ys)
    decreases |xs|
  {
    if xs == [] {
      assert xs + ys == ys;
    } else {
      assert (xs + ys)[1..] == xs[1..] + ys;
      RunAppend(Step(s, xs[0]), xs[1..], ys);
    }
  }

  // ---- the guess budget, when nothing comes between a guess and its second write ----

  predicate IsWhole(e: Event) {
    !e.Try? && !e.Land?
  }

  predicate AllWhole(es: seq<Event>) {
    forall i :: 0 <= i < |es| ==> IsWhole(es[i])
  }

  predicate LockWaits(lockedUntil: Time, attempts: int, lastCompared: Time) {
    lockedUntil != ZERO_TIME ==> attempts >= MAX_CODE_ATTEMPTS && lockedUntil >= lastCompared + CODE_LOCKOUT
  }

  /** A regeneration that is not late knows of the lock there is, and has waited for it. */
  predicate WaitsToo(s: System, p: Pending) {
    match p
    case Loaded(d) => d.LastIssued() == s.doc.LastIssued() ==> LockWaits(d.lockedUntil, s.doc.attempts, s.lastCompared)
    case Planned(prev, plan, _, _) =>
      prev == s.doc.LastIssued() && plan.resetAttempts ==>
        s.doc.attempts >= MAX_CODE_ATTEMPTS && plan.next.lastIssuedAt >= s.lastCompared + CODE_LOCKOUT
  }

  ghost predicate LockInv(s: System) {
    && s.lastCompared <= s.now && LockWaits(s.doc.lockedUntil, s.doc.attempts, s.lastCompared)
    && forall who :: who in s.pending ==> WaitsToo(s, s.pending[who])
  }

  lemma StepKeepsLockInv(s: System, e: Event)
    requires Inv(s) && LockInv(s) && s.now <= e.at && IsWhole(e)
    ensures LockInv(Step(s, e))
  {
    if Succeeds(s, e) {
      assert PendingOk(s, s.pending[e.who]) && WaitsToo(s, s.pending[e.who]);
    }
    forall who | who in Step(s, e).pending
      ensures WaitsToo(Step(s, e), Step(s, e).pending[who])
    {
    }
  }

  lemma {:induction false} RunKeepsLockInv(s: System, es: seq<Event>)
    requires Inv(s) && LockInv(s) && Ordered(s.now, es) && AllWhole(es)
    ensures Inv(Run(s, es)) && LockInv(Run(s, es))
    decreases |es|
  {
    if es != [] {
      StepKeepsInv(s, es[0]);
      StepKeepsLockInv(s, es[0]);
      RunKeepsLockInv(Step(s, es[0]), es[1..]);
    }
  }

  /** Guesses left when an epoch has r right guesses to come, spans a time and has spent some attempts. */
  function Allowance(rights: int, span: int, spent: int): int {
    MAX_CODE_ATTEMPTS * (rights + span / CODE_LOCKOUT + 1) - Min(MAX_CODE_ATTEMPTS, spent)
  }

  function Spent(s: System, dirty: bool): int {
    if dirty then s.doc.attempts else 0
  }

  lemma AttemptsOnlyGrow(s: System, e: Event)
    requires Inv(s) && IsWhole(e) && !Compares(s, e) && !Refills(s, e)
    ensures Step(s, e).doc.attempts >= s.doc.attempts
    ensures Step(s, e).lastCompared == s.lastCompared && !IsRight(s, e)
  {
  }

  lemma LiveGuess(s: System, e: Event)
    requires Inv(s) && IsWhole(e) && Compares(s, e)
    ensures s.doc.attempts < MAX_CODE_ATTEMPTS && Step(s, e).lastCompared == e.at
    ensures Step(s, e).doc.attempts == if IsRight(s, e) then 0 else s.doc.attempts + 1
  {
  }

  /**
   Guesses are counted in epochs that start at a refill. b bounds the current epoch's start from below;
   dirty says the epoch already met a live code, so its attempts were paid for out of the five.
   */
  function NextStart(s: System, e: Event, b: Time, dirty: bool): Time {
    if !Compares(s, e) && Refills(s, e) && dirty then e.at else b
  }

  function NextDirty(s: System, e: Event, dirty: bool): bool {
    if Compares(s, e) then !IsRight(s, e) else if Refills(s, e) then false else dirty
  }

  /** What one event does to the account of an epoch. */
  lemma EpochStep(s: System, e: Event, b: Time, dirty: bool, end: Time, g: int, r: int)
    requires Inv(s) && LockInv(s) && IsWhole(e)
    requires s.now <= e.at && b <= s.now && e.at <= end && (dirty ==> b <= s.lastCompared)
    requires g <= Allowance(r, end - NextStart(s, e, b, dirty), Spent(Step(s, e), NextDirty(s, e, dirty)))
    ensures g + (if Compares(s, e) then 1 else 0)
            <= Allowance(r + (if IsRight(s, e) then 1 else 0), end - b, Spent(s, dirty))
  {
    if Compares(s, e) {
      LiveGuess(s, e);
    } else if Refills(s, e) {
    } else {
      AttemptsOnlyGrow(s, e);
    }
  }

  lemma {:induction false} EpochBound(s: System, es: seq<Event>, b: Time, dirty: bool, end: Time)
    requires Inv(s) && LockInv(s) && Ordered(s.now, es) && AllWhole(es)
    requires b <= s.now <= end
    requires forall i :: 0 <= i < |es| ==> es[i].at <= end
    requires dirty ==> b <= s.lastCompared
    ensures Guesses(s, es) <= Allowance(Rights(s, es), end - b, Spent(s, dirty))
    decreases |es|
  {
    if es != [] {
      var e, s', rest := es[0], Step(s, es[0]), es[1..];
      StepKeepsInv(s, e);
      StepKeepsLockInv(s, e);
      assert forall i :: 0 <= i < |rest| ==> rest[i] == es[i + 1];
      EpochBound(s', rest, NextStart(s, e, b, dirty), NextDirty(s, e, dirty), end);
      EpochStep(s, e, b, dirty, end, Guesses(s', rest), Rights(s', rest));
    }
  }

  /**
   In any window of length L, after any history, at most five guesses per started lockout period meet a
   live code, plus five for each right guess in the window (a right guess refills the budget by design).
   A lockout may be running when the history starts. For guesses that are not one event see LateWrites.
   */
  lemma GuessBudget(init: System, before: seq<Event>, window: seq<Event>, start: Time, length: nat)
    requires Init(init) && init.lastCompared <= init.now && AllWhole(before) && AllWhole(window)
    requires LockWaits(init.doc.lockedUntil, init.doc.attempts, init.lastCompared)
    requires Ordered(init.now, before) && Run(init, before).now <= start && Ordered(start, window)
    requires forall i :: 0 <= i < |window| ==> window[i].at <= start + length
    ensures var s := Run(init, before);
            Guesses(s, window) <= 5 * (length / (15 * MINUTE) + 1 + Rights(s, window))
  {
    RunKeepsLockInv(init, before);
    var s := Run(init, before);
    Waiting(s, window, start);
    EpochBound(s.(now := start), window, start, false, start + length);
  }

  /** Letting time pass before a run changes nothing in it. */
  lemma Waiting(s: System, es: seq<Event>, start: Time)
    requires Inv(s) && LockInv(s) && s.now <= start
    ensures var waited := s.(now := start);
            && Inv(waited) && LockInv(waited)
            && Guesses(waited, es) == Guesses(s, es) && Rights(waited, es) == Rights(s, es)
  {
    var waited := s.(now := start);
    if es != [] {
      assert Step(waited, es[0]) == Step(s, es[0]);
    }
    forall who | who in waited.pending
      ensures PendingOk(waited, waited.pending[who]) && WaitsToo(waited, waited.pending[who])
    {
      assert PendingOk(s, s.pending[who]) && WaitsToo(s, s.pending[who]);
    }
  }
}
