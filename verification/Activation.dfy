/** One-time codes: checking a guess, planning a regeneration, and the stored document they act on. */
module Activation {
  import opened Common

  const MAX_CODE_ATTEMPTS: int := 5
  const CODE_LOCKOUT: int := 15 * MINUTE
  const REGEN_COOLDOWN: int := 60 * SECOND
  const MAX_REGENS_PER_WINDOW: int := 5
  const REGEN_WINDOW: int := HOUR

  datatype CodeResult = CodeOK | CodeInvalid | CodeLocked

  /** The bookkeeping that survives a regeneration. */
  datatype CodeBudget = CodeBudget(lastIssuedAt: Time, regenWindowStart: Time, regenCount: int, lockedUntil: Time)

  datatype PlanResult = PlanResult(next: CodeBudget, resetAttempts: bool, ok: bool)

  /** The stored sub-document. lastIssuedAt is None when the field is missing (documents written before it existed). */
  datatype CodeDoc = CodeDoc(code: string, expiry: Time, attempts: int, lockedUntil: Time,
                             lastIssuedAt: Option<Time>, regenWindowStart: Time, regenCount: int)
  {
    /** The value a reader decodes: a missing field is the zero time. */
    function LastIssued(): Time {
      if lastIssuedAt.Some? then lastIssuedAt.value else ZERO_TIME
    }

    function Budget(): CodeBudget {
      CodeBudget(LastIssued(), regenWindowStart, regenCount, lockedUntil)
    }
  }

  /** A guess reaches the comparison only against an unlocked, present, unexpired code. */
  predicate IsLive(stored: string, expiry: Time, attempts: int, now: Time) {
    attempts <= MAX_CODE_ATTEMPTS && stored != "" && expiry > now
  }

  function CheckCode(stored: string, expiry: Time, attempts: int, given: string, now: Time): CodeResult {
    if attempts > MAX_CODE_ATTEMPTS then CodeLocked
    else if stored == "" || !(expiry > now) then CodeInvalid
    else if stored != given then CodeInvalid
    else CodeOK
  }

  /** The answer depends on the guess exactly when the code is live; then only the stored code is right. */
  lemma CheckCodeComparesOnlyLiveCodes(stored: string, expiry: Time, attempts: int, now: Time)
    ensures IsLive(stored, expiry, attempts, now) <==>
            exists a: string, b: string :: CheckCode(stored, expiry, attempts, a, now)
                                           != CheckCode(stored, expiry, attempts, b, now)
    ensures IsLive(stored, expiry, attempts, now) ==>
              forall g: string :: CheckCode(stored, expiry, attempts, g, now) == CodeOK <==> g == stored
  {
    if IsLive(stored, expiry, attempts, now) {
      var other := stored + "0";
      assert |other| != |stored|;
      assert CheckCode(stored, expiry, attempts, stored, now) != CheckCode(stored, expiry, attempts, other, now);
    }
  }

  predicate ShouldLock(attempts: int) {
    attempts >= MAX_CODE_ATTEMPTS
  }

  function PlanIssue(b: CodeBudget, now: Time): PlanResult {
    if b.lockedUntil > now then PlanResult(b, false, false)
    else if b.lastIssuedAt != ZERO_TIME && now - b.lastIssuedAt < REGEN_COOLDOWN then PlanResult(b, false, false)
    else
      var rolled := b.regenWindowStart == ZERO_TIME || now - b.regenWindowStart >= REGEN_WINDOW;
      var b1 := if rolled then b.(regenWindowStart := now, regenCount := 0) else b;
      if b1.regenCount >= MAX_REGENS_PER_WINDOW then PlanResult(b1, false, false)
      else
        var b2 := b1.(regenCount := b1.regenCount + 1, lastIssuedAt := now);
        if b2.lockedUntil != ZERO_TIME then PlanResult(b2.(lockedUntil := ZERO_TIME), true, true)
        else PlanResult(b2, false, true)
  }

  // ---- the three atomic writes of a verification and the conditional write of an issue ----

  function Consumed(d: CodeDoc): CodeDoc {
    d.(attempts := d.attempts + 1)
  }

  function Locked(d: CodeDoc, until: Time): CodeDoc {
    d.(code := "", lockedUntil := until)
  }

  function Cleared(d: CodeDoc): CodeDoc {
    d.(attempts := 0, lockedUntil := ZERO_TIME)
  }

  /** The filter of the issue update: the stored stamp is still the one read, or the field is missing. */
  predicate IssueMatches(d: CodeDoc, prev: Time) {
    d.lastIssuedAt == Some(prev) || d.lastIssuedAt.None?
  }

  function Issued(d: CodeDoc, code: string, expiry: Time, b: CodeBudget, reset: bool): CodeDoc {
    var d1 := d.(code := code, expiry := expiry, lastIssuedAt := Some(b.lastIssuedAt),
                 regenWindowStart := b.regenWindowStart, regenCount := b.regenCount);
    if reset then d1.(attempts := 0, lockedUntil := ZERO_TIME) else d1
  }

  /** The whole document written when the account has no usable code yet. */
  function FirstIssued(code: string, expiry: Time, b: CodeBudget): CodeDoc {
    CodeDoc(code, expiry, 0, ZERO_TIME, Some(b.lastIssuedAt), b.regenWindowStart, b.regenCount)
  }

  /** What one verification leaves behind, as a function of what it found. */
  function Verified(d: CodeDoc, given: string, now: Time): CodeDoc {
    var c := Consumed(d);
    if CheckCode(c.code, c.expiry, c.attempts, given, now) == CodeOK then Cleared(c)
    else if c.code != "" && ShouldLock(c.attempts) then Locked(c, now + CODE_LOCKOUT)
    else c
  }

  // ---- the account as the repository stores it ----

  datatype IssueResult = IssueStored | IssueLost | IssueFailed

  class CodeAccount {
    var doc: Option<CodeDoc>

    constructor (d: Option<CodeDoc>)
      ensures doc == d
    {
      doc := d;
    }

    method ConsumeAttempt() returns (found: Option<CodeDoc>)
      modifies this
      ensures doc == found
      ensures old(doc).None? ==> found.None?
      ensures old(doc).Some? ==> found == Some(Consumed(old(doc).value))
    {
      if doc.Some? {
        doc := Some(doc.value.(attempts := doc.value.attempts + 1));
      }
      found := doc;
    }

    method LockCode(until: Time)
      modifies this
      ensures doc == if old(doc).Some? then Some(Locked(old(doc).value, until)) else None
    {
      if doc.Some? {
        doc := Some(doc.value.(code := "", lockedUntil := until));
      }
    }

    method ClearBudget()
      modifies this
      ensures doc == if old(doc).Some? then Some(Cleared(old(doc).value)) else None
    {
      if doc.Some? {
        doc := Some(doc.value.(attempts := 0, lockedUntil := ZERO_TIME));
      }
    }

    /** Counts the try first, then compares, then locks or clears. */
    method VerifyCode(given: string, now: Time) returns (res: CodeResult)
      modifies this
      ensures old(doc).None? ==> res == CodeInvalid && doc == None
      ensures old(doc).Some? ==> doc == Some(Verified(old(doc).value, given, now))
      ensures old(doc).Some? ==> (res == CodeLocked <==> old(doc).value.attempts >= 5)
      ensures old(doc).Some? ==>
                (res == CodeOK <==> old(doc).value.attempts < 5 && old(doc).value.code == given != ""
                                    && old(doc).value.expiry > now)
    {
      var c := ConsumeAttempt();
      if c.None? {
        return CodeInvalid;
      }
      res := CheckCode(c.value.code, c.value.expiry, c.value.attempts, given, now);
      if res == CodeOK {
        ClearBudget();
        return;
      }
      if c.value.code != "" && ShouldLock(c.value.attempts) {
        LockCode(now + CODE_LOCKOUT);
      }
    }

    /**
     The conditional write. IssueLost: a concurrent regeneration won. A document removed since it was read
     leaves a null field, which single fields cannot be set in: the write fails.
     */
    method IssueCode(hadCode: bool, prev: Time, code: string, expiry: Time, b: CodeBudget, reset: bool)
      returns (res: IssueResult)
      modifies this
      ensures !hadCode ==> res == IssueStored && doc == Some(FirstIssued(code, expiry, b))
      ensures hadCode && old(doc).None? ==> res == IssueFailed && doc == None
      ensures hadCode && old(doc).Some? ==>
                (res == if IssueMatches(old(doc).value, prev) then IssueStored else IssueLost)
      ensures hadCode && old(doc).Some? ==>
                doc == Some(if res == IssueStored then Issued(old(doc).value, code, expiry, b, reset)
                            else old(doc).value)
    {
      if !hadCode {
        doc := Some(CodeDoc(code, expiry, 0, ZERO_TIME, Some(b.lastIssuedAt), b.regenWindowStart, b.regenCount));
        return IssueStored;
      }
      if doc.None? {
        return IssueFailed;
      }
      if doc.value.lastIssuedAt != Some(prev) && doc.value.lastIssuedAt.Some? {
        return IssueLost;
      }
      var d := doc.value.(code := code, expiry := expiry, lastIssuedAt := Some(b.lastIssuedAt),
                          regenWindowStart := b.regenWindowStart, regenCount := b.regenCount);
      if reset {
        d := d.(attempts := 0, lockedUntil := ZERO_TIME);
      }
      doc := Some(d);
      return IssueStored;
    }
  }
}
