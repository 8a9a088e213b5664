/**
 Version-checked grant writes: the store's compare-and-set, the service calls over it, and any number of
 those calls racing on one subject's grant, each a read followed by a conditional write. defs is the
 feature registry.
 */
module Grants {
  import opened Common
  import opened Registry
  import opened Patch

  /** coach is empty on a coach's own grant. */
  datatype Grant = Grant(coach: Id, features: Features, version: int)

  /** Who asks, with what: an admin patches a coach, a coach patches a client. quoted is the version the caller saw. */
  datatype Request = Request(byAdmin: bool, coach: Id, patch: map<string, FeaturePatch>, quoted: Option<int>)

  datatype Result = Wrote(version: int) | Unchanged | BadRequest | Conflict | Refused

  function RoleOf(r: Request): string {
    if r.byAdmin then COACH else CLIENT
  }

  /** The overrides a patch starts from: a client grant left by another coach is replaced, not merged. */
  function Base(existing: Option<Grant>, r: Request): Features {
    if existing.Some? && (r.byAdmin || existing.value.coach == r.coach) then existing.value.features else map[]
  }

  function VersionOf(g: Option<Grant>): int {
    if g.Some? then g.value.version else 0
  }

  /** The grant a request makes of the one it read. */
  function Made(defs: map<string, FeatureDef>, existing: Option<Grant>, r: Request): Grant
    requires ValidPatch(defs, r.patch, RoleOf(r))
  {
    Grant(if r.byAdmin then "" else r.coach, Applied(defs, Base(existing, r), r.patch, RoleOf(r)).next,
          VersionOf(existing) + 1)
  }

  predicate ChangesNothing(defs: map<string, FeatureDef>, existing: Option<Grant>, r: Request)
    requires ValidPatch(defs, r.patch, RoleOf(r))
  {
    Applied(defs, Base(existing, r), r.patch, RoleOf(r)).before == map[]
  }

  /** The compare-and-set: an insert that the unique subject index can refuse, or a replace of the version read. */
  predicate Replaces(doc: Option<Grant>, prev: int) {
    if prev == 0 then doc.None? else doc.Some? && doc.value.version == prev
  }

  function DocOf(docs: map<Id, Grant>, subject: Id): Option<Grant> {
    if subject in docs then Some(docs[subject]) else None
  }

  /** What a request that read existing answers when doc is stored as it writes. */
  function WriteResult(defs: map<string, FeatureDef>, doc: Option<Grant>, existing: Option<Grant>, r: Request): Result
    requires ValidPatch(defs, r.patch, RoleOf(r))
  {
    if r.quoted.Some? && r.quoted.value != VersionOf(existing) then Conflict
    else if ChangesNothing(defs, existing, r) then Unchanged
    else if Replaces(doc, VersionOf(existing)) then Wrote(VersionOf(existing) + 1)
    else Conflict
  }

  class GrantStore {
    const defs: map<string, FeatureDef>
    var docs: map<Id, Grant>

    constructor (defs: map<string, FeatureDef>)
      ensures docs == map[] && this.defs == defs
    {
      this.defs := defs;
      docs := map[];
    }

    method ReplaceGrant(subject: Id, g: Grant, prev: int) returns (ok: bool)
      modifies this
      ensures ok <==> Replaces(old(DocOf(docs, subject)), prev)
      ensures docs == if ok then old(docs)[subject := g.(version := prev + 1)] else old(docs)
    {
      if prev == 0 {
        if subject in docs {
          return false;
        }
        docs := docs[subject := g.(version := 1)];
        return true;
      }
      if subject !in docs || docs[subject].version != prev {
        return false;
      }
      docs := docs[subject := g.(version := prev + 1)];
      return true;
    }

    method WriteGrant(subject: Id, existing: Option<Grant>, g: Grant, quoted: Option<int>, changed: bool)
      returns (res: Result)
      modifies this
      ensures var prev := VersionOf(existing);
              res == if quoted.Some? && quoted.value != prev then Conflict else if !changed then Unchanged
                     else if Replaces(old(DocOf(docs, subject)), prev) then Wrote(prev + 1) else Conflict
      ensures docs == if res.Wrote? then old(docs)[subject := g.(version := res.version)] else old(docs)
    {
      var prev := if existing.Some? then existing.value.version else 0;
      if quoted.Some? && quoted.value != prev {
        return Conflict;
      }
      if !changed {
        return Unchanged;
      }
      var ok := ReplaceGrant(subject, g, prev);
      return if ok then Wrote(prev + 1) else Conflict;
    }

    /** One whole request with nobody racing; grantable is whether the coach may give what the patch gives. */
    method SetAccess(subject: Id, r: Request, grantable: bool) returns (res: Result)
      modifies this
      ensures var was := old(DocOf(docs, subject));
              res == if !ValidPatch(defs, r.patch, RoleOf(r)) then BadRequest else if !r.byAdmin && !grantable
                then Refused
                     else WriteResult(defs, was, was, r)
      ensures docs == if res.Wrote? then old(docs)[subject := Made(defs, old(DocOf(docs, subject)), r)] else old(docs)
    {
      var existing := DocOf(docs, subject);
      var p := Prepare(existing, r);
      if p.Rejected? {
        return BadRequest;
      }
      if !r.byAdmin && !grantable {
        return Refused;
      }
      var g := Grant(if r.byAdmin then "" else r.coach, p.next, 0);
      res := WriteGrant(subject, existing, g, r.quoted, p.after != map[] || p.before != map[]);
      MadeOf(defs, existing, r, p);
    }

    /** The patch of what the request may build on. */
    method Prepare(existing: Option<Grant>, r: Request) returns (p: Patched)
      ensures p.Patched? <==> ValidPatch(defs, r.patch, RoleOf(r))
      ensures p.Patched? ==> p.next == Made(defs, existing, r).features
      ensures p.Patched? ==> (p.after != map[] || p.before != map[] <==> !ChangesNothing(defs, existing, r))
    {
      var current: Features := map[];
      if existing.Some? && (r.byAdmin || existing.value.coach == r.coach) {
        current := existing.value.features;
      }
      p := ApplyPatch(defs, current, r.patch, RoleOf(r));
    }
  }

  lemma MadeOf(defs: map<string, FeatureDef>, existing: Option<Grant>, r: Request, p: Patched)
    requires p.Patched? && ValidPatch(defs, r.patch, RoleOf(r)) && p.next == Made(defs, existing, r).features
    requires p.after != map[] || p.before != map[] <==> !ChangesNothing(defs, existing, r)
    ensures var g := Grant(if r.byAdmin then "" else r.coach, p.next, 0);
            g.(version := VersionOf(existing) + 1) == Made(defs, existing, r)
    ensures forall doc :: WriteResult(defs, doc, existing, r)
              == if r.quoted.Some? && r.quoted.value != VersionOf(existing) then Conflict
                else if !(p.after != map[] || p.before != map[]) then Unchanged
                 else if Replaces(doc, VersionOf(existing)) then Wrote(VersionOf(existing) + 1) else Conflict
  {
  }

  /** With nobody racing, a request that quotes the stored version, or none, never conflicts. */
  lemma AloneNeverConflicts(defs: map<string, FeatureDef>, was: Option<Grant>, r: Request)
    requires was.Some? ==> was.value.version > 0
    requires ValidPatch(defs, r.patch, RoleOf(r))
    ensures WriteResult(defs, was, was, r).Conflict? <==> r.quoted.Some? && r.quoted.value != VersionOf(was)
  {
  }

  // ---- racing requests on one subject ----

  /** existing is what the call read before it patches and writes. */
  datatype Call = Reading(r: Request) | Writing(r: Request, existing: Option<Grant>)

  datatype LogEntry = LogEntry(who: nat, r: Request)

  /** log is history: the requests that wrote, in order. Call numbers are never reused. */
  datatype State = State(doc: Option<Grant>, calls: map<nat, Call>, results: map<nat, Result>, log: seq<LogEntry>)

  datatype Action = Spawn(who: nat, r: Request) | Advance(who: nat, grantable: bool)

  function Ended(s: State, who: nat, res: Result): State {
    s.(calls := s.calls - {who}, results := s.results[who := res])
  }

  function Step(defs: map<string, FeatureDef>, s: State, a: Action): State {
    match a
    case Spawn(who, r) => if who in s.calls || who in s.results then s else s.(calls := s.calls[who := Reading(r)])
    case Advance(who, grantable) => if who in s.calls then AdvanceCall(defs, s, who, s.calls[who], grantable) else s
  }

  function AdvanceCall(defs: map<string, FeatureDef>, s: State, who: nat, c: Call, grantable: bool): State {
    match c
    case Reading(r) =>
      if !ValidPatch(defs, r.patch, RoleOf(r)) then Ended(s, who, BadRequest)
      else if !r.byAdmin && !grantable then Ended(s, who, Refused)
      else s.(calls := s.calls[who := Writing(r, s.doc)])
    case Writing(r, existing) =>
      if !ValidPatch(defs, r.patch, RoleOf(r)) then s
      else
        Settled(s, who, r, WriteResult(defs, s.doc, existing, r), Made(defs, existing, r))
  }

  /**
   A request that has read the grant: a bad patch and one the coach may not give end at once, each with its
   own answer; any other goes on with the grant as it stands. Nothing is stored yet.
   */
  lemma ReadingAnswers(defs: map<string, FeatureDef>, s: State, who: nat, grantable: bool)
    requires who in s.calls && s.calls[who].Reading?
    ensures var r, s' := s.calls[who].r, Step(defs, s, Advance(who, grantable));
            var bad := !Applied(defs, map[], r.patch, if r.byAdmin then "coach" else "client").Patched?;
            && s'.doc == s.doc && s'.log == s.log
            && (if bad || (!r.byAdmin && !grantable)
                then who !in s'.calls && s'.results == s.results[who := if bad then BadRequest else Refused]
                else s'.calls == s.calls[who := Writing(r, s.doc)] && s'.results == s.results)
  {
  }

  function Settled(s: State, who: nat, r: Request, res: Result, g: Grant): State {
    var s' := Ended(s, who, res);
    if res.Wrote? then s'.(doc := Some(g), log := s.log + [LogEntry(who, r)]) else s'
  }

  function Run(defs: map<string, FeatureDef>, s: State, acts: seq<Action>): State
    decreases |acts|
  {
    if acts == [] then s else Run(defs, Step(defs, s, acts[0]), acts[1..])
  }

  /** The patches of a history applied one after the other, each to the grant the one before it made. */
  function Replayed(defs: map<string, FeatureDef>, log: seq<LogEntry>): Option<Grant>
    requires forall e :: e in log ==> ValidPatch(defs, e.r.patch, RoleOf(e.r))
  {
    if log == [] then None else Some(Made(defs, Replayed(defs, log[..|log| - 1]), log[|log| - 1].r))
  }

  predicate LogOk(defs: map<string, FeatureDef>, log: seq<LogEntry>) {
    forall e :: e in log ==> ValidPatch(defs, e.r.patch, RoleOf(e.r))
  }

  predicate CallOk(defs: map<string, FeatureDef>, s: State, who: nat)
    requires LogOk(defs, s.log) && who in s.calls
  {
    && who !in s.results
    && (s.calls[who].Writing? ==>
          && ValidPatch(defs, s.calls[who].r.patch, RoleOf(s.calls[who].r))
          && 0 <= VersionOf(s.calls[who].existing) <= |s.log|
          && s.calls[who].existing == Replayed(defs, s.log[..VersionOf(s.calls[who].existing)]))
  }

  /** A success is in the log at its version. */
  predicate ResultOk(s: State, who: nat) {
    who in s.results && s.results[who].Wrote? ==>
        0 < s.results[who].version <= |s.log| && s.log[s.results[who].version - 1].who == who
  }

  /** A version is reported by the call that wrote it. */
  predicate EntryOk(s: State, n: nat) {
    n < |s.log| ==> s.log[n].who in s.results && s.results[s.log[n].who] == Wrote(n + 1)
  }

  ghost predicate Inv(defs: map<string, FeatureDef>, s: State) {
    && LogOk(defs, s.log) && s.doc == Replayed(defs, s.log)
    && (forall who :: ResultOk(s, who)) && (forall n :: EntryOk(s, n))
    && (forall who :: who in s.calls ==> CallOk(defs, s, who))
  }

  lemma {:induction false} ReplayedVersion(defs: map<string, FeatureDef>, log: seq<LogEntry>)
    requires LogOk(defs, log)
    ensures VersionOf(Replayed(defs, log)) == |log|
    decreases |log|
  {
    if log != [] {
      ReplayedVersion(defs, log[..|log| - 1]);
    }
  }

  /** The grant a call read is the one stored, unless a version has been written since. */
  lemma ReadIsCurrent(defs: map<string, FeatureDef>, s: State, who: nat)
    requires LogOk(defs, s.log) && s.doc == Replayed(defs, s.log) && who in s.calls && CallOk(defs, s, who)
             && s.calls[who].Writing?
    ensures VersionOf(s.doc) == |s.log|
    ensures Replaces(s.doc, VersionOf(s.calls[who].existing)) <==> VersionOf(s.calls[who].existing) == |s.log|
    ensures VersionOf(s.calls[who].existing) == |s.log| ==> s.calls[who].existing == s.doc
  {
    ReplayedVersion(defs, s.log);
    assert s.log[..|s.log|] == s.log;
  }

  /** A step logs nothing, or one more request, reported as the next version by the call that made it. */
  predicate Logs(s: State, who: nat, s': State) {
    if s'.log == s.log
    then s.results.Keys <= s'.results.Keys
         && forall w :: w in s'.results ==>
              if w in s.results then s'.results[w] == s.results[w] else !s'.results[w].Wrote?
    else |s'.log| == |s.log| + 1 && s'.log == s.log + [LogEntry(who, s'.log[|s'.log| - 1].r)] && who !in s.results
         && s'.results == s.results[who := Wrote(|s.log| + 1)]
  }

  /** And stores nothing, or that request's patch of the stored grant. */
  predicate Stores(defs: map<string, FeatureDef>, s: State, who: nat, s': State) {
    if s'.log == s.log then s'.doc == s.doc
    else
      && who in s.calls && ValidPatch(defs, s.calls[who].r.patch, RoleOf(s.calls[who].r))
      && s'.log == s.log + [LogEntry(who, s.calls[who].r)] && s'.doc == Some(Made(defs, s.doc, s.calls[who].r))
      && !ChangesNothing(defs, s.doc, s.calls[who].r)
  }

  /** A call in flight afterwards was there before, is new, or has just read the stored grant. */
  predicate Continues(defs: map<string, FeatureDef>, s: State, s': State, w: nat) {
    w in s'.calls ==>
      && w !in s'.results
      && (s'.calls[w].Reading? || (w in s.calls && s'.calls[w] == s.calls[w])
          || (s'.calls[w].existing == s.doc && ValidPatch(defs, s'.calls[w].r.patch, RoleOf(s'.calls[w].r))))
  }

  lemma SettledLogs(s: State, who: nat, r: Request, res: Result, g: Grant)
    requires who !in s.results && (res.Wrote? ==> res.version == |s.log| + 1)
    ensures Logs(s, who, Settled(s, who, r, res, g))
  {
  }

  lemma EndedLogs(s: State, who: nat, res: Result)
    requires who !in s.results && !res.Wrote?
    ensures Logs(s, who, Ended(s, who, res))
  {
  }

  lemma WritingLogs(defs: map<string, FeatureDef>, s: State, who: nat, grantable: bool)
    requires LogOk(defs, s.log) && s.doc == Replayed(defs, s.log) && who in s.calls && CallOk(defs, s, who)
             && s.calls[who].Writing?
    ensures Logs(s, who, Step(defs, s, Advance(who, grantable)))
  {
    var c := s.calls[who];
    ReadIsCurrent(defs, s, who);
    SettledLogs(s, who, c.r, WriteResult(defs, s.doc, c.existing, c.r), Made(defs, c.existing, c.r));
  }

  lemma ReadingLogs(defs: map<string, FeatureDef>, s: State, who: nat, grantable: bool)
    requires LogOk(defs, s.log) && who in s.calls && CallOk(defs, s, who) && s.calls[who].Reading?
    ensures Logs(s, who, Step(defs, s, Advance(who, grantable)))
  {
    EndedLogs(s, who, BadRequest);
    EndedLogs(s, who, Refused);
  }

  lemma StepLogs(defs: map<string, FeatureDef>, s: State, a: Action)
    requires LogOk(defs, s.log) && s.doc == Replayed(defs, s.log)
    requires a.who in s.calls ==> CallOk(defs, s, a.who)
    ensures Logs(s, a.who, Step(defs, s, a))
  {
    if a.Advance? && a.who in s.calls {
      if s.calls[a.who].Reading? {
        ReadingLogs(defs, s, a.who, a.grantable);
      } else {
        WritingLogs(defs, s, a.who, a.grantable);
      }
    }
  }

  lemma SettledStores(defs: map<string, FeatureDef>, s: State, who: nat, r: Request, res: Result, g: Grant)
    requires who in s.calls && s.calls[who].r == r && ValidPatch(defs, r.patch, RoleOf(r))
    requires res.Wrote? ==> g == Made(defs, s.doc, r) && !ChangesNothing(defs, s.doc, r)
    ensures Stores(defs, s, who, Settled(s, who, r, res, g))
  {
  }

  lemma StepStores(defs: map<string, FeatureDef>, s: State, a: Action)
    requires LogOk(defs, s.log) && s.doc == Replayed(defs, s.log)
    requires a.who in s.calls ==> CallOk(defs, s, a.who)
    ensures Stores(defs, s, a.who, Step(defs, s, a))
  {
    if a.Advance? && a.who in s.calls && s.calls[a.who].Writing? {
      var c := s.calls[a.who];
      ReadIsCurrent(defs, s, a.who);
      SettledStores(defs, s, a.who, c.r, WriteResult(defs, s.doc, c.existing, c.r), Made(defs, c.existing, c.r));
    }
  }

  lemma StepContinues(defs: map<string, FeatureDef>, s: State, a: Action, w: nat)
    requires LogOk(defs, s.log) && (a.who in s.calls ==> CallOk(defs, s, a.who))
             && (w in s.calls ==> CallOk(defs, s, w))
    ensures Continues(defs, s, Step(defs, s, a), w)
  {
  }

  lemma LogsKeepsResult(s: State, who: nat, s': State, w: nat)
    requires Logs(s, who, s') && ResultOk(s, w)
    ensures ResultOk(s', w)
  {
  }

  lemma LogsKeepsEntry(s: State, who: nat, s': State, n: nat)
    requires Logs(s, who, s') && EntryOk(s, n)
    ensures EntryOk(s', n)
  {
  }

  lemma StoresKeepsReplay(defs: map<string, FeatureDef>, s: State, who: nat, s': State)
    requires LogOk(defs, s.log) && s.doc == Replayed(defs, s.log) && Stores(defs, s, who, s')
    ensures LogOk(defs, s'.log) && s'.doc == Replayed(defs, s'.log) && s.log <= s'.log
  {
    if s'.log != s.log {
      assert s'.log[..|s.log|] == s.log;
    }
  }

  lemma ContinuesKeepsCall(defs: map<string, FeatureDef>, s: State, s': State, w: nat)
    requires LogOk(defs, s.log) && s.doc == Replayed(defs, s.log) && LogOk(defs, s'.log) && s.log <= s'.log
    requires (w in s.calls ==> CallOk(defs, s, w)) && Continues(defs, s, s', w) && w in s'.calls
    ensures CallOk(defs, s', w)
  {
    if s'.calls[w].Writing? {
      if w in s.calls && s'.calls[w] == s.calls[w] {
        LongerLog(defs, s.log, s'.log, VersionOf(s'.calls[w].existing));
      } else {
        ReplayedVersion(defs, s.log);
        LongerLog(defs, s.log, s'.log, |s.log|);
      }
    }
  }

  lemma LongerLog(defs: map<string, FeatureDef>, log: seq<LogEntry>, log': seq<LogEntry>, n: nat)
    requires log <= log' && n <= |log| && LogOk(defs, log) && LogOk(defs, log')
    ensures log'[..n] == log[..n] && Replayed(defs, log'[..n]) == Replayed(defs, log[..n]) && log[..|log|] == log
  {
    assert log'[..n] == log[..n];
  }

  lemma StepKeepsInv(defs: map<string, FeatureDef>, s: State, a: Action)
    requires Inv(defs, s)
    ensures Inv(defs, Step(defs, s, a))
  {
    StepLogs(defs, s, a);
    StepStores(defs, s, a);
    forall w | w in Step(defs, s, a).calls
      ensures Continues(defs, s, Step(defs, s, a), w)
    {
      StepContinues(defs, s, a, w);
    }
    EffectKeepsInv(defs, s, a.who, Step(defs, s, a));
  }

  lemma EffectKeepsInv(defs: map<string, FeatureDef>, s: State, who: nat, s': State)
    requires Inv(defs, s) && Logs(s, who, s') && Stores(defs, s, who, s')
    requires forall w :: w in s'.calls ==> Continues(defs, s, s', w)
    ensures Inv(defs, s')
  {
    StoresKeepsReplay(defs, s, who, s');
    forall w
      ensures ResultOk(s', w)
    {
      LogsKeepsResult(s, who, s', w);
    }
    forall n
      ensures EntryOk(s', n)
    {
      LogsKeepsEntry(s, who, s', n);
    }
    forall w | w in s'.calls
      ensures CallOk(defs, s', w)
    {
      ContinuesKeepsCall(defs, s, s', w);
    }
  }

  lemma {:induction false} RunKeepsInv(defs: map<string, FeatureDef>, s: State, acts: seq<Action>)
    requires Inv(defs, s)
    ensures Inv(defs, Run(defs, s, acts))
    decreases |acts|
  {
    if acts != [] {
      StepKeepsInv(defs, s, acts[0]);
      RunKeepsInv(defs, Step(defs, s, acts[0]), acts[1..]);
    }
  }

  /**
   No update is lost, however requests interleave: the stored grant is the replay of every request that
   reported success, its version counts them, and version n belongs to exactly one of them.
   */
  lemma NoLostUpdate(defs: map<string, FeatureDef>, init: State, acts: seq<Action>)
    requires init == State(None, map[], map[], [])
    ensures var s := Run(defs, init, acts);
            && LogOk(defs, s.log) && s.doc == Replayed(defs, s.log) && VersionOf(s.doc) == |s.log|
            && (forall who :: ResultOk(s, who)) && (forall n :: EntryOk(s, n))
  {
    RunKeepsInv(defs, init, acts);
    ReplayedVersion(defs, Run(defs, init, acts).log);
  }

  /** A step of a history: the features at version n are request n's patch of the features at version n - 1. */
  lemma EachVersionPatchesTheOneBefore(defs: map<string, FeatureDef>, log: seq<LogEntry>, n: nat)
    requires LogOk(defs, log) && 0 < n <= |log|
    ensures var was, now, r := Replayed(defs, log[..n - 1]), Replayed(defs, log[..n]), log[n - 1].r;
            && now.Some? && now.value.version == n && VersionOf(was) == n - 1
            && now.value.coach == (if r.byAdmin then "" else r.coach)
            && now.value.features == Applied(defs,
                 if was.Some? && (r.byAdmin || was.value.coach == r.coach) then was.value.features
                 else map[], r.patch, RoleOf(r)).next
  {
    ReplayedVersion(defs, log[..n]);
    ReplayedVersion(defs, log[..n - 1]);
    assert log[..n][..n - 1] == log[..n - 1];
  }

  /**
   A writing call conflicts exactly when it quotes another version than it read, or would write and somebody
   wrote since it read.
   */
  lemma ConflictIsExact(defs: map<string, FeatureDef>, s: State, who: nat)
    requires Inv(defs, s) && who in s.calls && s.calls[who].Writing?
    ensures var c := s.calls[who]; var res := Step(defs, s, Advance(who, true)).results;
            CallOk(defs, s, who) && who in res &&
            (res[who].Conflict? <==> (c.r.quoted.Some? && c.r.quoted.value != VersionOf(c.existing))
                                     || (!ChangesNothing(defs, c.existing, c.r) && |s.log| != VersionOf(c.existing)))
  {
    assert CallOk(defs, s, who);
    ConflictOfCall(defs, s, who);
  }

  lemma ConflictOfCall(defs: map<string, FeatureDef>, s: State, who: nat)
    requires LogOk(defs, s.log) && s.doc == Replayed(defs, s.log) && who in s.calls && CallOk(defs, s, who)
             && s.calls[who].Writing?
    ensures var c := s.calls[who]; var res := Step(defs, s, Advance(who, true)).results;
            who in res &&
            (res[who].Conflict? <==> (c.r.quoted.Some? && c.r.quoted.value != VersionOf(c.existing))
                                     || (!ChangesNothing(defs, c.existing, c.r) && |s.log| != VersionOf(c.existing)))
  {
    var c := s.calls[who];
    ReadIsCurrent(defs, s, who);
  }

  /** Only normalized overrides are ever stored, so every recorded diff is exact. */
  lemma {:induction false} StoredIsNormalized(defs: map<string, FeatureDef>, log: seq<LogEntry>)
    requires LogOk(defs, log)
    ensures Replayed(defs, log).Some? ==> Normalized(Replayed(defs, log).value.features)
    decreases |log|
  {
    if log != [] {
      var e, was := log[|log| - 1], Replayed(defs, log[..|log| - 1]);
      StoredIsNormalized(defs, log[..|log| - 1]);
      assert e in log;
      PatchKeepsNormalized(defs, Base(was, e.r), e.r.patch, RoleOf(e.r));
    }
  }

  /** Every version changes something: the overrides it stores differ from the ones it patched. */
  lemma EveryVersionChangesSomething(defs: map<string, FeatureDef>, s: State, a: Action)
    requires Inv(defs, s) && Step(defs, s, a).log != s.log
    ensures a.Advance? && a.who in s.calls && Step(defs, s, a).doc.Some?
    ensures Step(defs, s, a).doc.value.features != Base(s.doc, s.calls[a.who].r)
  {
    assert a.who in s.calls ==> CallOk(defs, s, a.who);
    StepStores(defs, s, a);
    StoredIsNormalized(defs, s.log);
    var r := s.calls[a.who].r;
    DiffNamesTheChanges(defs, Base(s.doc, r), r.patch, RoleOf(r));
  }
}
