/**
 Consumes and releases of one subject's usage document, interleaved at single store updates: a consume is
 an upsert, a zero-fill and a conditional increment; a release is one update.
 */
module UsageProtocol {
  import opened Common
  import opened Registry
  import opened Usage

  datatype Pc = Create | ZeroFill | Increment

  /** deltas and maxes are keyed by storage key, as the service hands them to the store. */
  datatype Call =
    | Consume(feature: string, deltas: map<string, int>, maxes: map<string, int>, pc: Pc)
    | Release(feature: string, deltas: map<string, int>)

  /** History of the updates that moved counters. */
  datatype Entry = Took(feature: string, deltas: map<string, int>) | Gave(feature: string, deltas: map<string, int>)

  datatype State = State(doc: Option<Doc>, calls: map<nat, Call>, log: seq<Entry>)

  datatype Action = Spawn(who: nat, call: Call) | Advance(who: nat)

  /** What the service promises the store: amounts are not negative, and only listed counters are bounded. */
  predicate IsRequest(c: Call) {
    && c.deltas != map[] && (forall k :: k in c.deltas ==> c.deltas[k] >= 0)
    && (c.Consume? ==> c.maxes.Keys <= c.deltas.Keys)
  }

  /** Every request the service lets through is one. */
  lemma ServiceSendsRequests(feature: string, request: map<string, int>, limits: map<string, Option<int>>,
                             month: string,
                             keyed: map<string, int>, bounds: map<string, int>)
    requires ValidRequest(feature, request)
    requires var deltas := Filled(CounterNames(FEATURES[feature]), request);
             Renamed(deltas, month, keyed) && Renamed(Bounds(limits, deltas.Keys), month, bounds)
    ensures IsRequest(Consume(feature, keyed, bounds, Create)) && IsRequest(Release(feature, keyed))
  {
    var counters := CounterNames(FEATURES[feature]);
    var deltas := Filled(counters, request);
    var c :| c in counters;
    assert CounterKey(c, month) in keyed;
    forall k | k in keyed
      ensures keyed[k] >= 0
    {
      var d :| d in deltas && k == CounterKey(d, month);
      assert keyed[CounterKey(d, month)] == deltas[d];
    }
  }

  function Done(s: State, who: nat): State {
    s.(calls := s.calls - {who})
  }

  function Update(s: State, who: nat, c: Call): State {
    match c
    case Consume(feature, deltas, maxes, Create) =>
      s.(doc := Some(Created(s.doc, Zeros(feature, deltas))), calls := s.calls[who := c.(pc := ZeroFill)])
    case Consume(feature, deltas, maxes, ZeroFill) =>
      var doc := if s.doc.Some? then Some(ZeroFilled(s.doc.value, Paths(feature, deltas.Keys))) else None;
      s.(doc := doc, calls := s.calls[who := c.(pc := Increment)])
    case Consume(feature, deltas, maxes, Increment) =>
      if Granted(s, c)
      then Done(s, who).(doc := Some(Incremented(s.doc.value, Fields(feature, deltas))),
                         log := s.log + [Took(feature, deltas)])
      else Done(s, who)
    case Release(feature, deltas) =>
      if s.doc.Some? then Done(s, who).(doc := Some(Lowered(s.doc.value, Fields(feature, deltas))),
                                        log := s.log + [Gave(feature, deltas)])
      else Done(s, who)
  }

  /** The filter of the conditional increment matches. */
  predicate Granted(s: State, c: Call)
    requires c.Consume?
  {
    s.doc.Some? && Matches(s.doc.value, Room(c.feature, c.deltas, c.maxes))
  }

  function Step(s: State, a: Action): State {
    match a
    case Spawn(who, c) => if who in s.calls || !IsRequest(c) || (c.Consume? && !c.pc.Create?) then s
                          else s.(calls := s.calls[who := c])
    case Advance(who) => if who in s.calls then Update(s, who, s.calls[who]) else s
  }

  function Run(s: State, acts: seq<Action>): State
    decreases |acts|
  {
    if acts == [] then s else Run(Step(s, acts[0]), acts[1..])
  }

  function Value(s: State, p: Path): int {
    At(s.doc.GetOr(map[]), p)
  }

  // ---- the counter a history leaves ----

  /** What one entry asks of the counter at p. */
  function Change(e: Entry, p: Path): int {
    if e.Took? then AmountAt(e.feature, e.deltas, p) else -AmountAt(e.feature, e.deltas, p)
  }

  /** Consumed minus released over a history. */
  function Net(log: seq<Entry>, p: Path): int {
    if log == [] then 0 else Net(log[..|log| - 1], p) + Change(log[|log| - 1], p)
  }

  /** The counter after a history: changes add up, and none takes it below zero. */
  function Counter(start: int, log: seq<Entry>, p: Path): int {
    if log == [] then start else Max(0, Counter(start, log[..|log| - 1], p) + Change(log[|log| - 1], p))
  }

  predicate CallOk(s: State, who: nat)
    requires who in s.calls
  {
    var c := s.calls[who];
    && IsRequest(c)
    && (c.Consume? && !c.pc.Create? ==> s.doc.Some?)
    && (c.Consume? && c.pc.Increment? ==> forall k :: k in c.deltas ==> Path(c.feature, k) in s.doc.value)
  }

  predicate Sane(doc: Option<Doc>) {
    doc.Some? ==> forall p :: p in doc.value ==> doc.value[p] >= 0
  }

  /** start is the document before the run. */
  ghost predicate Inv(s: State, start: Option<Doc>) {
    && Sane(s.doc)
    && (forall who :: who in s.calls ==> CallOk(s, who))
    && (forall p :: Value(s, p) == Counter(At(start.GetOr(map[]), p), s.log, p))
  }

  lemma UpdateKeepsCalls(s: State, who: nat, other: nat)
    requires who in s.calls && CallOk(s, who) && (other in s.calls ==> CallOk(s, other))
    ensures var s' := Update(s, who, s.calls[who]); other in s'.calls ==> CallOk(s', other)
  {
    var s' := Update(s, who, s.calls[who]);
    assert s.doc.Some? ==> s'.doc.Some? && s.doc.value.Keys <= s'.doc.value.Keys;
  }

  lemma UpdateKeepsSane(s: State, who: nat)
    requires who in s.calls && CallOk(s, who) && Sane(s.doc)
    ensures Sane(Update(s, who, s.calls[who]).doc)
  {
  }

  /** One update moves the counter at p by what it logs, floored at zero. */
  lemma UpdateMoves(s: State, who: nat, p: Path)
    requires who in s.calls && CallOk(s, who) && Sane(s.doc)
    ensures var s' := Update(s, who, s.calls[who]);
            if s'.log == s.log then Value(s', p) == Value(s, p)
            else |s'.log| == |s.log| + 1 && s'.log[..|s.log|] == s.log
                 && Value(s', p) == Max(0, Value(s, p) + Change(s'.log[|s.log|], p))
  {
    var c := s.calls[who];
    assert p in Paths(c.feature, c.deltas.Keys) <==> p.feature == c.feature && p.counter in c.deltas;
    assert s.doc.Some? && p in s.doc.value ==> s.doc.value[p] >= 0;
  }

  lemma StepKeepsInv(s: State, a: Action, start: Option<Doc>)
    requires Inv(s, start)
    ensures Inv(Step(s, a), start)
  {
    var s' := Step(s, a);
    if a.Advance? && a.who in s.calls {
      UpdateKeepsSane(s, a.who);
      forall other | other in s'.calls
        ensures CallOk(s', other)
      {
        UpdateKeepsCalls(s, a.who, other);
      }
      forall p
        ensures Value(s', p) == Counter(At(start.GetOr(map[]), p), s'.log, p)
      {
        UpdateMoves(s, a.who, p);
      }
    } else {
      forall other | other in s'.calls
        ensures CallOk(s', other)
      {
        assert other in s.calls ==> CallOk(s, other);
      }
    }
  }

  lemma {:induction false} RunKeepsInv(s: State, acts: seq<Action>, start: Option<Doc>)
    requires Inv(s, start)
    ensures Inv(Run(s, acts), start)
    decreases |acts|
  {
    if acts != [] {
      StepKeepsInv(s, acts[0], start);
      RunKeepsInv(Step(s, acts[0]), acts[1..], start);
    }
  }

  predicate Fresh(s: State) {
    Sane(s.doc) && s.calls == map[] && s.log == []
  }

  // ---- what holds of every interleaving ----

  /**
   The increment of any reachable state decides exactly: it is denied when and only when some bounded
   counter plus its amount exceeds its maximum at that moment, so a denial has a bounded counter to name.
   Denied, no counter moves. Granted, every counter of the request moves by its amount, no other counter
   moves, and no bounded counter is left above the maximum it was checked against.
   */
  lemma DenialIsExact(init: State, acts: seq<Action>, who: nat)
    requires Fresh(init)
    requires var s := Run(init, acts); who in s.calls && s.calls[who].Consume? && s.calls[who].pc.Increment?
    ensures var s := Run(init, acts); var s' := Step(s, Advance(who)); var c := s.calls[who];
            var over := exists k :: k in c.maxes && Value(s, Path(c.feature, k)) + Amount(c.deltas, k) > c.maxes[k];
            && (over <==> !Granted(s, c))
            && (over ==> s'.doc == s.doc && c.maxes != map[])
            && (!over ==> forall p :: Value(s', p) == Value(s, p) + AmountAt(c.feature, c.deltas, p))
            && (!over ==> forall k :: k in c.maxes ==> Value(s', Path(c.feature, k)) <= c.maxes[k])
  {
    RunKeepsInv(init, acts, init.doc);
    IncrementDecides(Run(init, acts), who);
  }

  lemma IncrementDecides(s: State, who: nat)
    requires who in s.calls && CallOk(s, who) && s.calls[who].Consume? && s.calls[who].pc.Increment?
    ensures var s' := Step(s, Advance(who)); var c := s.calls[who];
            var over := exists k :: k in c.maxes && Value(s, Path(c.feature, k)) + Amount(c.deltas, k) > c.maxes[k];
            && (over <==> !Granted(s, c))
            && (over ==> s'.doc == s.doc && c.maxes != map[])
            && (!over ==> forall p :: Value(s', p) == Value(s, p) + AmountAt(c.feature, c.deltas, p))
            && (!over ==> forall k :: k in c.maxes ==> Value(s', Path(c.feature, k)) <= c.maxes[k])
  {
    RoomIsPerCounter(s, who);
    IncrementMoves(s, who);
  }

  /** The update's filter, counter by counter. */
  lemma RoomIsPerCounter(s: State, who: nat)
    requires who in s.calls && CallOk(s, who) && s.calls[who].Consume? && s.calls[who].pc.Increment?
    ensures var c := s.calls[who];
            Granted(s, c) <==> forall k :: k in c.maxes ==>
                                 Value(s, Path(c.feature, k)) + Amount(c.deltas, k) <= c.maxes[k]
  {
    var c := s.calls[who];
    var room := Room(c.feature, c.deltas, c.maxes);
    forall k | k in c.maxes
      ensures var p := Path(c.feature, k);
              p in room && (HasRoom(s.doc.value, room, p) <==> Value(s, p) + c.deltas[k] <= c.maxes[k])
    {
      assert Path(c.feature, k) in Paths(c.feature, c.maxes.Keys);
    }
    assert forall p :: p in room ==> p == Path(c.feature, p.counter) && p.counter in c.maxes;
  }

  /** What the update does to each counter. */
  lemma IncrementMoves(s: State, who: nat)
    requires who in s.calls && CallOk(s, who) && s.calls[who].Consume? && s.calls[who].pc.Increment?
    ensures var s' := Step(s, Advance(who)); var c := s.calls[who];
            if Granted(s, c) then forall p :: Value(s', p) == Value(s, p) + AmountAt(c.feature, c.deltas, p)
                                              else s'.doc == s.doc
  {
  }

  /** Counters never go below zero, and each is what its history of grants and releases leaves. */
  lemma CountersFollowHistory(init: State, acts: seq<Action>, p: Path)
    requires Fresh(init)
    ensures var s := Run(init, acts);
            Value(s, p) >= 0 && Value(s, p) == Counter(Value(init, p), s.log, p)
  {
    RunKeepsInv(init, acts, init.doc);
  }

  /** The history goes below zero at no point: no release gives back more than is counted. */
  predicate NeverOverReleased(start: int, log: seq<Entry>, p: Path) {
    forall n :: 0 <= n <= |log| ==> IsCovered(start, log, p, n)
  }

  predicate IsCovered(start: int, log: seq<Entry>, p: Path, n: nat)
    requires n <= |log|
  {
    start + Net(log[..n], p) >= 0
  }

  predicate IsNet(start: int, log: seq<Entry>, p: Path, n: nat)
    requires n <= |log|
  {
    Counter(start, log[..n], p) == start + Net(log[..n], p)
  }

  lemma PrefixOfMost(start: int, log: seq<Entry>, p: Path, n: nat)
    requires n < |log|
    ensures IsCovered(start, log, p, n) <==> IsCovered(start, log[..|log| - 1], p, n)
    ensures IsNet(start, log, p, n) <==> IsNet(start, log[..|log| - 1], p, n)
  {
    assert log[..n] == log[..|log| - 1][..n];
  }

  /** With one more entry there is one more point to look at. */
  lemma OneMorePoint(start: int, log: seq<Entry>, p: Path)
    requires log != []
    ensures var most := log[..|log| - 1];
            && (NeverOverReleased(start, log, p) <==> NeverOverReleased(start, most, p) && start + Net(log, p) >= 0)
            && ((forall n :: 0 <= n <= |log| ==> IsNet(start, log, p, n)) <==>
                  (forall n :: 0 <= n <= |most| ==> IsNet(start, most, p, n)) && IsNet(start, log, p, |log|))
  {
    var most := log[..|log| - 1];
    forall n: nat | n < |log|
      ensures IsCovered(start, log, p, n) <==> IsCovered(start, most, p, n)
      ensures IsNet(start, log, p, n) <==> IsNet(start, most, p, n)
    {
      PrefixOfMost(start, log, p, n);
    }
    assert log[..|log|] == log;
    assert IsCovered(start, log, p, |log|) <==> start + Net(log, p) >= 0;
  }

  /**
   Conservation: a counter is consumed minus released, at every point of a history, exactly when that
   difference never goes below zero.
   */
  lemma {:induction false} Conservation(start: int, log: seq<Entry>, p: Path)
    requires start >= 0
    ensures NeverOverReleased(start, log, p) <==> forall n :: 0 <= n <= |log| ==> IsNet(start, log, p, n)
    decreases |log|
  {
    assert log[..|log|] == log;
    if log != [] {
      var most := log[..|log| - 1];
      Conservation(start, most, p);
      OneMorePoint(start, log, p);
      assert most[..|most|] == most;
      assert (forall n :: 0 <= n <= |most| ==> IsNet(start, most, p, n)) ==> IsNet(start, most, p, |most|);
    }
  }

  /**
   With floors hit, a counter still has an exact meaning: it is the largest net amount of any final
   stretch of its history, the whole history counted from its starting value.
   */
  lemma {:induction false} CounterIsLargestTail(start: int, log: seq<Entry>, p: Path)
    requires start >= 0
    ensures start + Net(log, p) <= Counter(start, log, p)
    ensures forall n :: 0 < n <= |log| ==> Net(log, p) - Net(log[..n], p) <= Counter(start, log, p)
    ensures Counter(start, log, p) == start + Net(log, p)
            || exists n :: 0 < n <= |log| && Counter(start, log, p) == Net(log, p) - Net(log[..n], p)
    decreases |log|
  {
    assert log[..|log|] == log;
    if log != [] {
      var most := log[..|log| - 1];
      CounterIsLargestTail(start, most, p);
      assert forall n :: 0 <= n < |log| ==> log[..n] == most[..n];
    }
  }

  // ---- a ceiling over whole runs ----

  /** Every consume of the run that touches p is checked against at most max. */
  predicate Bounded(c: Call, p: Path, max: int) {
    c.Consume? && c.feature == p.feature && p.counter in c.deltas ==> p.counter in c.maxes && c.maxes[p.counter] <= max
  }

  predicate AllBounded(acts: seq<Action>, p: Path, max: int) {
    forall i :: 0 <= i < |acts| && acts[i].Spawn? ==> Bounded(acts[i].call, p, max)
  }

  lemma StepKeepsCeiling(s: State, a: Action, start: Option<Doc>, p: Path, max: int)
    requires Inv(s, start) && Value(s, p) <= max && (forall who :: who in s.calls ==> Bounded(s.calls[who], p, max))
    requires max >= 0 && (a.Spawn? ==> Bounded(a.call, p, max))
    ensures Value(Step(s, a), p) <= max && forall who :: who in Step(s, a).calls ==>
                                             Bounded(Step(s, a).calls[who], p, max)
  {
    if a.Advance? && a.who in s.calls {
      var c := s.calls[a.who];
      UpdateMoves(s, a.who, p);
      if c.Consume? && c.pc.Increment? {
        IncrementDecides(s, a.who);
        assert p.feature == c.feature ==> Path(c.feature, p.counter) == p;
      }
    }
  }

  /** However many callers race, a counter whose every consume is checked against at most max never passes max. */
  lemma {:induction false} CeilingHolds(s: State, acts: seq<Action>, start: Option<Doc>, p: Path, max: int)
    requires Inv(s, start) && Value(s, p) <= max && (forall who :: who in s.calls ==> Bounded(s.calls[who], p, max))
    requires max >= 0 && AllBounded(acts, p, max)
    ensures Value(Run(s, acts), p) <= max
    decreases |acts|
  {
    if acts != [] {
      StepKeepsInv(s, acts[0], start);
      StepKeepsCeiling(s, acts[0], start, p, max);
      CeilingHolds(Step(s, acts[0]), acts[1..], start, p, max);
    }
  }

  // ---- alone ----

  /** A consume that nobody interrupts is one attempt of the store: all three updates, and granted exactly then. */
  lemma ConsumeAlone(s: State, who: nat, feature: string, deltas: map<string, int>, maxes: map<string, int>)
    requires who !in s.calls && IsRequest(Consume(feature, deltas, maxes, Create))
    ensures var a := AfterConsume(s.doc, feature, deltas, maxes);
            Run(s, [Spawn(who, Consume(feature, deltas, maxes, Create)), Advance(who), Advance(who), Advance(who)])
            == State(Some(a.doc), s.calls, if a.ok then s.log + [Took(feature, deltas)] else s.log)
  {
    var c := Consume(feature, deltas, maxes, Create);
    var s1 := Step(s, Spawn(who, c));
    var s2 := Step(s1, Advance(who));
    var s3 := Step(s2, Advance(who));
    assert s3.doc == Some(Prepared(s.doc, feature, deltas)) && s3.log == s.log;
    var s4 := Step(s3, Advance(who));
    assert s4.calls == s.calls;
    RunOfFour(s, Spawn(who, c), Advance(who), Advance(who), Advance(who));
  }

  lemma OneStep(s: State, a: Action, rest: seq<Action>)
    ensures Run(s, [a] + rest) == Run(Step(s, a), rest)
  {
    assert ([a] + rest)[1..] == rest;
  }

  lemma RunOfFour(s: State, a: Action, b: Action, c: Action, d: Action)
    ensures Run(s, [a, b, c, d]) == Step(Step(Step(Step(s, a), b), c), d)
  {
    assert [a, b, c, d] == [a] + ([b] + ([c] + ([d] + [])));
    OneStep(s, a, [b] + ([c] + ([d] + [])));
    OneStep(Step(s, a), b, [c] + ([d] + []));
    OneStep(Step(Step(s, a), b), c, [d] + []);
    OneStep(Step(Step(Step(s, a), b), c), d, []);
  }

  /** A release is one update, and none without a document. */
  lemma ReleaseAlone(s: State, who: nat, feature: string, deltas: map<string, int>)
    requires who !in s.calls && IsRequest(Release(feature, deltas))
    ensures Run(s, [Spawn(who, Release(feature, deltas)), Advance(who)])
            == if s.doc.None? then s
               else State(Some(Lowered(s.doc.value, Fields(feature, deltas))), s.calls,
                          s.log + [Gave(feature, deltas)])
  {
    var spawn := Spawn(who, Release(feature, deltas));
    var s1 := Step(s, spawn);
    var s2 := Step(s1, Advance(who));
    assert s2.calls == s.calls;
    assert [spawn, Advance(who)] == [spawn] + ([Advance(who)] + []);
    OneStep(s, spawn, [Advance(who)] + []);
    OneStep(s1, Advance(who), []);
  }
}
