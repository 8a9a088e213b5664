/**
 Usage counters: the store's conditional increment and floored decrement, and the service calls that
 validate a request, pick the limits that bound it and name the limit that denied it.
 */
module Usage {
  import opened Common
  import opened Registry
  import opened Ordering

  /** Where a counter lives in a usage document. */
  datatype Path = Path(feature: string, counter: string)

  type Doc = map<Path, int>

  /** An absent counter reads as zero. */
  function At(doc: Doc, p: Path): int {
    if p in doc then doc[p] else 0
  }

  function Amount(amounts: map<string, int>, c: string): int {
    if c in amounts then amounts[c] else 0
  }

  function Paths(feature: string, counters: set<string>): set<Path> {
    set c | c in counters :: Path(feature, c)
  }

  /** What a change of a feature's counters by deltas means for the counter at p. */
  function AmountAt(feature: string, deltas: map<string, int>, p: Path): int {
    if p.feature == feature then Amount(deltas, p.counter) else 0
  }

  // ---- the store's three update forms ----

  /** An upsert whose fields apply only when it inserts. */
  function Created(doc: Option<Doc>, fields: Doc): Doc {
    if doc.Some? then doc.value else fields
  }

  /** Gives absent counters the value zero. */
  function ZeroFilled(doc: Doc, paths: set<Path>): Doc {
    map p | p in doc.Keys + paths :: At(doc, p)
  }

  /** The filter of the conditional update: every bounded counter is present and has room. */
  predicate Matches(doc: Doc, atMost: map<Path, int>) {
    forall p :: p in atMost ==> HasRoom(doc, atMost, p)
  }

  predicate HasRoom(doc: Doc, atMost: map<Path, int>, p: Path)
    requires p in atMost
  {
    p in doc && doc[p] <= atMost[p]
  }

  function Incremented(doc: Doc, inc: map<Path, int>): Doc {
    map p | p in doc.Keys + inc.Keys :: At(doc, p) + if p in inc then inc[p] else 0
  }

  function Lowered(doc: Doc, dec: map<Path, int>): Doc {
    map p | p in doc.Keys + dec.Keys :: if p in dec then Max(0, At(doc, p) - dec[p]) else At(doc, p)
  }

  /** deltas, keyed by where the counters live. */
  function Fields(feature: string, amounts: map<string, int>): map<Path, int> {
    map p | p in Paths(feature, amounts.Keys) :: amounts[p.counter]
  }

  function Zeros(feature: string, deltas: map<string, int>): Doc {
    map p | p in Paths(feature, deltas.Keys) :: 0
  }

  function Room(feature: string, deltas: map<string, int>, maxes: map<string, int>): map<Path, int> {
    map p | p in Paths(feature, maxes.Keys) :: maxes[p.counter] - Amount(deltas, p.counter)
  }

  /** The document after the two preparing updates of a consume. */
  function Prepared(doc: Option<Doc>, feature: string, deltas: map<string, int>): Doc {
    ZeroFilled(Created(doc, Zeros(feature, deltas)), Paths(feature, deltas.Keys))
  }

  datatype Attempt = Attempt(doc: Doc, ok: bool)

  /** The conditional increment on the prepared document. */
  function AfterConsume(doc: Option<Doc>, feature: string, deltas: map<string, int>, maxes: map<string, int>): Attempt {
    var d := Prepared(doc, feature, deltas);
    if Matches(d, Room(feature, deltas, maxes)) then Attempt(Incremented(d, Fields(feature, deltas)), true)
    else Attempt(d, false)
  }

  /** Preparing adds exactly the counters of the request and changes no value. */
  lemma PreparedReads(doc: Option<Doc>, feature: string, deltas: map<string, int>, p: Path)
    ensures var d := Prepared(doc, feature, deltas);
            && At(d, p) == (if doc.Some? then At(doc.value, p) else 0)
            && (p in Paths(feature, deltas.Keys) ==> p in d)
  {
  }

  function DocOf(docs: map<Id, Doc>, subject: Id): Option<Doc> {
    if subject in docs then Some(docs[subject]) else None
  }

  function Read(docs: map<Id, Doc>, subject: Id, p: Path): int {
    if subject in docs then At(docs[subject], p) else 0
  }

  /** The update documents of a consume: zeros for an insert, and the increments. */
  method UpdateFields(feature: string, deltas: map<string, int>) returns (onInsert: Doc, inc: map<Path, int>)
    ensures onInsert == Zeros(feature, deltas) && inc == Fields(feature, deltas)
  {
    onInsert, inc := map[], map[];
    var left := deltas.Keys;
    while left != {}
      invariant left <= deltas.Keys
      invariant onInsert.Keys == inc.Keys == Paths(feature, deltas.Keys - left)
      invariant forall p :: p in inc ==> p.counter in deltas && onInsert[p] == 0 && inc[p] == deltas[p.counter]
      decreases left
    {
      var c :| c in left;
      onInsert, inc := onInsert[Path(feature, c) := 0], inc[Path(feature, c) := deltas[c]];
      left := left - {c};
    }
  }

  /** The filter of a consume: what each bounded counter may hold at most. */
  method FilterFields(feature: string, deltas: map<string, int>, maxes: map<string, int>)
    returns (atMost: map<Path, int>)
    ensures atMost == Room(feature, deltas, maxes)
  {
    atMost := map[];
    var left := maxes.Keys;
    while left != {}
      invariant left <= maxes.Keys
      invariant atMost.Keys == Paths(feature, maxes.Keys - left)
      invariant forall p :: p in atMost ==>
                  p.counter in maxes && atMost[p] == maxes[p.counter] - Amount(deltas, p.counter)
      decreases left
    {
      var c :| c in left;
      atMost := atMost[Path(feature, c) := maxes[c] - Amount(deltas, c)];
      left := left - {c};
    }
  }

  class UsageStore {
    var docs: map<Id, Doc>

    constructor ()
      ensures docs == map[]
    {
      docs := map[];
    }

    method ConsumeUsage(subject: Id, feature: string, deltas: map<string, int>, maxes: map<string, int>)
      returns (after: Option<Doc>)
      modifies this
      ensures var a := AfterConsume(old(DocOf(docs, subject)), feature, deltas, maxes);
              DocOf(docs, subject) == Some(a.doc) && after == if a.ok then Some(a.doc) else None
      ensures forall u :: u != subject ==> DocOf(docs, u) == old(DocOf(docs, u))
    {
      ghost var a := AfterConsume(DocOf(docs, subject), feature, deltas, maxes);
      var onInsert, inc := UpdateFields(feature, deltas);
      var doc := Created(DocOf(docs, subject), onInsert);
      docs := docs[subject := doc];
      doc := ZeroFilled(doc, Paths(feature, deltas.Keys));
      docs := docs[subject := doc];
      assert doc == Prepared(old(DocOf(docs, subject)), feature, deltas);
      var atMost := FilterFields(feature, deltas, maxes);
      if Matches(doc, atMost) {
        doc := Incremented(doc, inc);
        docs := docs[subject := doc];
        assert doc == a.doc;
        after := Some(doc);
      } else {
        assert doc == a.doc;
        after := None;
      }
    }

    method ReleaseUsage(subject: Id, feature: string, deltas: map<string, int>)
      modifies this
      ensures docs == if deltas == map[] || subject !in old(docs) then old(docs)
                      else old(docs)[subject := Lowered(old(docs)[subject], Fields(feature, deltas))]
    {
      if deltas == map[] || subject !in docs {
        return;
      }
      var _, dec := UpdateFields(feature, deltas);
      docs := docs[subject := Lowered(docs[subject], dec)];
    }
  }

  // ---- service calls ----

  datatype Outcome =
    | Consumed(totals: map<string, int>)
    | Released
    | BadRequest
    | Disabled
    | QuotaExceeded(limit: string, used: int, max: int)

  /** A request names a feature with counters, at least one of them, and no negative amount. */
  predicate ValidRequest(feature: string, deltas: map<string, int>) {
    && feature in FEATURES && CounterNames(FEATURES[feature]) != {} && deltas != map[]
    && forall c :: c in deltas ==> c in CounterNames(FEATURES[feature]) && deltas[c] >= 0
  }

  function Filled(counters: set<string>, request: map<string, int>): map<string, int> {
    map c | c in counters :: Amount(request, c)
  }

  /** Every counter of the feature, at the requested amount or at zero. */
  method ParseDeltas(feature: string, request: map<string, int>) returns (deltas: Option<map<string, int>>)
    ensures deltas.Some? <==> ValidRequest(feature, request)
    ensures deltas.Some? ==> deltas.value == Filled(CounterNames(FEATURES[feature]), request)
  {
    if feature !in FEATURES {
      return None;
    }
    var counters := CounterNames(FEATURES[feature]);
    if counters == {} || request == map[] {
      return None;
    }
    var parsed := map c | c in counters :: 0;
    var left := request.Keys;
    while left != {}
      invariant left <= request.Keys && parsed.Keys == counters
      invariant forall c :: c in request && c !in left ==> c in counters && request[c] >= 0
      invariant forall c :: c in parsed ==> parsed[c] == if c in left then 0 else Amount(request, c)
      decreases left
    {
      var c :| c in left;
      if c !in parsed || request[c] < 0 {
        return None;
      }
      parsed := parsed[c := request[c]];
      left := left - {c};
    }
    return Some(parsed);
  }

  /** Counter-keyed amounts under their storage keys. */
  predicate Renamed(from: map<string, int>, month: string, to: map<string, int>) {
    && (forall c :: c in from ==> CounterKey(c, month) in to && to[CounterKey(c, month)] == from[c])
    && (forall k :: k in to ==> exists c :: c in from && k == CounterKey(c, month))
  }

  method StorageKeys(from: map<string, int>, month: string) returns (to: map<string, int>)
    requires from.Keys <= COUNTER_LIMITS.Keys
    ensures Renamed(from, month, to)
  {
    to := map[];
    var left := from.Keys;
    while left != {}
      invariant left <= from.Keys
      invariant forall c :: c in from && c !in left ==>
                  CounterKey(c, month) in to && to[CounterKey(c, month)] == from[c]
      invariant forall k :: k in to ==> exists c :: c in from && k == CounterKey(c, month)
      decreases left
    {
      var c :| c in left;
      forall d | d in from
        ensures CounterKey(d, month) == CounterKey(c, month) <==> d == c
      {
        CounterKeysAreDistinct(d, c, month, month);
      }
      to := to[CounterKey(c, month) := from[c]];
      left := left - {c};
    }
  }

  /** Where the service keeps a counter of a feature in this month. */
  function Slot(feature: string, counter: string, month: string): Path {
    Path(feature, CounterKey(counter, month))
  }

  function Slots(feature: string, counters: set<string>, month: string): set<Path> {
    set c | c in counters :: Slot(feature, c, month)
  }

  function LimitOf(limits: map<string, Option<int>>, counter: string): Option<int> {
    if counter in COUNTER_LIMITS && COUNTER_LIMITS[counter] in limits then limits[COUNTER_LIMITS[counter]] else None
  }

  /** Adding its amount to this counter would take it over its maximum. */
  predicate Over(doc: Doc, feature: string, month: string, deltas: map<string, int>, maxes: map<string, int>,
                 c: string) {
    c in maxes && At(doc, Slot(feature, c, month)) + Amount(deltas, c) > maxes[c]
  }

  /** The counter a denial names: the first one over its maximum, or the first of all when none is any more. */
  predicate IsNamed(doc: Doc, feature: string, month: string, deltas: map<string, int>, maxes: map<string, int>,
                    c: string, used: int) {
    c in maxes &&
    if exists d :: d in maxes && Over(doc, feature, month, deltas, maxes, d)
    then Over(doc, feature, month, deltas, maxes, c) && used == At(doc, Slot(feature, c, month))
         && forall d :: d in maxes && Less(d, c) ==> !Over(doc, feature, month, deltas, maxes, d)
    else used == 0 && forall d :: d in maxes && d != c ==> Less(c, d)
  }

  /**
   Names a counter from the usage read after the denial. There is always one to name: a denied request
   has a bounded counter (UsageProtocol.DenialIsExact).
   */
  method QuotaDenial(usage: Option<Doc>, feature: string, deltas: map<string, int>, maxes: map<string, int>,
                     month: string) returns (res: Outcome)
    requires maxes != map[] && maxes.Keys <= COUNTER_LIMITS.Keys
    ensures res.QuotaExceeded? && res.limit in LIMIT_COUNTERS
    ensures var c := LIMIT_COUNTERS[res.limit];
            IsNamed(usage.GetOr(map[]), feature, month, deltas, maxes, c, res.used) && res.max == maxes[c]
  {
    var c, used := DeniedCounter(usage.GetOr(map[]), feature, deltas, maxes, month);
    return QuotaExceeded(COUNTER_LIMITS[c], used, maxes[c]);
  }

  method DeniedCounter(doc: Doc, feature: string, deltas: map<string, int>, maxes: map<string, int>, month: string)
    returns (c: string, used: int)
    requires maxes != map[]
    ensures IsNamed(doc, feature, month, deltas, maxes, c, used)
  {
    var counters := SortedKeys(maxes.Keys);
    for i := 0 to |counters|
      invariant forall j :: 0 <= j < i ==> !Over(doc, feature, month, deltas, maxes, counters[j])
    {
      c := counters[i];
      used := At(doc, Slot(feature, c, month));
      if used + Amount(deltas, c) > maxes[c] {
        FirstIsNamed(doc, feature, month, deltas, maxes, counters, i);
        return;
      }
    }
    return counters[0], 0;
  }

  lemma FirstIsNamed(doc: Doc, feature: string, month: string, deltas: map<string, int>, maxes: map<string, int>,
                     counters: seq<string>, i: nat)
    requires Ascending(counters) && Elements(counters) == maxes.Keys && i < |counters|
    requires forall j :: 0 <= j < i ==> !Over(doc, feature, month, deltas, maxes, counters[j])
    requires Over(doc, feature, month, deltas, maxes, counters[i])
    ensures IsNamed(doc, feature, month, deltas, maxes, counters[i], At(doc, Slot(feature, counters[i], month)))
  {
    forall d | d in maxes && Less(d, counters[i])
      ensures !Over(doc, feature, month, deltas, maxes, d)
    {
      assert d in Elements(counters);
      var j :| 0 <= j < |counters| && counters[j] == d;
      LessIsTotal(counters[i], d);
    }
  }

  /** The counters of a request that a limit bounds. */
  function Bounds(limits: map<string, Option<int>>, counters: set<string>): map<string, int> {
    map c | c in counters && LimitOf(limits, c).Some? :: LimitOf(limits, c).value
  }

  /** The filter lets a request through exactly when no bounded counter would go over. */
  lemma FitsWhenNoneOver(doc: Option<Doc>, feature: string, month: string, deltas: map<string, int>,
                         maxes: map<string, int>,
                         keyed: map<string, int>, bounds: map<string, int>)
    requires maxes.Keys <= deltas.Keys <= COUNTER_LIMITS.Keys && Renamed(deltas, month, keyed)
             && Renamed(maxes, month, bounds)
    ensures Matches(Prepared(doc, feature, keyed), Room(feature, keyed, bounds))
            <==> NoneOver(doc.GetOr(map[]), feature, month, deltas, maxes)
  {
    var room := Room(feature, keyed, bounds);
    forall c | c in maxes
      ensures Slot(feature, c, month) in room
              && (HasRoom(Prepared(doc, feature, keyed), room, Slot(feature, c, month)) <==>
                    !Over(doc.GetOr(map[]), feature, month, deltas, maxes, c))
    {
    }
    forall p | p in room
      ensures exists c :: c in maxes && p == Slot(feature, c, month)
    {
      var c :| c in maxes && p.counter == CounterKey(c, month);
      assert p == Slot(feature, c, month);
    }
  }

  predicate NoneOver(doc: Doc, feature: string, month: string, deltas: map<string, int>, maxes: map<string, int>) {
    forall c :: c in maxes ==> !Over(doc, feature, month, deltas, maxes, c)
  }

  /** Every amount is added to its counter, no other counter moves, and the answer gives the new totals. */
  ghost predicate AllMoved(was: Doc, now: Doc, feature: string, month: string, deltas: map<string, int>, res: Outcome) {
    && res == Consumed(map c | c in deltas :: At(now, Slot(feature, c, month)))
    && (forall c :: c in deltas ==> At(now, Slot(feature, c, month)) == At(was, Slot(feature, c, month)) + deltas[c])
    && (forall p :: p !in Slots(feature, deltas.Keys, month) ==> At(now, p) == At(was, p))
  }

  /** No counter moves, and the answer names the first counter that is over, with its use and its maximum. */
  ghost predicate NoneMoved(was: Doc, now: Doc, feature: string, month: string, deltas: map<string, int>,
                            maxes: map<string, int>, res: Outcome) {
    && res.QuotaExceeded? && res.limit in LIMIT_COUNTERS
    && Over(was, feature, month, deltas, maxes, LIMIT_COUNTERS[res.limit])
    && IsNamed(was, feature, month, deltas, maxes, LIMIT_COUNTERS[res.limit], res.used)
       && res.max == maxes[LIMIT_COUNTERS[res.limit]]
    && (forall p :: At(now, p) == At(was, p))
  }

  /** What a consume answers and does, told by the counters alone. */
  ghost predicate ConsumeMeans(was: Doc, now: Doc, feature: string, month: string, deltas: map<string, int>,
                               maxes: map<string, int>, res: Outcome) {
    if NoneOver(was, feature, month, deltas, maxes) then AllMoved(was, now, feature, month, deltas, res)
    else NoneMoved(was, now, feature, month, deltas, maxes, res)
  }

  /**
   Consume, with the caller's resolved feature state as a parameter. It either adds every amount to its
   counter or changes no counter at all, and it is denied exactly when some bounded counter has no room.
   */
  method Consume(store: UsageStore, user: Id, feature: string, request: map<string, int>, enabled: bool,
                 limits: map<string, Option<int>>, month: string) returns (res: Outcome)
    modifies store
    ensures res.BadRequest? <==> !ValidRequest(feature, request)
    ensures res.Disabled? <==> ValidRequest(feature, request) && !enabled
    ensures res.BadRequest? || res.Disabled? ==> store.docs == old(store.docs)
    ensures forall u :: u != user ==> DocOf(store.docs, u) == old(DocOf(store.docs, u))
    ensures ValidRequest(feature, request) && enabled ==>
              var deltas := Filled(CounterNames(FEATURES[feature]), request);
              ConsumeMeans(old(DocOf(store.docs, user)).GetOr(map[]), DocOf(store.docs, user).GetOr(map[]),
                           feature, month, deltas, Bounds(limits, deltas.Keys), res)
  {
    var parsed := ParseDeltas(feature, request);
    if parsed.None? {
      return BadRequest;
    }
    if !enabled {
      return Disabled;
    }
    var deltas := parsed.value;
    var maxes := MaximaOf(limits, deltas.Keys);
    CounterNamesAreCounters(feature);
    var keyed := StorageKeys(deltas, month);
    var bounds := StorageKeys(maxes, month);
    var after := store.ConsumeUsage(user, feature, keyed, bounds);
    ghost var was := old(DocOf(store.docs, user));
    assert DocOf(store.docs, user) == Some(AfterConsume(was, feature, keyed, bounds).doc);
    FitsWhenNoneOver(was, feature, month, deltas, maxes, keyed, bounds);
    if after.None? {
      DeniedReads(was, feature, keyed, bounds);
      res := QuotaDenial(DocOf(store.docs, user), feature, deltas, maxes, month);
    } else {
      res := Consumed(map c | c in deltas :: At(after.value, Slot(feature, c, month)));
      AllowedMeans(was, feature, month, deltas, keyed);
    }
  }

  lemma AllowedMeans(was: Option<Doc>, feature: string, month: string, deltas: map<string, int>,
                     keyed: map<string, int>)
    requires Renamed(deltas, month, keyed)
    ensures var now := Incremented(Prepared(was, feature, keyed), Fields(feature, keyed));
            AllMoved(was.GetOr(map[]), now, feature, month, deltas,
                     Consumed(map c | c in deltas :: At(now, Slot(feature, c, month))))
  {
    var now := Incremented(Prepared(was, feature, keyed), Fields(feature, keyed));
    forall c | c in deltas
      ensures At(now, Slot(feature, c, month)) == At(was.GetOr(map[]), Slot(feature, c, month)) + deltas[c]
    {
    }
    forall p | p !in Slots(feature, deltas.Keys, month)
      ensures At(now, p) == At(was.GetOr(map[]), p)
    {
    }
  }

  /** A denied consume leaves every counter reading as before. */
  lemma DeniedReads(was: Option<Doc>, feature: string, deltas: map<string, int>, maxes: map<string, int>)
    requires !AfterConsume(was, feature, deltas, maxes).ok
    ensures forall p :: At(AfterConsume(was, feature, deltas, maxes).doc, p) == At(was.GetOr(map[]), p)
    ensures maxes != map[]
  {
    forall p
      ensures At(AfterConsume(was, feature, deltas, maxes).doc, p) == At(was.GetOr(map[]), p)
    {
      PreparedReads(was, feature, deltas, p);
    }
  }

  lemma CounterNamesAreCounters(feature: string)
    requires feature in FEATURES
    ensures CounterNames(FEATURES[feature]) <= COUNTER_LIMITS.Keys
  {
    CounterTablesAreInverse();
  }

  method MaximaOf(limits: map<string, Option<int>>, counters: set<string>) returns (maxes: map<string, int>)
    ensures maxes == Bounds(limits, counters)
  {
    maxes := map[];
    var left := counters;
    while left != {}
      invariant left <= counters
      invariant maxes == Bounds(limits, counters - left)
      decreases left
    {
      var c :| c in left;
      if LimitOf(limits, c).Some? {
        maxes := maxes[c := LimitOf(limits, c).value];
      }
      left := left - {c};
    }
    assert counters - left == counters;
  }

  lemma LoweredAt(doc: Doc, feature: string, month: string, deltas: map<string, int>, keyed: map<string, int>,
                  c: string)
    requires Renamed(deltas, month, keyed) && c in deltas
    ensures At(Lowered(doc, Fields(feature, keyed)), Slot(feature, c, month))
            == Max(0, At(doc, Slot(feature, c, month)) - deltas[c])
  {
    assert Slot(feature, c, month) in Paths(feature, keyed.Keys);
  }

  lemma LoweredElsewhere(doc: Doc, feature: string, month: string, deltas: map<string, int>, keyed: map<string, int>,
                         p: Path)
    requires Renamed(deltas, month, keyed) && p !in Slots(feature, deltas.Keys, month)
    ensures At(Lowered(doc, Fields(feature, keyed)), p) == At(doc, p)
  {
    assert p !in Paths(feature, keyed.Keys);
  }

  method Release(store: UsageStore, user: Id, feature: string, request: map<string, int>, month: string)
    returns (res: Outcome)
    modifies store
    ensures res == if ValidRequest(feature, request) then Released else BadRequest
    ensures res.BadRequest? ==> store.docs == old(store.docs)
    ensures forall u :: u != user ==> DocOf(store.docs, u) == old(DocOf(store.docs, u))
    ensures res.Released? ==>
              var counters := CounterNames(FEATURES[feature]);
              && (forall c :: c in counters ==>
                    Read(store.docs, user, Slot(feature, c, month))
                    == Max(0, old(Read(store.docs, user, Slot(feature, c, month))) - Amount(request, c)))
              && (forall p :: p !in Slots(feature, counters, month) ==>
                    Read(store.docs, user, p) == old(Read(store.docs, user, p)))
  {
    var parsed := ParseDeltas(feature, request);
    if parsed.None? {
      return BadRequest;
    }
    CounterNamesAreCounters(feature);
    var keyed := StorageKeys(parsed.value, month);
    store.ReleaseUsage(user, feature, keyed);
    if user in old(store.docs) {
      ghost var was := old(store.docs)[user];
      forall c | c in parsed.value
        ensures Read(store.docs, user, Slot(feature, c, month))
                == Max(0, At(was, Slot(feature, c, month)) - parsed.value[c])
      {
        LoweredAt(was, feature, month, parsed.value, keyed, c);
      }
      forall p | p !in Slots(feature, parsed.value.Keys, month)
        ensures Read(store.docs, user, p) == At(was, p)
      {
        LoweredElsewhere(was, feature, month, parsed.value, keyed, p);
      }
      assert keyed != map[] by {
        var c :| c in parsed.value;
        assert CounterKey(c, month) in keyed;
      }
    }
    return Released;
  }
}
