/**
 Feature resolution through the read cache: a client's entry is computed from its coach's entry, and both
 from a cached copy of the plan defaults. Callers are sequential; other processes write the store behind
 this one's back.
 */
module CachedResolution {
  import opened Common
  import opened ReadCache

  datatype Role = Coach | Client | Other

  /** D is the plan defaults, G a grant. coachOf links clients to coaches. */
  datatype Store<D, G> = Store(accounts: set<Id>, coachOf: map<Id, Id>, defaults: D, grants: map<Id, G>)

  /**
   The role of each account, and how each role resolves from what was read; a client also from its coach's id
   and resolution.
   */
  datatype Rules<!D, !G, !R> = Rules(roleOf: Id -> Role, coach: (Id, D, Option<G>) -> R,
                                     client: (Id, D, Option<G>, Id, Option<R>) -> R, other: R)

  function GrantOf<D, G>(st: Store<D, G>, id: Id): Option<G> {
    if id in st.grants then Some(st.grants[id]) else None
  }

  function LinkOf<D, G>(st: Store<D, G>, id: Id): Id {
    if id in st.coachOf then st.coachOf[id] else ""
  }

  /** A client's coach is not a client itself. */
  predicate LinksOk<D, G, R>(rules: Rules<D, G, R>, st: Store<D, G>) {
    forall c :: c in st.coachOf ==> !rules.roleOf(st.coachOf[c]).Client?
  }

  datatype Outcome<R> = Ok(val: R) | NotFound | Down

  /** What an account that is not a client resolves to. */
  function Own<D, G, R>(rules: Rules<D, G, R>, id: Id, d: D, g: Option<G>): R {
    if rules.roleOf(id).Coach? then rules.coach(id, d, g) else rules.other
  }

  /** Resolution without any cache. */
  function Direct<D, G, R>(rules: Rules<D, G, R>, st: Store<D, G>, id: Id): Outcome<R> {
    if id !in st.accounts then NotFound
    else if !rules.roleOf(id).Client? then Ok(Own(rules, id, st.defaults, GrantOf(st, id)))
    else
      var link := LinkOf(st, id);
      Ok(rules.client(id, st.defaults, GrantOf(st, id), link,
                      if link == "" || link !in st.accounts then None
                      else Some(Own(rules, link, st.defaults, GrantOf(st, link)))))
  }

  // ---- resolution through the caches ----

  /** This process: the store it reads, its resolutions and its copy of the defaults. */
  datatype Svc<D, G, R> = Svc(store: Store<D, G>, cache: map<Id, Entry<R>>, defs: map<string, Entry<D>>)

  /**
   Clock readings of one resolution, in order, and which of its store reads fail: the account, the defaults,
   its grant or link.
   */
  datatype Clk = Clk(check: Time, defsCheck: Time, defsStored: Time, stored: Time, userFails: bool, defsFail: bool,
                     grantFails: bool)

  function LoadDefaults<D, G, R>(s: Svc<D, G, R>, c: Clk): (Svc<D, G, R>, Option<D>) {
    var hit := Get(s.defs, "defaults", c.defsCheck);
    if hit.Some? then (s, hit) else if c.defsFail then (s, None)
    else (s.(defs := Put(s.defs, "defaults", s.store.defaults, c.defsStored, TTL)), Some(s.store.defaults))
  }

  function Cached<D, G, R>(s: Svc<D, G, R>, id: Id, val: R, at: Time): (Svc<D, G, R>, Outcome<R>) {
    (s.(cache := Put(s.cache, id, val, at, TTL)), Ok(val))
  }

  /** Loads and caches an account that is not a client. */
  function LoadOwn<D, G, R>(rules: Rules<D, G, R>, s: Svc<D, G, R>, id: Id, c: Clk): (Svc<D, G, R>, Outcome<R>) {
    if c.userFails then (s, Down)
    else if id !in s.store.accounts then (s, NotFound)
    else if !rules.roleOf(id).Coach? then Cached(s, id, rules.other, c.stored)
    else
      var (s1, d) := LoadDefaults(s, c);
      if d.None? || c.grantFails then (s1, Down)
      else Cached(s1, id, rules.coach(id, d.value, GrantOf(s.store, id)), c.stored)
  }

  function ResolveOwn<D, G, R>(rules: Rules<D, G, R>, s: Svc<D, G, R>, id: Id, c: Clk): (Svc<D, G, R>, Outcome<R>) {
    var hit := Get(s.cache, id, c.check);
    if hit.Some? then (s, Ok(hit.value)) else LoadOwn(rules, s, id, c)
  }

  /** inner has the readings of the coach's resolution, nested in the client's. */
  function LoadClient<D, G, R>(rules: Rules<D, G, R>, s: Svc<D, G, R>, id: Id, c: Clk,
                               inner: Clk): (Svc<D, G, R>, Outcome<R>) {
    if c.userFails then (s, Down)
    else if id !in s.store.accounts then (s, NotFound)
    else
      var (s1, d) := LoadDefaults(s, c);
      if d.None? || c.grantFails then (s1, Down)
      else
        var link := LinkOf(s.store, id);
        if link == "" then Cached(s1, id, rules.client(id, d.value, GrantOf(s.store, id), link, None), c.stored)
        else
          var (s2, coach) := ResolveOwn(rules, s1, link, inner);
          if coach.Down? then (s2, Down)
          else Cached(s2, id, rules.client(id, d.value, GrantOf(s.store, id), link, if coach.Ok? then Some(coach.val)
                                           else None), c.stored)
  }

  function Resolve<D, G, R>(rules: Rules<D, G, R>, s: Svc<D, G, R>, id: Id, c: Clk,
                            inner: Clk): (Svc<D, G, R>, Outcome<R>) {
    var hit := Get(s.cache, id, c.check);
    if hit.Some? then (s, Ok(hit.value))
    else if rules.roleOf(id).Client? then LoadClient(rules, s, id, c, inner) else LoadOwn(rules, s, id, c)
  }

  /** A write by this process: the store changes and both caches are purged. */
  function LocalWrite<D, G, R>(s: Svc<D, G, R>, st: Store<D, G>): Svc<D, G, R> {
    Svc(st, map[], map[])
  }

  /**
   The first resolution after a local write, of any account, is the uncached one: whatever it serves is
   computed from the stored data alone.
   */
  lemma FirstResolveAfterWrite<D, G, R>(rules: Rules<D, G, R>, s: Svc<D, G, R>, st: Store<D, G>, id: Id, c: Clk,
                                        inner: Clk)
    ensures var res := Resolve(rules, LocalWrite(s, st), id, c, inner).1;
            res.Down? || res == Direct(rules, st, id)
    ensures !c.userFails && !c.defsFail && !c.grantFails && !inner.userFails && !inner.defsFail && !inner.grantFails ==>
              Resolve(rules, LocalWrite(s, st), id, c, inner).1 == Direct(rules, st, id)
  {
  }

  // ---- how old a served result can be ----

  /** The store had this content from an instant on. */
  datatype Stamp<D, G> = Stamp(since: Time, store: Store<D, G>)

  /** At instant r the store was, or was just ceasing to be, as stamp k has it. */
  predicate StampAt<D, G>(h: seq<Stamp<D, G>>, k: int, r: Time) {
    0 <= k < |h| && h[k].since <= r && (k + 1 < |h| ==> r <= h[k + 1].since)
  }

  /** r is at most span before at. */
  predicate Within(r: Time, at: Time, span: int) {
    at - span <= r <= at
  }

  /** d was the stored defaults at most span before at. */
  ghost predicate DefaultsRead<D(!new), G(!new)>(h: seq<Stamp<D, G>>, at: Time, span: int, d: D) {
    exists r, k :: Within(r, at, span) && StampAt(h, k, r) && h[k].store.defaults == d
  }

  /** A result stored at `at`, of an account that is not a client. lag bounds how long one resolution takes. */
  ghost predicate OwnMade<D(!new), G(!new),
    R(!new)>(rules: Rules<D, G, R>, h: seq<Stamp<D, G>>, id: Id, at: Time, lag: int, res: R) {
    exists r, k, d :: Within(r, at, lag) && StampAt(h, k, r) && DefaultsRead(h, r, TTL + lag, d)
                      && id in h[k].store.accounts && res == Own(rules, id, d, GrantOf(h[k].store, id))
  }

  /**
   What a client's result stored at `at` saw of its coach: nothing, or a result stored at most a life and a
   lag before.
   */
  ghost predicate Saw<D(!new), G(!new),
    R(!new)>(rules: Rules<D, G, R>, h: seq<Stamp<D, G>>, st: Store<D, G>, link: Id, at: Time, lag: int,
             seen: Option<R>) {
    if link == "" then seen.None?
    else if seen.None? then link !in st.accounts
    else exists made :: Within(made, at, TTL + lag) && OwnMade(rules, h, link, made, lag, seen.value)
  }

  ghost predicate ClientMade<D(!new), G(!new),
    R(!new)>(rules: Rules<D, G, R>, h: seq<Stamp<D, G>>, id: Id, at: Time, lag: int, res: R) {
    exists r, k, d, seen :: Within(r, at, lag) && StampAt(h, k, r) && DefaultsRead(h, r, TTL + lag, d)
                            && Saw(rules, h, h[k].store, LinkOf(h[k].store, id), at, lag, seen)
                            && res == rules.client(id, d, GrantOf(h[k].store, id), LinkOf(h[k].store, id), seen)
  }

  ghost predicate Made<D(!new), G(!new),
    R(!new)>(rules: Rules<D, G, R>, h: seq<Stamp<D, G>>, id: Id, at: Time, lag: int, res: R) {
    if rules.roleOf(id).Client? then ClientMade(rules, h, id, at, lag, res) else OwnMade(rules, h, id, at, lag, res)
  }

  ghost predicate EntryOk<D(!new), G(!new),
    R(!new)>(rules: Rules<D, G, R>, h: seq<Stamp<D, G>>, id: Id, e: Entry<R>, now: Time, lag: int) {
    e.expires - TTL <= now && Made(rules, h, id, e.expires - TTL, lag, e.val)
  }

  /** Every cached value was made from the store as it was, at the instant its expiry tells. */
  ghost predicate Inv<D(!new), G(!new),
    R(!new)>(rules: Rules<D, G, R>, s: Svc<D, G, R>, h: seq<Stamp<D, G>>, now: Time, lag: int) {
    && h != [] && h[|h| - 1].store == s.store && h[|h| - 1].since <= now && lag >= 0
    && LinksOk(rules, s.store)
    && (forall k :: k in s.defs ==> s.defs[k].expires - TTL <= now
                                    && DefaultsRead(h, s.defs[k].expires - TTL, lag, s.defs[k].val))
    && (forall id :: id in s.cache ==> EntryOk(rules, h, id, s.cache[id], now, lag))
  }

  // ---- later writes leave the past alone ----

  lemma DefaultsStay<D(!new), G(!new)>(h: seq<Stamp<D, G>>, x: Stamp<D, G>, at: Time, span: int, d: D)
    requires DefaultsRead(h, at, span, d) && at <= x.since
    ensures DefaultsRead(h + [x], at, span, d)
  {
    var r, k :| Within(r, at, span) && StampAt(h, k, r) && h[k].store.defaults == d;
    assert StampAt(h + [x], k, r) && (h + [x])[k] == h[k];
  }

  lemma OwnStays<D(!new), G(!new),
    R(!new)>(rules: Rules<D, G, R>, h: seq<Stamp<D, G>>, x: Stamp<D, G>, id: Id, at: Time, lag: int, res: R)
    requires OwnMade(rules, h, id, at, lag, res) && at <= x.since
    ensures OwnMade(rules, h + [x], id, at, lag, res)
  {
    var r, k, d :| Within(r, at, lag) && StampAt(h, k, r) && DefaultsRead(h, r, TTL + lag, d)
                   && id in h[k].store.accounts && res == Own(rules, id, d, GrantOf(h[k].store, id));
    DefaultsStay(h, x, r, TTL + lag, d);
    assert StampAt(h + [x], k, r) && (h + [x])[k] == h[k];
  }

  lemma SawStays<D(!new), G(!new),
    R(!new)>(rules: Rules<D, G, R>, h: seq<Stamp<D, G>>, x: Stamp<D, G>, st: Store<D, G>, link: Id, at: Time, lag: int,
             seen: Option<R>)
    requires Saw(rules, h, st, link, at, lag, seen) && at <= x.since
    ensures Saw(rules, h + [x], st, link, at, lag, seen)
  {
    if link != "" && seen.Some? {
      var made :| Within(made, at, TTL + lag) && OwnMade(rules, h, link, made, lag, seen.value);
      OwnStays(rules, h, x, link, made, lag, seen.value);
    }
  }

  lemma MadeStays<D(!new), G(!new),
    R(!new)>(rules: Rules<D, G, R>, h: seq<Stamp<D, G>>, x: Stamp<D, G>, id: Id, at: Time, lag: int, res: R)
    requires Made(rules, h, id, at, lag, res) && at <= x.since
    ensures Made(rules, h + [x], id, at, lag, res)
  {
    if rules.roleOf(id).Client? {
      var r, k, d, seen :| Within(r, at, lag) && StampAt(h, k, r) && DefaultsRead(h, r, TTL + lag, d)
                           && Saw(rules, h, h[k].store, LinkOf(h[k].store, id), at, lag, seen)
                           && res == rules.client(id, d, GrantOf(h[k].store, id), LinkOf(h[k].store, id), seen);
      DefaultsStay(h, x, r, TTL + lag, d);
      SawStays(rules, h, x, h[k].store, LinkOf(h[k].store, id), at, lag, seen);
      assert StampAt(h + [x], k, r) && (h + [x])[k] == h[k];
    } else {
      OwnStays(rules, h, x, id, at, lag, res);
    }
  }

  // ---- what each step keeps ----

  predicate InOrder(now: Time, c: Clk, lag: int) {
    now <= c.check <= c.defsCheck <= c.defsStored <= c.stored && c.stored - c.check <= lag
  }

  lemma DefaultsNow<D(!new), G(!new)>(h: seq<Stamp<D, G>>, r: Time, at: Time, span: int)
    requires h != [] && h[|h| - 1].since <= r && Within(r, at, span)
    ensures DefaultsRead(h, at, span, h[|h| - 1].store.defaults)
  {
    assert StampAt(h, |h| - 1, r);
  }

  lemma DefaultsMiss<D(!new), G(!new),
    R(!new)>(rules: Rules<D, G, R>, s: Svc<D, G, R>, h: seq<Stamp<D, G>>, now: Time, c: Clk, lag: int)
    requires Inv(rules, s, h, now, lag) && InOrder(now, c, lag)
    ensures Inv(rules, s.(defs := Put(s.defs, "defaults", s.store.defaults, c.defsStored, TTL)), h, c.defsStored, lag)
    ensures DefaultsRead(h, c.check, TTL + lag, s.store.defaults)
  {
    DefaultsNow(h, c.check, c.defsStored, lag);
    DefaultsNow(h, c.check, c.check, TTL + lag);
    InvLater(rules, s, h, now, c.defsStored, lag);
  }

  lemma LoadDefaultsKeeps<D(!new), G(!new),
    R(!new)>(rules: Rules<D, G, R>, s: Svc<D, G, R>, h: seq<Stamp<D, G>>, now: Time, c: Clk, lag: int)
    requires Inv(rules, s, h, now, lag) && InOrder(now, c, lag)
    ensures var (s', d) := LoadDefaults(s, c);
            && Inv(rules, s', h, c.defsStored, lag) && s'.store == s.store && s'.cache == s.cache
            && (d.Some? ==> DefaultsRead(h, c.check, TTL + lag, d.value))
  {
    if Get(s.defs, "defaults", c.defsCheck).Some? {
      InvLater(rules, s, h, now, c.defsStored, lag);
    } else {
      DefaultsMiss(rules, s, h, now, c, lag);
      InvLater(rules, s, h, now, c.defsStored, lag);
    }
  }

  lemma CachedKeeps<D(!new), G(!new),
    R(!new)>(rules: Rules<D, G, R>, s: Svc<D, G, R>, h: seq<Stamp<D, G>>, now: Time, id: Id, val: R, at: Time, lag: int)
    requires Inv(rules, s, h, now, lag) && now <= at && Made(rules, h, id, at, lag, val)
    ensures Inv(rules, Cached(s, id, val, at).0, h, at, lag)
  {
    var s' := Cached(s, id, val, at).0;
    assert s'.cache[id] == Entry(val, at + TTL) && s'.defs == s.defs && s'.store == s.store;
    assert forall k :: k in s'.cache && k != id ==> k in s.cache && s'.cache[k] == s.cache[k];
  }

  /** A served value was made within the last life, or just now. */
  ghost predicate Recent<D(!new), G(!new),
    R(!new)>(rules: Rules<D, G, R>, h: seq<Stamp<D, G>>, id: Id, c: Clk, lag: int, val: R) {
    exists made :: c.check - TTL < made <= c.stored && Made(rules, h, id, made, lag, val)
  }

  lemma HitIsRecent<D(!new), G(!new),
    R(!new)>(rules: Rules<D, G, R>, s: Svc<D, G, R>, h: seq<Stamp<D, G>>, now: Time, id: Id, c: Clk, lag: int)
    requires Inv(rules, s, h, now, lag) && InOrder(now, c, lag) && Get(s.cache, id, c.check).Some?
    ensures Recent(rules, h, id, c, lag, Get(s.cache, id, c.check).value)
  {
    var made := s.cache[id].expires - TTL;
    assert Made(rules, h, id, made, lag, s.cache[id].val);
  }

  lemma OwnStored<D(!new), G(!new),
    R(!new)>(rules: Rules<D, G, R>, s: Svc<D, G, R>, h: seq<Stamp<D, G>>, now: Time, id: Id, c: Clk, lag: int, d: D)
    requires Inv(rules, s, h, now, lag) && now <= c.stored && h[|h| - 1].since <= c.check <= c.stored <= c.check + lag
    requires !rules.roleOf(id).Client? && id in s.store.accounts && DefaultsRead(h, c.check, TTL + lag, d)
    ensures var val := Own(rules, id, d, GrantOf(s.store, id));
            Inv(rules, Cached(s, id, val, c.stored).0, h, c.stored, lag) && Recent(rules, h, id, c, lag, val)
  {
    var val := Own(rules, id, d, GrantOf(s.store, id));
    assert StampAt(h, |h| - 1, c.check) && Within(c.check, c.stored, lag);
    assert OwnMade(rules, h, id, c.stored, lag, val);
    assert Made(rules, h, id, c.stored, lag, val);
    CachedKeeps(rules, s, h, now, id, val, c.stored, lag);
  }

  lemma InvLater<D(!new), G(!new),
    R(!new)>(rules: Rules<D, G, R>, s: Svc<D, G, R>, h: seq<Stamp<D, G>>, now: Time, later: Time, lag: int)
    requires Inv(rules, s, h, now, lag) && now <= later
    ensures Inv(rules, s, h, later, lag)
  {
    forall k | k in s.cache
      ensures EntryOk(rules, h, k, s.cache[k], later, lag)
    {
    }
  }

  lemma LoadOwnKeeps<D(!new), G(!new),
    R(!new)>(rules: Rules<D, G, R>, s: Svc<D, G, R>, h: seq<Stamp<D, G>>, now: Time, id: Id, c: Clk, lag: int)
    requires Inv(rules, s, h, now, lag) && InOrder(now, c, lag) && !rules.roleOf(id).Client?
    ensures var (s', res) := LoadOwn(rules, s, id, c);
            && Inv(rules, s', h, c.stored, lag) && s'.store == s.store
            && (res.NotFound? ==> id !in s.store.accounts) && (res.Ok? ==> Recent(rules, h, id, c, lag, res.val))
  {
    if c.userFails || id !in s.store.accounts {
      InvLater(rules, s, h, now, c.stored, lag);
    } else if rules.roleOf(id).Coach? {
      LoadDefaultsKeeps(rules, s, h, now, c, lag);
      var (s1, d) := LoadDefaults(s, c);
      if d.Some? && !c.grantFails {
        OwnStored(rules, s1, h, c.defsStored, id, c, lag, d.value);
      } else {
        InvLater(rules, s1, h, c.defsStored, c.stored, lag);
      }
    } else {
      DefaultsNow(h, c.check, c.check, TTL + lag);
      OwnStored(rules, s, h, now, id, c, lag, s.store.defaults);
    }
  }

  lemma ResolveOwnKeeps<D(!new), G(!new),
    R(!new)>(rules: Rules<D, G, R>, s: Svc<D, G, R>, h: seq<Stamp<D, G>>, now: Time, id: Id, c: Clk, lag: int)
    requires Inv(rules, s, h, now, lag) && InOrder(now, c, lag) && !rules.roleOf(id).Client?
    ensures var (s', res) := ResolveOwn(rules, s, id, c);
            && Inv(rules, s', h, c.stored, lag) && s'.store == s.store
            && (res.NotFound? ==> id !in s.store.accounts) && (res.Ok? ==> Recent(rules, h, id, c, lag, res.val))
  {
    if Get(s.cache, id, c.check).Some? {
      HitIsRecent(rules, s, h, now, id, c, lag);
      InvLater(rules, s, h, now, c.stored, lag);
    } else {
      LoadOwnKeeps(rules, s, h, now, id, c, lag);
    }
  }

  /** The coach's readings lie between the client's. */
  predicate Nested(c: Clk, inner: Clk, lag: int) {
    InOrder(c.defsStored, inner, lag) && inner.stored <= c.stored
  }

  lemma ClientStored<D(!new), G(!new),
    R(!new)>(rules: Rules<D, G, R>, s: Svc<D, G, R>, h: seq<Stamp<D, G>>, now: Time, id: Id, c: Clk, lag: int, d: D,
             seen: Option<R>)
    requires Inv(rules, s, h, now, lag) && now <= c.stored && h[|h| - 1].since <= c.check <= c.stored <= c.check + lag
             && rules.roleOf(id).Client?
    requires DefaultsRead(h, c.check, TTL + lag, d) && Saw(rules, h, s.store, LinkOf(s.store, id), c.stored, lag, seen)
    ensures var val := rules.client(id, d, GrantOf(s.store, id), LinkOf(s.store, id), seen);
            Inv(rules, Cached(s, id, val, c.stored).0, h, c.stored, lag) && Recent(rules, h, id, c, lag, val)
  {
    var val := rules.client(id, d, GrantOf(s.store, id), LinkOf(s.store, id), seen);
    assert StampAt(h, |h| - 1, c.check) && Within(c.check, c.stored, lag);
    assert ClientMade(rules, h, id, c.stored, lag, val);
    assert Made(rules, h, id, c.stored, lag, val);
    CachedKeeps(rules, s, h, now, id, val, c.stored, lag);
  }

  /** The part of a client's load that asks for its coach. */
  lemma WithCoachKeeps<D(!new), G(!new),
    R(!new)>(rules: Rules<D, G, R>, s: Svc<D, G, R>, h: seq<Stamp<D, G>>, id: Id, c: Clk, inner: Clk, lag: int, d: D)
    requires Inv(rules, s, h, c.defsStored, lag) && InOrder(c.check, c, lag) && Nested(c, inner, lag)
             && h[|h| - 1].since <= c.check
    requires rules.roleOf(id).Client? && LinkOf(s.store, id) != "" && DefaultsRead(h, c.check, TTL + lag, d)
    ensures var link := LinkOf(s.store, id);
            var (s2, coach) := ResolveOwn(rules, s, link, inner);
            var val := rules.client(id, d, GrantOf(s.store, id), link, if coach.Ok? then Some(coach.val) else None);
            && Inv(rules, s2, h, c.stored, lag) && s2.store == s.store
            && (!coach.Down? ==> Inv(rules, Cached(s2, id, val, c.stored).0, h, c.stored, lag)
                                 && Recent(rules, h, id, c, lag, val))
  {
    var link := LinkOf(s.store, id);
    assert !rules.roleOf(link).Client?;
    ResolveOwnKeeps(rules, s, h, c.defsStored, link, inner, lag);
    var (s2, coach) := ResolveOwn(rules, s, link, inner);
    InvLater(rules, s2, h, inner.stored, c.stored, lag);
    if !coach.Down? {
      ClientStored(rules, s2, h, inner.stored, id, c, lag, d, if coach.Ok? then Some(coach.val) else None);
    }
  }

  lemma LoadClientKeeps<D(!new), G(!new),
    R(!new)>(rules: Rules<D, G, R>, s: Svc<D, G, R>, h: seq<Stamp<D, G>>, now: Time, id: Id, c: Clk, inner: Clk,
             lag: int)
    requires Inv(rules, s, h, now, lag) && InOrder(now, c, lag) && Nested(c, inner, lag) && rules.roleOf(id).Client?
    ensures var (s', res) := LoadClient(rules, s, id, c, inner);
            Inv(rules, s', h, c.stored, lag) && s'.store == s.store
              && (res.Ok? ==> Recent(rules, h, id, c, lag, res.val))
  {
    if c.userFails || id !in s.store.accounts {
      InvLater(rules, s, h, now, c.stored, lag);
    } else {
      LoadDefaultsKeeps(rules, s, h, now, c, lag);
      var (s1, d) := LoadDefaults(s, c);
      if d.None? || c.grantFails {
        InvLater(rules, s1, h, c.defsStored, c.stored, lag);
      } else if LinkOf(s.store, id) == "" {
        ClientStored(rules, s1, h, c.defsStored, id, c, lag, d.value, None);
      } else {
        WithCoachKeeps(rules, s1, h, id, c, inner, lag, d.value);
      }
    }
  }

  lemma ResolveKeeps<D(!new), G(!new),
    R(!new)>(rules: Rules<D, G, R>, s: Svc<D, G, R>, h: seq<Stamp<D, G>>, now: Time, id: Id, c: Clk, inner: Clk,
             lag: int)
    requires Inv(rules, s, h, now, lag) && InOrder(now, c, lag) && Nested(c, inner, lag)
    ensures var (s', res) := Resolve(rules, s, id, c, inner);
            Inv(rules, s', h, c.stored, lag) && s'.store == s.store
              && (res.Ok? ==> Recent(rules, h, id, c, lag, res.val))
  {
    if Get(s.cache, id, c.check).Some? {
      HitIsRecent(rules, s, h, now, id, c, lag);
      InvLater(rules, s, h, now, c.stored, lag);
    } else if rules.roleOf(id).Client? {
      LoadClientKeeps(rules, s, h, now, id, c, inner, lag);
    } else {
      LoadOwnKeeps(rules, s, h, now, id, c, lag);
    }
  }

  // ---- runs ----

  /** Another process writes the store, this one does (and purges), or somebody asks. */
  datatype Action<D, G> = RemoteWrite(at: Time, st: Store<D, G>) | LocalWriteAt(at: Time, st: Store<D, G>)
    | Ask(id: Id, c: Clk, inner: Clk)

  datatype System<D, G, R> = System(s: Svc<D, G, R>, h: seq<Stamp<D, G>>, now: Time)

  predicate Legal<D, G, R>(rules: Rules<D, G, R>, y: System<D, G, R>, a: Action<D, G>, lag: int) {
    match a
    case RemoteWrite(at, st) => y.now <= at && LinksOk(rules, st)
    case LocalWriteAt(at, st) => y.now <= at && LinksOk(rules, st)
    case Ask(id, c, inner) => InOrder(y.now, c, lag) && Nested(c, inner, lag)
  }

  function Step<D, G, R>(rules: Rules<D, G, R>, y: System<D, G, R>, a: Action<D, G>): System<D, G, R> {
    match a
    case RemoteWrite(at, st) => System(y.s.(store := st), y.h + [Stamp(at, st)], at)
    case LocalWriteAt(at, st) => System(LocalWrite(y.s, st), y.h + [Stamp(at, st)], at)
    case Ask(id, c, inner) => System(Resolve(rules, y.s, id, c, inner).0, y.h, c.stored)
  }

  function Run<D, G, R>(rules: Rules<D, G, R>, y: System<D, G, R>, acts: seq<Action<D, G>>): System<D, G, R>
    decreases |acts|
  {
    if acts == [] then y else Run(rules, Step(rules, y, acts[0]), acts[1..])
  }

  predicate AllLegal<D, G, R>(rules: Rules<D, G, R>, y: System<D, G, R>, acts: seq<Action<D, G>>, lag: int)
    decreases |acts|
  {
    acts == [] || (Legal(rules, y, acts[0], lag) && AllLegal(rules, Step(rules, y, acts[0]), acts[1..], lag))
  }

  ghost predicate Sound<D(!new), G(!new), R(!new)>(rules: Rules<D, G, R>, y: System<D, G, R>, lag: int) {
    Inv(rules, y.s, y.h, y.now, lag)
  }

  lemma StepKeepsSound<D(!new), G(!new), R(!new)>(rules: Rules<D, G, R>, y: System<D, G, R>, a: Action<D, G>, lag: int)
    requires Sound(rules, y, lag) && Legal(rules, y, a, lag)
    ensures Sound(rules, Step(rules, y, a), lag)
  {
    if a.Ask? {
      ResolveKeeps(rules, y.s, y.h, y.now, a.id, a.c, a.inner, lag);
    } else {
      var x := Stamp(a.at, a.st);
      forall k | k in y.s.defs
        ensures DefaultsRead(y.h + [x], y.s.defs[k].expires - TTL, lag, y.s.defs[k].val)
      {
        DefaultsStay(y.h, x, y.s.defs[k].expires - TTL, lag, y.s.defs[k].val);
      }
      forall id | id in y.s.cache
        ensures EntryOk(rules, y.h + [x], id, y.s.cache[id], a.at, lag)
      {
        assert EntryOk(rules, y.h, id, y.s.cache[id], y.now, lag);
        MadeStays(rules, y.h, x, id, y.s.cache[id].expires - TTL, lag, y.s.cache[id].val);
      }
    }
  }

  lemma {:induction false} RunKeepsSound<D(!new), G(!new),
    R(!new)>(rules: Rules<D, G, R>, y: System<D, G, R>, acts: seq<Action<D, G>>, lag: int)
    requires Sound(rules, y, lag) && AllLegal(rules, y, acts, lag)
    ensures Sound(rules, Run(rules, y, acts), lag)
    decreases |acts|
  {
    if acts != [] {
      StepKeepsSound(rules, y, acts[0], lag);
      RunKeepsSound(rules, Step(rules, y, acts[0]), acts[1..], lag);
    }
  }

  /**
   res is what a coach resolves to from its grant at an instant after `after` and defaults at most a life and
   a lag older.
   */
  ghost predicate CoachAfter<D(!new), G(!new),
    R(!new)>(rules: Rules<D, G, R>, h: seq<Stamp<D, G>>, coach: Id, after: Time, lag: int, res: R) {
    exists r, k, d :: after < r && StampAt(h, k, r) && DefaultsRead(h, r, 30 * SECOND + lag, d)
                      && res == Own(rules, coach, d, GrantOf(h[k].store, coach))
  }

  /**
   However writes by other processes and resolutions alternate, what a client is served was computed from
   its own grant as it stood less than a life and a lag ago, from plan defaults at most a life and a lag
   older than that, and from its coach's grant as it stood less than two lives and two lags ago: less than
   60 s when resolutions take no time.
   */
  lemma ServedIsRecent<D(!new), G(!new),
    R(!new)>(rules: Rules<D, G, R>, start: Time, st: Store<D, G>, acts: seq<Action<D, G>>, lag: int, id: Id, c: Clk,
             inner: Clk)
    requires LinksOk(rules, st) && lag >= 0
    requires var y := System(Svc(st, map[], map[]), [Stamp(start, st)], start);
             AllLegal(rules, y, acts, lag) && Legal(rules, Run(rules, y, acts), Ask(id, c, inner), lag)
    requires rules.roleOf(id).Client?
    ensures var y := Run(rules, System(Svc(st, map[], map[]), [Stamp(start, st)], start), acts);
            var res := Resolve(rules, y.s, id, c, inner).1;
            res.Ok? ==>
              exists r, k, d, seen ::
                && c.check - 30 * SECOND - lag < r && StampAt(y.h, k, r)
                && DefaultsRead(y.h, r, 30 * SECOND + lag, d)
                && res.val == rules.client(id, d, GrantOf(y.h[k].store, id), LinkOf(y.h[k].store, id), seen)
                && (seen.None? ==> LinkOf(y.h[k].store, id) == "" || LinkOf(y.h[k].store, id) !in y.h[k].store.accounts)
                && (seen.Some? ==> CoachAfter(rules, y.h, LinkOf(y.h[k].store, id), c.check - 60 * SECOND - 2 * lag,
                                              lag,
                                              seen.value))
  {
    var y0: System<D, G, R> := System(Svc(st, map[], map[]), [Stamp(start, st)], start);
    assert Sound(rules, y0, lag);
    RunKeepsSound(rules, y0, acts, lag);
    var y := Run(rules, y0, acts);
    ResolveKeeps(rules, y.s, y.h, y.now, id, c, inner, lag);
    var res := Resolve(rules, y.s, id, c, inner).1;
  }

  // ---- a cached result is served while it lives ----

  /** No write of this process in the run, and always fewer entries than make the cache start over. */
  predicate Undisturbed<D, G, R>(rules: Rules<D, G, R>, y: System<D, G, R>, acts: seq<Action<D, G>>)
    decreases |acts|
  {
    |y.s.cache| < 4096 &&
    (acts == [] || (!acts[0].LocalWriteAt? && Undisturbed(rules, Step(rules, y, acts[0]), acts[1..])))
  }

  predicate Holds<D, G, R(==)>(s: Svc<D, G, R>, id: Id, val: R, until: Time) {
    id in s.cache && s.cache[id].val == val && s.cache[id].expires == until
  }

  lemma OwnIsHeld<D, G, R>(rules: Rules<D, G, R>, s: Svc<D, G, R>, id: Id, c: Clk, x: Id, val: R, until: Time)
    requires Holds(s, x, val, until) && c.check < until && |s.cache| <= 4096
    ensures Holds(ResolveOwn(rules, s, id, c).0, x, val, until)
            && |ResolveOwn(rules, s, id, c).0.cache| <= |s.cache| + 1
  {
    LoadDefaultsLeavesCache(s, c);
  }

  lemma LoadDefaultsLeavesCache<D, G, R>(s: Svc<D, G, R>, c: Clk)
    ensures LoadDefaults(s, c).0.cache == s.cache && LoadDefaults(s, c).0.store == s.store
  {
  }

  lemma ClientIsHeld<D, G, R>(rules: Rules<D, G, R>, s: Svc<D, G, R>, id: Id, c: Clk, inner: Clk, x: Id, val: R,
                              until: Time)
    requires Holds(s, x, val, until) && x != id && inner.check < until && |s.cache| < 4096
    ensures Holds(LoadClient(rules, s, id, c, inner).0, x, val, until)
  {
    LoadDefaultsLeavesCache(s, c);
    OwnIsHeld(rules, LoadDefaults(s, c).0, LinkOf(s.store, id), inner, x, val, until);
  }

  lemma ResolveHolds<D, G, R>(rules: Rules<D, G, R>, s: Svc<D, G, R>, id: Id, c: Clk, inner: Clk, x: Id, val: R,
                              until: Time)
    requires Holds(s, x, val, until) && c.check < until && inner.check < until && |s.cache| < 4096
    ensures Holds(Resolve(rules, s, id, c, inner).0, x, val, until)
  {
    if Get(s.cache, id, c.check).None? {
      if rules.roleOf(id).Client? {
        ClientIsHeld(rules, s, id, c, inner, x, val, until);
      } else {
        OwnIsHeld(rules, s, id, c, x, val, until);
      }
    }
  }

  /** A resolution that was not a hit leaves its result in the cache for 30 s. */
  lemma LoadedIsHeld<D, G, R>(rules: Rules<D, G, R>, s: Svc<D, G, R>, id: Id, c: Clk, inner: Clk)
    ensures var (s', res) := Resolve(rules, s, id, c, inner);
            Get(s.cache, id, c.check).None? && res.Ok? ==> Holds(s', id, res.val, c.stored + 30 * SECOND)
  {
  }

  lemma StepIsLater<D, G, R>(rules: Rules<D, G, R>, y: System<D, G, R>, a: Action<D, G>, lag: int)
    requires Legal(rules, y, a, lag)
    ensures y.now <= Step(rules, y, a).now
    ensures a.Ask? ==> a.c.check <= Step(rules, y, a).now && a.inner.check <= Step(rules, y, a).now
  {
  }

  lemma {:induction false} RunIsLater<D, G, R>(rules: Rules<D, G, R>, y: System<D, G, R>, acts: seq<Action<D, G>>,
                                               lag: int)
    requires AllLegal(rules, y, acts, lag)
    ensures y.now <= Run(rules, y, acts).now
    decreases |acts|
  {
    if acts != [] {
      StepIsLater(rules, y, acts[0], lag);
      RunIsLater(rules, Step(rules, y, acts[0]), acts[1..], lag);
    }
  }

  lemma {:induction false} RunHolds<D, G, R>(rules: Rules<D, G, R>, y: System<D, G, R>, acts: seq<Action<D, G>>,
                                             lag: int,
                                             id: Id, val: R, until: Time)
    requires AllLegal(rules, y, acts, lag) && Undisturbed(rules, y, acts) && Holds(y.s, id, val, until)
    requires Run(rules, y, acts).now < until
    ensures Holds(Run(rules, y, acts).s, id, val, until)
    decreases |acts|
  {
    if acts != [] {
      var a, y' := acts[0], Step(rules, y, acts[0]);
      StepIsLater(rules, y, a, lag);
      RunIsLater(rules, y', acts[1..], lag);
      if a.Ask? {
        ResolveHolds(rules, y.s, a.id, a.c, a.inner, id, val, until);
      }
      RunHolds(rules, y', acts[1..], lag, id, val, until);
    }
  }

  /**
   Whatever other processes write meanwhile, a result that was resolved and stored is what every resolution
   of the account answers for the next 30 s, until this process writes, as long as the cache stays below the
   size at which it starts over.
   */
  lemma CachedIsServed<D, G, R>(rules: Rules<D, G, R>, y: System<D, G, R>, id: Id, c: Clk, inner: Clk,
                                acts: seq<Action<D, G>>, again: Clk, nested: Clk, lag: int)
    requires Get(y.s.cache, id, c.check).None? && Resolve(rules, y.s, id, c, inner).1.Ok?
    requires var y1 := Step(rules, y, Ask(id, c, inner));
             && AllLegal(rules, y1, acts, lag) && Undisturbed(rules, y1, acts)
             && Legal(rules, Run(rules, y1, acts), Ask(id, again, nested), lag)
    requires again.check < c.stored + 30 * SECOND
    ensures var s := Run(rules, Step(rules, y, Ask(id, c, inner)), acts).s;
            Resolve(rules, s, id, again, nested) == (s, Resolve(rules, y.s, id, c, inner).1)
  {
    var y1, res := Step(rules, y, Ask(id, c, inner)), Resolve(rules, y.s, id, c, inner).1;
    LoadedIsHeld(rules, y.s, id, c, inner);
    RunHolds(rules, y1, acts, lag, id, res.val, c.stored + 30 * SECOND);
  }

  // ---- failures ----

  predicate AnyReadFails(c: Clk) {
    c.userFails || c.defsFail || c.grantFails
  }

  /**
   From every state: a live entry is served; without one, an account that is gone is not found unless the
   account read failed; and nothing is down unless a read of the resolution or of the coach's inside it failed.
   */
  lemma AnswersExactly<D, G, R>(rules: Rules<D, G, R>, s: Svc<D, G, R>, id: Id, c: Clk, inner: Clk)
    ensures var res := Resolve(rules, s, id, c, inner).1;
            var live := id in s.cache && c.check < s.cache[id].expires;
            var copied := "defaults" in s.defs && c.defsCheck < s.defs["defaults"].expires;
            && (live ==> res == Ok(s.cache[id].val))
            && (res.NotFound? <==> !live && id !in s.store.accounts && !c.userFails)
            && (res.Down? ==> !live && (AnyReadFails(c) || (rules.roleOf(id).Client? && LinkOf(s.store, id) != ""
                                                            && AnyReadFails(inner))))
            && (!live && c.userFails ==> res.Down?)
            && (!live && id in s.store.accounts && !rules.roleOf(id).Other? && c.grantFails ==> res.Down?)
            && (!live && id in s.store.accounts && !rules.roleOf(id).Other? && c.defsFail && !copied ==> res.Down?)
  {
  }

  // ---- the copy of the defaults ----

  predicate HoldsDefaults<D(==), G, R>(s: Svc<D, G, R>, d: D, until: Time) {
    "defaults" in s.defs && s.defs["defaults"].val == d && s.defs["defaults"].expires == until
  }

  /** Defaults are read from the store when there is no live copy, and that copy then lives for 30 s. */
  lemma DefaultsLoaded<D, G, R>(s: Svc<D, G, R>, c: Clk)
    ensures var (s', d) := LoadDefaults(s, c);
            var live := "defaults" in s.defs && c.defsCheck < s.defs["defaults"].expires;
            && (live ==> d == Some(s.defs["defaults"].val) && s' == s)
            && (!live && c.defsFail ==> d == None && s' == s)
            && (!live && !c.defsFail ==> d == Some(s.store.defaults)
                                         && HoldsDefaults(s', s.store.defaults, c.defsStored + 30 * SECOND))
  {
  }

  // ---- the service over the two caches ----

  class Resolver<D(!new), G(!new), R(!new)> {
    const rules: Rules<D, G, R>
    var store: Store<D, G>
    const cache: Cache<R>
    const defs: Cache<D>

    constructor (rules: Rules<D, G, R>, store: Store<D, G>)
      ensures Valid() && fresh(cache) && fresh(defs)
      ensures this.rules == rules && View() == Svc(store, map[], map[])
    {
      this.rules, this.store := rules, store;
      cache := new Cache<R>(TTL);
      defs := new Cache<D>(TTL);
    }

    predicate Valid() {
      var c: object, d: object := cache, defs;
      c != d && cache.ttl == TTL && defs.ttl == TTL
    }

    function View(): Svc<D, G, R>
      reads this, cache, defs
    {
      Svc(store, cache.m, defs.m)
    }

    method ReadDefaults(c: Clk) returns (d: Option<D>)
      requires Valid()
      modifies defs
      ensures (View(), d) == LoadDefaults(old(View()), c) && View().cache == old(View()).cache
    {
      d := defs.Lookup("defaults", c.defsCheck);
      if d.None? && !c.defsFail {
        defs.Store("defaults", store.defaults, c.defsStored);
        d := Some(store.defaults);
      }
    }

    /** Loads an account that is not a client. */
    method LoadOwnEffective(id: Id, c: Clk) returns (res: Outcome<R>)
      requires Valid()
      modifies cache, defs
      ensures (View(), res) == LoadOwn(rules, old(View()), id, c)
    {
      if c.userFails {
        return Down;
      }
      if id !in store.accounts {
        return NotFound;
      }
      var val := rules.other;
      if rules.roleOf(id).Coach? {
        var d := ReadDefaults(c);
        if d.None? || c.grantFails {
          return Down;
        }
        val := rules.coach(id, d.value, GrantOf(store, id));
      }
      cache.Store(id, val, c.stored);
      return Ok(val);
    }

    method ResolveCoach(id: Id, c: Clk) returns (res: Outcome<R>)
      requires Valid()
      modifies cache, defs
      ensures (View(), res) == ResolveOwn(rules, old(View()), id, c)
    {
      var hit := cache.Lookup(id, c.check);
      if hit.Some? {
        return Ok(hit.value);
      }
      res := LoadOwnEffective(id, c);
    }

    method LoadClientEffective(id: Id, c: Clk, inner: Clk) returns (res: Outcome<R>)
      requires Valid()
      modifies cache, defs
      ensures (View(), res) == LoadClient(rules, old(View()), id, c, inner)
    {
      if c.userFails {
        return Down;
      }
      if id !in store.accounts {
        return NotFound;
      }
      var d := ReadDefaults(c);
      if d.None? || c.grantFails {
        return Down;
      }
      var link, seen: Option<R> := LinkOf(store, id), None;
      if link != "" {
        var coach := ResolveCoach(link, inner);
        if coach.Down? {
          return Down;
        }
        if coach.Ok? {
          seen := Some(coach.val);
        }
      }
      var val := rules.client(id, d.value, GrantOf(store, id), link, seen);
      cache.Store(id, val, c.stored);
      return Ok(val);
    }

    /** Resolves any account; its result is what the step relation of the runs above gives. */
    method ResolveUser(id: Id, c: Clk, inner: Clk) returns (res: Outcome<R>)
      requires Valid()
      modifies cache, defs
      ensures (View(), res) == Resolve(rules, old(View()), id, c, inner)
    {
      var hit := cache.Lookup(id, c.check);
      if hit.Some? {
        return Ok(hit.value);
      }
      if rules.roleOf(id).Client? {
        res := LoadClientEffective(id, c, inner);
      } else {
        res := LoadOwnEffective(id, c);
      }
    }

    /** A grant or default written by this process. */
    method Write(st: Store<D, G>)
      requires Valid()
      modifies this, cache, defs
      ensures View() == LocalWrite(old(View()), st)
    {
      store := st;
      cache.Purge();
      defs.Purge();
    }
  }
}
