/**
 The account-status cache: one entry per user, in a map and in a list ordered by fetch time, the oldest
 evicted first. Callers are sequential; a lookup's answer and the clock readings are parameters.
 */
module StatusGate {
  import opened Common

  const MAX_STALE := 5 * MINUTE
  const NOT_FOUND_TTL := 30 * SECOND

  datatype Entry = Entry(user: Id, status: string, fetched: Time, notFound: bool)

  /** What the user lookup says, when it is asked. */
  datatype Answer = Found(status: string) | NotFound | Failed

  datatype Result = Served(status: string) | UnknownUser | Unavailable

  // ---- the cache as a list of entries, oldest first ----

  /** Where the user's entry is; the length when there is none. */
  function IndexOf(es: seq<Entry>, user: Id): (k: nat)
    ensures k <= |es| && (k < |es| ==> es[k].user == user) && forall i :: 0 <= i < k ==> es[i].user != user
    decreases |es|
  {
    if es == [] || es[0].user == user then 0 else
      var k := IndexOf(es[1..], user);
      assert forall i :: 0 < i <= k ==> es[i] == es[1..][i - 1];
      k + 1
  }

  function Find(es: seq<Entry>, user: Id): Option<Entry> {
    if IndexOf(es, user) < |es| then Some(es[IndexOf(es, user)]) else None
  }

  /** How many of n entries are too many. */
  function Excess(n: nat, max: nat): nat {
    if n <= max then 0 else n - max
  }

  function Trimmed(es: seq<Entry>, max: nat): seq<Entry> {
    es[Excess(|es|, max)..]
  }

  function Put(es: seq<Entry>, e: Entry, max: nat): seq<Entry> {
    var k := IndexOf(es, e.user);
    if k < |es| then es[..k] + es[k + 1..] + [e] else Trimmed(es + [e], max)
  }

  /** last is history: the last definite answer about each user, as an entry. */
  datatype Gate = Gate(entries: seq<Entry>, last: map<Id, Entry>)

  datatype Config = Config(ttl: int, max: nat)

  /** A request: whose status, the clock at its start and after the lookup, and what the lookup says if asked. */
  datatype Call = Call(user: Id, start: Time, done: Time, answer: Answer)

  predicate IsHit(g: Gate, c: Call, cfg: Config) {
    var prev := Find(g.entries, c.user);
    prev.Some? && c.start - prev.value.fetched < (if prev.value.notFound then NOT_FOUND_TTL else cfg.ttl)
  }

  function Answered(g: Gate, c: Call, cfg: Config): (Gate, Result) {
    var prev := Find(g.entries, c.user);
    if IsHit(g, c, cfg) then (g, if prev.value.notFound then UnknownUser else Served(prev.value.status))
    else match c.answer
      case Found(status) =>
        var e := Entry(c.user, status, c.done, false);
        (Gate(Put(g.entries, e, cfg.max), g.last[c.user := e]), Served(status))
      case NotFound =>
        var e := Entry(c.user, "", c.done, true);
        (Gate(Put(g.entries, e, cfg.max), g.last[c.user := e]), UnknownUser)
      case Failed =>
        (g, if prev.Some? && !prev.value.notFound && c.done - prev.value.fetched < MAX_STALE
         then Served(prev.value.status) else Unavailable)
  }

  // ---- what every run keeps ----

  /** One entry a user, oldest first, none from the future, each the user's last definite answer. */
  predicate Inv(g: Gate, now: Time, cfg: Config) {
    |g.entries| <= cfg.max && Tidy(g.entries, now) && Remembered(g.entries, g.last)
  }

  /** Which old entry stands at place i after a put. */
  function Origin(es: seq<Entry>, user: Id, max: nat, i: nat): nat {
    var k := IndexOf(es, user);
    if k < |es| then (if i < k then i else i + 1) else if |es| < max then i else i + |es| + 1 - max
  }

  lemma PutReplacing(es: seq<Entry>, e: Entry, max: nat, i: nat)
    requires IndexOf(es, e.user) < |es| && i < |es|
    ensures var k := IndexOf(es, e.user);
            && |Put(es, e, max)| == |es|
            && Put(es, e, max)[i] == if i < k then es[i] else if i < |es| - 1 then es[i + 1] else e
  {
    var k := IndexOf(es, e.user);
    var before, behind := es[..k], es[k + 1..];
    assert Put(es, e, max) == before + behind + [e] && |before| == k && |behind| == |es| - k - 1;
    if k <= i < |es| - 1 {
      assert (before + behind + [e])[i] == behind[i - k];
    }
  }

  lemma PutAdding(es: seq<Entry>, e: Entry, max: nat, i: nat)
    requires IndexOf(es, e.user) == |es| <= max && i < |Put(es, e, max)|
    ensures var drop := Excess(|es| + 1, max);
            |Put(es, e, max)| == |es| + 1 - drop && Put(es, e, max)[i] == if i + drop < |es| then es[i + drop] else e
  {
    var drop := Excess(|es| + 1, max);
    assert Put(es, e, max) == (es + [e])[drop..];
  }

  /** A put keeps old entries in order and ends in the new one. */
  lemma PutShape(es: seq<Entry>, e: Entry, max: nat, i: nat)
    requires |es| <= max && i < |Put(es, e, max)|
    ensures |Put(es, e, max)| <= max
    ensures i < |Put(es, e, max)| - 1 ==>
              Origin(es, e.user, max, i) < |es| && Put(es, e, max)[i] == es[Origin(es, e.user, max, i)]
    ensures i < |Put(es, e, max)| - 1 && IndexOf(es, e.user) < |es| ==>
              Origin(es, e.user, max, i) != IndexOf(es, e.user)
    ensures i == |Put(es, e, max)| - 1 ==> Put(es, e, max)[i] == e
  {
    if IndexOf(es, e.user) < |es| {
      assert |Put(es, e, max)| == |es|;
      PutReplacing(es, e, max, i);
    } else {
      PutAdding(es, e, max, i);
    }
  }

  /** Entries of one list as the invariant wants them. */
  predicate Tidy(es: seq<Entry>, now: Time) {
    && (forall i, j :: 0 <= i < j < |es| ==> es[i].user != es[j].user && es[i].fetched <= es[j].fetched)
    && (forall i :: 0 <= i < |es| ==> es[i].fetched <= now)
  }

  predicate Remembered(es: seq<Entry>, last: map<Id, Entry>) {
    forall i :: 0 <= i < |es| ==> es[i].user in last && last[es[i].user] == es[i]
  }

  lemma PutKeepsTidy(es: seq<Entry>, e: Entry, now: Time, max: nat)
    requires Tidy(es, now) && now <= e.fetched && |es| <= max
    ensures Tidy(Put(es, e, max), e.fetched)
  {
    var r := Put(es, e, max);
    forall i, j | 0 <= i < j < |r|
      ensures r[i].user != r[j].user && r[i].fetched <= r[j].fetched
    {
      PutShape(es, e, max, i);
      PutShape(es, e, max, j);
    }
    forall i | 0 <= i < |r|
      ensures r[i].fetched <= e.fetched
    {
      PutShape(es, e, max, i);
    }
  }

  lemma PutKeepsRemembered(es: seq<Entry>, e: Entry, now: Time, max: nat, last: map<Id, Entry>)
    requires Tidy(es, now) && Remembered(es, last) && |es| <= max
    ensures Remembered(Put(es, e, max), last[e.user := e])
  {
    var r := Put(es, e, max);
    forall i | 0 <= i < |r|
      ensures r[i].user in last[e.user := e] && last[e.user := e][r[i].user] == r[i]
    {
      PutShape(es, e, max, i);
    }
  }

  lemma StepKeepsInv(g: Gate, c: Call, now: Time, cfg: Config)
    requires Inv(g, now, cfg) && now <= c.start <= c.done
    ensures Inv(Answered(g, c, cfg).0, c.done, cfg)
  {
    if !IsHit(g, c, cfg) && !c.answer.Failed? {
      var e := Entry(c.user, if c.answer.Found? then c.answer.status else "", c.done, c.answer.NotFound?);
      PutKeepsTidy(g.entries, e, now, cfg.max);
      PutKeepsRemembered(g.entries, e, now, cfg.max, g.last);
      if Put(g.entries, e, cfg.max) != [] {
        PutShape(g.entries, e, cfg.max, 0);
      }
    }
  }

  /** The entries a put drops, beside the one it replaces, are at least as old as all it keeps. */
  lemma EvictsOldest(g: Gate, e: Entry, now: Time, cfg: Config, dropped: Entry, kept: Entry)
    requires Inv(g, now, cfg) && now <= e.fetched
    requires dropped in g.entries && dropped.user != e.user && dropped !in Put(g.entries, e, cfg.max)
    requires kept in Put(g.entries, e, cfg.max)
    ensures dropped.fetched <= kept.fetched && |g.entries| == cfg.max
  {
    var i :| 0 <= i < |g.entries| && g.entries[i] == dropped;
    StaysUnlessOldest(g.entries, e, cfg.max, i);
    var r := Put(g.entries, e, cfg.max);
    var j :| 0 <= j < |r| && r[j] == kept;
    PutShape(g.entries, e, cfg.max, j);
  }

  /** Only the first entry of a full list can go to make room. */
  lemma StaysUnlessOldest(es: seq<Entry>, e: Entry, max: nat, i: nat)
    requires |es| <= max && i < |es| && es[i].user != e.user
    ensures es[i] in Put(es, e, max) || (|es| == max && i == 0)
  {
    var r, k := Put(es, e, max), IndexOf(es, e.user);
    if k < |es| {
      assert r[if i < k then i else i - 1] == es[i];
    } else if |es| < max {
      assert r[i] == es[i];
    } else if i > 0 {
      assert r[i - 1] == es[i];
    }
  }

  // ---- runs ----

  /** Calls one after the other, under a clock that does not go back. */
  predicate Ordered(now: Time, calls: seq<Call>)
    decreases |calls|
  {
    calls == [] || (now <= calls[0].start <= calls[0].done && Ordered(calls[0].done, calls[1..]))
  }

  function Run(g: Gate, calls: seq<Call>, cfg: Config): Gate
    decreases |calls|
  {
    if calls == [] then g else Run(Answered(g, calls[0], cfg).0, calls[1..], cfg)
  }

  function End(now: Time, calls: seq<Call>): Time
    decreases |calls|
  {
    if calls == [] then now else End(calls[0].done, calls[1..])
  }

  lemma {:induction false} RunKeepsInv(g: Gate, calls: seq<Call>, now: Time, cfg: Config)
    requires Inv(g, now, cfg) && Ordered(now, calls)
    ensures Inv(Run(g, calls, cfg), End(now, calls), cfg)
    decreases |calls|
  {
    if calls != [] {
      StepKeepsInv(g, calls[0], now, cfg);
      RunKeepsInv(Answered(g, calls[0], cfg).0, calls[1..], calls[0].done, cfg);
    }
  }

  /**
   After any run from an empty cache, a served status is either the lookup's own answer, or the user's last
   definite answer, which was not "not found", and is younger than ttl, or younger than 5 minutes when the
   lookup failed.
   */
  lemma ServedIsRecentAnswer(calls: seq<Call>, now: Time, c: Call, cfg: Config)
    requires Ordered(now, calls) && End(now, calls) <= c.start <= c.done
    ensures var g := Run(Gate([], map[]), calls, cfg);
            var res := Answered(g, c, cfg).1;
            res.Served? ==>
              (c.answer.Found? && !IsHit(g, c, cfg) && res.status == c.answer.status)
              || (c.user in g.last && !g.last[c.user].notFound && g.last[c.user].status == res.status
                  && (c.start - g.last[c.user].fetched < cfg.ttl
                      || (c.answer.Failed? && c.done - g.last[c.user].fetched < 5 * MINUTE)))
  {
    RunKeepsInv(Gate([], map[]), calls, now, cfg);
    var g := Run(Gate([], map[]), calls, cfg);
  }

  /** A user remembered as missing is reported missing until asked again, never served. */
  lemma MissingIsNeverServed(calls: seq<Call>, now: Time, c: Call, cfg: Config)
    requires Ordered(now, calls) && End(now, calls) <= c.start <= c.done
    requires var g := Run(Gate([], map[]), calls, cfg); c.user in g.last && g.last[c.user].notFound
    ensures Answered(Run(Gate([], map[]), calls, cfg), c, cfg).1.Served? ==> c.answer.Found?
  {
    ServedIsRecentAnswer(calls, now, c, cfg);
    RunKeepsInv(Gate([], map[]), calls, now, cfg);
  }

  // ---- every answer ----

  /** e is what is cached of the caller, and recent enough to answer without a lookup. */
  predicate Answers(es: seq<Entry>, e: Entry, c: Call, cfg: Config) {
    e in es && e.user == c.user && c.start - e.fetched < if e.notFound then 30 * SECOND else cfg.ttl
  }

  /** e is what is cached of the caller, a status good enough to serve when the lookup fails. */
  predicate Bridges(es: seq<Entry>, e: Entry, c: Call) {
    e in es && e.user == c.user && !e.notFound && c.done - e.fetched < 5 * MINUTE
  }

  lemma FindIsIn(es: seq<Entry>, user: Id, e: Entry)
    requires forall i, j :: 0 <= i < j < |es| ==> es[i].user != es[j].user
    ensures Find(es, user) == Some(e) <==> e in es && e.user == user
  {
    if e in es && e.user == user {
      var k := IndexOf(es, user);
      var i :| 0 <= i < |es| && es[i] == e;
      assert k <= i;
    }
  }

  /**
   Each call's answer, by what is cached: a recent entry answers by itself; otherwise the lookup does; when
   that fails, a status of less than five minutes is served, and only without one the call is turned away.
   */
  lemma AnswersExactly(g: Gate, c: Call, now: Time, cfg: Config)
    requires Inv(g, now, cfg)
    ensures var (g', res) := Answered(g, c, cfg);
            var hit := exists e :: Answers(g.entries, e, c, cfg);
            && (forall st :: res == Served(st) <==>
                  || (exists e :: Answers(g.entries, e, c, cfg) && !e.notFound && e.status == st)
                  || (!hit && c.answer == Found(st))
                  || (!hit && c.answer.Failed? && exists e :: Bridges(g.entries, e, c) && e.status == st))
            && (res.UnknownUser? <==> (exists e :: Answers(g.entries, e, c, cfg) && e.notFound)
                                      || (!hit && c.answer.NotFound?))
            && (res.Unavailable? <==> !hit && c.answer.Failed? && !exists e :: Bridges(g.entries, e, c))
            && (hit || c.answer.Failed? ==> g' == g)
  {
    forall e
      ensures Find(g.entries, c.user) == Some(e) <==> e in g.entries && e.user == c.user
    {
      FindIsIn(g.entries, c.user, e);
    }
    if IsHit(g, c, cfg) {
      assert Answers(g.entries, Find(g.entries, c.user).value, c, cfg);
    }
    var prev := Find(g.entries, c.user);
    if prev.Some? {
      assert Bridges(g.entries, prev.value, c) <==> !prev.value.notFound && c.done - prev.value.fetched < 5 * MINUTE;
    }
  }

  lemma PutIsFound(es: seq<Entry>, e: Entry, now: Time, max: nat)
    requires Tidy(es, now) && now <= e.fetched && |es| <= max && max > 0
    ensures Find(Put(es, e, max), e.user) == Some(e)
  {
    var r := Put(es, e, max);
    PutKeepsTidy(es, e, now, max);
    assert r != [];
    PutShape(es, e, max, |r| - 1);
    assert r[|r| - 1] == e;
    FindIsIn(r, e.user, e);
  }

  /** A definite answer is what the next call of the user gets without a lookup, while it is recent. */
  lemma AnswerIsKept(g: Gate, c: Call, again: Call, now: Time, cfg: Config)
    requires Inv(g, now, cfg) && now <= c.start <= c.done && cfg.max > 0
    requires !IsHit(g, c, cfg) && !c.answer.Failed? && again.user == c.user
    requires again.start - c.done < if c.answer.NotFound? then 30 * SECOND else cfg.ttl
    ensures Answered(Answered(g, c, cfg).0, again, cfg).1
            == if c.answer.NotFound? then UnknownUser else Served(c.answer.status)
  {
    var e := Entry(c.user, if c.answer.Found? then c.answer.status else "", c.done, c.answer.NotFound?);
    PutIsFound(g.entries, e, now, cfg.max);
  }

  // ---- the map and the list ----

  /** A cached entry in place; an overwrite keeps its user. */
  class Element {
    const user: Id
    var status: string
    var fetched: Time
    var notFound: bool

    constructor (e: Entry)
      ensures View() == e
    {
      user, status, fetched, notFound := e.user, e.status, e.fetched, e.notFound;
    }

    function View(): Entry
      reads this
    {
      Entry(user, status, fetched, notFound)
    }

    method Overwrite(e: Entry)
      requires e.user == user
      modifies this
      ensures View() == e
    {
      status, fetched, notFound := e.status, e.fetched, e.notFound;
    }
  }

  function Views(order: seq<Element>): seq<Entry>
    reads order
  {
    seq(|order|, i requires 0 <= i < |order| reads order => order[i].View())
  }

  lemma ViewsSuffix(order: seq<Element>, n: nat)
    requires n <= |order|
    ensures Views(order[n..]) == Views(order)[n..]
  {
  }

  lemma ViewsMoved(order: seq<Element>, k: nat)
    requires k < |order|
    ensures Views(order[..k] + order[k + 1..] + [order[k]])
            == Views(order)[..k] + Views(order)[k + 1..] + [Views(order)[k]]
  {
    var moved, es := order[..k] + order[k + 1..] + [order[k]], Views(order);
    forall i | 0 <= i < |order|
      ensures Views(moved)[i] == (es[..k] + es[k + 1..] + [es[k]])[i]
    {
    }
  }

  /** Map and list agree one to one. */
  predicate Agree(cache: map<Id, Element>, order: seq<Element>) {
    && (forall i, j :: 0 <= i < j < |order| ==> order[i] != order[j])
    && (forall i :: 0 <= i < |order| ==> order[i].user in cache && cache[order[i].user] == order[i])
    && (forall u :: u in cache ==> cache[u] in order && cache[u].user == u)
  }

  lemma MovingKeepsAgree(cache: map<Id, Element>, order: seq<Element>, k: nat)
    requires Agree(cache, order) && k < |order|
    ensures Agree(cache, order[..k] + order[k + 1..] + [order[k]])
  {
    var moved := order[..k] + order[k + 1..] + [order[k]];
    assert forall j :: 0 <= j < |moved| ==>
             moved[j] == order[if j < k then j else if j < |order| - 1 then j + 1 else k];
    forall x | x in order
      ensures x in moved
    {
      var j :| 0 <= j < |order| && order[j] == x;
      assert x == moved[if j < k then j else if j > k then j - 1 else |order| - 1];
    }
  }

  lemma AddingKeepsAgree(cache: map<Id, Element>, order: seq<Element>, el: Element)
    requires Agree(cache, order) && el.user !in cache
    ensures Agree(cache[el.user := el], order + [el])
  {
    assert forall x :: x in order ==> x in order + [el];
  }

  lemma EvictingKeepsAgree(cache: map<Id, Element>, order: seq<Element>)
    requires Agree(cache, order) && order != []
    ensures Agree(cache - {order[0].user}, order[1..])
  {
    forall x | x in order && x != order[0]
      ensures x in order[1..]
    {
      var j :| 0 <= j < |order| && order[j] == x;
      assert order[1..][j - 1] == x;
    }
  }

  class StatusCache {
    const ttl: int
    const maxEntries: nat
    var cache: map<Id, Element>
    /** Oldest to newest. */
    var order: seq<Element>

    predicate Valid()
      reads this
    {
      Agree(cache, order) && |order| <= maxEntries
    }

    function Entries(): seq<Entry>
      reads this, order
    {
      Views(order)
    }

    constructor (ttl: int, maxEntries: nat)
      ensures Valid() && Entries() == [] && this.ttl == ttl && this.maxEntries == maxEntries
    {
      this.ttl, this.maxEntries := ttl, maxEntries;
      cache, order := map[], [];
    }

    /** The map finds exactly the list's entry of a user. */
    lemma MapFinds(user: Id)
      requires Valid()
      ensures Find(Entries(), user) == if user in cache then Some(cache[user].View()) else None
      ensures user in cache ==> IndexOf(Entries(), user) < |order| && order[IndexOf(Entries(), user)] == cache[user]
    {
      var k := IndexOf(Entries(), user);
      if user in cache {
        var i :| 0 <= i < |order| && order[i] == cache[user];
        assert Entries()[i].user == user;
        assert k <= i;
      }
      if k < |order| {
        assert Entries()[k] == order[k].View();
      }
    }

    method Get(user: Id) returns (e: Option<Entry>)
      requires Valid()
      ensures e == Find(Entries(), user)
    {
      MapFinds(user);
      return if user in cache then Some(cache[user].View()) else None;
    }

    method PutEntry(e: Entry)
      requires Valid()
      modifies this, order
      ensures Valid() && Entries() == Put(old(Entries()), e, maxEntries)
      ensures forall x :: x in order && x !in old(order) ==> fresh(x)
    {
      MapFinds(e.user);
      if e.user in cache {
        Replace(e, IndexOf(Entries(), e.user));
      } else {
        Append(e);
      }
    }

    /** Overwrites the user's element and moves it to the back. */
    method Replace(e: Entry, ghost k: nat)
      requires Valid() && e.user in cache && k < |order| && order[k] == cache[e.user]
      modifies this`order, cache[e.user]
      ensures Valid() && order == old(order)[..k] + old(order)[k + 1..] + [old(order)[k]]
      ensures Entries() == old(Entries())[..k] + old(Entries())[k + 1..] + [e]
    {
      var el := cache[e.user];
      ghost var es := Entries();
      el.Overwrite(e);
      assert Views(order) == es[k := e];
      ViewsMoved(order, k);
      MoveToBack(el, k);
    }

    method MoveToBack(el: Element, ghost k: nat)
      requires Valid() && k < |order| && order[k] == el
      modifies this`order
      ensures Valid() && order == old(order)[..k] + old(order)[k + 1..] + [el]
    {
      MovingKeepsAgree(cache, order, k);
      var i :| 0 <= i < |order| && order[i] == el;
      order := order[..i] + order[i + 1..] + [el];
    }

    /** Adds an element at the back and evicts from the front. */
    method Append(e: Entry)
      requires Valid() && e.user !in cache
      modifies this`order, this`cache
      ensures Valid() && Entries() == Trimmed(old(Entries()) + [e], maxEntries)
      ensures forall x :: x in order && x !in old(order) ==> fresh(x)
    {
      AddBack(e);
      ViewsSuffix(order, Excess(|order|, maxEntries));
      Evict();
    }

    method AddBack(e: Entry)
      requires Valid() && e.user !in cache
      modifies this`order, this`cache
      ensures Agree(cache, order) && |order| == |old(order)| + 1
      ensures order == old(order) + [order[|old(order)|]] && fresh(order[|old(order)|])
      ensures Entries() == old(Entries()) + [e]
    {
      var el := new Element(e);
      AddingKeepsAgree(cache, order, el);
      order := order + [el];
      cache := cache[e.user := el];
    }

    method Evict()
      requires Agree(cache, order)
      modifies this`order, this`cache
      ensures Valid()
      ensures order == old(order)[Excess(|old(order)|, maxEntries)..]
    {
      ghost var all, n := order, 0;
      while |order| > maxEntries
        invariant Agree(cache, order) && n <= |all| && order == all[n..]
        invariant n == 0 || |order| >= maxEntries
        decreases |order|
      {
        EvictingKeepsAgree(cache, order);
        assert order[1..] == all[n + 1..];
        cache := cache - {order[0].user};
        order := order[1..];
        n := n + 1;
      }
    }

    /** One request: a fresh enough entry answers it, else the lookup does, else a stale entry may. */
    method Status(user: Id, start: Time, done: Time, answer: Answer) returns (res: Result)
      requires Valid()
      modifies this, order
      ensures Valid()
      ensures var call, cfg := Call(user, start, done, answer), Config(ttl, maxEntries);
              forall last :: Answered(Gate(old(Entries()), last), call, cfg).0.entries == Entries()
                             && Answered(Gate(old(Entries()), last), call, cfg).1 == res
    {
      var prev := Get(user);
      if prev.Some? {
        var age := start - prev.value.fetched;
        if prev.value.notFound && age < NOT_FOUND_TTL {
          return UnknownUser;
        }
        if !prev.value.notFound && age < ttl {
          return Served(prev.value.status);
        }
      }
      match answer
      case Found(status) =>
        PutEntry(Entry(user, status, done, false));
        return Served(status);
      case NotFound =>
        PutEntry(Entry(user, "", done, true));
        return UnknownUser;
      case Failed =>
        if prev.Some? && !prev.value.notFound && done - prev.value.fetched < MAX_STALE {
          return Served(prev.value.status);
        }
        return Unavailable;
    }
  }
}
