/** The read cache: values with a time to live, for sequential callers. */
module ReadCache {
  import opened Common

  const TTL := 30 * SECOND
  const MAX_ENTRIES := 4096

  datatype Entry<V> = Entry(val: V, expires: Time)

  function Get<V>(m: map<string, Entry<V>>, key: string, now: Time): Option<V> {
    if key in m && now < m[key].expires then Some(m[key].val) else None
  }

  /** Stores a loaded value; an overfull map is emptied first. */
  function Put<V>(m: map<string, Entry<V>>, key: string, v: V, at: Time, ttl: int): map<string, Entry<V>> {
    (if |m| > MAX_ENTRIES then map[] else m)[key := Entry(v, at + ttl)]
  }

  /** Up to 4096 entries a new one drops none; beyond that it stays alone. */
  lemma PutIsBounded<V>(m: map<string, Entry<V>>, key: string, v: V, at: Time, ttl: int)
    requires |m| <= 4097
    ensures var m' := Put(m, key, v, at, ttl);
            && |m'| <= 4097 && key in m'
            && (|m| <= 4096 ==> forall k :: k in m && k != key ==> k in m' && m'[k] == m[k])
            && (|m| > 4096 ==> m'.Keys == {key})
  {
    var m' := Put(m, key, v, at, ttl);
    var kept := if |m| > 4096 then {} else m.Keys;
    assert m'.Keys == kept + {key};
    assert |m.Keys| == |m| && |m'.Keys| == |m'|;
  }

  class Cache<V(!new)> {
    const ttl: int
    var m: map<string, Entry<V>>

    constructor (ttl: int)
      ensures m == map[] && this.ttl == ttl
    {
      this.ttl := ttl;
      m := map[];
    }

    method Purge()
      modifies this
      ensures m == if ttl <= 0 then old(m) else map[]
    {
      if ttl > 0 {
        m := map[];
      }
    }

    /** The cached value; a cache without a time to live never has one. */
    method Lookup(key: string, now: Time) returns (v: Option<V>)
      ensures v == if ttl <= 0 then None else Get(m, key, now)
    {
      if ttl > 0 && key in m && now < m[key].expires {
        return Some(m[key].val);
      }
      return None;
    }

    method Store(key: string, v: V, at: Time)
      modifies this
      ensures m == if ttl <= 0 then old(m) else Put(old(m), key, v, at, ttl)
    {
      if ttl <= 0 {
        return;
      }
      if |m| > MAX_ENTRIES {
        m := map[];
      }
      m := m[key := Entry(v, at + ttl)];
    }
  }
}
