/**
 * The time-limited cache of the memory-optimised event controller: a
 * JavaScript `Map` from key to `{ data, expires }`. Before every insertion a
 * cache of more than 100 entries drops its oldest key; a read of an expired
 * entry deletes it. The Map's insertion order is kept as a sequence of keys.
 */
module EventCache {
  import opened JsValues

  /** Five minutes, the default lifetime of an entry. */
  const CACHE_TTL := 300000

  /** The size above which `set` first evicts the oldest key. */
  const EVICT_ABOVE := 100

  datatype CacheEntry = CacheEntry(data: JsValue, expires: int)

  /** The Map's keys in insertion order, and the entry under each. */
  datatype CacheState = CacheState(order: seq<string>, entries: map<string, CacheEntry>)

  predicate Distinct(s: seq<string>) {
    forall i, j :: 0 <= i < j < |s| ==> s[i] != s[j]
  }

  /** The key order lists each key of the Map once, and there are at most 101 keys. */
  ghost predicate WellFormed(c: CacheState) {
    && Distinct(c.order)
    && (forall k :: k in c.entries <==> k in c.order)
    && |c.order| <= EVICT_ABOVE + 1
  }

  /** The key sequence without `k`, the rest in their order. */
  function Remove(s: seq<string>, k: string): (r: seq<string>)
    ensures forall x :: x in r <==> x in s && x != k
    ensures Distinct(s) ==> Distinct(r)
    ensures Distinct(s) && k in s ==> |r| == |s| - 1
    ensures k !in s ==> r == s
  {
    if |s| == 0 then []
    else if s[0] == k then
      var rest := Remove(s[1..], k);
      assert Distinct(s) ==> k !in s[1..];
      rest
    else
      var rest := Remove(s[1..], k);
      assert Distinct(s) ==> Distinct(s[1..]) && s[0] !in s[1..];
      assert k !in s ==> s == [s[0]] + s[1..];
      [s[0]] + rest
  }

  /** Removing a listed key cuts it out where it stands: the keys before and after it keep their order. */
  lemma {:induction false} RemoveKeepsOrder(s: seq<string>, k: string)
    requires Distinct(s) && k in s
    ensures exists i :: 0 <= i < |s| && s[i] == k && Remove(s, k) == s[..i] + s[i + 1..]
  {
    var i := CutPoint(s, k);
    assert 0 <= i < |s| && s[i] == k && Remove(s, k) == s[..i] + s[i + 1..];
  }

  /** Where `Remove` cuts a listed key out. */
  lemma {:induction false} CutPoint(s: seq<string>, k: string) returns (i: int)
    requires Distinct(s) && k in s
    ensures 0 <= i < |s| && s[i] == k && Remove(s, k) == s[..i] + s[i + 1..]
  {
    var t := s[1..];
    if s[0] == k {
      i := 0;
      assert Remove(s, k) == s[..0] + t by {
        assert k !in t;
      }
    } else {
      assert Distinct(t) && k in t;
      var j := CutPoint(t, k);
      i := j + 1;
      assert Remove(s, k) == s[..j + 1] + s[j + 2..] by {
        assert Remove(s, k) == [s[0]] + Remove(t, k);
        assert s[..j + 1] == [s[0]] + t[..j] && s[j + 2..] == t[j + 1..];
      }
    }
  }

  /** `cache.delete(k)`. */
  function DeleteState(c: CacheState, k: string): (r: CacheState)
    ensures r.entries.Keys == c.entries.Keys - {k}
    ensures forall x :: x in r.entries ==> r.entries[x] == c.entries[x]
    ensures forall x :: x in r.order <==> x in c.order && x != k
  {
    CacheState(Remove(c.order, k), c.entries - {k})
  }

  /** `cache.set(k, e)`: a new key goes last; an existing key keeps its place. */
  function Put(c: CacheState, k: string, e: CacheEntry): CacheState {
    CacheState(if k in c.entries then c.order else c.order + [k], c.entries[k := e])
  }

  /**
   * `cacheHelpers.set(key, value, ttl)` at `now`: more than 100 entries first
   * lose the oldest key (even when `key` is already there), then the entry
   * expiring at `now + ttl` is stored.
   */
  function SetState(c: CacheState, key: string, value: JsValue, now: int, ttl: int): (r: CacheState)
    ensures key in r.entries && r.entries[key] == CacheEntry(value, now + ttl)
    ensures forall x :: x in r.entries && x != key ==> x in c.entries && r.entries[x] == c.entries[x]
    ensures |c.order| <= EVICT_ABOVE ==> r.entries.Keys == c.entries.Keys + {key}
    ensures |c.order| > EVICT_ABOVE && c.order[0] != key ==> c.order[0] !in r.entries
  {
    var trimmed := if |c.order| > EVICT_ABOVE then DeleteState(c, c.order[0]) else c;
    Put(trimmed, key, CacheEntry(value, now + ttl))
  }

  /** What `get` answers and the Map it leaves. */
  datatype Lookup = Lookup(state: CacheState, value: JsValue)

  /**
   * `cacheHelpers.get(key)` at `now`: `null` for a missing key; `null` for an
   * entry whose expiry time has passed, which is also deleted; the data
   * otherwise.
   */
  function GetState(c: CacheState, key: string, now: int): (l: Lookup)
    ensures key !in c.entries ==> l == Lookup(c, Null)
    ensures key in c.entries && now <= c.entries[key].expires ==> l == Lookup(c, c.entries[key].data)
    ensures key in c.entries && now > c.entries[key].expires ==>
              l.value == Null && l.state.entries == c.entries - {key}
  {
    if key !in c.entries then Lookup(c, Null)
    else if now > c.entries[key].expires then Lookup(DeleteState(c, key), Null)
    else Lookup(c, c.entries[key].data)
  }

  /** The keys of a sequence without repetition are as many as its length. */
  lemma {:induction false} DistinctKeys(s: seq<string>)
    requires Distinct(s)
    ensures |set x | x in s| == |s|
  {
    if |s| > 0 {
      DistinctKeys(s[1..]);
      assert (set x | x in s) == (set x | x in s[1..]) + {s[0]};
      assert s[0] !in s[1..];
    }
  }

  /** A well-formed cache holds at most 101 entries. */
  lemma SizeBound(c: CacheState)
    requires WellFormed(c)
    ensures |c.entries| == |c.order| <= EVICT_ABOVE + 1
  {
    DistinctKeys(c.order);
    assert c.entries.Keys == set x | x in c.order;
  }

  lemma DeleteKeepsWellFormed(c: CacheState, k: string)
    requires WellFormed(c)
    ensures WellFormed(DeleteState(c, k))
  {
  }

  /** `set` keeps the cache well formed, so it never grows past 101 entries. */
  lemma SetKeepsWellFormed(c: CacheState, key: string, value: JsValue, now: int, ttl: int)
    requires WellFormed(c)
    ensures WellFormed(SetState(c, key, value, now, ttl))
  {
    var trimmed := if |c.order| > EVICT_ABOVE then DeleteState(c, c.order[0]) else c;
    assert |c.order| > EVICT_ABOVE ==> c.order[0] in c.order;
    assert |trimmed.order| <= EVICT_ABOVE;
    var r := Put(trimmed, key, CacheEntry(value, now + ttl));
    if key !in trimmed.entries {
      assert Distinct(r.order) by {
        assert key !in trimmed.order;
      }
    }
  }

  /** `get` keeps the cache well formed. */
  lemma GetKeepsWellFormed(c: CacheState, key: string, now: int)
    requires WellFormed(c)
    ensures WellFormed(GetState(c, key, now).state)
  {
  }

  /** A value set at time `t` with lifetime `ttl` is read back at any time up to `t + ttl`, and the read changes nothing. */
  lemma SetThenGet(c: CacheState, key: string, value: JsValue, t: int, ttl: int, now: int)
    requires now <= t + ttl
    ensures GetState(SetState(c, key, value, t, ttl), key, now)
            == Lookup(SetState(c, key, value, t, ttl), value)
  {
  }

  /** After its expiry time an entry reads as `null` and is gone; a missing key reads as `null` and changes nothing. */
  lemma GetExpired(c: CacheState, key: string, now: int)
    ensures key !in c.entries ==> GetState(c, key, now) == Lookup(c, Null)
    ensures key in c.entries && now > c.entries[key].expires ==>
              GetState(c, key, now).value == Null && key !in GetState(c, key, now).state.entries
              && GetState(c, key, now).state.entries == c.entries - {key}
  {
  }

  /**
   * `set` changes only the entry under `key` and, when the cache held more
   * than 100 entries, drops the oldest key: every other entry is kept.
   */
  lemma SetKeepsOthers(c: CacheState, key: string, value: JsValue, now: int, ttl: int, other: string)
    requires WellFormed(c)
    requires other != key && other in c.entries
    ensures |c.order| <= EVICT_ABOVE || other != c.order[0] ==>
              other in SetState(c, key, value, now, ttl).entries
              && SetState(c, key, value, now, ttl).entries[other] == c.entries[other]
    ensures |c.order| > EVICT_ABOVE && other == c.order[0] ==> other !in SetState(c, key, value, now, ttl).entries
  {
  }

  /**
   * A full cache evicts its oldest key even when the key being set is already
   * there: overwriting an entry of a 101-entry cache shrinks it to 100.
   */
  lemma EvictsEvenWhenPresent(c: CacheState, key: string, value: JsValue, now: int, ttl: int)
    requires WellFormed(c) && |c.entries| == EVICT_ABOVE + 1
    requires key in c.entries && key != c.order[0]
    ensures c.order[0] !in SetState(c, key, value, now, ttl).entries
    ensures |SetState(c, key, value, now, ttl).entries| == EVICT_ABOVE
  {
    SizeBound(c);
    SetKeepsWellFormed(c, key, value, now, ttl);
    var r := SetState(c, key, value, now, ttl);
    SizeBound(r);
    assert |DeleteState(c, c.order[0]).order| == EVICT_ABOVE;
  }

  /** The module-level `cache` Map and `cacheHelpers`. */
  class TtlCache {
    var order: seq<string>
    var entries: map<string, CacheEntry>

    function State(): CacheState
      reads this
    {
      CacheState(order, entries)
    }

    ghost predicate Valid()
      reads this
    {
      WellFormed(State())
    }

    constructor()
      ensures Valid()
      ensures order == [] && entries == map[]
    {
      order := [];
      entries := map[];
    }

    /** `cache.delete(key)`. */
    method Delete(key: string)
      requires Valid()
      modifies this
      ensures Valid()
      ensures State() == DeleteState(old(State()), key)
    {
      DeleteKeepsWellFormed(State(), key);
      order := Remove(order, key);
      entries := entries - {key};
    }

    /** `cacheHelpers.set(key, value, ttl)` at `now`. */
    method Set(key: string, value: JsValue, now: int, ttl: int)
      requires Valid()
      modifies this
      ensures Valid()
      ensures State() == SetState(old(State()), key, value, now, ttl)
    {
      SetKeepsWellFormed(State(), key, value, now, ttl);
      if |order| > EVICT_ABOVE {
        var first := order[0];
        order := Remove(order, first);
        entries := entries - {first};
      }
      if key !in entries {
        order := order + [key];
      }
      entries := entries[key := CacheEntry(value, now + ttl)];
    }

    /** `cacheHelpers.get(key)` at `now`. */
    method Get(key: string, now: int) returns (value: JsValue)
      requires Valid()
      modifies this
      ensures Valid()
      ensures Lookup(State(), value) == GetState(old(State()), key, now)
    {
      GetKeepsWellFormed(State(), key, now);
      if key !in entries {
        return Null;
      }
      var item := entries[key];
      if now > item.expires {
        order := Remove(order, key);
        entries := entries - {key};
        return Null;
      }
      return item.data;
    }

    /** `cacheHelpers.clear()`. */
    method Clear()
      modifies this
      ensures Valid()
      ensures order == [] && entries == map[]
    {
      order := [];
      entries := map[];
    }
  }
}
