/**
 * The in-memory cache provider: a dictionary from full keys (prefix, colon,
 * caller's key) to items carrying a serialized value, the time they were
 * stored and an optional expiry time. Items past their expiry are dropped when
 * read; a full cache evicts its oldest item before taking a new key.
 *
 * The clock is the parameter `now`. The transitions are first stated as
 * functions on the dictionary (`GetStep`, `SetStep`, ...) and the class's
 * methods are proved to perform exactly those transitions.
 */
module MemoryCache {
  import opened Wrappers
  import Text
  import OrderedDict
  import CacheKey

  /** `MemoryCacheConfiguration`. */
  datatype Config = Config(defaultTtl: int, keyPrefix: string, maxSize: int, cleanupInterval: int)

  const DefaultConfig := Config(3600, "bloom_cache", 1000, 300)

  /** `CacheItem`: the value is kept serialized. */
  datatype CacheItem = CacheItem(key: string, value: string, ttl: int, createdAt: real, expiresAt: Option<real>)

  /** Why an operation reported `success=False`. */
  datatype Failure = InvalidKey(reason: CacheKey.CacheKeyError) | SerializationFailed

  /** `CacheResponse`. */
  datatype CacheResponse = CacheResponse(
    success: bool, value: Option<string>, error: Option<Failure>, fromCache: bool, ttlRemaining: Option<int>)

  function Succeeded(): CacheResponse { CacheResponse(true, None, None, false, None) }
  function Failed(f: Failure): CacheResponse { CacheResponse(false, None, Some(f), false, None) }
  function Missing(): CacheResponse { CacheResponse(true, None, None, false, None) }

  type Store = seq<(string, CacheItem)>

  /** Keys are distinct and every item records the key it is stored under. */
  predicate WellFormed(s: Store)
  {
    OrderedDict.DistinctKeys(s) && forall x :: x in s ==> x.1.key == x.0
  }

  /** `_is_expired`: only an item with an expiry time can expire, strictly after it. */
  predicate IsExpired(item: CacheItem, now: real)
  {
    item.expiresAt.Some? && now > item.expiresAt.value
  }

  /** Python's truth value of an optional float. */
  predicate Truthy(x: Option<real>) { x.Some? && x.value != 0.0 }

  /** Python's `int()` on a float: truncation toward zero. */
  function Trunc(x: real): (n: int)
    ensures x >= 0.0 ==> n as real <= x < n as real + 1.0
    ensures x < 0.0 ==> n as real - 1.0 < x <= n as real
  {
    if x >= 0.0 then x.Floor else -((-x).Floor)
  }

  /** `max(0, int(expires_at - now))`. */
  function Remaining(expiresAt: real, now: real): (n: int)
    ensures n >= 0
    ensures now <= expiresAt ==> n as real <= expiresAt - now < n as real + 1.0
  {
    var t := Trunc(expiresAt - now);
    if t < 0 then 0 else t
  }

  /** The position of the entry `sorted(..., key=created_at)` puts first: the earliest stored, ties to the earliest inserted. */
  function OldestIndex(s: Store): (i: nat)
    requires s != []
    ensures i < |s|
    ensures forall j :: 0 <= j < |s| ==> s[i].1.createdAt <= s[j].1.createdAt
    ensures forall j :: 0 <= j < i ==> s[j].1.createdAt > s[i].1.createdAt
  {
    if |s| == 1 then 0
    else
      var k := OldestIndex(s[1..]) + 1;
      if s[0].1.createdAt <= s[k].1.createdAt then 0 else k
  }

  /** Deleting the oldest entry; nothing to delete in an empty store. */
  function RemoveOldest(s: Store): Store
  {
    if s == [] then [] else OrderedDict.Remove(s, s[OldestIndex(s)].0)
  }

  /** The `count` oldest entries deleted one after another. */
  function Evict(s: Store, count: nat): Store
  {
    if count == 0 then s else RemoveOldest(Evict(s, count - 1))
  }

  /** `_evict_items(count)` deletes `min(count, len)` entries, none for a negative count. */
  function EvictCount(s: Store, count: int): nat
  {
    if count < 0 then 0 else if count < |s| then count else |s|
  }

  /** `get`: the response and the store afterwards (an expired item is deleted). */
  function GetStep(s: Store, prefix: string, key: string, now: real): (CacheResponse, Store)
  {
    match CacheKey.ValidateKey(key)
    case Err(e) => (Failed(InvalidKey(e)), s)
    case Ok(_) =>
      var full := CacheKey.BuildKey(prefix, key);
      var found: Option<CacheItem> := OrderedDict.Find(s, full);
      match found
      case None => (Missing(), s)
      case Some(item) =>
        if IsExpired(item, now) then (Missing(), OrderedDict.Remove(s, full))
        else
          var remaining := if Truthy(item.expiresAt) then Some(Remaining(item.expiresAt.value, now)) else None;
          (CacheResponse(true, Some(item.value), None, true, remaining), s)
  }

  /** The expiry time `set` gives an item: only a positive ttl expires. */
  function ExpiryOf(ttl: int, now: real): Option<real>
  {
    if ttl > 0 then Some(now + ttl as real) else None
  }

  /**
   * `set`: `serialized` is what serializing the value gave, None when it
   * raised. A new key in a full store first evicts the oldest entry.
   */
  function SetStep(s: Store, config: Config, key: string, serialized: Option<string>, ttl: Option<int>, now: real): (CacheResponse, Store)
  {
    match CacheKey.ValidateKey(key)
    case Err(e) => (Failed(InvalidKey(e)), s)
    case Ok(_) =>
      var full := CacheKey.BuildKey(config.keyPrefix, key);
      var t := if ttl.None? then config.defaultTtl else ttl.value;
      match serialized
      case None => (Failed(SerializationFailed), s)
      case Some(text) =>
        var room := if |s| >= config.maxSize && OrderedDict.Find(s, full).None? then Evict(s, EvictCount(s, 1)) else s;
        (Succeeded(), OrderedDict.Put(room, full, CacheItem(full, text, t, now, ExpiryOf(t, now))))
  }

  /** `delete`. */
  function DeleteStep(s: Store, prefix: string, key: string): (CacheResponse, Store)
  {
    match CacheKey.ValidateKey(key)
    case Err(e) => (Failed(InvalidKey(e)), s)
    case Ok(_) => (Succeeded(), OrderedDict.Remove(s, CacheKey.BuildKey(prefix, key)))
  }

  /** `exists`: an invalid key is reported absent; an expired item is deleted. */
  function ExistsStep(s: Store, prefix: string, key: string, now: real): (bool, Store)
  {
    match CacheKey.ValidateKey(key)
    case Err(_) => (false, s)
    case Ok(_) =>
      var full := CacheKey.BuildKey(prefix, key);
      var found: Option<CacheItem> := OrderedDict.Find(s, full);
      match found
      case None => (false, s)
      case Some(item) =>
        if IsExpired(item, now) then (false, OrderedDict.Remove(s, full)) else (true, s)
  }

  /** `ttl`: None for an invalid, absent or expired key, -1 for no expiry, else the whole seconds left. */
  function TtlOf(s: Store, prefix: string, key: string, now: real): Option<int>
  {
    match CacheKey.ValidateKey(key)
    case Err(_) => None
    case Ok(_) =>
      var found: Option<CacheItem> := OrderedDict.Find(s, CacheKey.BuildKey(prefix, key));
      match found
      case None => None
      case Some(item) =>
        if IsExpired(item, now) then None
        else if item.expiresAt.None? then Some(-1)
        else Some(Remaining(item.expiresAt.value, now))
  }

  /** `fnmatch` for `*` (any run of characters) and `?` (any one character). */
  predicate Glob(name: string, pattern: string)
    decreases |name| + |pattern|
  {
    if pattern == [] then name == []
    else if pattern[0] == '*' then Glob(name, pattern[1..]) || (name != [] && Glob(name[1..], pattern))
    else if pattern[0] == '?' then name != [] && Glob(name[1..], pattern[1..])
    else name != [] && name[0] == pattern[0] && Glob(name[1..], pattern[1..])
  }

  /** Whether `clear(pattern)` deletes the entry stored under `key`. */
  predicate Cleared(prefix: string, pattern: Option<string>, key: string)
  {
    match pattern
    case None => Text.StartsWith(key, prefix + ":")
    case Some(p) => Glob(key, CacheKey.BuildKey(prefix, p))
  }

  /** The entries `clear(pattern)` keeps, in order. */
  function Kept(s: Store, prefix: string, pattern: Option<string>): (r: Store)
    ensures forall x :: x in r <==> x in s && !Cleared(prefix, pattern, x.0)
  {
    if s == [] then []
    else if Cleared(prefix, pattern, s[0].0) then Kept(s[1..], prefix, pattern)
    else [s[0]] + Kept(s[1..], prefix, pattern)
  }

  /** `_remove_expired_keys`: the background sweep drops items whose expiry time is set, non-zero and not after `now`. */
  function Unexpired(s: Store, now: real): (r: Store)
    ensures forall x :: x in r <==> x in s && !(Truthy(x.1.expiresAt) && x.1.expiresAt.value <= now)
  {
    if s == [] then []
    else if Truthy(s[0].1.expiresAt) && s[0].1.expiresAt.value <= now then Unexpired(s[1..], now)
    else [s[0]] + Unexpired(s[1..], now)
  }

  /** `MemoryCacheProvider`: `entries` is the `_cache` dictionary in insertion order. */
  class MemoryCacheProvider {
    const config: Config
    var entries: Store

    predicate Valid()
      reads this
    {
      WellFormed(entries)
    }

    constructor (config: Config)
      ensures this.config == config && entries == [] && Valid()
    {
      this.config := config;
      entries := [];
    }

    /** `get`. */
    method Get(key: string, now: real) returns (r: CacheResponse)
      requires Valid()
      modifies this
      ensures (r, entries) == GetStep(old(entries), config.keyPrefix, key, now)
      ensures Valid()
    {
      GetWellFormed(entries, config.keyPrefix, key, now);
      var check := CacheKey.ValidateKey(key);
      if check.Err? {
        return Failed(InvalidKey(check.error));
      }
      var full := CacheKey.BuildKey(config.keyPrefix, key);
      var found: Option<CacheItem> := OrderedDict.Find(entries, full);
      if found.None? {
        return Missing();
      }
      var item := found.value;
      if IsExpired(item, now) {
        entries := OrderedDict.Remove(entries, full);
        return Missing();
      }
      var remaining: Option<int> := None;
      if Truthy(item.expiresAt) {
        remaining := Some(Remaining(item.expiresAt.value, now));
      }
      return CacheResponse(true, Some(item.value), None, true, remaining);
    }

    /** `set`. */
    method Set(key: string, serialized: Option<string>, ttl: Option<int>, now: real) returns (r: CacheResponse)
      requires Valid()
      modifies this
      ensures (r, entries) == SetStep(old(entries), config, key, serialized, ttl, now)
      ensures Valid()
    {
      SetWellFormed(entries, config, key, serialized, ttl, now);
      var check := CacheKey.ValidateKey(key);
      if check.Err? {
        return Failed(InvalidKey(check.error));
      }
      var full := CacheKey.BuildKey(config.keyPrefix, key);
      var t := if ttl.None? then config.defaultTtl else ttl.value;
      var expiresAt := if t > 0 then Some(now + t as real) else None;
      if serialized.None? {
        return Failed(SerializationFailed);
      }
      if |entries| >= config.maxSize && OrderedDict.Find(entries, full).None? {
        EvictItems(1);
      }
      entries := OrderedDict.Put(entries, full, CacheItem(full, serialized.value, t, now, expiresAt));
      return Succeeded();
    }

    /** `_evict_items(count)`. */
    method EvictItems(count: int)
      requires Valid()
      modifies this
      ensures entries == Evict(old(entries), EvictCount(old(entries), count))
      ensures Valid()
    {
      if entries == [] {
        return;
      }
      var n := EvictCount(entries, count);
      var i := 0;
      while i < n
        invariant i <= n
        invariant entries == Evict(old(entries), i)
        invariant Valid()
      {
        if entries != [] {
          var oldest := entries[OldestIndex(entries)].0;
          RemoveWellFormed(entries, oldest);
          entries := OrderedDict.Remove(entries, oldest);
        }
        i := i + 1;
      }
    }

    /** `delete`. */
    method Delete(key: string) returns (r: CacheResponse)
      requires Valid()
      modifies this
      ensures (r, entries) == DeleteStep(old(entries), config.keyPrefix, key)
      ensures Valid()
    {
      DeleteWellFormed(entries, config.keyPrefix, key);
      var check := CacheKey.ValidateKey(key);
      if check.Err? {
        return Failed(InvalidKey(check.error));
      }
      var full := CacheKey.BuildKey(config.keyPrefix, key);
      if OrderedDict.Find(entries, full).Some? {
        entries := OrderedDict.Remove(entries, full);
      } else {
        RemoveAbsent(entries, full);
      }
      return Succeeded();
    }

    /** `exists`. */
    method Exists(key: string, now: real) returns (b: bool)
      requires Valid()
      modifies this
      ensures (b, entries) == ExistsStep(old(entries), config.keyPrefix, key, now)
      ensures Valid()
    {
      ExistsWellFormed(entries, config.keyPrefix, key, now);
      var check := CacheKey.ValidateKey(key);
      if check.Err? {
        return false;
      }
      var full := CacheKey.BuildKey(config.keyPrefix, key);
      var found: Option<CacheItem> := OrderedDict.Find(entries, full);
      if found.None? {
        return false;
      }
      if IsExpired(found.value, now) {
        entries := OrderedDict.Remove(entries, full);
        return false;
      }
      return true;
    }

    /** `ttl`: reads only; an expired item is reported missing but left in place. */
    method Ttl(key: string, now: real) returns (t: Option<int>)
      ensures t == TtlOf(entries, config.keyPrefix, key, now)
    {
      var check := CacheKey.ValidateKey(key);
      if check.Err? {
        return None;
      }
      var found: Option<CacheItem> := OrderedDict.Find(entries, CacheKey.BuildKey(config.keyPrefix, key));
      if found.None? || IsExpired(found.value, now) {
        return None;
      }
      if found.value.expiresAt.None? {
        return Some(-1);
      }
      return Some(Remaining(found.value.expiresAt.value, now));
    }

    /** `clear(pattern)`: the matching keys are collected, then deleted. */
    method Clear(pattern: Option<string>) returns (r: CacheResponse)
      requires Valid()
      modifies this
      ensures r == Succeeded()
      ensures entries == Kept(old(entries), config.keyPrefix, pattern)
      ensures Valid()
    {
      var s := entries;
      var prefix := config.keyPrefix;
      var kept: Store := [];
      var i := 0;
      while i < |s|
        invariant i <= |s|
        invariant kept == Kept(s[..i], prefix, pattern)
      {
        KeptAppend(s[..i], s[i], prefix, pattern);
        assert s[..i + 1] == s[..i] + [s[i]];
        if !Cleared(prefix, pattern, s[i].0) {
          kept := kept + [s[i]];
        }
        i := i + 1;
      }
      assert s[..i] == s;
      KeptWellFormed(s, prefix, pattern);
      entries := kept;
      return Succeeded();
    }

    /** `_remove_expired_keys`, one sweep of the background task. */
    method RemoveExpiredKeys(now: real)
      requires Valid()
      modifies this
      ensures entries == Unexpired(old(entries), now)
      ensures Valid()
    {
      var s := entries;
      var kept: Store := [];
      var i := 0;
      while i < |s|
        invariant i <= |s|
        invariant kept == Unexpired(s[..i], now)
      {
        UnexpiredAppend(s[..i], s[i], now);
        assert s[..i + 1] == s[..i] + [s[i]];
        var item := s[i].1;
        if !(Truthy(item.expiresAt) && item.expiresAt.value <= now) {
          kept := kept + [s[i]];
        }
        i := i + 1;
      }
      assert s[..i] == s;
      UnexpiredWellFormed(s, now);
      entries := kept;
    }

    /** `close`: the dictionary is emptied. */
    method Close()
      modifies this
      ensures entries == [] && Valid()
    {
      entries := [];
    }
  }

  /** Deleting an absent key is no change. */
  lemma RemoveAbsent(s: Store, k: string)
    requires OrderedDict.Find(s, k).None?
    ensures OrderedDict.Remove(s, k) == s
  {
    if s != [] {
      RemoveAbsent(s[1..], k);
    }
  }

  lemma {:induction false} KeptAppend(s: Store, x: (string, CacheItem), prefix: string, pattern: Option<string>)
    ensures Kept(s + [x], prefix, pattern) == Kept(s, prefix, pattern) + (if Cleared(prefix, pattern, x.0) then [] else [x])
  {
    var tail: Store := if Cleared(prefix, pattern, x.0) then [] else [x];
    if s == [] {
      assert s + [x] == [x] && [x][1..] == [];
    } else {
      assert (s + [x])[0] == s[0] && (s + [x])[1..] == s[1..] + [x];
      KeptAppend(s[1..], x, prefix, pattern);
      var rest := Kept(s[1..], prefix, pattern);
      if !Cleared(prefix, pattern, s[0].0) {
        assert [s[0]] + (rest + tail) == [s[0]] + rest + tail;
      }
    }
  }

  lemma UnexpiredAppend(s: Store, x: (string, CacheItem), now: real)
    ensures Unexpired(s + [x], now) == Unexpired(s, now) + (if Truthy(x.1.expiresAt) && x.1.expiresAt.value <= now then [] else [x])
  {
    if s != [] {
      assert (s + [x])[1..] == s[1..] + [x];
      UnexpiredAppend(s[1..], x, now);
    }
  }

  /** Deleting keeps a store well formed. */
  /** A `get` keeps the store well formed. */
  lemma GetWellFormed(s: Store, prefix: string, key: string, now: real)
    requires WellFormed(s)
    ensures WellFormed(GetStep(s, prefix, key, now).1)
  {
    RemoveWellFormed(s, CacheKey.BuildKey(prefix, key));
  }

  /** A `delete` keeps the store well formed. */
  lemma DeleteWellFormed(s: Store, prefix: string, key: string)
    requires WellFormed(s)
    ensures WellFormed(DeleteStep(s, prefix, key).1)
  {
    RemoveWellFormed(s, CacheKey.BuildKey(prefix, key));
  }

  /** An `exists` keeps the store well formed. */
  lemma ExistsWellFormed(s: Store, prefix: string, key: string, now: real)
    requires WellFormed(s)
    ensures WellFormed(ExistsStep(s, prefix, key, now).1)
  {
    RemoveWellFormed(s, CacheKey.BuildKey(prefix, key));
  }

  /** Dropping the first entry keeps a store well formed. */
  lemma TailWellFormed(s: Store)
    requires WellFormed(s) && s != []
    ensures WellFormed(s[1..])
  {
    forall x | x in s[1..] ensures x.1.key == x.0 {
      assert x in s;
    }
  }

  /** Putting an entry of a well-formed store in front of entries taken from the rest keeps the keys distinct. */
  lemma ConsWellFormed(x: (string, CacheItem), r: Store, s: Store)
    requires WellFormed([x] + s) && WellFormed(r)
    requires forall y :: y in r ==> y in s
    ensures WellFormed([x] + r)
  {
    var t := [x] + r;
    forall i, j | 0 <= i < j < |t| ensures t[i].0 != t[j].0 {
      assert t[j] == r[j - 1];
      if i == 0 {
        assert r[j - 1] in s;
        var k :| 0 <= k < |s| && s[k] == r[j - 1];
        assert ([x] + s)[0] == x && ([x] + s)[k + 1] == r[j - 1];
        assert OrderedDict.DistinctKeys([x] + s);
      } else {
        assert t[i] == r[i - 1];
        assert OrderedDict.DistinctKeys(r);
      }
    }
    forall y | y in t ensures y.1.key == y.0 {
      assert y in [x] + s;
    }
  }

  /** `clear` keeps the store well formed. */
  lemma {:induction false} KeptWellFormed(s: Store, prefix: string, pattern: Option<string>)
    requires WellFormed(s)
    ensures WellFormed(Kept(s, prefix, pattern))
  {
    if s != [] {
      TailWellFormed(s);
      KeptWellFormed(s[1..], prefix, pattern);
      if !Cleared(prefix, pattern, s[0].0) {
        assert s == [s[0]] + s[1..];
        ConsWellFormed(s[0], Kept(s[1..], prefix, pattern), s[1..]);
      }
    }
  }

  /** The expiry sweep keeps the store well formed. */
  lemma {:induction false} UnexpiredWellFormed(s: Store, now: real)
    requires WellFormed(s)
    ensures WellFormed(Unexpired(s, now))
  {
    if s != [] {
      TailWellFormed(s);
      UnexpiredWellFormed(s[1..], now);
      if !(Truthy(s[0].1.expiresAt) && s[0].1.expiresAt.value <= now) {
        assert s == [s[0]] + s[1..];
        ConsWellFormed(s[0], Unexpired(s[1..], now), s[1..]);
      }
    }
  }

  lemma RemoveWellFormed(s: Store, k: string)
    requires WellFormed(s)
    ensures WellFormed(OrderedDict.Remove(s, k))
  {
    OrderedDict.RemoveDistinct(s, k);
  }

  /** Eviction keeps a store well formed. */
  lemma {:induction false} EvictWellFormed(s: Store, n: nat)
    requires WellFormed(s)
    ensures WellFormed(Evict(s, n))
  {
    if n > 0 {
      EvictWellFormed(s, n - 1);
      RemoveOldestWellFormed(Evict(s, n - 1));
    }
  }

  /** Deleting the oldest entry keeps a store well formed. */
  lemma RemoveOldestWellFormed(s: Store)
    requires WellFormed(s)
    ensures WellFormed(RemoveOldest(s))
  {
    if s != [] {
      RemoveWellFormed(s, s[OldestIndex(s)].0);
    }
  }

  /** Evicting one entry deletes the oldest one and leaves every other key as it was. */
  lemma EvictOne(s: Store, k: string)
    requires s != []
    ensures Evict(s, 1) == OrderedDict.Remove(s, s[OldestIndex(s)].0)
    ensures OrderedDict.Find(Evict(s, 1), k) == if k == s[OldestIndex(s)].0 then None else OrderedDict.Find(s, k)
  {
    OrderedDict.FindRemove(s, s[OldestIndex(s)].0, k);
  }

  /** `set` keeps the store well formed. */
  lemma SetWellFormed(s: Store, config: Config, key: string, serialized: Option<string>, ttl: Option<int>, now: real)
    requires WellFormed(s)
    ensures WellFormed(SetStep(s, config, key, serialized, ttl, now).1)
  {
    if CacheKey.ValidateKey(key).Ok? && serialized.Some? {
      var full := CacheKey.BuildKey(config.keyPrefix, key);
      var t := if ttl.None? then config.defaultTtl else ttl.value;
      var room := if |s| >= config.maxSize && OrderedDict.Find(s, full).None? then Evict(s, EvictCount(s, 1)) else s;
      var item := CacheItem(full, serialized.value, t, now, ExpiryOf(t, now));
      EvictWellFormed(s, EvictCount(s, 1));
      OrderedDict.PutDistinct(room, full, item);
      OrderedDict.PutEntries(room, full, item);
    }
  }

  /** With a maximum size of at least one, `set` never grows the store past it. */
  lemma SetBounded(s: Store, config: Config, key: string, serialized: Option<string>, ttl: Option<int>, now: real)
    requires WellFormed(s) && 1 <= config.maxSize && |s| <= config.maxSize
    ensures |SetStep(s, config, key, serialized, ttl, now).1| <= config.maxSize
  {
    if CacheKey.ValidateKey(key).Ok? && serialized.Some? {
      var full := CacheKey.BuildKey(config.keyPrefix, key);
      var t := if ttl.None? then config.defaultTtl else ttl.value;
      var item := CacheItem(full, serialized.value, t, now, ExpiryOf(t, now));
      if OrderedDict.Find(s, full).Some? {
        OrderedDict.PutEntries(s, full, item);
      } else if |s| >= config.maxSize {
        var i := OldestIndex(s);
        assert EvictCount(s, 1) == 1;
        EvictOne(s, full);
        OrderedDict.FindAt(s, i);
        OrderedDict.RemoveLength(s, s[i].0);
      }
    }
  }

  /** A `set` that succeeds stores the value under the full key, with the ttl it used. */
  lemma SetStores(s: Store, config: Config, key: string, text: string, ttl: Option<int>, now: real)
    requires CacheKey.ValidateKey(key).Ok?
    ensures var t := if ttl.None? then config.defaultTtl else ttl.value;
      var (r, s') := SetStep(s, config, key, Some(text), ttl, now);
      r.success &&
      OrderedDict.Find(s', CacheKey.BuildKey(config.keyPrefix, key))
        == Some(CacheItem(CacheKey.BuildKey(config.keyPrefix, key), text, t, now, ExpiryOf(t, now)))
  {
    var full := CacheKey.BuildKey(config.keyPrefix, key);
    var t := if ttl.None? then config.defaultTtl else ttl.value;
    var room := if |s| >= config.maxSize && OrderedDict.Find(s, full).None? then Evict(s, EvictCount(s, 1)) else s;
    OrderedDict.FindPut(room, full, CacheItem(full, text, t, now, ExpiryOf(t, now)), full);
  }

  /** `get` after a successful `set` returns the stored value, from the cache, until the item expires. */
  lemma GetAfterSet(s: Store, config: Config, key: string, text: string, ttl: Option<int>, now: real, later: real)
    requires CacheKey.ValidateKey(key).Ok?
    requires var t := if ttl.None? then config.defaultTtl else ttl.value; !(t > 0 && later > now + t as real)
    ensures var s' := SetStep(s, config, key, Some(text), ttl, now).1;
      var (r, s'') := GetStep(s', config.keyPrefix, key, later);
      r.success && r.fromCache && r.value == Some(text) && s'' == s'
  {
    SetStores(s, config, key, text, ttl, now);
  }

  /** A ttl of zero or less stores an item without expiry, and `ttl` then reports -1 at any time. */
  lemma NoExpiryTtl(s: Store, config: Config, key: string, text: string, ttl: Option<int>, now: real, later: real)
    requires CacheKey.ValidateKey(key).Ok?
    requires (if ttl.None? then config.defaultTtl else ttl.value) <= 0
    ensures TtlOf(SetStep(s, config, key, Some(text), ttl, now).1, config.keyPrefix, key, later) == Some(-1)
  {
    SetStores(s, config, key, text, ttl, now);
  }

  /** An expired item is reported missing by `get`, `exists` and `ttl`; `get` and `exists` delete it. */
  lemma ExpiredIsMissing(s: Store, prefix: string, key: string, now: real)
    requires CacheKey.ValidateKey(key).Ok?
    requires var found := OrderedDict.Find(s, CacheKey.BuildKey(prefix, key)); found.Some? && IsExpired(found.value, now)
    ensures var (r, s') := GetStep(s, prefix, key, now);
      r.success && r.value.None? && !r.fromCache && OrderedDict.Find(s', CacheKey.BuildKey(prefix, key)).None?
    ensures var (b, s') := ExistsStep(s, prefix, key, now);
      !b && OrderedDict.Find(s', CacheKey.BuildKey(prefix, key)).None?
    ensures TtlOf(s, prefix, key, now).None?
  {
    var full := CacheKey.BuildKey(prefix, key);
    OrderedDict.FindRemove(s, full, full);
  }

  /** `delete` succeeds for every valid key, removes it, and a second `delete` changes nothing. */
  lemma DeleteIdempotent(s: Store, prefix: string, key: string)
    requires CacheKey.ValidateKey(key).Ok?
    ensures var (r, s') := DeleteStep(s, prefix, key);
      r.success && OrderedDict.Find(s', CacheKey.BuildKey(prefix, key)).None? && DeleteStep(s', prefix, key) == (r, s')
  {
    var full := CacheKey.BuildKey(prefix, key);
    OrderedDict.FindRemove(s, full, full);
    RemoveAbsent(OrderedDict.Remove(s, full), full);
  }

  /** An invalid key fails every operation and leaves the store as it was. */
  lemma InvalidKeyChangesNothing(s: Store, config: Config, key: string, serialized: Option<string>, ttl: Option<int>, now: real)
    requires CacheKey.ValidateKey(key).Err?
    ensures var (r, s') := GetStep(s, config.keyPrefix, key, now); !r.success && s' == s
    ensures var (r, s') := SetStep(s, config, key, serialized, ttl, now); !r.success && s' == s
    ensures var (r, s') := DeleteStep(s, config.keyPrefix, key); !r.success && s' == s
    ensures ExistsStep(s, config.keyPrefix, key, now) == (false, s)
    ensures TtlOf(s, config.keyPrefix, key, now).None?
  {
  }

  /** `*` matches any text. */
  lemma {:induction false} GlobStar(name: string)
    ensures Glob(name, "*")
  {
    if name != [] {
      GlobStar(name[1..]);
    }
  }

  /** A literal followed by `*` matches exactly the texts that start with the literal. */
  lemma {:induction false} GlobLiteralStar(name: string, lit: string)
    requires forall i :: 0 <= i < |lit| ==> lit[i] != '*' && lit[i] != '?'
    ensures Glob(name, lit + "*") <==> Text.StartsWith(name, lit)
  {
    if lit == [] {
      GlobStar(name);
      assert lit + "*" == "*";
    } else {
      assert (lit + "*")[1..] == lit[1..] + "*";
      if name != [] {
        GlobLiteralStar(name[1..], lit[1..]);
        assert Text.StartsWith(name, lit) <==> name[0] == lit[0] && Text.StartsWith(name[1..], lit[1..]) by {
          if name[0] == lit[0] && Text.StartsWith(name[1..], lit[1..]) {
            assert name[..|lit|] == [name[0]] + name[1..][..|lit| - 1];
            assert lit == [lit[0]] + lit[1..];
          }
        }
      }
    }
  }

  /** With a prefix free of wildcards, `clear("*")` deletes exactly what `clear()` deletes. */
  lemma ClearStarIsClearAll(s: Store, prefix: string)
    requires forall i :: 0 <= i < |prefix| ==> prefix[i] != '*' && prefix[i] != '?'
    ensures Kept(s, prefix, Some("*")) == Kept(s, prefix, None)
  {
    forall k: string
      ensures Cleared(prefix, Some("*"), k) == Cleared(prefix, None, k)
    {
      var lit := prefix + ":";
      assert CacheKey.BuildKey(prefix, "*") == lit + "*";
      GlobLiteralStar(k, lit);
    }
    KeptSame(s, prefix, Some("*"), None);
  }

  lemma {:induction false} KeptSame(s: Store, prefix: string, p: Option<string>, q: Option<string>)
    requires forall k: string :: Cleared(prefix, p, k) == Cleared(prefix, q, k)
    ensures Kept(s, prefix, p) == Kept(s, prefix, q)
  {
    if s != [] {
      KeptSame(s[1..], prefix, p, q);
    }
  }
}
