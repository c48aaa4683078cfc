/** The TTL cache of utils/cache/memoryCache.js: a key/entry map kept in
    insertion order, with per-entry expiry, a capacity bound, eviction of the
    least recently accessed entry and hit/miss/set/delete counters.

    Time is the explicit parameter `now` (milliseconds since the epoch) instead
    of `Date.now()`, TTLs are in seconds, and the periodic sweep is the method
    `Cleanup`, called explicitly instead of from a timer.

    The pure functions on `State` state what each operation does; the class
    `MemoryCache` performs the operations in place and is proved to agree with
    them. */
module Cache {
  import opened Common

  /** One stored item: the value, its absolute expiry in milliseconds and the
      two timestamps the source records. */
  datatype Entry<V> = Entry(value: V, expiry: real, createdAt: int, lastAccessed: int)

  /** The `stats` object of a cache. */
  datatype Counters = Counters(hits: nat, misses: nat, sets: nat, deletes: nat)

  /** Constructor options as a caller passes them; `None` is an omitted option. */
  datatype CacheOptions = CacheOptions(ttl: Option<real>, checkInterval: Option<real>, maxSize: Option<int>)

  /** The options a cache runs with, after defaults are applied. */
  datatype Options = Options(ttl: real, checkInterval: real, maxSize: int)

  /** What `getStats()` reports. The source formats `hitRate` with `toFixed(2)`;
      here it is the exact ratio. */
  datatype CacheStats = CacheStats(hits: nat, misses: nat, sets: nat, deletes: nat, size: nat, hitRate: real)

  /** The observable state of one cache: the keys of the map in insertion order,
      the entries, and the counters. */
  datatype State<V> = State(order: seq<string>, entries: map<string, Entry<V>>, stats: Counters)

  const ZeroCounters := Counters(0, 0, 0, 0)

  ghost predicate Distinct(s: seq<string>)
  {
    forall i, j :: 0 <= i < j < |s| ==> s[i] != s[j]
  }

  /** `order` lists every key of `entries` exactly once. */
  ghost predicate WellFormed<V>(st: State<V>)
  {
    Distinct(st.order) && forall k :: k in st.entries <==> k in st.order
  }

  /** `options.x || default`: an omitted or zero option takes the default. */
  function Resolve(o: CacheOptions): (r: Options)
    ensures o.ttl.Some? && o.ttl.value != 0.0 ==> r.ttl == o.ttl.value
    ensures o.ttl.None? || o.ttl.value == 0.0 ==> r.ttl == 3600.0
    ensures o.checkInterval.Some? && o.checkInterval.value != 0.0 ==> r.checkInterval == o.checkInterval.value
    ensures o.checkInterval.None? || o.checkInterval.value == 0.0 ==> r.checkInterval == 300.0
    ensures o.maxSize.Some? && o.maxSize.value != 0 ==> r.maxSize == o.maxSize.value
    ensures o.maxSize.None? || o.maxSize.value == 0 ==> r.maxSize == 1000
  {
    Options(
      if o.ttl.Some? && o.ttl.value != 0.0 then o.ttl.value else 3600.0,
      if o.checkInterval.Some? && o.checkInterval.value != 0.0 then o.checkInterval.value else 300.0,
      if o.maxSize.Some? && o.maxSize.value != 0 then o.maxSize.value else 1000)
  }

  /** The most entries a cache can hold when no entry has the empty key:
      `maxSize`, but at least one, since `set` always stores its key. */
  function Capacity(opts: Options): (c: int)
    ensures c >= 1 && c >= opts.maxSize
    ensures c == 1 || c == opts.maxSize
  {
    if opts.maxSize < 1 then 1 else opts.maxSize
  }

  /** `item.expiry && item.expiry < now`: an expiry of 0 never expires, and an
      entry is still live at the very millisecond of its expiry. */
  predicate Expired<V>(e: Entry<V>, now: int)
  {
    e.expiry != 0.0 && e.expiry < now as real
  }

  /** The absolute expiry `set` computes: `now + ttl * 1000`, with the cache's
      default TTL when `ttl` is omitted. */
  function ExpiryOf(opts: Options, ttl: Option<real>, now: int): real
  {
    now as real + (if ttl.Some? then ttl.value else opts.ttl) * 1000.0
  }

  /** The insertion order after `Map.delete(k)`. */
  function RemoveKey(s: seq<string>, k: string): (r: seq<string>)
    ensures forall x :: x in r <==> x in s && x != k
    ensures |r| <= |s|
    ensures k !in s ==> r == s
    ensures Distinct(s) ==> Distinct(r)
    ensures Distinct(s) && k in s ==> |r| == |s| - 1
    decreases |s|
  {
    if s == [] then []
    else
      var rest := RemoveKey(s[1..], k);
      assert Distinct(s) ==> s[0] !in s[1..];
      if s[0] == k then rest else [s[0]] + rest
  }

  /** Removing a key that occurs once, at position `i`, cuts out exactly that
      position: the other keys keep their relative order. */
  lemma {:induction false} RemoveKeyCutsOut(s: seq<string>, k: string, i: nat)
    requires Distinct(s) && i < |s| && s[i] == k
    ensures RemoveKey(s, k) == s[..i] + s[i + 1..]
    decreases |s|
  {
    assert s[0] != k ==> i > 0;
    if i == 0 {
      assert k !in s[1..];
    } else {
      RemoveKeyCutsOut(s[1..], k, i - 1);
      assert s[1..][..i - 1] == s[1..i];
      assert s[1..][i..] == s[i + 1..];
      assert s[..i] == [s[0]] + s[1..i];
    }
  }

  /** `delete(key)`: returns whether the key was present; only a removal counts
      in `deletes`. */
  function DeleteSpec<V>(st: State<V>, k: string): (res: (State<V>, bool))
    requires WellFormed(st)
    ensures WellFormed(res.0)
    ensures res.1 <==> k in st.entries
    ensures res.0.entries == st.entries - {k}
    ensures res.1 ==> |res.0.order| == |st.order| - 1
                      && res.0.order == RemoveKey(st.order, k)
                      && res.0.stats == st.stats.(deletes := st.stats.deletes + 1)
    ensures !res.1 ==> res.0 == st
  {
    if k in st.entries then
      (State(RemoveKey(st.order, k), st.entries - {k}, st.stats.(deletes := st.stats.deletes + 1)), true)
    else (st, false)
  }

  /** `get(key)`: a live entry is a hit and is returned without touching its
      `lastAccessed`; a missing entry is a miss; an expired entry is deleted
      (counted in `deletes`) and is a miss. */
  function GetSpec<V>(st: State<V>, k: string, now: int): (res: (State<V>, Option<V>))
    requires WellFormed(st)
    ensures WellFormed(res.0)
    ensures res.1.Some? <==> k in st.entries && !Expired(st.entries[k], now)
    ensures res.1.Some? ==> res.1.value == st.entries[k].value
                            && res.0 == st.(stats := st.stats.(hits := st.stats.hits + 1))
    ensures k !in st.entries ==> res.0 == st.(stats := st.stats.(misses := st.stats.misses + 1))
    ensures k in st.entries && Expired(st.entries[k], now) ==>
              res.0.entries == st.entries - {k} && res.0.order == RemoveKey(st.order, k)
              && |res.0.order| == |st.order| - 1
              && res.0.stats == st.stats.(misses := st.stats.misses + 1, deletes := st.stats.deletes + 1)
  {
    if k !in st.entries then
      (st.(stats := st.stats.(misses := st.stats.misses + 1)), None)
    else if Expired(st.entries[k], now) then
      var st1 := DeleteSpec(st, k).0;
      (st1.(stats := st1.stats.(misses := st1.stats.misses + 1)), None)
    else
      (st.(stats := st.stats.(hits := st.stats.hits + 1)), Some(st.entries[k].value))
  }

  /** `has(key)`: like `get` without touching hits or misses; a positive answer
      stamps the entry's `lastAccessed` with `now`. */
  function HasSpec<V>(st: State<V>, k: string, now: int): (res: (State<V>, bool))
    requires WellFormed(st)
    ensures WellFormed(res.0)
    ensures res.1 <==> k in st.entries && !Expired(st.entries[k], now)
    ensures res.1 ==> res.0 == st.(entries := st.entries[k := st.entries[k].(lastAccessed := now)])
    ensures k !in st.entries ==> res.0 == st
    ensures k in st.entries && Expired(st.entries[k], now) ==>
              res.0.entries == st.entries - {k} && res.0.order == RemoveKey(st.order, k)
              && res.0.stats == st.stats.(deletes := st.stats.deletes + 1)
  {
    if k !in st.entries then (st, false)
    else if Expired(st.entries[k], now) then (DeleteSpec(st, k).0, false)
    else
      assert k in st.order;
      (st.(entries := st.entries[k := st.entries[k].(lastAccessed := now)]), true)
  }

  /** The position, among the first `n` keys in insertion order, that the scan
      of `evictOldest` settles on: the first entry with the smallest
      `lastAccessed` (the scan replaces its candidate only on a strict `<`). */
  function OldestIndex<V>(order: seq<string>, entries: map<string, Entry<V>>, n: nat): (j: nat)
    requires 0 < n <= |order|
    requires forall k :: k in order ==> k in entries
    ensures j < n
    ensures forall i :: 0 <= i < n ==> entries[order[j]].lastAccessed <= entries[order[i]].lastAccessed
    ensures forall i :: 0 <= i < j ==> entries[order[i]].lastAccessed > entries[order[j]].lastAccessed
  {
    if n == 1 then 0
    else
      var j := OldestIndex(order, entries, n - 1);
      if entries[order[n - 1]].lastAccessed < entries[order[j]].lastAccessed then n - 1 else j
  }

  /** The key `evictOldest` picks, if the cache is not empty. */
  function OldestKey<V>(st: State<V>): (k: string)
    requires WellFormed(st) && st.order != []
    ensures k in st.entries
    ensures forall k' :: k' in st.entries ==> st.entries[k].lastAccessed <= st.entries[k'].lastAccessed
  {
    var k := st.order[OldestIndex(st.order, st.entries, |st.order|)];
    assert forall k' :: k' in st.entries ==> exists i :: 0 <= i < |st.order| && st.order[i] == k';
    k
  }

  /** `evictOldest()`: deletes the first entry with the smallest `lastAccessed`,
      unless the cache is empty or that entry's key is the empty string (the
      source tests the key's truthiness, `if (oldestKey)`). */
  function EvictSpec<V>(st: State<V>): (r: State<V>)
    requires WellFormed(st)
    ensures WellFormed(r)
    ensures forall k :: k in r.entries ==> k in st.entries && r.entries[k] == st.entries[k]
    ensures st.order == [] || OldestKey(st) == "" ==> r == st
    ensures st.order != [] && OldestKey(st) != "" ==>
              r.entries == st.entries - {OldestKey(st)}
              && |r.order| == |st.order| - 1
              && r.order == RemoveKey(st.order, OldestKey(st))
              && r.stats == st.stats.(deletes := st.stats.deletes + 1)
  {
    if st.order == [] then st
    else
      var k := OldestKey(st);
      if k != "" then DeleteSpec(st, k).0 else st
  }

  /** `set(key, value, ttl)`: evicts first when the cache holds `maxSize` or more
      entries and `key` is new, then stores the entry with
      `createdAt == lastAccessed == now`. A new key goes last in insertion
      order; an existing key keeps its place. */
  function SetSpec<V>(st: State<V>, opts: Options, k: string, v: V, ttl: Option<real>, now: int): (r: State<V>)
    requires WellFormed(st)
    ensures WellFormed(r)
    ensures k in r.entries && r.entries[k] == Entry(v, ExpiryOf(opts, ttl, now), now, now)
    ensures forall k' :: k' in r.entries && k' != k ==> k' in st.entries && r.entries[k'] == st.entries[k']
    ensures r.stats.sets == st.stats.sets + 1
    ensures r.stats.hits == st.stats.hits && r.stats.misses == st.stats.misses
    // Overwriting never evicts and keeps the key's place.
    ensures k in st.entries ==>
              r.order == st.order && r.stats.deletes == st.stats.deletes
              && forall k' :: k' in st.entries ==> k' in r.entries
    // Inserting below capacity never evicts.
    ensures k !in st.entries && |st.order| < opts.maxSize ==>
              r.order == st.order + [k] && r.stats.deletes == st.stats.deletes
    // Inserting at capacity evicts exactly the oldest entry first.
    ensures k !in st.entries && |st.order| >= opts.maxSize && st.order != [] && OldestKey(st) != "" ==>
              OldestKey(st) !in r.entries && |r.order| == |st.order|
              && r.order == RemoveKey(st.order, OldestKey(st)) + [k]
              && r.stats.deletes == st.stats.deletes + 1
              && forall k' :: k' in st.entries && k' != OldestKey(st) ==> k' in r.entries
    // The size bound is kept while no entry has the empty key.
    ensures |st.order| <= Capacity(opts) && "" !in st.entries ==> |r.order| <= Capacity(opts)
  {
    var st1 := if |st.order| >= opts.maxSize && k !in st.entries then EvictSpec(st) else st;
    var order := if k in st1.entries then st1.order else st1.order + [k];
    State(order, st1.entries[k := Entry(v, ExpiryOf(opts, ttl, now), now, now)],
          st1.stats.(sets := st1.stats.sets + 1))
  }

  /** `clear()`: no entries and all counters zero. */
  function ClearSpec<V>(): (r: State<V>)
    ensures WellFormed(r) && |r.order| == 0 && r.stats == ZeroCounters
  {
    State([], map[], ZeroCounters)
  }

  /** One step of the sweep: the entry under `k`, if any, is deleted when it
      has expired. */
  function SweepKey<V>(st: State<V>, k: string, now: int): (r: State<V>)
    requires WellFormed(st)
    ensures WellFormed(r)
  {
    if k in st.entries && Expired(st.entries[k], now) then DeleteSpec(st, k).0 else st
  }

  /** The sweep over the keys `keys`, visited in order. */
  function Sweep<V>(st: State<V>, keys: seq<string>, now: int): (r: State<V>)
    requires WellFormed(st)
    ensures WellFormed(r)
    decreases |keys|
  {
    if keys == [] then st
    else SweepKey(Sweep(st, keys[..|keys| - 1], now), keys[|keys| - 1], now)
  }

  /** Sweeping `keys` removes exactly the visited entries that have expired,
      counts each removal as a delete and changes nothing else. */
  lemma {:induction false} SweepRemovesExpired<V>(st: State<V>, keys: seq<string>, now: int)
    requires WellFormed(st)
    ensures var r := Sweep(st, keys, now);
            (forall k :: k in r.entries <==> k in st.entries && !(k in keys && Expired(st.entries[k], now)))
            && (forall k :: k in r.entries ==> r.entries[k] == st.entries[k])
            && |r.order| <= |st.order|
            && r.stats == st.stats.(deletes := st.stats.deletes + (|st.order| - |r.order|))
    decreases |keys|
  {
    if keys != [] {
      var init := keys[..|keys| - 1];
      SweepRemovesExpired(st, init, now);
      assert forall k :: k in keys <==> k in init || k == keys[|keys| - 1];
    }
  }

  /** `keys` without the keys in `d`, the others in their order. */
  function Drop(keys: seq<string>, d: set<string>): (r: seq<string>)
    ensures forall x :: x in r <==> x in keys && x !in d
    ensures |r| <= |keys|
    ensures Distinct(keys) ==> Distinct(r)
  {
    if keys == [] then []
    else
      var rest := Drop(keys[1..], d);
      assert Distinct(keys) ==> keys[0] !in keys[1..];
      if keys[0] in d then rest else [keys[0]] + rest
  }

  /** Removing one more key after a `Drop` is dropping it as well. */
  lemma {:induction false} RemoveKeyAfterDrop(keys: seq<string>, d: set<string>, k: string)
    ensures RemoveKey(Drop(keys, d), k) == Drop(keys, d + {k})
    decreases |keys|
  {
    if keys != [] {
      RemoveKeyAfterDrop(keys[1..], d, k);
    }
  }

  /** The visited keys of `st` whose entries have expired by `now`. */
  ghost function ExpiredAmong<V>(st: State<V>, keys: seq<string>, now: int): set<string>
  {
    set k | k in keys && k in st.entries && Expired(st.entries[k], now)
  }

  /** Sweeping `keys` keeps the other keys in their insertion order: the new
      order is the old one with the expired visited keys dropped. */
  lemma {:induction false} SweepOrder<V>(st: State<V>, keys: seq<string>, now: int)
    requires WellFormed(st)
    ensures Sweep(st, keys, now).order == Drop(st.order, ExpiredAmong(st, keys, now))
    decreases |keys|
  {
    if keys == [] {
      assert ExpiredAmong(st, keys, now) == {};
      DropNothing(st.order);
    } else {
      var init := keys[..|keys| - 1];
      var last := keys[|keys| - 1];
      SweepOrder(st, init, now);
      SweepRemovesExpired(st, init, now);
      var r1 := Sweep(st, init, now);
      var d1 := ExpiredAmong(st, init, now);
      assert Sweep(st, keys, now) == SweepKey(r1, last, now);
      if last in r1.entries && Expired(r1.entries[last], now) {
        assert r1.entries[last] == st.entries[last];
        RemoveKeyAfterDrop(st.order, d1, last);
        assert ExpiredAmong(st, keys, now) == d1 + {last} by {
          forall x ensures x in ExpiredAmong(st, keys, now) <==> x in d1 + {last} {
            assert x in keys <==> x in init || x == last;
          }
        }
      } else {
        assert ExpiredAmong(st, keys, now) == d1 by {
          forall x ensures x in ExpiredAmong(st, keys, now) <==> x in d1 {
            assert x in keys <==> x in init || x == last;
          }
        }
      }
    }
  }

  /** Dropping no key changes nothing. */
  lemma {:induction false} DropNothing(keys: seq<string>)
    ensures Drop(keys, {}) == keys
    decreases |keys|
  {
    if keys != [] {
      DropNothing(keys[1..]);
      assert keys == [keys[0]] + keys[1..];
    }
  }

  /** The scan of `evictOldest` over the keys in insertion order: it keeps
      the first key with the smallest `lastAccessed`, replacing its candidate
      only on a strict `<`, and finds nothing in an empty cache. */
  method ScanOldest<V>(keys: seq<string>, items: map<string, Entry<V>>) returns (oldestKey: Option<string>)
    requires forall k :: k in keys ==> k in items
    ensures keys == [] ==> oldestKey.None?
    ensures keys != [] ==> oldestKey == Some(keys[OldestIndex(keys, items, |keys|)])
  {
    oldestKey := None;
    var oldestTime: Option<int> := None;  // None stands for the initial Infinity
    var i := 0;
    while i < |keys|
      invariant 0 <= i <= |keys|
      invariant oldestKey.None? <==> i == 0
      invariant oldestTime.None? <==> i == 0
      invariant i > 0 ==>
                  var j := OldestIndex(keys, items, i);
                  oldestKey == Some(keys[j]) && oldestTime == Some(items[keys[j]].lastAccessed)
    {
      var item := items[keys[i]];
      if oldestTime.None? || item.lastAccessed < oldestTime.value {
        oldestKey := Some(keys[i]);
        oldestTime := Some(item.lastAccessed);
      }
      i := i + 1;
    }
  }

  /** `cleanup()`: removes exactly the expired entries, each counted as a
      delete, and leaves every live entry as it was. */
  function CleanupSpec<V>(st: State<V>, now: int): (r: State<V>)
    requires WellFormed(st)
    ensures WellFormed(r)
    ensures forall k :: k in r.entries <==> k in st.entries && !Expired(st.entries[k], now)
    ensures forall k :: k in r.entries ==> r.entries[k] == st.entries[k]
    ensures |r.order| <= |st.order|
    ensures r.stats == st.stats.(deletes := st.stats.deletes + (|st.order| - |r.order|))
    ensures r.order == Drop(st.order, ExpiredAmong(st, st.order, now))
  {
    SweepRemovesExpired(st, st.order, now);
    SweepOrder(st, st.order, now);
    Sweep(st, st.order, now)
  }

  /** `getStats()`: the counters, the number of entries, and
      `hits / (hits + misses)`, which is 0 before any read. */
  function StatsOf<V>(st: State<V>): (s: CacheStats)
    ensures s.hits == st.stats.hits && s.misses == st.stats.misses
    ensures s.sets == st.stats.sets && s.deletes == st.stats.deletes
    ensures s.size == |st.order|
    ensures 0.0 <= s.hitRate <= 1.0
    ensures s.hits + s.misses == 0 ==> s.hitRate == 0.0
    ensures s.hits + s.misses > 0 ==> s.hitRate * (s.hits + s.misses) as real == s.hits as real
  {
    var c := st.stats;
    var total := c.hits + c.misses;
    var rate := if total == 0 then 0.0 else c.hits as real / total as real;
    assert total > 0 ==> rate * total as real == c.hits as real;
    CacheStats(c.hits, c.misses, c.sets, c.deletes, |st.order|, rate)
  }

  /** In a well-formed state the insertion order has one key per entry, so
      `size` is the number of stored entries. */
  lemma {:induction false} SizeIsEntryCount<V>(st: State<V>)
    requires WellFormed(st)
    ensures |st.entries| == |st.order|
    decreases |st.order|
  {
    if st.order == [] {
      assert st.entries == map[];
    } else {
      var k := st.order[0];
      var rest := State(st.order[1..], st.entries - {k}, st.stats);
      assert k !in st.order[1..];
      assert forall x :: x in rest.entries <==> x in rest.order by {
        forall x ensures x in rest.entries <==> x in rest.order {
          assert x in st.order <==> x == k || x in st.order[1..];
        }
      }
      assert Distinct(rest.order) by {
        forall i, j | 0 <= i < j < |rest.order| ensures rest.order[i] != rest.order[j] {
          assert rest.order[i] == st.order[i + 1] && rest.order[j] == st.order[j + 1];
        }
      }
      SizeIsEntryCount(rest);
      assert st.entries.Keys == rest.entries.Keys + {k};
    }
  }

  /** After `set(k, v, ttl)` at `now`, `get(k)` returns `v` at every time up to
      `now + ttl * 1000` (the default TTL when `ttl` is omitted), and it is a hit. */
  lemma SetThenGet<V>(st: State<V>, opts: Options, k: string, v: V, ttl: Option<real>, now: int, later: int)
    requires WellFormed(st)
    requires later as real <= ExpiryOf(opts, ttl, now)
    ensures var st1 := SetSpec(st, opts, k, v, ttl, now);
            var res := GetSpec(st1, k, later);
            res.1 == Some(v) && res.0.stats.hits == st1.stats.hits + 1
  {
  }

  /** A TTL of `ttl` seconds is over once more than `ttl * 1000` milliseconds
      have passed: `get` then reports a miss and the entry is gone. */
  lemma SetThenGetAfterExpiry<V>(st: State<V>, opts: Options, k: string, v: V, ttl: Option<real>, now: int, later: int)
    requires WellFormed(st)
    requires ExpiryOf(opts, ttl, now) != 0.0 && later as real > ExpiryOf(opts, ttl, now)
    ensures var res := GetSpec(SetSpec(st, opts, k, v, ttl, now), k, later);
            res.1 == None && k !in res.0.entries
  {
  }

  /** Reads never move an entry in the eviction order: `get` leaves every
      `lastAccessed` as it was. */
  lemma GetKeepsLastAccessed<V>(st: State<V>, k: string, now: int, k': string)
    requires WellFormed(st)
    requires k' in GetSpec(st, k, now).0.entries
    ensures k' in st.entries
    ensures GetSpec(st, k, now).0.entries[k'].lastAccessed == st.entries[k'].lastAccessed
  {
  }

  /** The arguments of one `set(key, value, ttl)` call made at time `now`. */
  datatype SetCall<V> = SetCall(key: string, value: V, ttl: Option<real>, now: int)

  /** A cache that starts within its capacity stays within it through any
      sequence of `set`s, with any values, TTLs and times, as long as no key is
      the empty string. */
  lemma {:induction false} SetsStayWithinCapacity<V>(st: State<V>, opts: Options, calls: seq<SetCall<V>>)
    requires WellFormed(st) && |st.order| <= Capacity(opts) && "" !in st.entries
    requires forall i :: 0 <= i < |calls| ==> calls[i].key != ""
    ensures var r := SetAll(st, opts, calls);
            WellFormed(r) && |r.order| <= Capacity(opts) && "" !in r.entries
    decreases |calls|
  {
    if calls != [] {
      var c := calls[0];
      var st1 := SetSpec(st, opts, c.key, c.value, c.ttl, c.now);
      assert "" !in st1.entries;
      SetsStayWithinCapacity(st1, opts, calls[1..]);
    }
  }

  /** The calls of `calls` made in turn. */
  function SetAll<V>(st: State<V>, opts: Options, calls: seq<SetCall<V>>): (r: State<V>)
    requires WellFormed(st)
    ensures WellFormed(r)
    decreases |calls|
  {
    if calls == [] then st
    else
      var c := calls[0];
      SetAll(SetSpec(st, opts, c.key, c.value, c.ttl, c.now), opts, calls[1..])
  }

  /** The cache itself. The fields are those of the source object: the map
      (`order` and `entries` together), the `stats` counters and the options. */
  class MemoryCache<V> {
    var order: seq<string>
    var entries: map<string, Entry<V>>
    var stats: Counters
    const options: Options

    function View(): State<V>
      reads this
    {
      State(order, entries, stats)
    }

    ghost predicate Valid()
      reads this
    {
      WellFormed(View())
    }

    constructor (opts: CacheOptions)
      ensures Valid()
      ensures View() == State([], map[], ZeroCounters)
      ensures options == Resolve(opts)
    {
      order := [];
      entries := map[];
      stats := ZeroCounters;
      options := Resolve(opts);
    }

    method Get(key: string, now: int) returns (r: Option<V>)
      requires Valid()
      modifies this
      ensures Valid()
      ensures (View(), r) == GetSpec(old(View()), key, now)
    {
      if key !in entries {
        stats := stats.(misses := stats.misses + 1);
        return None;
      }
      var item := entries[key];
      if Expired(item, now) {
        var _ := Delete(key);
        stats := stats.(misses := stats.misses + 1);
        return None;
      }
      stats := stats.(hits := stats.hits + 1);
      return Some(item.value);
    }

    method Set(key: string, value: V, ttl: Option<real>, now: int)
      requires Valid()
      modifies this
      ensures Valid()
      ensures View() == SetSpec(old(View()), options, key, value, ttl, now)
    {
      if |order| >= options.maxSize && key !in entries {
        EvictOldest();
      }
      ghost var st1 := View();
      var expiry := if ttl.Some? then now as real + ttl.value * 1000.0
                    else now as real + options.ttl * 1000.0;
      assert expiry == ExpiryOf(options, ttl, now);
      if key !in entries {
        order := order + [key];
      }
      entries := entries[key := Entry(value, expiry, now, now)];
      stats := stats.(sets := stats.sets + 1);
      assert View() == State(if key in st1.entries then st1.order else st1.order + [key],
                             st1.entries[key := Entry(value, expiry, now, now)],
                             st1.stats.(sets := st1.stats.sets + 1));
    }

    method Delete(key: string) returns (removed: bool)
      requires Valid()
      modifies this
      ensures Valid()
      ensures (View(), removed) == DeleteSpec(old(View()), key)
    {
      removed := key in entries;
      if removed {
        order := RemoveKey(order, key);
        entries := entries - {key};
        stats := stats.(deletes := stats.deletes + 1);
      }
    }

    method Clear()
      modifies this
      ensures Valid()
      ensures View() == ClearSpec()
    {
      order := [];
      entries := map[];
      ResetStats();
    }

    method Has(key: string, now: int) returns (b: bool)
      requires Valid()
      modifies this
      ensures Valid()
      ensures (View(), b) == HasSpec(old(View()), key, now)
    {
      if key !in entries {
        return false;
      }
      var item := entries[key];
      if Expired(item, now) {
        var _ := Delete(key);
        return false;
      }
      entries := entries[key := item.(lastAccessed := now)];
      return true;
    }

    function GetStats(): (s: CacheStats)
      reads this
      ensures s == StatsOf(View())
    {
      StatsOf(View())
    }

    method ResetStats()
      modifies this
      ensures stats == ZeroCounters
      ensures order == old(order) && entries == old(entries)
    {
      stats := ZeroCounters;
    }

    method Cleanup(now: int)
      requires Valid()
      modifies this
      ensures Valid()
      ensures View() == CleanupSpec(old(View()), now)
    {
      // Deleting the visited key does not disturb a JavaScript Map iteration,
      // so walking a snapshot of the keys visits the same keys.
      var keys := order;
      var i := 0;
      while i < |keys|
        invariant 0 <= i <= |keys|
        invariant Valid()
        invariant Distinct(keys)
        invariant View() == Sweep(old(View()), keys[..i], now)
        invariant forall j :: i <= j < |keys| ==> keys[j] in entries
      {
        var key := keys[i];
        var item := entries[key];
        ghost var before := View();
        if Expired(item, now) {
          var _ := Delete(key);
        }
        assert View() == SweepKey(before, key, now);
        assert keys[..i + 1][..i] == keys[..i];
        i := i + 1;
      }
      assert keys[..i] == old(order);
      assert View() == Sweep(old(View()), old(View()).order, now);
    }

    method EvictOldest()
      requires Valid()
      modifies this
      ensures Valid()
      ensures View() == EvictSpec(old(View()))
    {
      var oldestKey := ScanOldest(order, entries);
      if oldestKey.Some? && oldestKey.value != "" {
        var _ := Delete(oldestKey.value);
      }
    }
  }
}
