/** The in-memory half of utils/cache/cacheManager.js: cache-key derivation,
    the six named caches and the operations that read and write them, and the
    mappers from database rows to API records. The database path is disabled
    (`USE_DATABASE` is not `'true'`). */
module CacheManager {
  import opened Common
  import opened Text
  import opened Js
  import Cache

  /** One `[key, value]` pair of `Object.entries(params)`. */
  type Param = (string, Value)

  /** Non-decreasing by name in the order that stands for `localeCompare`. */
  ghost predicate SortedByName(ps: seq<Param>)
  {
    forall i, j :: 0 <= i < j < |ps| ==> !Less(ps[j].0, ps[i].0)
  }

  /** Inserts `p` after every pair whose name does not sort after it. */
  function InsertByName(p: Param, ps: seq<Param>): (r: seq<Param>)
    ensures multiset(r) == multiset(ps) + multiset{p}
    ensures forall y :: y in r <==> y == p || y in ps
    decreases |ps|
  {
    if ps == [] then [p]
    else
      assert ps == [ps[0]] + ps[1..];
      assert multiset(ps) == multiset{ps[0]} + multiset(ps[1..]);
      assert forall y :: y in ps <==> y == ps[0] || y in ps[1..];
      if !Less(p.0, ps[0].0) then [ps[0]] + InsertByName(p, ps[1..])
      else [p] + ps
  }

  lemma {:induction false} InsertKeepsSorted(p: Param, ps: seq<Param>)
    requires SortedByName(ps)
    ensures SortedByName(InsertByName(p, ps))
    decreases |ps|
  {
    if ps != [] {
      var r := InsertByName(p, ps);
      if !Less(p.0, ps[0].0) {
        var tail := InsertByName(p, ps[1..]);
        InsertKeepsSorted(p, ps[1..]);
        forall y | y in tail ensures !Less(y.0, ps[0].0) {
          if y != p {
            var j :| 0 <= j < |ps[1..]| && ps[1..][j] == y;
            assert ps[j + 1] == y;
          }
        }
        assert r == [ps[0]] + tail;
        forall i, j | 0 <= i < j < |r| ensures !Less(r[j].0, r[i].0) {
          if i > 0 {
            assert r[i] == tail[i - 1] && r[j] == tail[j - 1];
          } else {
            assert r[j] in tail;
          }
        }
      } else {
        forall j | 0 <= j < |ps| ensures !Less(ps[j].0, p.0) {
          LessTotal(ps[0].0, ps[j].0);
          LessTransitive(p.0, ps[0].0, ps[j].0);
          LessAsymmetric(p.0, ps[j].0);
        }
      }
    }
  }

  lemma {:induction false} InsertKeepsDistinct(p: Param, ps: seq<Param>)
    requires DistinctKeys(ps)
    requires forall y :: y in ps ==> y.0 != p.0
    ensures DistinctKeys(InsertByName(p, ps))
    decreases |ps|
  {
    if ps != [] && !Less(p.0, ps[0].0) {
      var tail := InsertByName(p, ps[1..]);
      assert DistinctKeys(ps[1..]) by {
        forall i, j | 0 <= i < j < |ps[1..]| ensures ps[1..][i].0 != ps[1..][j].0 {
          assert ps[1..][i] == ps[i + 1] && ps[1..][j] == ps[j + 1];
        }
      }
      InsertKeepsDistinct(p, ps[1..]);
      var r := [ps[0]] + tail;
      forall i, j | 0 <= i < j < |r| ensures r[i].0 != r[j].0 {
        if i == 0 {
          assert r[j] in tail;
          if r[j] != p {
            var k :| 0 <= k < |ps[1..]| && ps[1..][k] == r[j];
            assert ps[k + 1] == r[j];
          }
        } else {
          assert r[i] == tail[i - 1] && r[j] == tail[j - 1];
        }
      }
    }
  }

  lemma InsertLastKeepsDistinct(ps: seq<Param>, sorted: seq<Param>)
    requires ps != []
    requires multiset(sorted) == multiset(ps[..|ps| - 1])
    requires DistinctKeys(ps[..|ps| - 1]) ==> DistinctKeys(sorted)
    ensures DistinctKeys(ps) ==> DistinctKeys(InsertByName(ps[|ps| - 1], sorted))
  {
    var init := ps[..|ps| - 1];
    var last := ps[|ps| - 1];
    if DistinctKeys(ps) {
      assert DistinctKeys(init) by {
        forall i, j | 0 <= i < j < |init| ensures init[i].0 != init[j].0 {
          assert init[i] == ps[i] && init[j] == ps[j];
        }
      }
      forall y | y in sorted ensures y.0 != last.0 {
        assert y in multiset(init);
        var k :| 0 <= k < |init| && init[k] == y;
        assert ps[k] == y;
      }
      InsertKeepsDistinct(last, sorted);
    }
  }

  /** The params sorted by name; the sort is stable, as `Array.prototype.sort`. */
  function SortByName(ps: seq<Param>): (r: seq<Param>)
    ensures multiset(r) == multiset(ps)
    ensures |r| == |ps|
    ensures SortedByName(r)
    ensures DistinctKeys(ps) ==> DistinctKeys(r)
    decreases |ps|
  {
    if ps == [] then []
    else
      var init := ps[..|ps| - 1];
      var last := ps[|ps| - 1];
      assert ps == init + [last];
      var sorted := SortByName(init);
      InsertKeepsSorted(last, sorted);
      InsertLastKeepsDistinct(ps, sorted);
      InsertByName(last, sorted)
  }

  /** Two name-sorted lists of the same pairs, with no name repeated, start
      with the same pair. */
  lemma SortedSameHead(a: seq<Param>, b: seq<Param>)
    requires SortedByName(a) && SortedByName(b)
    requires DistinctKeys(a)
    requires multiset(a) == multiset(b)
    requires a != []
    ensures b != [] && a[0] == b[0]
  {
    assert a[0] in multiset(b);
    var k :| 0 <= k < |b| && b[k] == a[0];
    assert b[0] in multiset(a);
    var m :| 0 <= m < |a| && a[m] == b[0];
    if m != 0 {
      assert a[m].0 != a[0].0;
      LessTotal(a[0].0, a[m].0);
      assert false;
    }
  }

  /** Two name-sorted lists of the same pairs, with no name repeated, are equal. */
  lemma {:induction false} SortedUnique(a: seq<Param>, b: seq<Param>)
    requires SortedByName(a) && SortedByName(b)
    requires DistinctKeys(a)
    requires multiset(a) == multiset(b)
    ensures a == b
    decreases |a|
  {
    if a == [] {
      assert |multiset(b)| == 0;
    } else {
      SortedSameHead(a, b);
      assert a == [a[0]] + a[1..] && b == [b[0]] + b[1..];
      assert multiset(a) == multiset([a[0]]) + multiset(a[1..]);
      assert multiset(b) == multiset([b[0]]) + multiset(b[1..]);
      assert DistinctKeys(a[1..]) by {
        forall i, j | 0 <= i < j < |a[1..]| ensures a[1..][i].0 != a[1..][j].0 {
          assert a[1..][i] == a[i + 1] && a[1..][j] == a[j + 1];
        }
      }
      assert multiset(a[1..]) == multiset(b[1..]) by {
        forall x ensures multiset(a[1..])[x] == multiset(b[1..])[x] {
          assert multiset(a)[x] == multiset([a[0]])[x] + multiset(a[1..])[x];
          assert multiset(b)[x] == multiset([b[0]])[x] + multiset(b[1..])[x];
        }
      }
      assert SortedByName(a[1..]) by {
        forall i, j | 0 <= i < j < |a[1..]| ensures !Less(a[1..][j].0, a[1..][i].0) {
          assert a[1..][i] == a[i + 1] && a[1..][j] == a[j + 1];
        }
      }
      assert SortedByName(b[1..]) by {
        forall i, j | 0 <= i < j < |b[1..]| ensures !Less(b[1..][j].0, b[1..][i].0) {
          assert b[1..][i] == b[i + 1] && b[1..][j] == b[j + 1];
        }
      }
      SortedUnique(a[1..], b[1..]);
    }
  }

  /** `` `${k}=${v}` `` for each pair, joined by `&`. */
  function ParamString(ps: seq<Param>): string
  {
    Join(seq(|ps|, i requires 0 <= i < |ps| => ps[i].0 + "=" + ToStr(ps[i].1)), "&")
  }

  /** `generateCacheKey(type, id, params)`: `type:id`, followed by `:` and the
      sorted `k=v` pairs when `params` has at least one property. */
  function GenerateCacheKey(kind: string, id: Value, params: seq<Param>): (key: string)
    ensures StartsWith(key, kind + ":" + ToStr(id))
    ensures params == [] ==> key == kind + ":" + ToStr(id)
    ensures params != [] ==> key == kind + ":" + ToStr(id) + ":" + ParamString(SortByName(params))
  {
    var base := kind + ":" + ToStr(id);
    var key := if |params| > 0 then base + ":" + ParamString(SortByName(params)) else base;
    assert key[..|base|] == base;
    key
  }

  /** The key is independent of the order in which the params were written. */
  lemma KeyIgnoresParamOrder(kind: string, id: Value, p: seq<Param>, q: seq<Param>)
    requires DistinctKeys(p)
    requires multiset(p) == multiset(q)
    ensures GenerateCacheKey(kind, id, p) == GenerateCacheKey(kind, id, q)
  {
    assert |p| == |multiset(p)| == |multiset(q)| == |q|;
    SortedUnique(SortByName(p), SortByName(q));
  }

  /** The key of a search or explore result list. */
  function SearchKey(kind: string, params: seq<Param>): string
  {
    GenerateCacheKey(kind, Str("projects"), params)
  }

  /** `item.type === 'project' && item.id` for an item that is not null. */
  predicate IsProjectItem(item: Value)
  {
    Get(item, "type") == Str("project") && Truthy(Get(item, "id"))
  }

  function ProjectKey(item: Value): string
  {
    GenerateCacheKey("project", Get(item, "id"), [])
  }

  predicate Nullish(v: Value)
  {
    v.Null? || v.Undefined?
  }

  /** The index of the first `null` or `undefined` item, where reading
      `item.type` throws, or the length when there is none. */
  function FirstNullish(items: seq<Value>): (i: nat)
    ensures i <= |items|
    ensures forall j :: 0 <= j < i ==> !Nullish(items[j])
    ensures i < |items| ==> Nullish(items[i])
    decreases |items|
  {
    if items == [] then 0
    else if Nullish(items[0]) then 0
    else 1 + FirstNullish(items[1..])
  }

  /** The writes of the `forEach` in `cacheSearchResults` into the projects
      cache, for the items visited. */
  function FanOut(st: Cache.State<Value>, opts: Cache.Options, items: seq<Value>, now: int): (r: Cache.State<Value>)
    requires Cache.WellFormed(st)
    ensures Cache.WellFormed(r)
    decreases |items|
  {
    if items == [] then st
    else
      var st1 := FanOut(st, opts, items[..|items| - 1], now);
      var item := items[|items| - 1];
      if IsProjectItem(item) then Cache.SetSpec(st1, opts, ProjectKey(item), item, None, now) else st1
  }

  /** One more item: a project with an id is written, anything else is not. */
  lemma FanOutStep(st: Cache.State<Value>, opts: Cache.Options, items: seq<Value>, i: nat, now: int)
    requires Cache.WellFormed(st) && i < |items|
    ensures FanOut(st, opts, items[..i + 1], now) ==
            var st1 := FanOut(st, opts, items[..i], now);
            if IsProjectItem(items[i]) then Cache.SetSpec(st1, opts, ProjectKey(items[i]), items[i], None, now) else st1
  {
    assert items[..i + 1][..i] == items[..i];
  }

  /** Items that are not projects with an id cause no writes. */
  lemma {:induction false} FanOutSkipsOtherItems(st: Cache.State<Value>, opts: Cache.Options, items: seq<Value>, now: int)
    requires Cache.WellFormed(st)
    requires forall i :: 0 <= i < |items| ==> !IsProjectItem(items[i])
    ensures FanOut(st, opts, items, now) == st
    decreases |items|
  {
    if items != [] {
      FanOutSkipsOtherItems(st, opts, items[..|items| - 1], now);
    }
  }

  /** Every entry the fan-out adds or changes is stored under `project:<id>`
      of some project item; all other entries are kept as they were. */
  lemma {:induction false} FanOutWritesOnlyProjectKeys(st: Cache.State<Value>, opts: Cache.Options, items: seq<Value>, now: int)
    requires Cache.WellFormed(st)
    ensures var r := FanOut(st, opts, items, now);
            forall k :: k in r.entries ==>
              (k in st.entries && r.entries[k] == st.entries[k])
              || exists i :: 0 <= i < |items| && IsProjectItem(items[i]) && k == ProjectKey(items[i])
    decreases |items|
  {
    if items != [] {
      var init := items[..|items| - 1];
      FanOutWritesOnlyProjectKeys(st, opts, init, now);
      var r := FanOut(st, opts, items, now);
      forall k | k in r.entries
        ensures (k in st.entries && r.entries[k] == st.entries[k])
                || exists i :: 0 <= i < |items| && IsProjectItem(items[i]) && k == ProjectKey(items[i])
      {
        var item := items[|items| - 1];
        if IsProjectItem(item) && k == ProjectKey(item) {
        } else if !((k in st.entries && r.entries[k] == st.entries[k])) {
          var i :| 0 <= i < |init| && IsProjectItem(init[i]) && k == ProjectKey(init[i]);
          assert items[i] == init[i];
        }
      }
    }
  }

  /** The last project item of the results is in the projects cache under its
      key, whatever eviction the earlier writes caused. */
  lemma {:induction false} FanOutStoresLastProject(st: Cache.State<Value>, opts: Cache.Options, items: seq<Value>, now: int, j: nat)
    requires Cache.WellFormed(st)
    requires j < |items| && IsProjectItem(items[j])
    requires forall i :: j < i < |items| ==> !IsProjectItem(items[i])
    ensures var r := FanOut(st, opts, items, now);
            ProjectKey(items[j]) in r.entries && r.entries[ProjectKey(items[j])].value == items[j]
    decreases |items|
  {
    if j < |items| - 1 {
      FanOutStoresLastProject(st, opts, items[..|items| - 1], now, j);
    }
  }

  /** What `clearCache(type)` does with `caches[type]`. */
  datatype ClearOutcome =
    | Cleared       // one of the six caches
    | NotACache     // `caches[type]` is undefined: nothing happens
    | Threw         // an inherited `Object.prototype` member: `.clear` is not a function

  /** The names of the caches, in the order of the `caches` object. */
  const CacheNames: seq<string> := ["users", "projects", "thumbnails", "avatars", "studios", "search"]

  function ClearOutcomeOf(kind: string): (o: ClearOutcome)
    ensures o == Cleared <==> kind in CacheNames
    ensures o == Threw <==> kind !in CacheNames && kind in ObjectPrototypeNames
  {
    if kind in CacheNames then Cleared
    else if kind in ObjectPrototypeNames then Threw
    else NotACache
  }

  /** The module-level `caches` object with its six caches. */
  class CacheManager {
    const users: Cache.MemoryCache<Value>
    const projects: Cache.MemoryCache<Value>
    const thumbnails: Cache.MemoryCache<Value>
    const avatars: Cache.MemoryCache<Value>
    const studios: Cache.MemoryCache<Value>
    const search: Cache.MemoryCache<Value>

    /** The caches in the order of `CacheNames`. */
    function All(): (cs: seq<Cache.MemoryCache<Value>>)
      ensures |cs| == |CacheNames|
    {
      [users, projects, thumbnails, avatars, studios, search]
    }

    ghost predicate Valid()
      reads this, users, projects, thumbnails, avatars, studios, search
    {
      users.Valid() && projects.Valid() && thumbnails.Valid()
      && avatars.Valid() && studios.Valid() && search.Valid()
      && users != projects && users != thumbnails && users != avatars && users != studios && users != search
      && projects != thumbnails && projects != avatars && projects != studios && projects != search
      && thumbnails != avatars && thumbnails != studios && thumbnails != search
      && avatars != studios && avatars != search
      && studios != search
    }

    constructor ()
      ensures Valid()
      ensures users.options.ttl == 3600.0 && projects.options.ttl == 1800.0
      ensures thumbnails.options.ttl == 7200.0 && avatars.options.ttl == 7200.0
      ensures studios.options.ttl == 3600.0 && search.options.ttl == 600.0
      ensures forall c :: c in All() ==> c.View() == Cache.State([], map[], Cache.ZeroCounters)
                                          && c.options.maxSize == 1000
    {
      users := new Cache.MemoryCache(Cache.CacheOptions(Some(3600.0), None, None));
      projects := new Cache.MemoryCache(Cache.CacheOptions(Some(1800.0), None, None));
      thumbnails := new Cache.MemoryCache(Cache.CacheOptions(Some(7200.0), None, None));
      avatars := new Cache.MemoryCache(Cache.CacheOptions(Some(7200.0), None, None));
      studios := new Cache.MemoryCache(Cache.CacheOptions(Some(3600.0), None, None));
      search := new Cache.MemoryCache(Cache.CacheOptions(Some(600.0), None, None));
    }

    /** `cacheUserData`: stores a record with a truthy `id` under `user:<id>`
        with the users cache's TTL; anything else is ignored. */
    method CacheUserData(userData: Value, now: int)
      requires Valid()
      modifies users
      ensures Valid()
      ensures !Truthy(userData) || !Truthy(Get(userData, "id")) ==> users.View() == old(users.View())
      ensures Truthy(userData) && Truthy(Get(userData, "id")) ==>
                users.View() == Cache.SetSpec(old(users.View()), users.options,
                                              "user:" + ToStr(Get(userData, "id")), userData, None, now)
    {
      if !Truthy(userData) || !Truthy(Get(userData, "id")) {
        return;
      }
      var key := GenerateCacheKey("user", Get(userData, "id"), []);
      users.Set(key, userData, None, now);
    }

    /** `cacheProjectData`: as `CacheUserData`, under `project:<id>`. */
    method CacheProjectData(projectData: Value, now: int)
      requires Valid()
      modifies projects
      ensures Valid()
      ensures !Truthy(projectData) || !Truthy(Get(projectData, "id")) ==> projects.View() == old(projects.View())
      ensures Truthy(projectData) && Truthy(Get(projectData, "id")) ==>
                projects.View() == Cache.SetSpec(old(projects.View()), projects.options,
                                                 "project:" + ToStr(Get(projectData, "id")), projectData, None, now)
    {
      if !Truthy(projectData) || !Truthy(Get(projectData, "id")) {
        return;
      }
      var key := GenerateCacheKey("project", Get(projectData, "id"), []);
      projects.Set(key, projectData, None, now);
    }

    /** `cacheSearchResults`: stores the results under the search key, then
        copies each project item into the projects cache. A `null` or
        `undefined` item throws (`ok` is false) after the items before it
        were copied. */
    method CacheSearchResults(kind: string, params: seq<Param>, results: Value, ttl: Option<real>, now: int)
      returns (ok: bool)
      requires Valid()
      modifies search, projects
      ensures Valid()
      ensures search.View() == Cache.SetSpec(old(search.View()), search.options, SearchKey(kind, params), results, ttl, now)
      ensures !results.Arr? ==> ok && projects.View() == old(projects.View())
      ensures results.Arr? ==>
                (ok <==> FirstNullish(results.items) == |results.items|)
                && projects.View() == FanOut(old(projects.View()), projects.options,
                                             results.items[..FirstNullish(results.items)], now)
    {
      var key := GenerateCacheKey(kind, Str("projects"), params);
      search.Set(key, results, ttl, now);
      ok := true;
      if results.Arr? {
        ok := CopyProjectItems(results.items, now);
      }
    }

    /** The `forEach` of `cacheSearchResults`: copies project items into the
        projects cache until an item is `null` or `undefined`. */
    method CopyProjectItems(items: seq<Value>, now: int) returns (ok: bool)
      requires projects.Valid()
      modifies projects
      ensures projects.Valid()
      ensures ok <==> FirstNullish(items) == |items|
      ensures projects.View() == FanOut(old(projects.View()), projects.options, items[..FirstNullish(items)], now)
    {
      var i := 0;
      while i < |items|
        invariant 0 <= i <= |items|
        invariant projects.Valid()
        invariant forall j :: 0 <= j < i ==> !Nullish(items[j])
        invariant projects.View() == FanOut(old(projects.View()), projects.options, items[..i], now)
      {
        var item := items[i];
        if item.Null? || item.Undefined? {
          return false;
        }
        FanOutStep(old(projects.View()), projects.options, items, i, now);
        if Get(item, "type") == Str("project") && Truthy(Get(item, "id")) {
          projects.Set(GenerateCacheKey("project", Get(item, "id"), []), item, None, now);
        }
        i := i + 1;
      }
      assert items[..i] == items;
      return true;
    }

    /** `getSearchResultsFromCache`: a `get` on the search cache. */
    method GetSearchResultsFromCache(kind: string, params: seq<Param>, now: int) returns (r: Option<Value>)
      requires Valid()
      modifies search
      ensures Valid()
      ensures (search.View(), r) == Cache.GetSpec(old(search.View()), SearchKey(kind, params), now)
    {
      var key := GenerateCacheKey(kind, Str("projects"), params);
      r := search.Get(key, now);
    }

    method CacheThumbnail(id: Value, imageData: Value, ttl: Option<real>, now: int)
      requires Valid()
      modifies thumbnails
      ensures Valid()
      ensures thumbnails.View() == Cache.SetSpec(old(thumbnails.View()), thumbnails.options,
                                                 "thumbnail:" + ToStr(id), imageData, ttl, now)
    {
      var key := GenerateCacheKey("thumbnail", id, []);
      assert key == "thumbnail:" + ToStr(id);
      thumbnails.Set(key, imageData, ttl, now);
    }

    method GetThumbnailFromCache(id: Value, now: int) returns (r: Option<Value>)
      requires Valid()
      modifies thumbnails
      ensures Valid()
      ensures (thumbnails.View(), r) == Cache.GetSpec(old(thumbnails.View()), "thumbnail:" + ToStr(id), now)
    {
      var key := GenerateCacheKey("thumbnail", id, []);
      assert key == "thumbnail:" + ToStr(id);
      r := thumbnails.Get(key, now);
    }

    method CacheAvatar(id: Value, imageData: Value, ttl: Option<real>, now: int)
      requires Valid()
      modifies avatars
      ensures Valid()
      ensures avatars.View() == Cache.SetSpec(old(avatars.View()), avatars.options,
                                              "avatar:" + ToStr(id), imageData, ttl, now)
    {
      var key := GenerateCacheKey("avatar", id, []);
      assert key == "avatar:" + ToStr(id);
      avatars.Set(key, imageData, ttl, now);
    }

    method GetAvatarFromCache(id: Value, now: int) returns (r: Option<Value>)
      requires Valid()
      modifies avatars
      ensures Valid()
      ensures (avatars.View(), r) == Cache.GetSpec(old(avatars.View()), "avatar:" + ToStr(id), now)
    {
      var key := GenerateCacheKey("avatar", id, []);
      assert key == "avatar:" + ToStr(id);
      r := avatars.Get(key, now);
    }

    /** `getCacheStats`: one entry per cache, under its name, in declaration
        order. */
    method GetCacheStats() returns (stats: seq<(string, Cache.CacheStats)>)
      requires Valid()
      ensures |stats| == |CacheNames|
      ensures forall i :: 0 <= i < |stats| ==>
                stats[i].0 == CacheNames[i] && stats[i].1 == Cache.StatsOf(All()[i].View())
    {
      var caches := All();
      stats := [];
      var i := 0;
      while i < |caches|
        invariant 0 <= i <= |caches|
        invariant |stats| == i
        invariant forall j :: 0 <= j < i ==>
                    stats[j].0 == CacheNames[j] && stats[j].1 == Cache.StatsOf(caches[j].View())
      {
        stats := stats + [(CacheNames[i], caches[i].GetStats())];
        i := i + 1;
      }
    }

    /** `clearCache(type)`: clears the named cache and no other. */
    method ClearCache(kind: string) returns (outcome: ClearOutcome)
      requires Valid()
      modifies users, projects, thumbnails, avatars, studios, search
      ensures Valid()
      ensures outcome == ClearOutcomeOf(kind)
      ensures forall i :: 0 <= i < |CacheNames| ==>
                All()[i].View() == if CacheNames[i] == kind then Cache.ClearSpec() else old(All()[i].View())
    {
      outcome := ClearOutcomeOf(kind);
      if kind == "users" { users.Clear(); }
      else if kind == "projects" { projects.Clear(); }
      else if kind == "thumbnails" { thumbnails.Clear(); }
      else if kind == "avatars" { avatars.Clear(); }
      else if kind == "studios" { studios.Clear(); }
      else if kind == "search" { search.Clear(); }
    }

    /** `clearAllCaches`: every cache is empty with zeroed counters. */
    method ClearAllCaches()
      requires Valid()
      modifies users, projects, thumbnails, avatars, studios, search
      ensures Valid()
      ensures forall c :: c in All() ==> c.View() == Cache.ClearSpec()
    {
      var caches := All();
      var i := 0;
      while i < |caches|
        invariant 0 <= i <= |caches|
        invariant Valid()
        invariant forall j :: 0 <= j < i ==> caches[j].View() == Cache.ClearSpec()
      {
        caches[i].Clear();
        i := i + 1;
      }
    }
  }

  /** Storing results and reading them back with the same params, written in
      any order, finds them until they expire. */
  lemma SearchRoundTrip(st: Cache.State<Value>, opts: Cache.Options, kind: string, p: seq<Param>, q: seq<Param>,
                        results: Value, ttl: Option<real>, now: int, later: int)
    requires Cache.WellFormed(st)
    requires DistinctKeys(p) && multiset(p) == multiset(q)
    requires later as real <= Cache.ExpiryOf(opts, ttl, now)
    ensures Cache.GetSpec(Cache.SetSpec(st, opts, SearchKey(kind, p), results, ttl, now), SearchKey(kind, q), later).1
            == Some(results)
  {
    KeyIgnoresParamOrder(kind, Str("projects"), p, q);
    Cache.SetThenGet(st, opts, SearchKey(kind, p), results, ttl, now, later);
  }

  /** A user row as the database returns it. */
  datatype UserRow = UserRow(id: Value, username: Value, scratchteam: Value, historyJoined: Value,
                             profileId: Value, status: Value, bio: Value, country: Value)

  /** A project row; `id` and `author_id` are `BigInt` columns. */
  datatype ProjectRow = ProjectRow(
    id: int, title: Value, description: Value, instructions: Value, visibility: Value,
    isPublic: Value, commentsAllowed: Value, isPublished: Value, authorId: int, image: Value,
    historyCreatedAt: Value, historyModifiedAt: Value, historySharedAt: Value,
    statsViews: Value, statsLoves: Value, statsFavorites: Value, statsRemixes: Value,
    remixParent: Value, remixRoot: Value)

  /** `formatUserFromDb`: `scratchteam` becomes `true` exactly when the column
      is the number 1; every other field is copied unchanged. */
  function FormatUserFromDb(row: UserRow): (r: Value)
    ensures r.Obj?
    ensures Keys(r.fields) == ["id", "username", "scratchteam", "history", "profile"]
    ensures Get(r, "scratchteam") == Bool(row.scratchteam == Num(1))
    ensures Get(r, "id") == row.id && Get(r, "username") == row.username
    ensures Get(Get(r, "history"), "joined") == row.historyJoined
    ensures Get(Get(r, "profile"), "id") == row.profileId && Get(Get(r, "profile"), "status") == row.status
    ensures Get(Get(r, "profile"), "bio") == row.bio && Get(Get(r, "profile"), "country") == row.country
  {
    var history := [("joined", row.historyJoined)];
    var profile := [("id", row.profileId), ("status", row.status), ("bio", row.bio), ("country", row.country)];
    var fields := [("id", row.id), ("username", row.username), ("scratchteam", Bool(row.scratchteam == Num(1))),
                   ("history", Obj(history)), ("profile", Obj(profile))];
    LookupAt(fields, 0); LookupAt(fields, 1); LookupAt(fields, 2); LookupAt(fields, 3); LookupAt(fields, 4);
    LookupAt(history, 0);
    LookupAt(profile, 0); LookupAt(profile, 1); LookupAt(profile, 2); LookupAt(profile, 3);
    Obj(fields)
  }

  /** `formatProjectFromDb`: the `BigInt` ids become numbers, the flat
      `history_*`, `stats_*` and `remix_*` columns become nested objects. */
  function FormatProjectFromDb(row: ProjectRow): (r: Value)
    ensures r.Obj?
  {
    var fields :=
        [("id", Num(row.id)),
         ("title", row.title),
         ("description", row.description),
         ("instructions", row.instructions),
         ("visibility", row.visibility),
         ("public", row.isPublic),
         ("comments_allowed", row.commentsAllowed),
         ("is_published", row.isPublished),
         ("author_id", Num(row.authorId)),
         ("image", row.image),
         ("history", Obj([("created", row.historyCreatedAt), ("modified", row.historyModifiedAt),
                          ("shared", row.historySharedAt)])),
         ("stats", Obj([("views", row.statsViews), ("loves", row.statsLoves),
                        ("favorites", row.statsFavorites), ("remixes", row.statsRemixes)])),
         ("remix", Obj([("parent", row.remixParent), ("root", row.remixRoot)]))];
    Obj(fields)
  }

  /** A formatted project has the API's properties in the API's order. */
  lemma FormatProjectKeys(row: ProjectRow)
    ensures Keys(FormatProjectFromDb(row).fields)
            == ["id", "title", "description", "instructions", "visibility", "public",
                "comments_allowed", "is_published", "author_id", "image",
                "history", "stats", "remix"]
  {
  }

  /** The three groups of a formatted project have their properties in the
      API's order. */
  lemma FormatProjectGroupKeys(row: ProjectRow)
    ensures var r := FormatProjectFromDb(row);
            Get(r, "history").Obj? && Keys(Get(r, "history").fields) == ["created", "modified", "shared"]
            && Get(r, "stats").Obj? && Keys(Get(r, "stats").fields) == ["views", "loves", "favorites", "remixes"]
            && Get(r, "remix").Obj? && Keys(Get(r, "remix").fields) == ["parent", "root"]
  {
    var fields := FormatProjectFromDb(row).fields;
    assert Get(FormatProjectFromDb(row), "history") == fields[10].1 by { LookupAt(fields, 10); }
    assert Get(FormatProjectFromDb(row), "stats") == fields[11].1 by { LookupAt(fields, 11); }
    assert Get(FormatProjectFromDb(row), "remix") == fields[12].1 by { LookupAt(fields, 12); }
  }

  /** The `BigInt` ids of a formatted project are the row's ids as numbers. */
  lemma FormatProjectConvertsIds(row: ProjectRow)
    ensures var r := FormatProjectFromDb(row);
            Get(r, "id") == Num(row.id) && Get(r, "author_id") == Num(row.authorId)
  {
    var fields := FormatProjectFromDb(row).fields;
    LookupAt(fields, 0);
    LookupAt(fields, 8);
  }

  /** The text columns of a formatted project are the row's columns
      unchanged. */
  lemma FormatProjectCopiesText(row: ProjectRow)
    ensures var r := FormatProjectFromDb(row);
            Get(r, "title") == row.title && Get(r, "description") == row.description
            && Get(r, "instructions") == row.instructions && Get(r, "image") == row.image
  {
    var r := FormatProjectFromDb(row);
    var fields := r.fields;
    assert Get(r, "title") == row.title by { LookupAt(fields, 1); }
    assert Get(r, "description") == row.description by { LookupAt(fields, 2); }
    assert Get(r, "instructions") == row.instructions by { LookupAt(fields, 3); }
    assert Get(r, "image") == row.image by { LookupAt(fields, 9); }
  }

  /** The visibility and publishing columns of a formatted project are the
      row's columns unchanged. */
  lemma FormatProjectCopiesSettings(row: ProjectRow)
    ensures var r := FormatProjectFromDb(row);
            Get(r, "visibility") == row.visibility && Get(r, "public") == row.isPublic
            && Get(r, "comments_allowed") == row.commentsAllowed && Get(r, "is_published") == row.isPublished
  {
    var r := FormatProjectFromDb(row);
    var fields := r.fields;
    assert Get(r, "visibility") == row.visibility by { LookupAt(fields, 4); }
    assert Get(r, "public") == row.isPublic by { LookupAt(fields, 5); }
    assert Get(r, "comments_allowed") == row.commentsAllowed by { LookupAt(fields, 6); }
    assert Get(r, "is_published") == row.isPublished by { LookupAt(fields, 7); }
  }

  /** The `history`, `stats` and `remix` groups of a formatted project hold the
      row's flat columns. */
  lemma FormatProjectGroupsColumns(row: ProjectRow)
    ensures var r := FormatProjectFromDb(row);
            Get(Get(r, "history"), "created") == row.historyCreatedAt
            && Get(Get(r, "history"), "modified") == row.historyModifiedAt
            && Get(Get(r, "history"), "shared") == row.historySharedAt
            && Get(Get(r, "stats"), "views") == row.statsViews
            && Get(Get(r, "stats"), "loves") == row.statsLoves
            && Get(Get(r, "stats"), "favorites") == row.statsFavorites
            && Get(Get(r, "stats"), "remixes") == row.statsRemixes
            && Get(Get(r, "remix"), "parent") == row.remixParent
            && Get(Get(r, "remix"), "root") == row.remixRoot
  {
    var fields := FormatProjectFromDb(row).fields;
    var history := fields[10].1.fields;
    var stats := fields[11].1.fields;
    var remix := fields[12].1.fields;
    assert Get(FormatProjectFromDb(row), "history") == Obj(history) by { LookupAt(fields, 10); }
    assert Get(FormatProjectFromDb(row), "stats") == Obj(stats) by { LookupAt(fields, 11); }
    assert Get(FormatProjectFromDb(row), "remix") == Obj(remix) by { LookupAt(fields, 12); }
    LookupAt(history, 0); LookupAt(history, 1); LookupAt(history, 2);
    LookupAt(stats, 0); LookupAt(stats, 1); LookupAt(stats, 2); LookupAt(stats, 3);
    LookupAt(remix, 0); LookupAt(remix, 1);
  }

  /** The mapping loses nothing: two rows with the same API record are the
      same row. */
  lemma FormatProjectFromDbInjective(a: ProjectRow, b: ProjectRow)
    requires FormatProjectFromDb(a) == FormatProjectFromDb(b)
    ensures a == b
  {
    FormatProjectConvertsIds(a);
    FormatProjectConvertsIds(b);
    FormatProjectCopiesText(a);
    FormatProjectCopiesText(b);
    FormatProjectCopiesSettings(a);
    FormatProjectCopiesSettings(b);
    FormatProjectGroupsColumns(a);
    FormatProjectGroupsColumns(b);
  }

  /** The mapping loses nothing but the exact `scratchteam` column: two rows
      with the same API record agree on every other column. */
  lemma FormatUserFromDbInjective(a: UserRow, b: UserRow)
    requires FormatUserFromDb(a) == FormatUserFromDb(b)
    ensures a.(scratchteam := Null) == b.(scratchteam := Null)
    ensures a.scratchteam == Num(1) <==> b.scratchteam == Num(1)
  {
  }
}
