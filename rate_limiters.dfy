/** The fixed-window limiters of utils/ratelimit/advancedLimiters.js. Both
    keep one record per key in a shared `MemoryCache` (TTL 3600 s, sweep every
    300 s, at most 10000 records) and decide each request from that record.

    Each middleware is a pure step over the store state (`UserStep`,
    `DynamicStep`) and a method on the shared store that performs the same
    reads and writes (`Limiters.UserRateLimiter`, `Limiters.DynamicRateLimiter`).
    The response is returned as an `Outcome` instead of being written to `res`.
    The one clock reading of a request is `now`. */
module RateLimit {
  import opened Common
  import opened Text
  import opened Js
  import Cache

  /** `Math.ceil(a / b)` for a positive divisor. */
  function CeilDiv(a: int, b: int): (q: int)
    requires b > 0
    ensures q * b >= a && (q - 1) * b < a
  {
    -((-a) / b)
  }

  /** `Math.max(0, x)` */
  function NonNegative(x: int): (r: int)
    ensures r >= 0 && r >= x && (r == 0 || r == x)
  {
    if x < 0 then 0 else x
  }

  /** The record kept per key. The user limiter stores no `limit` (`None`),
      the dynamic limiter stores the limit it last applied. */
  datatype RequestData = RequestData(count: int, resetTime: int, limit: Option<int>)

  /** The parts of an Express request the limiters read. */
  datatype Request = Request(headers: Value, query: Value, cookies: Value, ip: Value)

  /** The three `X-RateLimit-*` headers. */
  datatype Headers = Headers(limit: int, remaining: int, reset: int)

  /** The JSON body of a 429 response: the configured message object with
      `limit`, `remaining: 0` and `reset` (minutes) added. */
  datatype RejectBody = RejectBody(message: Value, limit: int, remaining: int, reset: int)

  datatype Outcome =
    | Skipped                              // `skip` held: `next()` without headers
    | Allowed(headers: Headers)            // headers set, then `next()`
    | Rejected(headers: Headers, body: RejectBody)  // 429 with the default body
    | Handled(headers: Headers)            // over the limit, passed to the custom handler

  /** The default messages, as JSON objects. */
  const UserLimitMessage: Value :=
    Obj([("status", Str("error")), ("message", Str("您的请求过于频繁，请稍后再试")), ("retryAfter", Str("1小时"))])
  const DynamicLimitMessage: Value :=
    Obj([("status", Str("error")), ("message", Str("请求过于频繁，请稍后再试"))])

  const HourMs := 60 * 60 * 1000

  /** Options of `createUserRateLimiter`; `None` is an omitted option. */
  datatype UserOptions = UserOptions(
    windowMs: Option<int>, max: Option<int>, message: Value,
    getUserId: Option<Request -> Value>, keyGenerator: Option<Request -> string>,
    skip: Option<Request -> bool>, hasHandler: bool)

  datatype UserConfig = UserConfig(
    windowMs: int, max: int, message: Value,
    getUserId: Request -> Value, keyGenerator: Option<Request -> string>,
    skip: Request -> bool, hasHandler: bool)

  /** The default `getUserId`: the `x-user-id` header, else `query.userId`,
      else the `userId` cookie, else `'anonymous'`; the first truthy one wins. */
  function DefaultUserId(req: Request): (id: Value)
    ensures Truthy(id)
    ensures Truthy(Get(req.headers, "x-user-id")) ==> id == Get(req.headers, "x-user-id")
    ensures !Truthy(Get(req.headers, "x-user-id")) && Truthy(Get(req.query, "userId"))
            ==> id == Get(req.query, "userId")
    ensures !Truthy(Get(req.headers, "x-user-id")) && !Truthy(Get(req.query, "userId"))
            && Truthy(req.cookies) && Truthy(Get(req.cookies, "userId"))
            ==> id == Get(req.cookies, "userId")
    ensures (!Truthy(Get(req.headers, "x-user-id")) && !Truthy(Get(req.query, "userId"))
             && !(Truthy(req.cookies) && Truthy(Get(req.cookies, "userId")))) ==> id == Str("anonymous")
  {
    var header := Get(req.headers, "x-user-id");
    var query := Get(req.query, "userId");
    if Truthy(header) then header
    else if Truthy(query) then query
    else if Truthy(req.cookies) && Truthy(Get(req.cookies, "userId")) then Get(req.cookies, "userId")
    else Str("anonymous")
  }

  /** The `config` of `createUserRateLimiter`: `x || default` for each option. */
  function UserConfigOf(o: UserOptions): (c: UserConfig)
    ensures c.windowMs == (if o.windowMs.Some? && o.windowMs.value != 0 then o.windowMs.value else HourMs)
    ensures c.max == (if o.max.Some? && o.max.value != 0 then o.max.value else 1000)
    ensures c.message == (if Truthy(o.message) then o.message else UserLimitMessage)
    ensures o.skip.None? ==> forall req :: !c.skip(req)
    ensures o.getUserId.None? ==> forall req :: c.getUserId(req) == DefaultUserId(req)
  {
    UserConfig(
      if o.windowMs.Some? && o.windowMs.value != 0 then o.windowMs.value else HourMs,
      if o.max.Some? && o.max.value != 0 then o.max.value else 1000,
      if Truthy(o.message) then o.message else UserLimitMessage,
      if o.getUserId.Some? then o.getUserId.value else DefaultUserId,
      o.keyGenerator,
      if o.skip.Some? then o.skip.value else (req: Request) => false,
      o.hasHandler)
  }

  /** The store key of a request under the user limiter. */
  function UserKey(cfg: UserConfig, req: Request): string
  {
    if cfg.keyGenerator.Some? then cfg.keyGenerator.value(req)
    else "user-rate-limit:" + ToStr(cfg.getUserId(req))
  }

  /** The record a request works on: a new window when the key has no live
      record or its window is over (`now > resetTime`), the stored record
      otherwise; in both cases with the count incremented. */
  function UserRecord(cfg: UserConfig, found: Option<RequestData>, now: int): (rd: RequestData)
    ensures found.None? || now > found.value.resetTime ==>
              rd == RequestData(1, now + cfg.windowMs, None)
    ensures found.Some? && now <= found.value.resetTime ==>
              rd == found.value.(count := found.value.count + 1)
  {
    var newWindow := RequestData(0, now + cfg.windowMs, None);
    var current := if found.None? then newWindow else found.value;
    var current := if now > current.resetTime then newWindow else current;
    current.(count := current.count + 1)
  }

  /** Headers, then the decision on the incremented count. */
  function Decide(max: int, message: Value, hasHandler: bool, rd: RequestData, now: int): (out: Outcome)
    ensures !out.Skipped?
    ensures out.headers == Headers(max, NonNegative(max - rd.count), CeilDiv(rd.resetTime, 1000))
    ensures out.Allowed? <==> rd.count <= max
    ensures out.Handled? <==> rd.count > max && hasHandler
    ensures out.Rejected? ==> out.body == RejectBody(message, max, 0, CeilDiv(rd.resetTime - now, 60000))
  {
    var headers := Headers(max, NonNegative(max - rd.count), CeilDiv(rd.resetTime, 1000));
    if rd.count > max then
      if hasHandler then Handled(headers)
      else Rejected(headers, RejectBody(message, max, 0, CeilDiv(rd.resetTime - now, 60000)))
    else Allowed(headers)
  }

  /** The TTL, in seconds, the limiters give each record: `windowMs / 1000`. */
  function WindowTtl(windowMs: int): (ttl: real)
    ensures ttl * 1000.0 == windowMs as real
  {
    windowMs as real / 1000.0
  }

  /** One request through `userRateLimiter` against the store state `st`. */
  function UserStep(cfg: UserConfig, st: Cache.State<RequestData>, opts: Cache.Options, req: Request, now: int)
    : (res: (Cache.State<RequestData>, Outcome))
    requires Cache.WellFormed(st)
    ensures Cache.WellFormed(res.0)
    // A skipped request neither reads nor writes the store.
    ensures cfg.skip(req) <==> res.1.Skipped?
    ensures cfg.skip(req) ==> res.0 == st
    ensures !cfg.skip(req) ==>
              var key := UserKey(cfg, req);
              var found := Cache.GetSpec(st, key, now).1;
              var rd := UserRecord(cfg, found, now);
              key in res.0.entries && res.0.entries[key].value == rd
              && res.0.entries[key].expiry == (now + cfg.windowMs) as real
              && res.1 == Decide(cfg.max, cfg.message, cfg.hasHandler, rd, now)
    // Other keys keep their records unless the write had to evict one.
    ensures !cfg.skip(req) && |st.order| < opts.maxSize ==>
              forall k :: k in st.entries && k != UserKey(cfg, req) ==>
                k in res.0.entries && res.0.entries[k] == st.entries[k]
    // The read counts a hit or a miss and the write a set; below capacity the
    // only delete is that of an expired record under the key.
    ensures !cfg.skip(req) ==>
              var key := UserKey(cfg, req);
              var live := key in st.entries && !Cache.Expired(st.entries[key], now);
              res.0.stats.hits == st.stats.hits + (if live then 1 else 0)
              && res.0.stats.misses == st.stats.misses + (if live then 0 else 1)
              && res.0.stats.sets == st.stats.sets + 1
    ensures !cfg.skip(req) && |st.order| < opts.maxSize ==>
              var key := UserKey(cfg, req);
              res.0.stats.deletes
              == st.stats.deletes + (if key in st.entries && Cache.Expired(st.entries[key], now) then 1 else 0)
  {
    if cfg.skip(req) then (st, Skipped)
    else
      var key := UserKey(cfg, req);
      var (st1, found) := Cache.GetSpec(st, key, now);
      var rd := UserRecord(cfg, found, now);
      var st2 := Cache.SetSpec(st1, opts, key, rd, Some(WindowTtl(cfg.windowMs)), now);
      (st2, Decide(cfg.max, cfg.message, cfg.hasHandler, rd, now))
  }

  /** Options of `createDynamicRateLimiter`; `None` is an omitted option. */
  datatype DynamicOptions = DynamicOptions(
    getLimit: Option<Request -> int>, windowMs: Option<int>,
    keyGenerator: Option<Request -> string>, message: Value,
    skip: Option<Request -> bool>, hasHandler: bool)

  datatype DynamicConfig = DynamicConfig(
    getLimit: Request -> int, windowMs: int, keyGenerator: Request -> string,
    message: Value, skip: Request -> bool, hasHandler: bool)

  /** The default key of the dynamic limiter: `dynamic-rate-limit:<ip>`. */
  function DefaultDynamicKey(req: Request): string
  {
    "dynamic-rate-limit:" + ToStr(req.ip)
  }

  function DynamicConfigOf(o: DynamicOptions): (c: DynamicConfig)
    ensures c.windowMs == (if o.windowMs.Some? && o.windowMs.value != 0 then o.windowMs.value else HourMs)
    ensures o.getLimit.None? ==> forall req :: c.getLimit(req) == 100
    ensures o.keyGenerator.None? ==> forall req :: c.keyGenerator(req) == DefaultDynamicKey(req)
    ensures c.message == (if Truthy(o.message) then o.message else DynamicLimitMessage)
    ensures o.skip.None? ==> forall req :: !c.skip(req)
  {
    DynamicConfig(
      if o.getLimit.Some? then o.getLimit.value else (req: Request) => 100,
      if o.windowMs.Some? && o.windowMs.value != 0 then o.windowMs.value else HourMs,
      if o.keyGenerator.Some? then o.keyGenerator.value else DefaultDynamicKey,
      if Truthy(o.message) then o.message else DynamicLimitMessage,
      if o.skip.Some? then o.skip.value else (req: Request) => false,
      o.hasHandler)
  }

  /** The record of the dynamic limiter: like `UserRecord`, with the current
      limit written into it. A live record keeps its count and window when
      only the limit changes. */
  function DynamicRecord(windowMs: int, found: Option<RequestData>, limit: int, now: int): (rd: RequestData)
    ensures rd.limit == Some(limit)
    ensures found.None? || now > found.value.resetTime ==>
              rd == RequestData(1, now + windowMs, Some(limit))
    ensures found.Some? && now <= found.value.resetTime ==>
              rd.count == found.value.count + 1 && rd.resetTime == found.value.resetTime
  {
    var current :=
      if found.None? then RequestData(0, now + windowMs, Some(limit))
      else if found.value.limit != Some(limit) then found.value.(limit := Some(limit))
      else found.value;
    var current := if now > current.resetTime then RequestData(0, now + windowMs, Some(limit)) else current;
    current.(count := current.count + 1)
  }

  /** One request through `dynamicRateLimiter`. */
  function DynamicStep(cfg: DynamicConfig, st: Cache.State<RequestData>, opts: Cache.Options, req: Request, now: int)
    : (res: (Cache.State<RequestData>, Outcome))
    requires Cache.WellFormed(st)
    ensures Cache.WellFormed(res.0)
    ensures cfg.skip(req) <==> res.1.Skipped?
    ensures cfg.skip(req) ==> res.0 == st
    ensures !cfg.skip(req) ==>
              var key := cfg.keyGenerator(req);
              var rd := DynamicRecord(cfg.windowMs, Cache.GetSpec(st, key, now).1, cfg.getLimit(req), now);
              key in res.0.entries && res.0.entries[key].value == rd
              && res.0.entries[key].expiry == (now + cfg.windowMs) as real
              && res.1 == Decide(cfg.getLimit(req), cfg.message, cfg.hasHandler, rd, now)
    // Other keys keep their records unless the write had to evict one.
    ensures !cfg.skip(req) && |st.order| < opts.maxSize ==>
              forall k :: k in st.entries && k != cfg.keyGenerator(req) ==>
                k in res.0.entries && res.0.entries[k] == st.entries[k]
    // The read counts a hit or a miss and the write a set; below capacity the
    // only delete is that of an expired record under the key.
    ensures !cfg.skip(req) ==>
              var key := cfg.keyGenerator(req);
              var live := key in st.entries && !Cache.Expired(st.entries[key], now);
              res.0.stats.hits == st.stats.hits + (if live then 1 else 0)
              && res.0.stats.misses == st.stats.misses + (if live then 0 else 1)
              && res.0.stats.sets == st.stats.sets + 1
    ensures !cfg.skip(req) && |st.order| < opts.maxSize ==>
              var key := cfg.keyGenerator(req);
              res.0.stats.deletes
              == st.stats.deletes + (if key in st.entries && Cache.Expired(st.entries[key], now) then 1 else 0)
  {
    if cfg.skip(req) then (st, Skipped)
    else
      var key := cfg.keyGenerator(req);
      var (st1, found) := Cache.GetSpec(st, key, now);
      var limit := cfg.getLimit(req);
      var rd := DynamicRecord(cfg.windowMs, found, limit, now);
      var st2 := Cache.SetSpec(st1, opts, key, rd, Some(WindowTtl(cfg.windowMs)), now);
      (st2, Decide(limit, cfg.message, cfg.hasHandler, rd, now))
  }

  /** The requests of one client at the times `times`, each through the user
      limiter, with the outcomes in order. */
  function UserRun(cfg: UserConfig, st: Cache.State<RequestData>, opts: Cache.Options, req: Request, times: seq<int>)
    : (res: (Cache.State<RequestData>, seq<Outcome>))
    requires Cache.WellFormed(st)
    ensures Cache.WellFormed(res.0) && |res.1| == |times|
    decreases |times|
  {
    if times == [] then (st, [])
    else
      var (st1, out) := UserStep(cfg, st, opts, req, times[0]);
      var (st2, outs) := UserRun(cfg, st1, opts, req, times[1..]);
      (st2, [out] + outs)
  }

  /** A window in progress: the key holds `count` requests of the window that
      ends at `resetTime`, and every request time lies inside that window.
      Then the i-th further request is allowed exactly when the count it
      reaches is at most `max`. */
  lemma {:induction false} WindowInProgress(cfg: UserConfig, st: Cache.State<RequestData>, opts: Cache.Options,
                                            req: Request, times: seq<int>, count: int, resetTime: int, i: nat)
    requires Cache.WellFormed(st) && !cfg.skip(req)
    requires UserKey(cfg, req) in st.entries
    requires st.entries[UserKey(cfg, req)].value.count == count
    requires st.entries[UserKey(cfg, req)].value.resetTime == resetTime
    requires st.entries[UserKey(cfg, req)].expiry >= resetTime as real
    requires forall j :: 0 <= j < |times| ==> resetTime - cfg.windowMs <= times[j] <= resetTime
    requires i < |times|
    ensures UserRun(cfg, st, opts, req, times).1[i].Allowed? <==> count + i + 1 <= cfg.max
    decreases i
  {
    var key := UserKey(cfg, req);
    var (st1, out) := UserStep(cfg, st, opts, req, times[0]);
    assert st1 == UserStep(cfg, st, opts, req, times[0]).0;
    assert !Cache.Expired(st.entries[key], times[0]);
    var rd := st.entries[key].value.(count := count + 1);
    assert Cache.GetSpec(st, key, times[0]).1 == Some(st.entries[key].value);
    assert UserRecord(cfg, Some(st.entries[key].value), times[0]) == rd;
    if i == 0 {
      assert out == Decide(cfg.max, cfg.message, cfg.hasHandler, rd, times[0]);
    } else {
      assert st1.entries[key].value == rd;
      WindowInProgress(cfg, st1, opts, req, times[1..], count + 1, resetTime, i - 1);
    }
  }

  /** With `max = N`, a client without a live window gets exactly its first N
      requests through in the window the first request opens, however the
      later requests are spread over it. */
  lemma FixedWindowAdmitsMax(cfg: UserConfig, st: Cache.State<RequestData>, opts: Cache.Options,
                             req: Request, times: seq<int>)
    requires Cache.WellFormed(st) && !cfg.skip(req) && cfg.windowMs > 0
    requires UserKey(cfg, req) !in st.entries
    requires times != []
    requires forall i :: 0 <= i < |times| ==> times[0] <= times[i] <= times[0] + cfg.windowMs
    ensures var outs := UserRun(cfg, st, opts, req, times).1;
            forall i :: 0 <= i < |times| ==> (outs[i].Allowed? <==> i < cfg.max)
  {
    var (st1, out) := UserStep(cfg, st, opts, req, times[0]);
    assert st1 == UserStep(cfg, st, opts, req, times[0]).0;
    var outs := UserRun(cfg, st, opts, req, times).1;
    forall i | 0 <= i < |times| ensures outs[i].Allowed? <==> i < cfg.max {
      if i > 0 {
        WindowInProgress(cfg, st1, opts, req, times[1..], 1, times[0] + cfg.windowMs, i - 1);
      }
    }
  }

  /** The dynamic limiter applies a changed limit to the running window: the
      count goes on from the stored one and the request is turned away exactly
      when that count exceeds the new limit. */
  lemma DynamicLimitChangeKeepsWindow(cfg: DynamicConfig, st: Cache.State<RequestData>, opts: Cache.Options,
                                      req: Request, now: int)
    requires Cache.WellFormed(st) && !cfg.skip(req)
    requires cfg.keyGenerator(req) in st.entries
    requires !Cache.Expired(st.entries[cfg.keyGenerator(req)], now)
    requires now <= st.entries[cfg.keyGenerator(req)].value.resetTime
    ensures var prev := st.entries[cfg.keyGenerator(req)].value;
            var (st1, out) := DynamicStep(cfg, st, opts, req, now);
            var rd := st1.entries[cfg.keyGenerator(req)].value;
            rd == RequestData(prev.count + 1, prev.resetTime, Some(cfg.getLimit(req)))
            && (out.Allowed? <==> prev.count + 1 <= cfg.getLimit(req))
  {
  }

  /** After `resetUserRateLimit(u)`, the next request of user `u` opens a new
      window with count 1. */
  lemma ResetOpensNewWindow(cfg: UserConfig, st: Cache.State<RequestData>, opts: Cache.Options,
                            req: Request, now: int)
    requires Cache.WellFormed(st) && !cfg.skip(req) && cfg.keyGenerator.None?
    ensures var st1 := Cache.DeleteSpec(st, "user-rate-limit:" + ToStr(cfg.getUserId(req))).0;
            var st2 := UserStep(cfg, st1, opts, req, now).0;
            st2.entries[UserKey(cfg, req)].value == RequestData(1, now + cfg.windowMs, None)
  {
  }

  /** The shared `userRequestCache` and the middlewares that use it. */
  class Limiters {
    const store: Cache.MemoryCache<RequestData>

    constructor ()
      ensures store.Valid()
      ensures store.View() == Cache.State([], map[], Cache.ZeroCounters)
      ensures store.options == Cache.Options(3600.0, 300.0, 10000)
    {
      store := new Cache.MemoryCache(Cache.CacheOptions(Some(3600.0), Some(300.0), Some(10000)));
    }

    /** `userRateLimiter(req, res, next)` */
    method UserRateLimiter(cfg: UserConfig, req: Request, now: int) returns (out: Outcome)
      requires store.Valid()
      modifies store
      ensures store.Valid()
      ensures (store.View(), out) == UserStep(cfg, old(store.View()), store.options, req, now)
    {
      if cfg.skip(req) {
        out := Skipped;
        return;
      }
      var userId := cfg.getUserId(req);
      var key := if cfg.keyGenerator.Some? then cfg.keyGenerator.value(req)
                 else "user-rate-limit:" + ToStr(userId);
      assert key == UserKey(cfg, req);
      var requestData := store.Get(key, now);
      ghost var afterGet := store.View();
      var data: RequestData;
      if requestData.None? {
        data := RequestData(0, now + cfg.windowMs, None);
      } else {
        data := requestData.value;
      }
      if now > data.resetTime {
        data := RequestData(0, now + cfg.windowMs, None);
      }
      data := data.(count := data.count + 1);
      assert data == UserRecord(cfg, requestData, now);
      store.Set(key, data, Some(cfg.windowMs as real / 1000.0), now);
      assert store.View() == Cache.SetSpec(afterGet, store.options, key, data, Some(WindowTtl(cfg.windowMs)), now);
      // Headers, then the 429 response or `next()`.
      out := Decide(cfg.max, cfg.message, cfg.hasHandler, data, now);
    }

    /** `dynamicRateLimiter(req, res, next)` */
    method DynamicRateLimiter(cfg: DynamicConfig, req: Request, now: int) returns (out: Outcome)
      requires store.Valid()
      modifies store
      ensures store.Valid()
      ensures (store.View(), out) == DynamicStep(cfg, old(store.View()), store.options, req, now)
    {
      if cfg.skip(req) {
        out := Skipped;
        return;
      }
      var key := cfg.keyGenerator(req);
      var requestData := store.Get(key, now);
      ghost var afterGet := store.View();
      var currentLimit := cfg.getLimit(req);
      var data: RequestData;
      if requestData.None? {
        data := RequestData(0, now + cfg.windowMs, Some(currentLimit));
      } else if requestData.value.limit != Some(currentLimit) {
        data := requestData.value.(limit := Some(currentLimit));
      } else {
        data := requestData.value;
      }
      if now > data.resetTime {
        data := RequestData(0, now + cfg.windowMs, Some(currentLimit));
      }
      data := data.(count := data.count + 1);
      assert data == DynamicRecord(cfg.windowMs, requestData, currentLimit, now);
      store.Set(key, data, Some(cfg.windowMs as real / 1000.0), now);
      assert store.View() == Cache.SetSpec(afterGet, store.options, key, data, Some(WindowTtl(cfg.windowMs)), now);
      assert data.limit == Some(currentLimit);
      out := Decide(data.limit.value, cfg.message, cfg.hasHandler, data, now);
    }

    /** `getUserRateLimitStats()` */
    function GetUserRateLimitStats(): (s: Cache.CacheStats)
      reads store
      ensures s == Cache.StatsOf(store.View())
    {
      store.GetStats()
    }

    /** `resetUserRateLimit(userId)`: deletes the user's record and reports
        whether there was one. */
    method ResetUserRateLimit(userId: Value) returns (existed: bool)
      requires store.Valid()
      modifies store
      ensures store.Valid()
      ensures existed <==> "user-rate-limit:" + ToStr(userId) in old(store.View()).entries
      ensures store.View() == Cache.DeleteSpec(old(store.View()), "user-rate-limit:" + ToStr(userId)).0
    {
      existed := store.Delete("user-rate-limit:" + ToStr(userId));
    }

    /** `resetAllUserRateLimits()`: empties the store and zeroes its counters. */
    method ResetAllUserRateLimits()
      modifies store
      ensures store.Valid()
      ensures store.View() == Cache.ClearSpec()
    {
      store.Clear();
    }
  }
}
