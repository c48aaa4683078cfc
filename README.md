# scratchmirror caching, throttling and request-hygiene core in Dafny

This project models the in-process layer of the scratchmirror API proxy. It
proves properties of that model.

- **`MemoryCache`** (module `Cache`, `memory_cache.dfy`) is a TTL cache. It
  keeps entries in insertion order and expires them lazily on `get`/`has`.
  It has a `maxSize` bound with eviction of the least recently accessed entry,
  and hit/miss/set/delete counters. The pure functions on `State` (`GetSpec`,
  `SetSpec`, ...) say what each operation does. The class `MemoryCache`
  performs the operations in place and is proved equal to them.
- **Cache manager** (module `CacheManager`, `cache_manager.dfy`) covers:
  - the six named caches;
  - cache-key derivation with sorted parameters;
  - the search-result fan-out into the projects cache;
  - the per-kind put/get operations, stats and clearing;
  - the database-row mappers.

  Only the in-memory half is modelled: the database is disabled.
- **Rate limiters** (module `RateLimit`, `rate_limiters.dfy`) are the user and
  dynamic fixed-window limiters over one shared `MemoryCache`. Each middleware
  is a pure step over the store (`UserStep`, `DynamicStep`) and a method on
  the shared store that is proved equal to it.
- **Query validation** (module `Validation`, `validation.dfy`) is the
  schema-driven loop of `validateAndSanitizeQuery` and
  `validateAndSanitizeValue`.
- **String sanitizer** (module `Sanitize`, `sanitize.dfy`) is
  `sanitizeString`: the five global replacements, each modelled as a
  left-to-right scanner.
- **CORS origin check** (module `Cors`, `cors.dfy`), **error responses and
  `ApiError`** (module `ErrorHandler`, `error_handler.dfy`), **environment
  configuration** (module `Environment`, `env_config.dfy`) and **log masking,
  level filter and plain-text layout** (module `Logger`, `logger.dfy`).

Shared modules:

- `Common`: `Option` and `Result`.
- `Text`: ASCII case mapping, ECMAScript white-space trimming, joining, splitting, number printing,
  and a total order standing for `localeCompare`.
- `Js`: JSON-like JavaScript values with truthiness, `String(v)`, property
  lookup and assignment.

Inputs that the system gets from the runtime are parameters:

- the clock is `now`, in milliseconds;
- `NODE_ENV` is an input;
- the hostname of `new URL(origin)` is an input;
- `Number(v)`, `JSON.parse`, `new URL` and a rule's regular expression are
  functions in `Validation.Parsers` or `Rules.pattern`;
- `JSON.stringify` is a parameter of the log layout.

Where the code and its tests disagree, the model follows the code. The
known cases:

- the cache tests expect `size()` and a numeric hit rate, which the cache does
  not have;
- the sanitizer test expects `Hello` for a `<script>` input, but the tag step
  keeps the script's text.

## Model

| member | source | states |
|---|---|---|
| Cache.Resolve | utils/cache/memoryCache.js:15-19 | an omitted or zero option takes its default: TTL 3600 s, sweep 300 s, 1000 entries |
| Cache.Capacity | utils/cache/memoryCache.js:59-61 | the bound a cache keeps is `maxSize` when that is at least one, and one otherwise, since `set` always stores its key |
| Cache.RemoveKey | utils/cache/memoryCache.js:82-88 | removing a key from the insertion order drops exactly that key, keeps keys distinct and shortens the order by one when the key was there; `RemoveKeyCutsOut` states that the other keys keep their order |
| Cache.RemoveKeyCutsOut | utils/cache/memoryCache.js:82-88 | `Map.delete` of a key at position i leaves the order with exactly that position cut out: the survivors keep their relative order |
| Cache.DeleteSpec | utils/cache/memoryCache.js:82-88 | `delete` returns true iff the key was present; only then is the entry removed, the key cut out of the insertion order (`RemoveKey`) and `deletes` incremented; otherwise nothing changes |
| Cache.GetSpec | utils/cache/memoryCache.js:32-49 | a live entry is returned and counts a hit with nothing else changed; a missing key counts only a miss; an expired entry is removed, cut out of the insertion order, and counts a miss and a delete |
| Cache.HasSpec | utils/cache/memoryCache.js:103-116 | `has` is true iff the entry is live, and then only that entry's `lastAccessed` becomes `now`; an expired entry is removed, cut out of the insertion order, and counts a delete; hits and misses never change |
| Cache.Expired | utils/cache/memoryCache.js:41 | an entry has expired when its expiry is non-zero and before `now`; at the expiry millisecond it is still live |
| Cache.OldestIndex | utils/cache/memoryCache.js:162-176 | the scan settles on an entry with the smallest `lastAccessed`, and every entry before it in insertion order has a strictly larger one, so ties go to the first |
| Cache.OldestKey | utils/cache/memoryCache.js:162-176 | the key eviction picks is stored and has a minimal `lastAccessed` |
| Cache.EvictSpec | utils/cache/memoryCache.js:162-176 | eviction removes exactly the oldest entry, cuts its key out of the insertion order with the others in their order, and counts a delete; it changes nothing on an empty cache or when that key is `''`, and never alters a kept entry |
| Cache.SetSpec | utils/cache/memoryCache.js:57-75 | the key then holds the value with expiry `now + ttl*1000` and `createdAt = lastAccessed = now`; `sets` grows by one; overwriting keeps the key's place and never evicts; a new key below `maxSize` is appended; at capacity exactly the oldest entry is evicted first, and the order is the old one without the oldest key, followed by the new key; the size bound is kept |
| Cache.ClearSpec | utils/cache/memoryCache.js:93-96 | after `clear` there are no entries and all four counters are zero |
| Cache.SweepRemovesExpired | utils/cache/memoryCache.js:149-156 | sweeping a list of keys removes exactly the visited expired entries, counts one delete per removal and keeps all other entries unchanged |
| Cache.Sweep | utils/cache/memoryCache.js:149-156 | the sweep over a list of keys keeps the cache well formed; `SweepRemovesExpired` states what it removes |
| Cache.CleanupSpec | utils/cache/memoryCache.js:149-156 | `cleanup(now)` keeps exactly the live entries, unchanged, counts each removal as a delete, and leaves the insertion order as the old order with the expired keys (`ExpiredAmong`) dropped |
| Cache.Drop | utils/cache/memoryCache.js:149-156 | a key list without the keys of a set: exactly the other keys, in their order, still distinct |
| Cache.RemoveKeyAfterDrop | utils/cache/memoryCache.js:82-88 | deleting one more key after dropping a set is dropping the set with that key |
| Cache.DropNothing | utils/cache/memoryCache.js:149-156 | dropping no key leaves the order as it was |
| Cache.SweepOrder | utils/cache/memoryCache.js:149-156 | sweeping keeps the insertion order of the survivors: the new order is the old one with the visited expired keys dropped |
| Cache.StatsOf | utils/cache/memoryCache.js:122-132 | the stats copy the counters, `size` is the number of keys, and the hit rate is hits/(hits+misses) in [0,1], 0 before any read |
| Cache.SizeIsEntryCount | utils/cache/memoryCache.js:122-132 | in a well-formed cache the reported `size` equals the number of stored entries |
| Cache.SetThenGet | utils/cache/memoryCache.js:32-75 | after `set(k,v,ttl)` at `now`, `get(k)` at any time up to `now + ttl*1000` (default TTL when omitted) returns `v` and counts a hit |
| Cache.SetThenGetAfterExpiry | utils/cache/memoryCache.js:32-75 | once more than `ttl*1000` ms have passed, `get(k)` misses and the entry is gone |
| Cache.GetKeepsLastAccessed | utils/cache/memoryCache.js:32-49 | `get` never changes any entry's `lastAccessed` |
| Cache.SetsStayWithinCapacity | utils/cache/memoryCache.js:57-75 | any sequence of `set`s with non-empty keys, with any values, TTLs and times, keeps a cache within its capacity |
| Cache.MemoryCache.constructor | utils/cache/memoryCache.js:7-25 | a new cache is empty with zero counters and the resolved options |
| Cache.MemoryCache.Get | utils/cache/memoryCache.js:32-49 | the in-place `get` yields the state and answer of `GetSpec` |
| Cache.MemoryCache.Set | utils/cache/memoryCache.js:57-75 | the in-place `set` yields the state of `SetSpec` |
| Cache.MemoryCache.Delete | utils/cache/memoryCache.js:82-88 | the in-place `delete` yields the state and answer of `DeleteSpec` |
| Cache.MemoryCache.Clear | utils/cache/memoryCache.js:93-96 | the in-place `clear` yields the empty state with zero counters |
| Cache.MemoryCache.Has | utils/cache/memoryCache.js:103-116 | the in-place `has` yields the state and answer of `HasSpec` |
| Cache.MemoryCache.GetStats | utils/cache/memoryCache.js:122-132 | `getStats` reports `StatsOf` of the current state |
| Cache.MemoryCache.ResetStats | utils/cache/memoryCache.js:137-144 | all counters become zero and the entries are untouched |
| Cache.MemoryCache.Cleanup | utils/cache/memoryCache.js:149-156 | the loop over the keys yields `CleanupSpec` of the old state |
| Cache.MemoryCache.EvictOldest | utils/cache/memoryCache.js:162-176 | the scan (`ScanOldest`) followed by the truthiness test on the key and the delete yields `EvictSpec` of the old state |
| Cache.ScanOldest | utils/cache/memoryCache.js:163-171 | the loop with a strict `<` settles on the first key with the smallest `lastAccessed` (`OldestIndex`), and on nothing in an empty cache |
| CacheManager.InsertByName | utils/cache/cacheManager.js:34-40 | inserting a pair keeps every pair and adds exactly that one (as a multiset) |
| CacheManager.SortByName | utils/cache/cacheManager.js:34-40 | the params are permuted into name order, and distinct names stay distinct |
| CacheManager.SortedUnique | utils/cache/cacheManager.js:34-40 | two name-sorted permutations of the same params with distinct names are equal |
| CacheManager.GenerateCacheKey | utils/cache/cacheManager.js:31-43 | the key is `type:id` without params, and `type:id:` followed by the name-sorted `k=v` pairs joined by `&` otherwise |
| CacheManager.KeyIgnoresParamOrder | utils/cache/cacheManager.js:31-43 | any reordering of the params gives the same key |
| CacheManager.FirstNullish | utils/cache/cacheManager.js:169-175 | the position where the `forEach` throws: the first `null` or `undefined` item, or none |
| CacheManager.FanOut | utils/cache/cacheManager.js:169-175 | the copies of project items (`IsProjectItem`: type `project` and a truthy id) into the projects cache, each under `ProjectKey`, `project:<id>`, keep that cache well formed |
| CacheManager.FanOutSkipsOtherItems | utils/cache/cacheManager.js:168-175 | items that are not projects with a truthy id cause no write |
| CacheManager.FanOutWritesOnlyProjectKeys | utils/cache/cacheManager.js:168-175 | every entry of the result is either an entry the cache had before, unchanged, or one under `project:<id>` of a project item; other entries may still be evicted |
| CacheManager.FanOutStoresLastProject | utils/cache/cacheManager.js:168-175 | the last project item ends up in the projects cache under its key, whatever eviction earlier writes caused |
| CacheManager.ClearOutcomeOf | utils/cache/cacheManager.js:249-253 | `clearCache(type)` clears a cache iff the type is one of the six names; it throws a TypeError iff the type is not one of them but names an `Object.prototype` member (no `clear` on it); any other type is a no-op |
| CacheManager.CacheManager.constructor | utils/cache/cacheManager.js:15-22 | six distinct empty caches with TTLs 3600, 1800, 7200, 7200, 3600 and 600 s and 1000 entries each |
| CacheManager.CacheManager.All | utils/cache/cacheManager.js:15-22 | there is one cache per name in `CacheNames` |
| CacheManager.CacheManager.CacheUserData | utils/cache/cacheManager.js:121-135 | a falsy record or id writes nothing; otherwise the record is set under `user:<id>` |
| CacheManager.CacheManager.CacheProjectData | utils/cache/cacheManager.js:141-155 | a falsy record or id writes nothing; otherwise the record is set under `project:<id>` |
| CacheManager.CacheManager.CacheSearchResults | utils/cache/cacheManager.js:164-176 | results are set under the search key (`SearchKey`, `generateCacheKey(type, 'projects', params)`); a non-array writes nothing else; an array is fanned out up to its first nullish item, where the call throws |
| CacheManager.CacheManager.CopyProjectItems | utils/cache/cacheManager.js:169-175 | the `forEach` loop yields `FanOut` of the items before the first nullish one, and reports whether it got through |
| CacheManager.CacheManager.GetSearchResultsFromCache | utils/cache/cacheManager.js:184-187 | a `get` on the search cache under the same key `cacheSearchResults` uses (`SearchKey`) |
| CacheManager.CacheManager.CacheThumbnail | utils/cache/cacheManager.js:195-198 | a `set` on the thumbnails cache under `thumbnail:<id>`, touching no other cache |
| CacheManager.CacheManager.GetThumbnailFromCache | utils/cache/cacheManager.js:205-208 | a `get` on the thumbnails cache under `thumbnail:<id>` |
| CacheManager.CacheManager.CacheAvatar | utils/cache/cacheManager.js:216-219 | a `set` on the avatars cache under `avatar:<id>`, touching no other cache |
| CacheManager.CacheManager.GetAvatarFromCache | utils/cache/cacheManager.js:226-229 | a `get` on the avatars cache under `avatar:<id>` |
| CacheManager.CacheManager.GetCacheStats | utils/cache/cacheManager.js:235-243 | exactly one stats entry per named cache, in declaration order |
| CacheManager.CacheManager.ClearCache | utils/cache/cacheManager.js:249-253 | the named cache is cleared and every other cache is unchanged; an unknown name changes nothing |
| CacheManager.CacheManager.ClearAllCaches | utils/cache/cacheManager.js:258-262 | all six caches are empty with zero counters |
| CacheManager.SearchRoundTrip | utils/cache/cacheManager.js:164-187 | storing results and reading them back with the same params, in any order, returns them until they expire |
| CacheManager.FormatUserFromDb | utils/cache/cacheManager.js:269-284 | `scratchteam` is true iff the column is 1, and id, username, join date and profile fields are copied unchanged |
| CacheManager.FormatUserFromDbInjective | utils/cache/cacheManager.js:269-284 | the mapping loses nothing but the exact `scratchteam` column |
| CacheManager.FormatProjectFromDb | utils/cache/cacheManager.js:291-319 | a project record is an object; its properties, in order, and their values are stated by the lemmas below |
| CacheManager.FormatProjectKeys | utils/cache/cacheManager.js:291-319 | the record has exactly the thirteen API properties, in the API order |
| CacheManager.FormatProjectGroupKeys | utils/cache/cacheManager.js:303-317 | `history`, `stats` and `remix` are objects with exactly their properties, in order |
| CacheManager.FormatProjectConvertsIds | utils/cache/cacheManager.js:293-301 | `id` and `author_id` are the row's ids as numbers |
| CacheManager.FormatProjectCopiesText | utils/cache/cacheManager.js:294-302 | `title`, `description`, `instructions` and `image` are the row's columns unchanged |
| CacheManager.FormatProjectCopiesSettings | utils/cache/cacheManager.js:297-300 | `visibility`, `public`, `comments_allowed` and `is_published` are the row's columns unchanged |
| CacheManager.FormatProjectGroupsColumns | utils/cache/cacheManager.js:291-319 | `history` holds created, modified and shared, `stats` views, loves, favorites and remixes, `remix` parent and root, each the row's column |
| CacheManager.FormatProjectFromDbInjective | utils/cache/cacheManager.js:291-319 | the mapping loses nothing: rows with the same record are the same row |
| RateLimit.CeilDiv | utils/ratelimit/advancedLimiters.js:86 | `Math.ceil(a / b)`: the least `q` with `q * b >= a` |
| RateLimit.NonNegative | utils/ratelimit/advancedLimiters.js:85 | `Math.max(0, x)` |
| RateLimit.DefaultUserId | utils/ratelimit/advancedLimiters.js:29-36 | the id is the first truthy one of the `x-user-id` header, `query.userId` and the `userId` cookie (when the cookies object is truthy), falling back to `'anonymous'`, and is always truthy |
| RateLimit.UserConfigOf | utils/ratelimit/advancedLimiters.js:21-40 | window one hour, 1000 requests, the default message, the default id and no skipping when the options leave them out |
| RateLimit.UserRecord | utils/ratelimit/advancedLimiters.js:58-78 | no live record or `now > resetTime` opens a window with count 1 and `resetTime = now + windowMs`; otherwise the count grows by one in the same window |
| RateLimit.Decide | utils/ratelimit/advancedLimiters.js:84-106 | headers `max`, `max(0, max - count)` and the reset in seconds; allowed iff count <= max; otherwise the handler or a 429 whose `reset` is the remaining minutes |
| RateLimit.WindowTtl | utils/ratelimit/advancedLimiters.js:81 | the record's TTL is the window in seconds |
| RateLimit.UserStep | utils/ratelimit/advancedLimiters.js:43-107 | a skipped request is let through without reading or writing the store; otherwise the key (`UserKey`: the key generator's, else `user-rate-limit:<id>`) then holds the incremented record until the window ends, the outcome is `Decide` on it, other keys are untouched unless the store had to evict, the read counts a hit iff the record was live and a miss otherwise, the write counts a set, and below capacity the only delete is that of an expired record |
| RateLimit.DynamicConfigOf | utils/ratelimit/advancedLimiters.js:116-128 | window one hour, limit 100, key `DefaultDynamicKey`, `dynamic-rate-limit:<ip>`, the default message and no skipping when left out |
| RateLimit.DynamicRecord | utils/ratelimit/advancedLimiters.js:141-169 | the record carries the current limit; a new or ended window starts at count 1, a live one keeps its reset time and counts one more |
| RateLimit.DynamicStep | utils/ratelimit/advancedLimiters.js:131-198 | a skipped request touches nothing; otherwise the key holds the updated record until the window ends, the outcome is `Decide` against the current limit, other keys are untouched unless the store had to evict, and the counters move as in `UserStep`: a hit or a miss, one set, and below capacity a delete only for an expired record |
| RateLimit.UserRun | utils/ratelimit/advancedLimiters.js:43-107 | a run of requests gives one outcome per request |
| RateLimit.WindowInProgress | utils/ratelimit/advancedLimiters.js:58-106 | inside a running window each request adds exactly one, and the i-th further request is allowed iff the count it reaches is at most `max` |
| RateLimit.FixedWindowAdmitsMax | utils/ratelimit/advancedLimiters.js:58-106 | with `max = N`, exactly the first N requests within a fresh window are allowed |
| RateLimit.DynamicLimitChangeKeepsWindow | utils/ratelimit/advancedLimiters.js:141-191 | a changed limit keeps the count and reset time of the running window, and the request is turned away iff the count exceeds the new limit |
| RateLimit.ResetOpensNewWindow | utils/ratelimit/advancedLimiters.js:214-217 | after a reset, the user's next request opens a new window with count 1 |
| RateLimit.Limiters.constructor | utils/ratelimit/advancedLimiters.js:9-13 | the shared store is empty with TTL 3600 s, sweep 300 s and 10000 entries |
| RateLimit.Limiters.UserRateLimiter | utils/ratelimit/advancedLimiters.js:43-107 | the middleware's reads and in-place update of the store yield `UserStep` |
| RateLimit.Limiters.DynamicRateLimiter | utils/ratelimit/advancedLimiters.js:131-198 | the middleware's reads and in-place update of the store yield `DynamicStep` |
| RateLimit.Limiters.GetUserRateLimitStats | utils/ratelimit/advancedLimiters.js:205-207 | the store's stats |
| RateLimit.Limiters.ResetUserRateLimit | utils/ratelimit/advancedLimiters.js:214-217 | deletes `user-rate-limit:<id>` and returns whether it existed |
| RateLimit.Limiters.ResetAllUserRateLimits | utils/ratelimit/advancedLimiters.js:222-224 | the store is empty with zero counters |
| Sanitize.FindFrom | utils/security/validation.js:339 | a position at or after `from`; a found match fits inside the text |
| Sanitize.FindFromFirst | utils/security/validation.js:339 | `FindFrom` is the first position at or after `from` where the text matches case-insensitively |
| Sanitize.WordRun | utils/security/validation.js:342 | a run from `j` that stays inside the text |
| Sanitize.WordRunMaximal | utils/security/validation.js:342 | the run is the maximal run of `\w` characters |
| Sanitize.SpaceRun | utils/security/validation.js:342-345 | a run from `j` that stays inside the text |
| Sanitize.SpaceRunMaximal | utils/security/validation.js:342-345 | the run is the maximal run of `\s` characters |
| Sanitize.AttrValueRun | utils/security/validation.js:342 | a run from `j` that stays inside the text |
| Sanitize.AttrValueRunMaximal | utils/security/validation.js:342 | the run is the maximal run of `[^>\s]` characters |
| Sanitize.MatchLength | utils/security/validation.js:332-345 | a match never runs past the end |
| Sanitize.TagAndControlMatches | utils/security/validation.js:332-336 | the control pattern matches exactly a control character; the tag pattern matches exactly at a `<` that some later `>` closes |
| Sanitize.Replace | utils/security/validation.js:332-345 | deleting matches never lengthens the text |
| Sanitize.ReplaceKeepsChars | utils/security/validation.js:332-345 | deleting matches keeps only characters of the text |
| Sanitize.ReplaceAll | utils/security/validation.js:332-345 | a global replacement by `''` never lengthens the text and keeps only its characters |
| Sanitize.TagFreeAfterTagStep | utils/security/validation.js:332 | after tag stripping no `<` is followed anywhere later by `>` |
| Sanitize.ControlFreeAfterControlStep | utils/security/validation.js:336 | after the control step no character in `\x00-\x1F` or `\x7F` is left |
| Sanitize.NoTagPairSuffix | utils/security/validation.js:332-345 | a suffix of tag-free text is tag-free |
| Sanitize.ReplaceKeepsNoTagPair | utils/security/validation.js:336-345 | a later deletion never creates a tag |
| Sanitize.SanitizeString | utils/security/validation.js:323-348 | `''` for empty or non-string input; never longer than the input; only the input's characters |
| Sanitize.SanitizedIsSafe | utils/security/validation.js:323-348 | the result has no control character, and with HTML disallowed no `<` before a `>` |
| Validation.Message | utils/security/validation.js:28 | a parameter's message starts with `参数 <name> `, an item's with `<name> ` |
| Validation.Substring | utils/security/validation.js:66 | `substring(0, n)` is a prefix of length `n` clamped to the text |
| Validation.Slice | utils/security/validation.js:159 | `slice(0, n)` is a prefix; a negative end counts from the back |
| Validation.Cleaned | utils/security/validation.js:255-257 | the sanitized text is never longer |
| Validation.CheckString | utils/security/validation.js:45-76 | the value is the cleaned text when it fits `maxLength`, and cut to exactly `maxLength` with a "too long" error when longer; "too short" below `minLength`; valid iff no length or pattern check fails |
| Validation.CheckNumber | utils/security/validation.js:78-105 | below `min` the value becomes `min` and above `max` it becomes `max`, each with its error; a number in range is kept unchanged with no error; with `min > max`, a number below `min` is raised to `min`, then lowered to `max`, and both errors are reported |
| Validation.ValidateValue | utils/security/validation.js:240-315 | only string and number rules check anything; a non-string under a string rule becomes `String(value)`; a string is checked by `CheckString`; a readable number by `CheckNumber`, so it ends in [min, max]; an unreadable one is an error keeping the value |
| Validation.CheckItem | utils/security/validation.js:164-166 | an item is valid iff it has no errors |
| Validation.ItemIssuesEmpty | utils/security/validation.js:168-174 | the items report no errors iff every item is valid |
| Validation.AsArray | utils/security/validation.js:126-147 | an array is itself; a string is its JSON array when it parses to one, else its comma-separated parts, each trimmed; anything else is not an array |
| Validation.KeptItems | utils/security/validation.js:155-160 | the kept items are all of them when they fit `maxItems`, else the first `maxItems` |
| Validation.CheckArray | utils/security/validation.js:150-179 | "too few" below `minItems`; longer than `maxItems` is cut to the first `maxItems` items with an error; without item rules the kept items are stored as they are, with them each is stored as its item check left it and an invalid item makes it invalid; valid iff no errors |
| Validation.ParamStep | utils/security/validation.js:22-215 | throws iff the rules are nullish or an enum without `values` gets a value; a missing required value is a "required" error with no entry; a missing optional one gets its default or no entry |
| Validation.ThrowEndsTheLoop | utils/security/validation.js:22-216 | once one entry throws, the whole call throws that |
| Validation.RunSchema | utils/security/validation.js:22-216 | the loop over the schema entries yields `SchemaPass` |
| Validation.RunUnknown | utils/security/validation.js:220-228 | the loop over the query yields `UnknownPass` |
| Validation.ValidateAndSanitizeQuery | utils/security/validation.js:14-231 | the whole call yields `QuerySpec` |
| Validation.SchemaPass | utils/security/validation.js:22-216 | the result after the schema loop, entry by entry; its properties are the `SchemaPass*` lemmas |
| Validation.UnknownPass | utils/security/validation.js:220-228 | the result after the unknown-parameter loop; its properties are the `UnknownPass*` lemmas |
| Validation.QuerySpec | utils/security/validation.js:14-231 | the schema loop, then the unknown-parameter loop, or what the schema loop threw; its properties are the `Query*` lemmas and those below |
| Validation.SchemaPassWritesOnlyNames | utils/security/validation.js:22-216 | the schema loop writes only names of the schema |
| Validation.SchemaPassValidIffNoErrors | utils/security/validation.js:22-216 | after the schema loop, valid iff no error was recorded |
| Validation.SchemaPassEntry | utils/security/validation.js:22-216 | under each entry's name the result holds exactly what that entry wrote, with its errors kept |
| Validation.UnknownPassKeepsDefined | utils/security/validation.js:220-228 | the unknown-parameter loop leaves validity, errors and every schema-defined name alone |
| Validation.UnknownPassCopies | utils/security/validation.js:220-228 | an undefined name is copied with its value iff `_allowUnknown` is `true` and the query has it |
| Validation.QueryValidIffNoErrors | utils/security/validation.js:14-231 | `isValid` is false exactly when some error was recorded |
| Validation.QueryEntry | utils/security/validation.js:14-231 | under a schema name the result holds exactly what that parameter's step wrote, and its errors |
| Validation.RequiredMissingReported | utils/security/validation.js:26-30 | a missing required parameter makes the result invalid, adds "required" and leaves no entry |
| Validation.MissingOptionalGetsDefault | utils/security/validation.js:33-41 | a missing optional parameter gets its default, or no entry when it has none |
| Validation.NumberClamped | utils/security/validation.js:78-105 | a number below `min` is stored as `min` and one above `max` as `max`, each with its error; one in range is stored unchanged; an unreadable one gives an error and no entry |
| Validation.BooleanParsed | utils/security/validation.js:107-123 | a boolean is kept; `true`, `1`, `yes`, `y` become `true` and `false`, `0`, `no`, `n` become `false`, in any ASCII letter case; any other string is an error with no entry; any other value is stored as `Boolean(value)` |
| Validation.UrlOnlyHttp | utils/security/validation.js:182-196 | a URL is stored as its `href` iff its protocol is `http:` or `https:`; another protocol is an error with no entry, and so is a value `new URL` rejects |
| Validation.EnumFallback | utils/security/validation.js:198-211 | an enum value outside `values` is invalid and replaced by the default, else the first value |
| Validation.EnumWithoutValuesThrows | utils/security/validation.js:198-211 | an enum rule without a `values` array throws once a value is given |
| Validation.StringTruncated | utils/security/validation.js:61-66 | a string longer than `maxLength` is reported and cut to exactly `maxLength` characters |
| Validation.ArrayTruncated | utils/security/validation.js:155-160 | an array longer than `maxItems` is reported and its first `maxItems` items are kept, as they are or as their item checks left them |
| Validation.UnknownParamPolicy | utils/security/validation.js:220-228 | a parameter the schema does not name is copied iff `_allowUnknown === true` |
| Cors.ConfigOf | utils/security/cors.js:11-36 | a given list is kept and one left out takes its default list; `maxAge` falls back also when 0; a given flag is kept even when falsy, and an `undefined` one defaults to credentials on, strict matching on, wildcards off and logging on |
| Cors.SettingsOf | utils/security/cors.js:79-85 | methods, allowed headers and exposed headers are the configured lists joined by commas; `maxAge` and credentials as configured, no preflight continuation, status 204 |
| Cors.DefaultSettings | utils/security/cors.js:28-36 | by default credentials are on, `maxAge` is 86400 and the methods are `GET,HEAD,PUT,PATCH,POST,DELETE` |
| Cors.MethodsJoined | utils/security/cors.js:79-83 | the default methods joined by commas |
| Cors.DomainMatches | utils/security/cors.js:58-63 | one allow-list entry: `*.base` with wildcards on covers `base` and names ending in `.base`, any other entry only itself; stated by the wildcard lemmas below |
| Cors.HostAllowed | utils/security/cors.js:52-64 | strict mode is membership, loose mode some entry matching; stated by the lemmas below |
| Cors.DecideOrigin | utils/security/cors.js:40-78 | allowed iff the origin is missing, in development, or its hostname is allowed; an unparseable origin is "Invalid origin" with no warning; a disallowed hostname carries the "CORS violation" warning iff violations are logged |
| Cors.StrictIsExactMembership | utils/security/cors.js:52-54 | in strict mode a hostname passes iff it is one of the allowed domains |
| Cors.WildcardAdmitsBaseAndSubdomains | utils/security/cors.js:56-61 | `*.base` admits `base` and every name ending in `.base` |
| Cors.WildcardRejectsGluedPrefix | utils/security/cors.js:56-61 | `*.base` does not admit a name ending in `base` without a dot before it |
| Cors.LooseWithoutWildcardsIsStrict | utils/security/cors.js:56-64 | loose matching without wildcards is plain membership, as in strict mode |
| Cors.MissingOriginOrDevelopmentAllowed | utils/security/cors.js:42-44 | a missing origin or development mode is always allowed |
| ErrorHandler.HandlerConfigOf | utils/security/errorHandler.js:11-17 | logging and stacks default on; a truthy default message is kept and a falsy one becomes `服务器内部错误`; `formatError` is passed through |
| ErrorHandler.Or | utils/security/errorHandler.js:27 | `a \|\| b` |
| ErrorHandler.ErrorResponse | utils/security/errorHandler.js:30-43 | status `error`, the error's message or the default; `code` present iff the error's code is truthy, with that code; `stack` iff stacks are shown and in development, with the error's `stack` |
| ErrorHandler.HandleError | utils/security/errorHandler.js:20-52 | the status is `status`, else `statusCode`, else 500; the body is the built response, or what `formatError` returns for the error and that response; logging as configured |
| ErrorHandler.NewApiError | utils/security/errorHandler.js:58-65 | the status defaults to 500 and the code to `null`, a given status and code are kept; the message is `String(message)`, and `''` when absent |
| ErrorHandler.ApiErrorValue | utils/security/errorHandler.js:58-65 | the thrown object exposes `statusCode`, `message`, `code` and `name` `ApiError`, and no `status` |
| ErrorHandler.FactoryStatus | utils/security/errorHandler.js:67-97 | each factory's status is a 4xx or 5xx code |
| ErrorHandler.Make | utils/security/errorHandler.js:67-97 | a factory error carries its fixed status; an omitted message or code takes the factory's default, and a given one is kept (the message as `String(message)`) |
| ErrorHandler.FactoryStatusInjective | utils/security/errorHandler.js:67-97 | the eight factories have eight different statuses |
| ErrorHandler.FactoryErrorResponse | utils/security/errorHandler.js:20-97 | a factory error is answered with that factory's status, message and code |
| ErrorHandler.PlainErrorFallsBack | utils/security/errorHandler.js:15-33 | an error without status or message becomes a 500 with the default message |
| Environment.SettingsOf | utils/security/envConfig.js:15-25 | given lists and objects are kept and missing ones become empty, `maskSensitive` is kept unless `undefined`, when it is true, the sensitive patterns fall back to the six defaults |
| Environment.ApplyDefaults | utils/security/envConfig.js:52-56 | the defaults step entry by entry; `DefaultsOnlyFillGaps` states its meaning |
| Environment.MissingVars | utils/security/envConfig.js:72-80 | the undefined required names in order; `MissingVarsMembers` states its meaning |
| Environment.InvalidVars | utils/security/envConfig.js:72-88 | the defined names that fail their validator, in order; `InvalidVarsMembers` states its meaning |
| Environment.DefaultsOnlyFillGaps | utils/security/envConfig.js:52-56 | defaults never overwrite: a set variable keeps its value, an unset one gets its first default, no other appears |
| Environment.MissingVarsMembers | utils/security/envConfig.js:72-80 | the missing list holds exactly the required names that are undefined |
| Environment.InvalidVarsMembers | utils/security/envConfig.js:72-88 | the invalid list holds exactly the names that are defined and fail their validator |
| Environment.ValidationFailsIff | utils/security/envConfig.js:66-101 | validation fails iff a required variable is undefined or rejected, or a defined optional one is rejected |
| Environment.IsBoolean | utils/security/envConfig.js:250-252 | one of the eight boolean forms after lower-casing; `IsBooleanIgnoresCase` and `GetBooleanOnBooleans` use it |
| Environment.NotEmpty | utils/security/envConfig.js:283-285 | `undefined`/`null` fail, a string passes iff it has a non-blank character, and any other value throws |
| Environment.UpperOfLower | utils/security/envConfig.js:170 | upper-casing ignores an earlier lower-casing |
| Environment.LowerOfUpper | utils/security/envConfig.js:251 | lower-casing ignores an earlier upper-casing |
| Environment.SensitiveIgnoresCase | utils/security/envConfig.js:169-171 | masking does not depend on the case of the name |
| Environment.IsBooleanIgnoresCase | utils/security/envConfig.js:250-252 | `isBoolean` does not depend on case |
| Environment.EnvConfig.constructor | utils/security/envConfig.js:14-32 | the configuration is `SettingsOf` the options and the environment is the process environment with defaults filled in |
| Environment.EnvConfig.LoadEnv | utils/security/envConfig.js:52-56 | the defaults loop yields `ApplyDefaults` of the old environment |
| Environment.EnvConfig.ValidateEnv | utils/security/envConfig.js:66-101 | reports the undefined required names and the rejected ones in order, and is valid iff both lists are empty |
| Environment.OrNull | utils/security/envConfig.js:109 | the default parameter `= null`: an `undefined` argument reads as `null` |
| Environment.EnvConfig.Get | utils/security/envConfig.js:109-111 | the variable's value when defined, else the default, where an omitted or `undefined` default reads as `null` |
| Environment.EnvConfig.GetBoolean | utils/security/envConfig.js:133-138 | the default when unset (`null` for an omitted or `undefined` one), else true iff the lower-case value is `true`, `1`, `yes` or `y` |
| Environment.EnvConfig.IsProduction | utils/security/envConfig.js:183-186 | iff the lower-case `NODE_ENV` is `production`; then it is not development |
| Environment.EnvConfig.IsDevelopment | utils/security/envConfig.js:192-195 | iff `NODE_ENV` is unset, empty or `development` in any case |
| Environment.EnvConfig.IsTest | utils/security/envConfig.js:201-204 | iff the lower-case `NODE_ENV` is `test`; then it is neither production nor development |
| Environment.EnvConfig.GetAll | utils/security/envConfig.js:163-177 | every variable is kept, and exactly the sensitive ones read `******` when masking is on |
| Environment.GetAfterDefaults | utils/security/envConfig.js:52-56 | after construction, `get` finds the process value, else the first default, else the fallback, `null` when that is `undefined` |
| Environment.GetBooleanOnBooleans | utils/security/envConfig.js:133-138 | a value `isBoolean` accepts reads as false iff it is one of the four false forms |
| Logger.LevelValue | utils/security/logger.js:11-17 | the five levels are numbered 0 to 4 |
| Logger.Emits | utils/security/logger.js:88-91 | an entry is dropped only when its level has a number below the configured one; stated by the two lemmas below |
| Logger.EmitsIsThreshold | utils/security/logger.js:88-91 | a level at least as high as an emitted one is emitted, and an unknown level always is |
| Logger.DefaultDropsOnlyDebug | utils/security/logger.js:20-34 | with the default level only `DEBUG` is dropped |
| Logger.MaskField | utils/security/logger.js:177-188 | a sensitive string becomes `******`, another sensitive value `[REDACTED]`, and a non-sensitive non-object is kept |
| Logger.Mask | utils/security/logger.js:167-192 | a non-object is returned as is; an object keeps its keys in order and each value becomes its `MaskField`, so a non-sensitive non-object is kept; as written, an array becomes an object whose field `i` is `"i"` with element `i` masked; corrected, it stays an array of masked elements |
| Logger.MaskRedacts | utils/security/logger.js:167-192 | no sensitive value is left at any depth |
| Logger.ArrayBecomesObject | utils/security/logger.js:172 | as written, `[7]` is masked to `{"0":7}`; the corrected masking keeps `[7]` |
| Logger.MaskSensitiveData | utils/security/logger.js:167-192 | the copy-and-update loop, recursing into nested values, yields the corrected `Mask` |
| Logger.PlainTextParts | utils/security/logger.js:199-227 | one part per present field: the timestamp first when present, the bracketed level, the bracketed request id when present, the message, then `method url (ip)`, `User: name (id)` and the stringified data, each when present, in that order |
| Logger.FormatPlainText | utils/security/logger.js:199-227 | the parts joined by single spaces; `PlainTextShowsLevelAndMessage` states what it shows |
| Logger.PlainTextShowsLevelAndMessage | utils/security/logger.js:199-227 | the plain text always contains the bracketed level and the message |

## Left out

- Timers: the `setInterval` sweep and `stop` of `MemoryCache` are not modelled. `Cleanup` is called explicitly.
- The clock: `Date.now()` is the parameter `now`.
- The database path of the cache manager (`USE_DATABASE`, Prisma, `getUserWithCache`, `getProjectWithCache`, `warmupCache`) is not part of this model.
- HTTP plumbing: `res.setHeader`, `res.status().json()`, `next()` and the custom `handler` call become the returned `Outcome`, `Reply` or `OriginDecision`.
- Foreign parsers: `Number`, `JSON.parse`, `new URL`, `rules.pattern.test` and `JSON.stringify` are function parameters.
- Floating point:
  - `toFixed(2)` of the hit rate is not modelled; `StatsOf` gives the exact ratio;
  - numbers are integers;
  - `BigInt` to `Number` is exact.
- Case folding is ASCII-only: `toLowerCase` and `toUpperCase` of characters outside ASCII are not modelled. (`trim` and `\s` use the full ECMAScript white-space set, and `\w` without the `u` flag is ASCII by definition.)
- Cache.EvictSpec: the `if (oldestKey)` test never evicts an entry whose key is `''`. So the size bound (`SetSpec`, `SetsStayWithinCapacity`) is stated only for caches without that key.
- Sanitize.SanitizedIsSafe: says nothing about `javascript:`. One pass of `/javascript\s*:/gi` can leave a new `javascript:` behind (for example `javajavascript:script:`).
- Sanitize.MatchLength: the script, `on*=` and `javascript:` patterns are modelled as scanners. The proved properties are only about the tag and control-character steps.
- Process environment:
  - `Object.prototype` names are not modelled as present in `process.env` or in `validators`;
  - `.env` file loading (`dotenv`, `fs`) and the console output of `validateEnv` are I/O and are left out.
- Environment.EnvConfig.GetAll: returns a map, so the property order of the result is not modelled.
- Other `envConfig.js` helpers are not part of this model: `getNumber`, `getJSON`, the validators other than `isBoolean` and `notEmpty`, and `createDefaultEnvConfig`.
- Other logger code is I/O and not part of this model:
  - the log streams;
  - `writeToLogFile` and `close`;
  - `formatLogEntry`;
  - the JSON format;
  - the merge of the logger's options.
- ErrorHandler.HandleError: the request argument that `formatError` also receives is not modelled.
- Validation.CheckString, Validation.StringTruncated, Validation.Substring, Validation.ValidateValue: lengths and `substring` count characters (code points), while JavaScript counts UTF-16 code units, so they agree with the source only for text inside the Basic Multilingual Plane. For `"😀😀"` with `maxLength` 3 the source reports "too long" and cuts a surrogate pair, while the model sees two characters and keeps the text.
- Property order: an object keeps insertion order. JavaScript lists integer-like keys first, in ascending order, so the key order of `sanitized` can differ when a query has keys like `"0"`.
- `utils/ratelimit/limiters.js` configures an external library and is not part of this model.

## Findings

| source | as written | input that shows it | evidently intended | confidence | as-written member | corrected member |
|---|---|---|---|---|---|---|
| utils/security/logger.js:172 | `maskSensitiveData` copies its input with `{ ...data }`, so an array (which passes `typeof data === 'object'`) comes back as a plain object keyed by indices | data `[7]` is masked to `{"0":7}` | arrays stay arrays, with their elements masked | not executed | Logger.ArrayBecomesObject | Logger.MaskSensitiveData |
