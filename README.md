# Cover-image URL cache of a book-tracking front end, in Dafny

This project models the cover-image URL cache of a book-logging web front end
(`src/utils/coverCache.js`) and its small book-id helper `cleanBookId`
(`src/utils/book.js`), and proves what they promise.

The cache memoises Open Library CDN URLs. Each entry sits in a JavaScript
`Map` under the key `"<id>-<size>"` as `{url, timestamp}`. A lookup answers from a
fresh entry (younger than 30 minutes) and counts a hit. Otherwise it drops any stale
entry, stores the URL built from the template, and counts a miss. An invalid id
gets the local default cover and changes nothing. A sweep removes every entry
whose age is at least the TTL. The fallback accessor probes the image and
degrades to the default cover when the probe fails.

Layout:

- `wrappers.dfy`: `Option`. An absent id (`undefined`/`null`) is `None`.
- `decimal.dfy`: `String(n)` for a non-negative integer, with its parse-back and
  injectivity.
- `key_order.dfy`: the insertion order of a `Map`'s keys. It is a sequence without
  repetitions. `Without` removes keys from it, and its lemmas cover distinctness,
  composition and cardinality.
- `cover_cache.dfy`: the pure specification and the class.
  - The pure specification is `CacheState`, `Lookup`, `Sweep`, `PreloadCover` and
    `WithFallback`, with their lemmas.
  - The class `Cache` holds the module-level `Map` (`coverCache` plus `keyOrder`)
    and the two counters. It updates them in place. Each method is proved equal to
    the specification function.
- `book.dfy`: `CleanBookId` and its prefix/suffix lemmas.

The clock `Date.now()` becomes the parameter `now`, in milliseconds. The outcome of
the image probe becomes the boolean `probeLoads`. Both are supplied by the caller.

## Model

| member | source | states |
|---|---|---|
| Decimal.NatToString | src/utils/coverCache.js:19 | `String(id)` of an integer id is non-empty, all decimal digits (so it never contains `-`), and has no leading zero unless the id is 0 |
| Decimal.ParseNatToString | src/utils/coverCache.js:19 | reading the decimal rendering back gives the id again |
| Decimal.NatToStringInjective | src/utils/coverCache.js:19 | two ids render to the same string iff they are equal |
| CoverCache.CacheKeyInjective | src/utils/coverCache.js:19-20 | keys `"<id>-<size>"` are equal iff both the ids and the sizes are equal, so no two (id, size) pairs share an entry |
| CoverCache.CoverUrl | src/utils/coverCache.js:38 | the URL template is the key wrapped in the CDN prefix and `.jpg`, so the URL is a function of the key; it never equals the default cover |
| CoverCache.CoverUrlInjective | src/utils/coverCache.js:38 | distinct (id, size) pairs get distinct URLs, and equal pairs get equal URLs |
| CoverCache.MapDelete | src/utils/coverCache.js:32 | after `delete`, the key is neither in the map nor in the iteration order; every other key keeps its presence, its entry and its presence in the order; the counters are unchanged |
| CoverCache.MapSet | src/utils/coverCache.js:41-44 | after `set`, the key maps to the given entry; every other key keeps its presence and its entry; a new key goes last in the order and an existing key leaves the order as it was; the counters are unchanged |
| CoverCache.Lookup | src/utils/coverCache.js:12-50 | an invalid id returns the default cover and leaves the state alone; a valid id adds exactly one to hits + misses, never decreases a counter, and leaves the key cached with the returned URL and fresh at `now` |
| CoverCache.EmptyStateInv | src/utils/coverCache.js:2 | the initial empty cache satisfies the invariant (distinct key order, key order = map keys, every URL = template of its key) |
| CoverCache.LookupPreservesInv | src/utils/coverCache.js:19-46 | every lookup keeps that invariant, including the one-listing-per-key order and the URL/key agreement |
| CoverCache.LookupKeepsInv | src/utils/coverCache.js:19-46 | the same fact as an implication over every state: if the invariant holds before a lookup, it holds after |
| CoverCache.LookupUrl | src/utils/coverCache.js:14-44 | under the invariant a valid id is always answered with the template URL, whether hit or miss; an invalid id gets the default cover |
| CoverCache.LookupUrlIndependentOfCache | src/utils/coverCache.js:23-44 | the returned URL does not depend on the cache contents or the time: caching only saves work |
| CoverCache.LookupHit | src/utils/coverCache.js:23-29 | a fresh entry is returned, hits grow by exactly 1, map, order and misses unchanged |
| CoverCache.LookupMiss | src/utils/coverCache.js:30-46 | an absent or stale key afterwards maps to `{template URL, now}` and moves last in the order; every other entry is unchanged; misses +1, hits unchanged |
| CoverCache.LookupTwice | src/utils/coverCache.js:23-46 | a second lookup of the same valid (id, size) at the same time returns the same string and is a hit that changes only the hit count |
| CoverCache.MissThenHit | src/utils/coverCache.js:23-46 | starting from an uncached key, two lookups add exactly one miss and one hit |
| CoverCache.LookupAfterExpiry | src/utils/coverCache.js:26-44 | a stale key is re-synthesised to the identical URL and counted as a new miss |
| CoverCache.ExampleUrl12345 | src/utils/coverCache.js:38 | the template applied to id 12345 and size `M` is `https://covers.openlibrary.org/b/id/12345-M.jpg` |
| CoverCache.ExampleLookup12345 | src/utils/coverCache.js:12-50 | in an empty cache id 12345 at size `M` gives `https://covers.openlibrary.org/b/id/12345-M.jpg`; a second call gives the same string with hits = misses = 1 |
| CoverCache.ExampleInvalidIds | src/utils/coverCache.js:14-17 | ids 0, -5 and an absent id give the default cover with the state untouched |
| CoverCache.Sweep | src/utils/coverCache.js:105-120 | afterwards the map holds exactly the keys whose entries were fresh, with their entries unchanged; counters unchanged |
| CoverCache.SweepPreservesInv | src/utils/coverCache.js:105-120 | the sweep keeps the state invariant |
| CoverCache.SweepIdempotent | src/utils/coverCache.js:105-120 | a second sweep at the same time removes nothing |
| CoverCache.PreloadCover | src/utils/coverCache.js:57-79 | the promise resolves with the URL itself iff the URL is the default cover (no probe) or the probe loads; otherwise it rejects with the default cover |
| CoverCache.WithFallback | src/utils/coverCache.js:88-100 | the result is the looked-up URL or the default cover, and it is the looked-up URL iff that is the default or the probe succeeds; nothing is thrown |
| CoverCache.Cache.constructor | src/utils/coverCache.js:136-137 | the module starts with an empty map and both counters at 0, and the invariant holds |
| CoverCache.Cache.TrackCacheHit | src/utils/coverCache.js:139-141 | the hit counter grows by exactly 1; nothing else changes |
| CoverCache.Cache.TrackCacheMiss | src/utils/coverCache.js:143-145 | the miss counter grows by exactly 1; nothing else changes |
| CoverCache.Cache.Delete | src/utils/coverCache.js:32 | removes the key from the map and from the iteration order; counters untouched |
| CoverCache.Cache.Set | src/utils/coverCache.js:41-44 | the new state is `MapSet` of the old: a new key goes last, an existing key keeps its place |
| CoverCache.Cache.GetCoverUrl | src/utils/coverCache.js:12-50 | the new map, order and counters and the returned URL are exactly `Lookup` of the old state; it has no precondition, and if the invariant held before the call it holds after |
| CoverCache.Cache.GetCoverUrlWithFallback | src/utils/coverCache.js:88-100 | the state changes as one lookup does, and the invariant is kept; the result is `WithFallback` of the lookup, so it is the default cover or, when the probe succeeds, the template URL |
| CoverCache.Cache.ExpiredKeys | src/utils/coverCache.js:106-113 | the first pass, a loop over the entries in order, collects exactly the keys that are in the map and whose age is at least the TTL |
| CoverCache.Cache.DeleteKeys | src/utils/coverCache.js:115 | the second pass, a loop, removes exactly the collected keys from the map and the order |
| CoverCache.Cache.ClearExpiredCache | src/utils/coverCache.js:105-120 | the new state is `Sweep` of the old at time `now`, and the invariant is kept |
| CoverCache.Cache.GetCacheStats | src/utils/coverCache.js:125-130 | `size` equals the number of map entries and the length of `entries`; `entries` lists exactly the map's keys, once each |
| CoverCache.Cache.GetCacheMetrics | src/utils/coverCache.js:147-156 | reports the two counters, `total = hits + misses`, a hit rate of 0 when total is 0, and otherwise `hitRate * total = hits * 100`, always between 0 and 100 |
| Book.CleanBookId | src/utils/book.js:2-6 | a non-string id is returned unchanged; for a string the result is a suffix of the input at most 8 characters shorter |
| Book.NoLeadingSlashUnchanged | src/utils/book.js:3-5 | a string not starting with `/` is returned unchanged |
| Book.WorksPathCleaned | src/utils/book.js:3 | `"/works/" + s`, with `s` not starting with `/`, yields `s` |
| Book.WorksPathThenSlashCleaned | src/utils/book.js:3-4 | `"/works//" + s` yields `s`: both rewrites apply |
| Book.SingleSlashStripped | src/utils/book.js:4 | `"/" + s` that is not a works path yields `s` |
| Book.DoubleSlashKeepsOne | src/utils/book.js:4 | only one leading slash is removed: `"//x"` yields `"/x"` |

## Left out

- `console.log` output throughout `coverCache.js`. It is diagnostics only.
- The `setInterval` timer at `src/utils/coverCache.js:133`.
  - `ClearExpiredCache` is modelled as a directly callable method.
  - The timer's scheduling and its lack of teardown are not modelled.
- The `Image()` probe mechanics (`onload`/`onerror`, `crossOrigin`).
  - The outcome of the probe is the boolean `probeLoads`.
  - The asynchronous suspension in `getCoverUrlWithFallback` is not modelled. Its synchronous lookup happens before the probe. Other operations that interleave with the probe are not modelled.
- CoverCache.Cache.GetCacheMetrics: `hitRate` is the unrounded percentage as a real number. The `toFixed(2)` rounding and the `%` suffix of the string are not modelled.
- JavaScript's loose id check and conversion: the id is an optional integer.
  - Numeric strings, fractional numbers, `NaN` and other coerced values are not modelled.
  - `String(id)` is exact decimal. The exponent notation JavaScript uses from 1e21 and the loss of precision above 2^53 are not modelled.
- The two `Date.now()` reads in one lookup are a single `now`. The source reads the clock at lines 25 and 43.
- The sweep returns nothing, as `clearExpiredCache` does.
- The size is any string. The source does not check it.
- The id is an integer; see the line on the loose id check above.
- `getLikedBookIds` (`src/utils/book.js:8-14`) is unfinished. It calls an undefined function.
- The Vue composables, authentication, notifications, the API client, the router, the fixture data, the debug hooks and the build configuration are not part of this model. They are framework, network and UI glue.
