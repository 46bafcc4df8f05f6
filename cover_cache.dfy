/**
 * The cover-image URL cache of the Open Library front end: a map from
 * "<id>-<size>" to the synthesised CDN URL and the time it was stored, with
 * lazy expiry on lookup, an active sweep, hit/miss counters and an optional
 * reachability probe with fallback to a local default image.
 *
 * The clock (`Date.now()`) is the parameter `now` (milliseconds) and the
 * outcome of the image probe is the parameter `probeLoads`.
 */
module CoverCache {
  import opened Wrappers
  import opened Decimal
  import opened KeyOrder

  /** Time to live of an entry: 30 minutes in milliseconds. */
  const CacheDuration: int := 30 * 60 * 1000
  /** Local asset returned for an invalid id or an unreachable image. */
  const DefaultCover: string := "/src/assets/cover.jpg"
  const UrlPrefix: string := "https://covers.openlibrary.org/b/id/"
  const UrlSuffix: string := ".jpg"

  datatype Entry = Entry(url: string, timestamp: int)

  /**
   * The module-level state: the `Map` (its entries and their insertion
   * order, which is the order `keys()` and `entries()` iterate in) and the
   * two counters.
   */
  datatype CacheState = CacheState(
    entries: map<string, Entry>,
    order: seq<string>,
    hits: nat,
    misses: nat)

  const EmptyState: CacheState := CacheState(map[], [], 0, 0)

  /** Outcome of the promise `preloadCover` returns. */
  datatype Settled = Resolved(value: string) | Rejected(reason: string)

  datatype CacheStats = CacheStats(size: nat, entries: seq<string>)

  /** The counters; `hitRate` is the percentage before rounding and formatting. */
  datatype CacheMetrics = CacheMetrics(hits: nat, misses: nat, total: nat, hitRate: real)

  /** An id is usable when it is present and positive: absent, zero and negative ids are rejected. */
  predicate ValidCoverId(coverId: Option<int>) {
    coverId.Some? && coverId.value > 0
  }

  function CacheKey(id: nat, size: string): string {
    NatToString(id) + "-" + size
  }

  function UrlForKey(key: string): string {
    UrlPrefix + key + UrlSuffix
  }

  /** The URL template, applied to the rendered id and the size. */
  function CoverUrl(id: nat, size: string): (url: string)
    ensures url == UrlForKey(CacheKey(id, size))
    ensures url != DefaultCover
  {
    var u := UrlPrefix + NatToString(id) + "-" + size + UrlSuffix;
    assert u[0] == 'h' != DefaultCover[0];
    u
  }

  predicate IsFresh(e: Entry, now: int) {
    now - e.timestamp < CacheDuration
  }

  /**
   * Invariant of the state: the insertion order lists each key of the map
   * exactly once, and every stored URL is the template applied to its key.
   */
  ghost predicate Inv(st: CacheState) {
    && Distinct(st.order)
    && st.entries.Keys == Elems(st.order)
    && (forall k :: k in st.entries ==> st.entries[k].url == UrlForKey(k))
  }

  /** `Map.prototype.delete`. */
  function MapDelete(st: CacheState, key: string): (r: CacheState)
    ensures key !in r.entries && key !in r.order
    ensures forall k :: k != key ==> (k in r.entries <==> k in st.entries)
    ensures forall k :: k != key && k in r.entries ==> r.entries[k] == st.entries[k]
    ensures forall k :: k != key ==> (k in r.order <==> k in st.order)
    ensures r.hits == st.hits && r.misses == st.misses
  {
    st.(entries := st.entries - {key}, order := Without(st.order, {key}))
  }

  /** `Map.prototype.set`: a new key goes last, an existing key keeps its place. */
  function MapSet(st: CacheState, key: string, e: Entry): (r: CacheState)
    ensures key in r.entries && r.entries[key] == e
    ensures forall k :: k != key ==> (k in r.entries <==> k in st.entries)
    ensures forall k :: k != key && k in r.entries ==> r.entries[k] == st.entries[k]
    ensures key in st.entries ==> r.order == st.order
    ensures key !in st.entries ==> r.order == st.order + [key]
    ensures r.hits == st.hits && r.misses == st.misses
  {
    st.(entries := st.entries[key := e],
        order := if key in st.entries then st.order else st.order + [key])
  }

  /** `getCoverUrl(coverId, size)` at time `now`: the new state and the URL. */
  function Lookup(st: CacheState, coverId: Option<int>, size: string, now: int): (r: (CacheState, string))
    ensures !ValidCoverId(coverId) ==> r == (st, DefaultCover)
    ensures ValidCoverId(coverId) ==> r.0.hits + r.0.misses == st.hits + st.misses + 1
    ensures r.0.hits >= st.hits && r.0.misses >= st.misses
    ensures ValidCoverId(coverId) ==>
      var key := CacheKey(coverId.value, size);
      key in r.0.entries && r.0.entries[key].url == r.1 && IsFresh(r.0.entries[key], now)
  {
    if !ValidCoverId(coverId) then (st, DefaultCover)
    else
      var key := CacheKey(coverId.value, size);
      if key in st.entries && IsFresh(st.entries[key], now) then
        (st.(hits := st.hits + 1), st.entries[key].url)
      else
        var base := if key in st.entries then MapDelete(st, key) else st;
        var url := CoverUrl(coverId.value, size);
        (MapSet(base, key, Entry(url, now)).(misses := base.misses + 1), url)
  }

  function StaleKeys(entries: map<string, Entry>, now: int): (ks: set<string>)
    ensures forall k :: k in ks <==> k in entries && !IsFresh(entries[k], now)
  {
    set k | k in entries && !IsFresh(entries[k], now)
  }

  /** `clearExpiredCache()` at time `now`. */
  function Sweep(st: CacheState, now: int): (r: CacheState)
    ensures forall k :: k in r.entries <==> k in st.entries && IsFresh(st.entries[k], now)
    ensures forall k :: k in r.entries ==> r.entries[k] == st.entries[k]
    ensures r.hits == st.hits && r.misses == st.misses
  {
    var stale := StaleKeys(st.entries, now);
    st.(entries := st.entries - stale, order := Without(st.order, stale))
  }

  /** `preloadCover(url)` when the image load succeeds iff `probeLoads`. */
  function PreloadCover(url: string, probeLoads: bool): (r: Settled)
    ensures r.Resolved? ==> r.value == url
    ensures r.Rejected? ==> r.reason == DefaultCover
    ensures r.Resolved? <==> url == DefaultCover || probeLoads
  {
    if url == DefaultCover then Resolved(url)
    else if probeLoads then Resolved(url)
    else Rejected(DefaultCover)
  }

  /** What `getCoverUrlWithFallback` resolves with, given `getCoverUrl`'s result. */
  function WithFallback(url: string, probeLoads: bool): (r: string)
    ensures r == url || r == DefaultCover
    ensures r == url <==> url == DefaultCover || probeLoads
  {
    if url == DefaultCover then url
    else match PreloadCover(url, probeLoads)
      case Resolved(u) => u
      case Rejected(fallback) => fallback
  }

  // ---------------------------------------------------------------------
  // Properties of the key and the URL template

  /** Position of the first '-' in `s` (its length when there is none). */
  function FirstDash(s: string): (i: nat)
    ensures i <= |s|
  {
    if |s| == 0 || s[0] == '-' then 0 else 1 + FirstDash(s[1..])
  }

  /** In a key the first '-' follows the rendered id, which has no '-'. */
  lemma {:induction false} DashAfterDigits(d: string, size: string)
    requires AllDigits(d)
    ensures FirstDash(d + "-" + size) == |d|
  {
    if |d| > 0 {
      assert IsDigit(d[0]);
      assert (d + "-" + size)[1..] == d[1..] + "-" + size;
      DashAfterDigits(d[1..], size);
    }
  }

  /** Two keys are equal exactly when their ids and sizes are equal. */
  lemma CacheKeyInjective(a: nat, sa: string, b: nat, sb: string)
    ensures CacheKey(a, sa) == CacheKey(b, sb) <==> a == b && sa == sb
  {
    var da, db := NatToString(a), NatToString(b);
    var ka, kb := CacheKey(a, sa), CacheKey(b, sb);
    if ka == kb {
      DashAfterDigits(da, sa);
      DashAfterDigits(db, sb);
      assert da == ka[..|da|] && db == kb[..|db|];
      NatToStringInjective(a, b);
      assert sa == ka[|da| + 1..] && sb == kb[|db| + 1..];
    }
  }

  /** Distinct (id, size) pairs are served distinct URLs. */
  lemma CoverUrlInjective(a: nat, sa: string, b: nat, sb: string)
    ensures CoverUrl(a, sa) == CoverUrl(b, sb) <==> a == b && sa == sb
  {
    var ka, kb := CacheKey(a, sa), CacheKey(b, sb);
    if CoverUrl(a, sa) == CoverUrl(b, sb) {
      var ua, ub := UrlForKey(ka), UrlForKey(kb);
      assert ka == ua[|UrlPrefix|..|ua| - |UrlSuffix|];
      assert kb == ub[|UrlPrefix|..|ub| - |UrlSuffix|];
      CacheKeyInjective(a, sa, b, sb);
    }
  }

  // ---------------------------------------------------------------------
  // Properties of lookup

  /** The empty cache satisfies the invariant. */
  lemma EmptyStateInv()
    ensures Inv(EmptyState)
  {
  }

  /** Lookup keeps the invariant. */
  lemma LookupPreservesInv(st: CacheState, coverId: Option<int>, size: string, now: int)
    requires Inv(st)
    ensures Inv(Lookup(st, coverId, size, now).0)
  {
    if ValidCoverId(coverId) {
      var key := CacheKey(coverId.value, size);
      if !(key in st.entries && IsFresh(st.entries[key], now)) {
        if key in st.entries {
          WithoutDistinct(st.order, {key});
          var base := MapDelete(st, key);
          assert key !in base.order;
          DistinctCons(key, []);
          assert Distinct(base.order + [key]) by {
            forall i, j | 0 <= i < j < |base.order + [key]|
              ensures (base.order + [key])[i] != (base.order + [key])[j]
            {
              if j == |base.order| {
                assert (base.order + [key])[i] == base.order[i];
              }
            }
          }
        } else {
          assert Distinct(st.order + [key]) by {
            forall i, j | 0 <= i < j < |st.order + [key]|
              ensures (st.order + [key])[i] != (st.order + [key])[j]
            {
              if j == |st.order| {
                assert (st.order + [key])[i] == st.order[i];
              }
            }
          }
        }
      }
    }
  }

  /** The same, as an implication that holds of every state. */
  lemma LookupKeepsInv(st: CacheState, coverId: Option<int>, size: string, now: int)
    ensures Inv(st) ==> Inv(Lookup(st, coverId, size, now).0)
  {
    if Inv(st) {
      LookupPreservesInv(st, coverId, size, now);
    }
  }

  /** A valid id is always answered with the template URL, hit or miss. */
  lemma LookupUrl(st: CacheState, coverId: Option<int>, size: string, now: int)
    requires Inv(st)
    ensures Lookup(st, coverId, size, now).1 ==
      if ValidCoverId(coverId) then CoverUrl(coverId.value, size) else DefaultCover
  {
  }

  /** The answer does not depend on what the cache holds. */
  lemma LookupUrlIndependentOfCache(st1: CacheState, st2: CacheState, coverId: Option<int>, size: string, now1: int, now2: int)
    requires Inv(st1) && Inv(st2)
    ensures Lookup(st1, coverId, size, now1).1 == Lookup(st2, coverId, size, now2).1
  {
  }

  /** A fresh entry is a hit: the cached URL, one more hit, nothing else changes. */
  lemma LookupHit(st: CacheState, coverId: Option<int>, size: string, now: int)
    requires ValidCoverId(coverId)
    requires CacheKey(coverId.value, size) in st.entries
    requires IsFresh(st.entries[CacheKey(coverId.value, size)], now)
    ensures Lookup(st, coverId, size, now) ==
      (st.(hits := st.hits + 1), st.entries[CacheKey(coverId.value, size)].url)
  {
  }

  /**
   * An absent or stale entry is a miss: the key now maps to the template URL
   * stamped `now` and sits last in insertion order, every other entry is
   * unchanged, one more miss and no more hits.
   */
  lemma LookupMiss(st: CacheState, coverId: Option<int>, size: string, now: int)
    requires Inv(st) && ValidCoverId(coverId)
    requires var key := CacheKey(coverId.value, size);
      !(key in st.entries && IsFresh(st.entries[key], now))
    ensures var key := CacheKey(coverId.value, size);
      var url := CoverUrl(coverId.value, size);
      var r := Lookup(st, coverId, size, now);
      && r.1 == url
      && r.0.entries == st.entries[key := Entry(url, now)]
      && r.0.order == Without(st.order, {key}) + [key]
      && r.0.misses == st.misses + 1
      && r.0.hits == st.hits
  {
    var key := CacheKey(coverId.value, size);
    if key !in st.entries {
      WithoutNoneOf(st.order, {key});
    }
  }

  /**
   * Two lookups of the same valid id and size at the same time give the same
   * URL, and the second one is a hit that changes nothing but the hit count.
   */
  lemma LookupTwice(st: CacheState, coverId: Option<int>, size: string, now: int)
    requires ValidCoverId(coverId)
    ensures var first := Lookup(st, coverId, size, now);
      var second := Lookup(first.0, coverId, size, now);
      second.1 == first.1 && second.0 == first.0.(hits := first.0.hits + 1)
  {
  }

  /** After a first-time miss, two lookups add one miss and one hit. */
  lemma MissThenHit(st: CacheState, coverId: Option<int>, size: string, now: int)
    requires ValidCoverId(coverId) && CacheKey(coverId.value, size) !in st.entries
    ensures var first := Lookup(st, coverId, size, now);
      var second := Lookup(first.0, coverId, size, now);
      second.0.hits == st.hits + 1 && second.0.misses == st.misses + 1
  {
  }

  /** A stale entry is replaced by an identical URL, counted as a new miss. */
  lemma LookupAfterExpiry(st: CacheState, coverId: Option<int>, size: string, now: int)
    requires Inv(st) && ValidCoverId(coverId)
    requires var key := CacheKey(coverId.value, size);
      key in st.entries && !IsFresh(st.entries[key], now)
    ensures var r := Lookup(st, coverId, size, now);
      && r.1 == st.entries[CacheKey(coverId.value, size)].url
      && r.0.misses == st.misses + 1 && r.0.hits == st.hits
  {
  }

  /** The template applied to id 12345 and size "M". */
  lemma ExampleUrl12345()
    ensures CoverUrl(12345, "M") == "https://covers.openlibrary.org/b/id/12345-M.jpg"
  {
    assert NatToString(12345) == "12345" by {
      assert NatToString(1) == "1";
      assert NatToString(12) == "12";
      assert NatToString(123) == "123";
      assert NatToString(1234) == "1234";
    }
  }

  /**
   * Id 12345 at size "M" in an empty cache: a miss that yields the CDN URL,
   * then a hit on the same URL.
   */
  lemma ExampleLookup12345(now: int)
    ensures var first := Lookup(EmptyState, Some(12345), "M", now);
      var second := Lookup(first.0, Some(12345), "M", now);
      && first.1 == "https://covers.openlibrary.org/b/id/12345-M.jpg"
      && second.1 == first.1
      && second.0.hits == 1 && second.0.misses == 1
  {
    ExampleUrl12345();
    LookupUrl(EmptyState, Some(12345), "M", now);
    MissThenHit(EmptyState, Some(12345), "M", now);
    LookupTwice(EmptyState, Some(12345), "M", now);
  }

  /** Ids 0 and -5 and an absent id get the default cover and leave the state untouched. */
  lemma ExampleInvalidIds(st: CacheState, now: int)
    ensures Lookup(st, Some(0), "M", now) == (st, DefaultCover)
    ensures Lookup(st, Some(-5), "S", now) == (st, DefaultCover)
    ensures Lookup(st, None, "M", now) == (st, DefaultCover)
  {
  }

  // ---------------------------------------------------------------------
  // Properties of the sweep

  /** The sweep keeps the invariant. */
  lemma SweepPreservesInv(st: CacheState, now: int)
    requires Inv(st)
    ensures Inv(Sweep(st, now))
  {
    WithoutDistinct(st.order, StaleKeys(st.entries, now));
  }

  /** A second sweep at the same time removes nothing. */
  lemma SweepIdempotent(st: CacheState, now: int)
    ensures Sweep(Sweep(st, now), now) == Sweep(st, now)
  {
    var once := Sweep(st, now);
    assert StaleKeys(once.entries, now) == {};
    WithoutNoneOf(once.order, {});
  }

  // ---------------------------------------------------------------------
  // The module-level cache and counters, updated in place

  class Cache {
    var coverCache: map<string, Entry>
    /** Insertion order of `coverCache`'s keys. */
    var keyOrder: seq<string>
    var cacheHits: nat
    var cacheMisses: nat

    function State(): CacheState
      reads this
    {
      CacheState(coverCache, keyOrder, cacheHits, cacheMisses)
    }

    ghost predicate Valid()
      reads this
    {
      Inv(State())
    }

    /** The state at module load: an empty map and both counters at 0. */
    constructor ()
      ensures Valid() && State() == EmptyState
    {
      coverCache := map[];
      keyOrder := [];
      cacheHits := 0;
      cacheMisses := 0;
    }

    method TrackCacheHit()
      modifies this`cacheHits
      ensures cacheHits == old(cacheHits) + 1
    {
      cacheHits := cacheHits + 1;
    }

    method TrackCacheMiss()
      modifies this`cacheMisses
      ensures cacheMisses == old(cacheMisses) + 1
    {
      cacheMisses := cacheMisses + 1;
    }

    /** Deletes `key` from the map, and so from its iteration order. */
    method Delete(key: string)
      modifies this`coverCache, this`keyOrder
      ensures coverCache == old(coverCache) - {key}
      ensures keyOrder == Without(old(keyOrder), {key})
    {
      coverCache := coverCache - {key};
      keyOrder := Without(keyOrder, {key});
    }

    /** Stores `e` under `key` in the map. */
    method Set(key: string, e: Entry)
      modifies this`coverCache, this`keyOrder
      ensures State() == MapSet(old(State()), key, e)
    {
      if key !in coverCache {
        keyOrder := keyOrder + [key];
      }
      coverCache := coverCache[key := e];
    }

    /** `getCoverUrl(coverId, size)` called at time `now`. */
    method GetCoverUrl(now: int, coverId: Option<int>, size: string := "M") returns (url: string)
      modifies this
      ensures (State(), url) == Lookup(old(State()), coverId, size, now)
      ensures old(Valid()) ==> Valid()
    {
      LookupKeepsInv(State(), coverId, size, now);
      if coverId.None? || coverId.value <= 0 {
        return DefaultCover;
      }
      ghost var st0 := State();
      var cacheKey := CacheKey(coverId.value, size);
      if cacheKey in coverCache {
        var cached := coverCache[cacheKey];
        if now - cached.timestamp < CacheDuration {
          TrackCacheHit();
          assert State() == st0.(hits := st0.hits + 1);
          return cached.url;
        } else {
          Delete(cacheKey);
        }
      }
      ghost var base := State();
      assert base == if cacheKey in st0.entries then MapDelete(st0, cacheKey) else st0;
      url := CoverUrl(coverId.value, size);
      Set(cacheKey, Entry(url, now));
      TrackCacheMiss();
      assert State() == MapSet(base, cacheKey, Entry(url, now)).(misses := base.misses + 1);
    }

    /**
     * `getCoverUrlWithFallback(coverId, size)` called at time `now`, where
     * the image probe succeeds iff `probeLoads`.
     */
    method GetCoverUrlWithFallback(now: int, probeLoads: bool, coverId: Option<int>, size: string := "M")
      returns (url: string)
      requires Valid()
      modifies this
      ensures Valid()
      ensures State() == Lookup(old(State()), coverId, size, now).0
      ensures url == WithFallback(Lookup(old(State()), coverId, size, now).1, probeLoads)
      ensures url == DefaultCover || (ValidCoverId(coverId) && probeLoads && url == CoverUrl(coverId.value, size))
    {
      LookupUrl(State(), coverId, size, now);
      url := GetCoverUrl(now, coverId, size);
      if url == DefaultCover {
        return url;
      }
      var outcome := PreloadCover(url, probeLoads);
      match outcome {
        case Resolved(u) => url := u;
        case Rejected(fallbackUrl) => url := fallbackUrl;
      }
    }

    /** First pass of `clearExpiredCache()`: the keys whose age is at least the TTL. */
    method ExpiredKeys(now: int) returns (keysToDelete: seq<string>)
      requires Valid()
      ensures Elems(keysToDelete) == StaleKeys(coverCache, now)
    {
      keysToDelete := [];
      var i := 0;
      while i < |keyOrder|
        invariant 0 <= i <= |keyOrder|
        invariant forall k :: k in keysToDelete <==>
          k in keyOrder[..i] && k in coverCache && !IsFresh(coverCache[k], now)
      {
        var key := keyOrder[i];
        var value := coverCache[key];
        if now - value.timestamp >= CacheDuration {
          keysToDelete := keysToDelete + [key];
        }
        assert keyOrder[..i + 1] == keyOrder[..i] + [key];
        i := i + 1;
      }
      assert keyOrder[..i] == keyOrder;
    }

    /** Second pass of `clearExpiredCache()`: deletes each collected key from the map in turn. */
    method DeleteKeys(keysToDelete: seq<string>)
      modifies this`coverCache, this`keyOrder
      ensures State() == old(State()).(entries := old(coverCache) - Elems(keysToDelete),
                                       order := Without(old(keyOrder), Elems(keysToDelete)))
    {
      var j := 0;
      ghost var deleted: set<string> := {};
      WithoutNoneOf(keyOrder, {});
      while j < |keysToDelete|
        invariant 0 <= j <= |keysToDelete|
        invariant deleted == Elems(keysToDelete[..j])
        invariant coverCache == old(coverCache) - deleted
        invariant keyOrder == Without(old(keyOrder), deleted)
      {
        var key := keysToDelete[j];
        WithoutTwice(old(keyOrder), deleted, key);
        assert keysToDelete[..j + 1] == keysToDelete[..j] + [key];
        ElemsSnoc(keysToDelete[..j], key);
        assert old(coverCache) - (deleted + {key}) == (old(coverCache) - deleted) - {key};
        Delete(key);
        deleted := deleted + {key};
        j := j + 1;
      }
      assert keysToDelete[..j] == keysToDelete;
    }

    /** `clearExpiredCache()` called at time `now`. */
    method ClearExpiredCache(now: int)
      requires Valid()
      modifies this
      ensures Valid()
      ensures State() == Sweep(old(State()), now)
    {
      SweepPreservesInv(State(), now);
      var keysToDelete := ExpiredKeys(now);
      DeleteKeys(keysToDelete);
    }

    /** `getCacheStats()`: the number of entries and the keys in insertion order. */
    function GetCacheStats(): (r: CacheStats)
      requires Valid()
      reads this
      ensures r.size == |coverCache| == |r.entries|
      ensures forall k :: k in r.entries <==> k in coverCache
      ensures Distinct(r.entries)
    {
      DistinctCard(keyOrder);
      assert coverCache.Keys == Elems(keyOrder);
      CacheStats(|coverCache|, keyOrder)
    }

    /** `getCacheMetrics()`, with the hit rate as an unrounded percentage. */
    function GetCacheMetrics(): (r: CacheMetrics)
      reads this
      ensures r.hits == cacheHits && r.misses == cacheMisses
      ensures r.total == r.hits + r.misses
      ensures r.total == 0 ==> r.hitRate == 0.0
      ensures r.total > 0 ==> r.hitRate * (r.total as real) == (r.hits as real) * 100.0
      ensures 0.0 <= r.hitRate <= 100.0
    {
      var total := cacheHits + cacheMisses;
      var hitRate := if total > 0 then (cacheHits as real) / (total as real) * 100.0 else 0.0;
      CacheMetrics(cacheHits, cacheMisses, total, hitRate)
    }
  }
}
