/**
 * The content-keyed store of finished analyses: a key-value map with expiry,
 * holding each result as serialized text under "pdf:analysis:" + fingerprint.
 */
module PdfCache {
  import opened Wrappers
  import opened JavaStrings

  const CACHE_PREFIX := "pdf:analysis:"

  /** Thirty days, in seconds. */
  const DEFAULT_TTL: nat := 30 * 24 * 60 * 60

  /** A stored text and the instant (in seconds) from which it is gone. */
  datatype Entry = Entry(value: string, expiresAt: int)

  datatype Cache = Cache(entries: map<string, Entry>)

  /**
   * The serializer: `write` fails when an object cannot be rendered, `read`
   * when a text does not decode. Both are inputs to the model.
   */
  datatype Codec<!V> = Codec(write: V -> Option<string>, read: string -> Option<V>)

  /** The codec reads back what it writes for `v`. */
  ghost predicate RoundTrips<V>(codec: Codec<V>, v: V) {
    codec.write(v).Some? && codec.read(codec.write(v).value) == Some(v)
  }

  function StoreKey(cacheKey: string): (key: string)
    ensures StartsWith(key, CACHE_PREFIX) && key[|CACHE_PREFIX|..] == cacheKey
  {
    CACHE_PREFIX + cacheKey
  }

  /** Different fingerprints never share a store key. */
  lemma StoreKeyInjective(a: string, b: string)
    requires StoreKey(a) == StoreKey(b)
    ensures a == b
  {
    assert a == StoreKey(a)[|CACHE_PREFIX|..];
  }

  /** The key holds an entry that has not yet expired at `now`. */
  predicate Live(c: Cache, key: string, now: int) {
    key in c.entries && now < c.entries[key].expiresAt
  }

  /** `cacheAnalysisResult`: store for thirty days; a serialization failure is swallowed and nothing changes. */
  function Put<V>(c: Cache, codec: Codec<V>, cacheKey: string, v: V, now: int): (c': Cache)
    ensures codec.write(v).None? ==> c' == c
    ensures codec.write(v).Some? ==>
      c'.entries == c.entries[StoreKey(cacheKey) := Entry(codec.write(v).value, now + DEFAULT_TTL)]
  {
    match codec.write(v)
    case None => c
    case Some(text) => Cache(c.entries[StoreKey(cacheKey) := Entry(text, now + DEFAULT_TTL)])
  }

  /** `getCachedAnalysisResult`: absent, expired or undecodable all read as a miss. */
  function Get<V>(c: Cache, codec: Codec<V>, cacheKey: string, now: int): (r: Option<V>)
    ensures !Live(c, StoreKey(cacheKey), now) ==> r.None?
    ensures Live(c, StoreKey(cacheKey), now) ==> r == codec.read(c.entries[StoreKey(cacheKey)].value)
  {
    var key := StoreKey(cacheKey);
    if !Live(c, key, now) then None else codec.read(c.entries[key].value)
  }

  /** `isCached`: an unexpired entry exists, decodable or not. */
  function IsCached(c: Cache, cacheKey: string, now: int): (cached: bool)
    ensures cached <==> Live(c, StoreKey(cacheKey), now)
  {
    var key := StoreKey(cacheKey);
    key in c.entries && now < c.entries[key].expiresAt
  }

  /** `invalidateCache`: the entry is removed; other keys are untouched. */
  function Invalidate(c: Cache, cacheKey: string): (c': Cache)
    ensures StoreKey(cacheKey) !in c'.entries
    ensures forall k :: k in c.entries && k != StoreKey(cacheKey) ==> k in c'.entries && c'.entries[k] == c.entries[k]
    ensures c'.entries.Keys <= c.entries.Keys
  {
    Cache(c.entries - {StoreKey(cacheKey)})
  }

  /** `extendCacheTTL`: a live entry's expiry restarts at thirty days with its text unchanged; anything else is left alone. */
  function ExtendTtl(c: Cache, cacheKey: string, now: int): (c': Cache)
    ensures c'.entries.Keys == c.entries.Keys
    ensures Live(c, StoreKey(cacheKey), now) ==>
      c'.entries[StoreKey(cacheKey)] == Entry(c.entries[StoreKey(cacheKey)].value, now + DEFAULT_TTL)
    ensures !Live(c, StoreKey(cacheKey), now) ==> c' == c
    ensures forall k :: k in c.entries && k != StoreKey(cacheKey) ==> c'.entries[k] == c.entries[k]
  {
    var key := StoreKey(cacheKey);
    if !Live(c, key, now) then c
    else Cache(c.entries[key := c.entries[key].(expiresAt := now + DEFAULT_TTL)])
  }

  /** What was stored is read back until it expires, provided the codec round-trips it. */
  lemma PutThenGet<V>(c: Cache, codec: Codec<V>, cacheKey: string, v: V, now: int, later: int)
    requires RoundTrips(codec, v)
    requires now <= later < now + DEFAULT_TTL
    ensures Get(Put(c, codec, cacheKey, v, now), codec, cacheKey, later) == Some(v)
  {
  }

  /** Thirty days after storing, the entry reads as a miss unless something refreshed it. */
  lemma PutExpires<V>(c: Cache, codec: Codec<V>, cacheKey: string, v: V, now: int, later: int)
    requires later >= now + DEFAULT_TTL
    requires codec.write(v).Some?
    ensures Get(Put(c, codec, cacheKey, v, now), codec, cacheKey, later).None?
  {
  }

  /** Storing under one fingerprint does not disturb another. */
  lemma PutIsolated<V>(c: Cache, codec: Codec<V>, a: string, b: string, v: V, now: int, later: int)
    requires a != b
    ensures Get(Put(c, codec, a, v, now), codec, b, later) == Get(c, codec, b, later)
  {
    if StoreKey(a) == StoreKey(b) {
      StoreKeyInjective(a, b);
    }
  }

  /** An entry that is live but does not decode reads as a miss, yet still counts as cached. */
  lemma UndecodableIsMiss<V>(c: Cache, codec: Codec<V>, cacheKey: string, now: int)
    requires Live(c, StoreKey(cacheKey), now)
    requires codec.read(c.entries[StoreKey(cacheKey)].value).None?
    ensures Get(c, codec, cacheKey, now).None? && IsCached(c, cacheKey, now)
  {
  }

  /** Extending keeps the value readable for thirty more days. */
  lemma ExtendKeepsValue<V>(c: Cache, codec: Codec<V>, cacheKey: string, now: int, later: int)
    requires Live(c, StoreKey(cacheKey), now)
    requires now <= later < now + DEFAULT_TTL
    ensures Get(ExtendTtl(c, cacheKey, now), codec, cacheKey, later) == Get(c, codec, cacheKey, now)
  {
  }

  /** A stored value counts as cached until its thirty days run out, whether or not it decodes. */
  lemma PutIsCached<V>(c: Cache, codec: Codec<V>, cacheKey: string, v: V, now: int, later: int)
    requires codec.write(v).Some?
    ensures IsCached(Put(c, codec, cacheKey, v, now), cacheKey, later) <==> later < now + DEFAULT_TTL
  {
  }

  /** Every hit is cached; the converse fails only for an entry that does not decode. */
  lemma HitIsCached<V>(c: Cache, codec: Codec<V>, cacheKey: string, now: int)
    ensures Get(c, codec, cacheKey, now).Some? ==> IsCached(c, cacheKey, now)
    ensures IsCached(c, cacheKey, now) && Get(c, codec, cacheKey, now).None? ==>
      codec.read(c.entries[StoreKey(cacheKey)].value).None?
  {
  }

  /** Extending a cached key keeps it cached for thirty more days; an uncached key stays uncached. */
  lemma ExtendKeepsCached(c: Cache, cacheKey: string, now: int, later: int)
    requires now <= later
    ensures IsCached(c, cacheKey, now) ==>
      (IsCached(ExtendTtl(c, cacheKey, now), cacheKey, later) <==> later < now + DEFAULT_TTL)
    ensures !IsCached(c, cacheKey, now) ==> !IsCached(ExtendTtl(c, cacheKey, now), cacheKey, now)
  {
  }

  /** After invalidation the fingerprint misses. */
  lemma InvalidateMisses<V>(c: Cache, codec: Codec<V>, cacheKey: string, now: int)
    ensures Get(Invalidate(c, cacheKey), codec, cacheKey, now).None?
    ensures !IsCached(Invalidate(c, cacheKey), cacheKey, now)
  {
  }
}
