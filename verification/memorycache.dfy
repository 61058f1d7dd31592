/**
 * The in-memory cache tier of the Immich client: one LRU store holding the
 * album list, each album's asset metadata and downloaded assets, under keys
 * of three kinds. Every read makes the key it hits the most recently used.
 * Sequences are values here, so the defensive copies the cache makes on
 * every read and write are implicit: a caller can never alter what is
 * stored.
 */
module MemoryCache {
  import opened Wrappers
  import opened Immich
  import Lru

  datatype Key = AlbumsKey | AlbumKey(album: AlbumID) | AssetKey(asset: AssetID)

  /** The dynamically typed values the store holds. */
  datatype Value =
    | AlbumsValue(response: AlbumsResponse)
    | AlbumAssetsValue(assets: seq<AssetMetadata>)
    | AssetValue(asset: Asset)

  /** A miss, or a value of the wrong kind under the key that was read. */
  datatype CacheError = NotFound | UnexpectedType(found: Value)

  type Cache = Lru.Store<Key, Value>

  /** The cache after a read (its recency updated) and what the read returned. */
  datatype Read<T> = Read(cache: Cache, result: Result<T, CacheError>)

  /** "350 kB" in bytes: the assumed average size of an asset. */
  const AverageAssetSize: nat := 350000

  /** An empty cache with one slot per 350 kB of the byte budget, and at least one. */
  function New(budget: nat): (c: Cache)
    requires budget <= Lru.MaxUint64
    ensures Lru.Valid(c) && c.entries == map[] && c.capacity == Lru.Slots(budget, AverageAssetSize)
  {
    Lru.Sized(budget, AverageAssetSize)
  }

  /** Each key holds the kind of value its kind of key names. */
  predicate WellShaped(c: Cache) {
    forall k | k in c.entries :: Matches(k, c.entries[k])
  }

  predicate Matches(k: Key, v: Value) {
    match k
    case AlbumsKey => v.AlbumsValue?
    case AlbumKey(_) => v.AlbumAssetsValue?
    case AssetKey(id) => v.AssetValue? && v.asset.meta.id == id
  }

  /** Looks a key up, reporting a miss as `NotFound`. */
  function Lookup(c: Cache, k: Key): (r: Read<Value>)
    ensures r.cache.entries == c.entries && r.cache.capacity == c.capacity
    ensures k !in c.entries <==> r.result == Failure(NotFound)
    ensures k in c.entries ==> r.result == Success(c.entries[k])
    ensures Lru.Valid(c) ==> Lru.Valid(r.cache)
  {
    var l := Lru.Get(c, k);
    if l.value.None? then Read(l.store, Failure(NotFound)) else Read(l.store, Success(l.value.value))
  }

  function GetAlbumAssets(c: Cache, id: AlbumID): (r: Read<seq<AssetMetadata>>)
    ensures r.cache.entries == c.entries && (Lru.Valid(c) ==> Lru.Valid(r.cache))
    ensures AlbumKey(id) !in c.entries ==> r.result == Failure(NotFound)
    ensures AlbumKey(id) in c.entries ==>
      (c.entries[AlbumKey(id)].AlbumAssetsValue? <==> r.result.Success?)
    ensures r.result.Success? ==> r.result.value == c.entries[AlbumKey(id)].assets
    ensures r.result.Failure? && AlbumKey(id) in c.entries ==> r.result.error == UnexpectedType(c.entries[AlbumKey(id)])
  {
    var l := Lookup(c, AlbumKey(id));
    match l.result
    case Failure(e) => Read(l.cache, Failure(e))
    case Success(AlbumAssetsValue(xs)) => Read(l.cache, Success(xs))
    case Success(v) => Read(l.cache, Failure(UnexpectedType(v)))
  }

  function StoreAlbumAssets(c: Cache, id: AlbumID, assets: seq<AssetMetadata>): (r: Cache)
    requires Lru.Valid(c)
    ensures Lru.Valid(r) && r.capacity == c.capacity
    ensures WellShaped(c) ==> WellShaped(r)
    ensures AlbumKey(id) in r.entries && r.entries[AlbumKey(id)] == AlbumAssetsValue(assets)
    ensures forall k :: k in r.entries && k != AlbumKey(id) ==> k in c.entries && r.entries[k] == c.entries[k]
    ensures forall k :: k in c.entries && k !in r.entries ==> Lru.Evicts(c, AlbumKey(id)) && k == c.order[0]
  {
    Lru.Add(c, AlbumKey(id), AlbumAssetsValue(assets))
  }

  function GetAlbums(c: Cache): (r: Read<AlbumsResponse>)
    ensures r.cache.entries == c.entries && (Lru.Valid(c) ==> Lru.Valid(r.cache))
    ensures AlbumsKey !in c.entries ==> r.result == Failure(NotFound)
    ensures AlbumsKey in c.entries ==> (c.entries[AlbumsKey].AlbumsValue? <==> r.result.Success?)
    ensures r.result.Success? ==> r.result.value == c.entries[AlbumsKey].response
    ensures r.result.Failure? && AlbumsKey in c.entries ==> r.result.error == UnexpectedType(c.entries[AlbumsKey])
  {
    var l := Lookup(c, AlbumsKey);
    match l.result
    case Failure(e) => Read(l.cache, Failure(e))
    case Success(AlbumsValue(resp)) => Read(l.cache, Success(resp))
    case Success(v) => Read(l.cache, Failure(UnexpectedType(v)))
  }

  function StoreAlbums(c: Cache, resp: AlbumsResponse): (r: Cache)
    requires Lru.Valid(c)
    ensures Lru.Valid(r) && r.capacity == c.capacity
    ensures WellShaped(c) ==> WellShaped(r)
    ensures AlbumsKey in r.entries && r.entries[AlbumsKey] == AlbumsValue(resp)
    ensures forall k :: k in r.entries && k != AlbumsKey ==> k in c.entries && r.entries[k] == c.entries[k]
    ensures forall k :: k in c.entries && k !in r.entries ==> Lru.Evicts(c, AlbumsKey) && k == c.order[0]
  {
    Lru.Add(c, AlbumsKey, AlbumsValue(resp))
  }

  /** Reads the asset with the identifier of `md`. */
  function GetAsset(c: Cache, md: AssetMetadata): (r: Read<Asset>)
    ensures r.cache.entries == c.entries && (Lru.Valid(c) ==> Lru.Valid(r.cache))
    ensures AssetKey(md.id) !in c.entries ==> r.result == Failure(NotFound)
    ensures AssetKey(md.id) in c.entries ==> (c.entries[AssetKey(md.id)].AssetValue? <==> r.result.Success?)
    ensures r.result.Success? ==> r.result.value == c.entries[AssetKey(md.id)].asset
    ensures r.result.Failure? && AssetKey(md.id) in c.entries ==> r.result.error == UnexpectedType(c.entries[AssetKey(md.id)])
  {
    var l := Lookup(c, AssetKey(md.id));
    match l.result
    case Failure(e) => Read(l.cache, Failure(e))
    case Success(AssetValue(a)) => Read(l.cache, Success(a))
    case Success(v) => Read(l.cache, Failure(UnexpectedType(v)))
  }

  /** Stores an asset under its own identifier. */
  function StoreAsset(c: Cache, a: Asset): (r: Cache)
    requires Lru.Valid(c)
    ensures Lru.Valid(r) && r.capacity == c.capacity
    ensures WellShaped(c) ==> WellShaped(r)
    ensures AssetKey(a.meta.id) in r.entries && r.entries[AssetKey(a.meta.id)] == AssetValue(a)
    ensures forall k :: k in r.entries && k != AssetKey(a.meta.id) ==> k in c.entries && r.entries[k] == c.entries[k]
    ensures forall k :: k in c.entries && k !in r.entries ==> Lru.Evicts(c, AssetKey(a.meta.id)) && k == c.order[0]
  {
    Lru.Add(c, AssetKey(a.meta.id), AssetValue(a))
  }

  /** Album metadata stored for an album reads back unchanged. */
  lemma AlbumAssetsRoundTrip(c: Cache, id: AlbumID, assets: seq<AssetMetadata>)
    requires Lru.Valid(c)
    ensures GetAlbumAssets(StoreAlbumAssets(c, id, assets), id).result == Success(assets)
  {
  }

  /** A stored album list reads back unchanged. */
  lemma AlbumsRoundTrip(c: Cache, resp: AlbumsResponse)
    requires Lru.Valid(c)
    ensures GetAlbums(StoreAlbums(c, resp)).result == Success(resp)
  {
  }

  /** A stored asset reads back for any metadata carrying its identifier. */
  lemma AssetRoundTrip(c: Cache, a: Asset, md: AssetMetadata)
    requires Lru.Valid(c) && md.id == a.meta.id
    ensures GetAsset(StoreAsset(c, a), md).result == Success(a)
  {
  }

  /** Reads never change what is stored, so reading twice gives the same answer. */
  lemma ReadTwice(c: Cache, id: AlbumID)
    ensures GetAlbumAssets(GetAlbumAssets(c, id).cache, id).result == GetAlbumAssets(c, id).result
  {
  }

  /**
   * A cache filled only through its store operations never reports a value
   * of the wrong kind: every failed read is a miss.
   */
  lemma WellShapedReadsOnlyMiss(c: Cache, id: AlbumID, md: AssetMetadata)
    requires WellShaped(c)
    ensures GetAlbums(c).result.Failure? ==> GetAlbums(c).result.error == NotFound
    ensures GetAlbumAssets(c, id).result.Failure? ==> GetAlbumAssets(c, id).result.error == NotFound
    ensures GetAsset(c, md).result.Failure? ==> GetAsset(c, md).result.error == NotFound
  {
    if AlbumsKey in c.entries { assert Matches(AlbumsKey, c.entries[AlbumsKey]); }
    if AlbumKey(id) in c.entries { assert Matches(AlbumKey(id), c.entries[AlbumKey(id)]); }
    if AssetKey(md.id) in c.entries { assert Matches(AssetKey(md.id), c.entries[AssetKey(md.id)]); }
  }

  /** An asset stored into a fresh cache is read back as that asset, and an absent one is a miss. */
  lemma FreshCacheExample(a: Asset, other: AssetMetadata)
    requires other.id != a.meta.id
    ensures GetAsset(StoreAsset(New(0), a), a.meta).result == Success(a)
    ensures GetAsset(StoreAsset(New(0), a), other).result == Failure(NotFound)
  {
  }

  /** With room for one entry, storing a second asset evicts the first. */
  lemma OneSlotEvicts(a: Asset, b: Asset)
    requires a.meta.id != b.meta.id
    ensures GetAsset(StoreAsset(StoreAsset(New(0), a), b), a.meta).result == Failure(NotFound)
  {
    var c0 := New(0);
    assert c0.capacity == 1 && c0.order == [];
    var c1 := StoreAsset(c0, a);
    assert c1.order == [AssetKey(a.meta.id)];
    assert Lru.Evicts(c1, AssetKey(b.meta.id));
    var c2 := StoreAsset(c1, b);
    assert AssetKey(a.meta.id) !in c2.entries;
  }
}

/**
 * The earlier in-memory cache tier, which only holds assets, keyed by the
 * text "asset-" followed by the asset identifier. Unlike the tier above, a
 * miss is not an error here.
 */
module LegacyCache {
  import opened Wrappers
  import opened Immich
  import Lru

  /** The store holds values of any type; only assets are ever written. */
  datatype Value = AssetValue(asset: Asset) | OtherValue(text: string)

  datatype CacheError = UnexpectedType(found: Value)

  type Cache = Lru.Store<string, Value>

  datatype Read = Read(cache: Cache, result: Result<Option<Asset>, CacheError>)

  /** "3 MB" in bytes. */
  const AverageAssetSize: nat := 3000000

  const KeyPrefix := "asset-"

  /** An empty cache with one slot per 3 MB of the byte budget, and at least one. */
  function New(budget: nat): (c: Cache)
    requires budget <= Lru.MaxUint64
    ensures Lru.Valid(c) && c.entries == map[] && c.capacity == Lru.Slots(budget, AverageAssetSize)
  {
    Lru.Sized(budget, AverageAssetSize)
  }

  /** The key of an asset. */
  function AssetKey(id: AssetID): (k: string)
    ensures |k| == |KeyPrefix| + |id| && k[..|KeyPrefix|] == KeyPrefix && k[|KeyPrefix|..] == id
  {
    KeyPrefix + id
  }

  /** Distinct assets never share a key. */
  lemma AssetKeyInjective(a: AssetID, b: AssetID)
    ensures AssetKey(a) == AssetKey(b) <==> a == b
  {
    if AssetKey(a) == AssetKey(b) {
      assert a == AssetKey(a)[|KeyPrefix|..];
    }
  }

  /** The tier is in memory and always reachable. */
  function IsConnected(c: Cache): (err: Option<CacheError>)
    ensures err.None?
  {
    None
  }

  /** A miss yields no asset and no error; a value that is not an asset is an error. */
  function GetAsset(c: Cache, md: AssetMetadata): (r: Read)
    ensures r.cache.entries == c.entries && (Lru.Valid(c) ==> Lru.Valid(r.cache))
    ensures AssetKey(md.id) !in c.entries ==> r.result == Success(None) && r.cache == c
    ensures AssetKey(md.id) in c.entries ==>
      match c.entries[AssetKey(md.id)]
      case AssetValue(a) => r.result == Success(Some(a))
      case v => r.result == Failure(UnexpectedType(v))
  {
    var l: Lru.Lookup<string, Value> := Lru.Get(c, AssetKey(md.id));
    match l.value
    case None => Read(l.store, Success(None))
    case Some(AssetValue(a)) => Read(l.store, Success(Some(a)))
    case Some(v) => Read(l.store, Failure(UnexpectedType(v)))
  }

  function StoreAsset(c: Cache, a: Asset): (r: Cache)
    requires Lru.Valid(c)
    ensures Lru.Valid(r) && r.capacity == c.capacity
    ensures AssetKey(a.meta.id) in r.entries && r.entries[AssetKey(a.meta.id)] == AssetValue(a)
    ensures forall k :: k in r.entries && k != AssetKey(a.meta.id) ==> k in c.entries && r.entries[k] == c.entries[k]
    ensures forall k :: k in c.entries && k !in r.entries ==> Lru.Evicts(c, AssetKey(a.meta.id)) && k == c.order[0]
  {
    Lru.Add(c, AssetKey(a.meta.id), AssetValue(a))
  }

  /** The tier reports itself connected, and a stored asset reads back for any metadata with its identifier. */
  lemma StoreThenGet(c: Cache, a: Asset, md: AssetMetadata)
    requires Lru.Valid(c) && md.id == a.meta.id
    ensures IsConnected(c).None?
    ensures GetAsset(StoreAsset(c, a), md).result == Success(Some(a))
  {
  }

  /** Storing one asset does not answer for another: a fresh cache holding `a` misses on any other identifier. */
  lemma OtherAssetMisses(a: Asset, md: AssetMetadata)
    requires md.id != a.meta.id
    ensures GetAsset(StoreAsset(New(0), a), md).result == Success(None)
  {
    AssetKeyInjective(md.id, a.meta.id);
  }
}
