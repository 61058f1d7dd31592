/**
 * The catalog records exchanged with the Immich server, as the photo frame
 * sees them after JSON decoding.
 */
module Immich {
  import opened Wrappers

  type AlbumID = string
  type AssetID = string

  /** An album as listed by the server; `order` is "asc", "desc" or empty. */
  datatype Album = Album(
    name: string,
    description: string,
    id: AlbumID,
    order: string,
    assetCount: int)

  /** The EXIF fields the formatters read (latitude and longitude are not modelled). */
  datatype ExifInfo = ExifInfo(
    city: string,
    state: string,
    country: string,
    dateTimeOriginal: string,
    timeZone: string)

  /** Metadata of one asset (the free-form `people` list is not modelled). */
  datatype AssetMetadata = AssetMetadata(
    id: AssetID,
    kind: string,
    name: string,
    duration: string,
    exif: ExifInfo)

  /** An asset with its downloaded payload. */
  datatype Asset = Asset(meta: AssetMetadata, data: seq<bv8>)

  /** The album list together with the time (in nanoseconds) it was fetched. */
  datatype AlbumsResponse = AlbumsResponse(responseTime: int, albums: seq<Album>)

  /**
   * A source of album contents. `fetch(id, n)` is the answer of the n-th call
   * (counting from 0) made to the source: `None` for an error, otherwise the
   * album's asset metadata in server order. Indexing by the call number lets a
   * source fail transiently, which is what the retry loops are about.
   */
  type Fetcher = (AlbumID, nat) -> Option<seq<AssetMetadata>>

  /** A source whose answers do not depend on when it is asked. */
  ghost predicate Stable(fetch: Fetcher) {
    forall id, n :: fetch(id, n) == fetch(id, 0)
  }

  const NoExif := ExifInfo("", "", "", "", "")

  /** Metadata carrying only an identifier, as the source's tests build it. */
  function MetaWithID(id: AssetID): AssetMetadata {
    AssetMetadata(id, "", "", "", NoExif)
  }

  /** An album carrying only an identifier and an asset count. */
  function AlbumWithID(id: AlbumID, count: int): Album {
    Album("", "", id, "", count)
  }

  /** A source that answers from a fixed table and fails for unknown albums. */
  function TableSource(table: map<AlbumID, seq<AssetMetadata>>): Fetcher {
    (id: AlbumID, n: nat) => if id in table then Some(table[id]) else None
  }

  /** The identifiers of a sequence of optional metadata, skipping absent ones. */
  function IDs(xs: seq<Option<AssetMetadata>>): seq<AssetID> {
    if |xs| == 0 then []
    else (if xs[0].Some? then [xs[0].value.id] else []) + IDs(xs[1..])
  }
}
