/**
 * The asset-metadata iterator that predates the planners: round-robin over
 * albums, loading each album with up to three attempts, exposed as a Go
 * `iter.Seq` that stops at the first missing asset or when the consumer
 * declines more.
 */
module AssetIter {
  import opened Wrappers
  import opened Immich
  import opened Cursor

  datatype Iter = Iter(
    albums: seq<Album>,
    albumsIndex: int,
    albumAssets: seq<AssetMetadata>,
    albumAssetsIndex: nat,
    calls: nat)

  predicate Valid(it: Iter) {
    -1 <= it.albumsIndex < |it.albums| && it.albumAssetsIndex <= |it.albumAssets|
  }

  datatype Step = Step(iter: Iter, out: Option<AssetMetadata>)

  /** NewAssetMetadataIter: the cursor starts before the first album. */
  function NewIter(albums: seq<Album>): (it: Iter)
    ensures Valid(it) && it.albums == albums
    ensures it.albumsIndex == -1 && it.albumAssets == [] && it.albumAssetsIndex == 0 && it.calls == 0
  {
    Iter(albums, -1, [], 0, 0)
  }

  /** nextAsset: the asset under the cursor, or failure with nothing changed. */
  function NextAsset(it: Iter): (r: Step)
    requires Valid(it)
    ensures Valid(r.iter)
    ensures it.albumAssetsIndex < |it.albumAssets| ==>
              r.out == Some(it.albumAssets[it.albumAssetsIndex])
              && r.iter == it.(albumAssetsIndex := it.albumAssetsIndex + 1)
    ensures it.albumAssetsIndex >= |it.albumAssets| ==> r == Step(it, None)
  {
    if it.albumAssetsIndex >= |it.albumAssets| then Step(it, None)
    else Step(it.(albumAssetsIndex := it.albumAssetsIndex + 1), Some(it.albumAssets[it.albumAssetsIndex]))
  }

  const MaxLoadAttempts: nat := 3

  /** The assets loaded for one album and the call counter afterwards. */
  datatype Load = Load(assets: seq<AssetMetadata>, calls: nat)

  /** Ask the source up to `tries` times, from call `calls` on, and keep the first success. */
  function LoadAlbum(fetch: Fetcher, id: AlbumID, calls: nat, tries: nat): (r: Load)
    requires tries > 0
    ensures calls < r.calls <= calls + tries
    ensures forall c :: calls <= c < r.calls - 1 ==> fetch(id, c).None?
    ensures fetch(id, r.calls - 1).Some? ==> r.assets == fetch(id, r.calls - 1).value
    ensures fetch(id, r.calls - 1).None? ==> r.assets == [] && r.calls == calls + tries
    decreases tries
  {
    match fetch(id, calls)
    case Some(xs) => Load(xs, calls + 1)
    case None => if tries == 1 then Load([], calls + 1) else LoadAlbum(fetch, id, calls + 1, tries - 1)
  }

  /** nextAlbum: move the cursor on, clear the assets and load the new album. */
  function NextAlbum(it: Iter, fetch: Fetcher): (r: Iter)
    requires Valid(it) && |it.albums| > 0
    ensures Valid(r) && r.albums == it.albums
    ensures r.albumsIndex == Advance(|it.albums|, it.albumsIndex) && r.albumAssetsIndex == 0
    ensures r.calls <= it.calls + MaxLoadAttempts
    ensures r.albumAssets == LoadAlbum(fetch, it.albums[r.albumsIndex].id, it.calls, MaxLoadAttempts).assets
  {
    var i := Advance(|it.albums|, it.albumsIndex);
    var load := LoadAlbum(fetch, it.albums[i].id, it.calls, MaxLoadAttempts);
    Iter(it.albums, i, load.assets, 0, load.calls)
  }

  /** The loop of `Next`: `attempts` rounds of "try an asset, else load the next album". */
  function NextWithin(it: Iter, fetch: Fetcher, attempts: nat): (r: Step)
    requires Valid(it) && |it.albums| > 0
    ensures Valid(r.iter) && r.iter.albums == it.albums
    decreases attempts
  {
    if attempts == 0 then Step(it, None)
    else
      var s := NextAsset(it);
      if s.out.Some? then s else NextWithin(NextAlbum(it, fetch), fetch, attempts - 1)
  }

  /**
   * assetMetadataIter.Next as written: nothing without albums, otherwise
   * `len(albums)` rounds. The album loaded in the last round is never read.
   */
  function Next(it: Iter, fetch: Fetcher): (r: Step)
    requires Valid(it)
    ensures Valid(r.iter) && r.iter.albums == it.albums
    ensures |it.albums| == 0 ==> r == Step(it, None)
    ensures |it.albums| > 0 && it.albumAssetsIndex < |it.albumAssets| ==>
              r == Step(it.(albumAssetsIndex := it.albumAssetsIndex + 1), Some(it.albumAssets[it.albumAssetsIndex]))
  {
    if |it.albums| == 0 then Step(it, None) else NextWithin(it, fetch, |it.albums|)
  }

  /** `Next` with the evidently intended final read of the last album loaded. */
  function FixedNext(it: Iter, fetch: Fetcher): (r: Step)
    requires Valid(it)
    ensures Valid(r.iter) && r.iter.albums == it.albums
    ensures |it.albums| == 0 ==> r == Step(it, None)
    ensures Next(it, fetch).out.Some? ==> r == Next(it, fetch)
  {
    if |it.albums| == 0 then Step(it, None)
    else
      var s := NextWithin(it, fetch, |it.albums|);
      if s.out.Some? then s else NextAsset(s.iter)
  }

  /** With assets left in the current album, the next one is handed out. */
  lemma FixedNextWithin(it: Iter, f: Fetcher)
    requires Valid(it) && |it.albums| > 0 && it.albumAssetsIndex < |it.albumAssets|
    ensures FixedNext(it, f) == Step(it.(albumAssetsIndex := it.albumAssetsIndex + 1), Some(it.albumAssets[it.albumAssetsIndex]))
  {
  }

  /** With the current album used up, the next album is loaded at the first call and its first asset handed out. */
  lemma FixedNextAcross(it: Iter, f: Fetcher, xs: seq<AssetMetadata>)
    requires Valid(it) && |it.albums| > 0 && it.albumAssetsIndex == |it.albumAssets|
    requires f(it.albums[Advance(|it.albums|, it.albumsIndex)].id, it.calls) == Some(xs) && |xs| > 0
    ensures FixedNext(it, f) == Step(Iter(it.albums, Advance(|it.albums|, it.albumsIndex), xs, 1, it.calls + 1), Some(xs[0]))
  {
    var loaded := NextAlbum(it, f);
    assert loaded == Iter(it.albums, Advance(|it.albums|, it.albumsIndex), xs, 0, it.calls + 1);
    assert NextWithin(it, f, |it.albums|) == NextWithin(loaded, f, |it.albums| - 1);
  }

  /**
   * The same step for `Next` as written: with at least two albums the album
   * loaded in the first round is read in the second.
   */
  lemma NextAcross(it: Iter, f: Fetcher, xs: seq<AssetMetadata>)
    requires Valid(it) && |it.albums| > 1 && it.albumAssetsIndex == |it.albumAssets|
    requires f(it.albums[Advance(|it.albums|, it.albumsIndex)].id, it.calls) == Some(xs) && |xs| > 0
    ensures Next(it, f) == Step(Iter(it.albums, Advance(|it.albums|, it.albumsIndex), xs, 1, it.calls + 1), Some(xs[0]))
  {
    var loaded := NextAlbum(it, f);
    assert loaded == Iter(it.albums, Advance(|it.albums|, it.albumsIndex), xs, 0, it.calls + 1);
    assert NextWithin(it, f, |it.albums|) == NextWithin(loaded, f, |it.albums| - 1);
  }

  /**
   * AssetMetadataIter: the metadata handed to `yield`, in order, each from
   * `Next` as written. Iteration
   * stops at the first missing asset or after the first `yield` that answers
   * false; `consume(k, md)` is the consumer's answer for its k-th item (from 0).
   * `fuel` bounds the number of `Next` calls.
   */
  function Sequence(it: Iter, fetch: Fetcher, consume: (nat, AssetMetadata) -> bool, fuel: nat, count: nat)
    : (r: seq<AssetMetadata>)
    requires Valid(it)
    ensures |r| <= fuel
    ensures |it.albums| == 0 ==> r == []
    ensures fuel > 0 && Next(it, fetch).out.None? ==> r == []
    ensures |r| > 0 ==> Next(it, fetch).out == Some(r[0])
    ensures forall k :: 0 <= k < |r| - 1 ==> consume(count + k, r[k])
    decreases fuel
  {
    if fuel == 0 then []
    else
      var s := Next(it, fetch);
      match s.out
      case None => []
      case Some(md) =>
        if consume(count, md) then
          var rest := Sequence(s.iter, fetch, consume, fuel - 1, count + 1);
          [md] + rest
        else [md]
  }

  // ------------------------------------------------------------ the defect

  /** What a stable source yields for an album after the retries. */
  function Loaded(fetch: Fetcher, id: AlbumID): seq<AssetMetadata> {
    match fetch(id, 0) case Some(xs) => xs case None => []
  }

  lemma {:induction false} LoadStable(fetch: Fetcher, id: AlbumID, calls: nat, tries: nat)
    requires Stable(fetch) && tries > 0
    ensures LoadAlbum(fetch, id, calls, tries).assets == Loaded(fetch, id)
    decreases tries
  {
    assert fetch(id, calls) == fetch(id, 0);
    if fetch(id, calls).None? && tries > 1 {
      LoadStable(fetch, id, calls + 1, tries - 1);
    }
  }

  /** The album reached on round k found nothing to show. */
  predicate EmptyAt(fetch: Fetcher, albums: seq<Album>, index: int, k: nat)
    requires |albums| > 0 && -1 <= index < |albums|
  {
    Loaded(fetch, albums[AttemptAlbum(|albums|, index, k)].id) == []
  }

  /**
   * When the loop finds nothing in m rounds, it loaded the albums of rounds
   * 0 .. m-1 in turn, all but the last were empty, and the last one is what the
   * iterator now holds, unread.
   */
  lemma {:induction false} NextWithinFindsNothing(it: Iter, fetch: Fetcher, m: nat)
    requires Valid(it) && |it.albums| > 0 && Stable(fetch) && m >= 1
    requires NextWithin(it, fetch, m).out.None?
    ensures var r := NextWithin(it, fetch, m);
            && r.iter.albumsIndex == AttemptAlbum(|it.albums|, it.albumsIndex, m - 1)
            && r.iter.albumAssets == Loaded(fetch, it.albums[r.iter.albumsIndex].id)
            && r.iter.albumAssetsIndex == 0
            && forall k :: 0 <= k < m - 1 ==> EmptyAt(fetch, it.albums, it.albumsIndex, k)
    decreases m
  {
    var n := |it.albums|;
    var it1 := NextAlbum(it, fetch);
    LoadStable(fetch, it.albums[it1.albumsIndex].id, it.calls, MaxLoadAttempts);
    assert NextAsset(it).out.None?;
    assert NextWithin(it, fetch, m) == NextWithin(it1, fetch, m - 1);
    if m > 1 {
      NextWithinFindsNothing(it1, fetch, m - 1);
      assert NextAsset(it1).out.None?;
      assert EmptyAt(fetch, it.albums, it.albumsIndex, 0);
      forall k | 1 <= k < m - 1
        ensures EmptyAt(fetch, it.albums, it.albumsIndex, k)
      {
        assert EmptyAt(fetch, it.albums, it1.albumsIndex, k - 1);
      }
    }
  }

  /**
   * When every album the loop reads is empty, it finds nothing: an exhausted
   * iterator given m rounds loads m albums but reads only the first m - 1.
   */
  lemma {:induction false} NextWithinAllEmpty(it: Iter, fetch: Fetcher, m: nat)
    requires Valid(it) && |it.albums| > 0 && Stable(fetch) && it.albumAssetsIndex == |it.albumAssets|
    requires forall k :: 0 <= k < m - 1 ==> EmptyAt(fetch, it.albums, it.albumsIndex, k)
    ensures NextWithin(it, fetch, m).out.None?
    decreases m
  {
    if m > 1 {
      var it1 := NextAlbum(it, fetch);
      LoadStable(fetch, it.albums[it1.albumsIndex].id, it.calls, MaxLoadAttempts);
      assert EmptyAt(fetch, it.albums, it.albumsIndex, 0);
      forall k | 0 <= k < m - 2
        ensures EmptyAt(fetch, it.albums, it1.albumsIndex, k)
      {
        assert EmptyAt(fetch, it.albums, it.albumsIndex, k + 1);
      }
      NextWithinAllEmpty(it1, fetch, m - 1);
    }
  }

  /**
   * When round k is the first whose album holds something, and a later round
   * remains to read it, the loop stops on that album and hands out its first
   * asset.
   */
  lemma {:induction false} NextWithinFirstFound(it: Iter, fetch: Fetcher, m: nat, k: nat)
    requires Valid(it) && |it.albums| > 0 && Stable(fetch) && it.albumAssetsIndex == |it.albumAssets|
    requires k < m - 1 && !EmptyAt(fetch, it.albums, it.albumsIndex, k)
    requires forall j :: 0 <= j < k ==> EmptyAt(fetch, it.albums, it.albumsIndex, j)
    ensures var r := NextWithin(it, fetch, m);
            var i := AttemptAlbum(|it.albums|, it.albumsIndex, k);
            && r.out == Some(Loaded(fetch, it.albums[i].id)[0])
            && r.iter.albumsIndex == i
            && r.iter.albumAssets == Loaded(fetch, it.albums[i].id)
            && r.iter.albumAssetsIndex == 1
    decreases m
  {
    var it1 := NextAlbum(it, fetch);
    LoadStable(fetch, it.albums[it1.albumsIndex].id, it.calls, MaxLoadAttempts);
    assert NextWithin(it, fetch, m) == NextWithin(it1, fetch, m - 1);
    if k > 0 {
      assert EmptyAt(fetch, it.albums, it.albumsIndex, 0);
      assert !EmptyAt(fetch, it.albums, it1.albumsIndex, k - 1);
      forall j | 0 <= j < k - 1
        ensures EmptyAt(fetch, it.albums, it1.albumsIndex, j)
      {
        assert EmptyAt(fetch, it.albums, it.albumsIndex, j + 1);
      }
      NextWithinFirstFound(it1, fetch, m - 1, k - 1);
    }
  }

  /**
   * `Next` as written, once the current album is used up: it returns an asset
   * exactly when one of the albums on the next len(albums) - 1 cursor
   * positions holds one. The album on the last position is loaded but never
   * read.
   */
  lemma NextExhausted(it: Iter, fetch: Fetcher)
    requires Valid(it) && |it.albums| > 0 && Stable(fetch) && it.albumAssetsIndex == |it.albumAssets|
    ensures Next(it, fetch).out.Some? <==>
              exists k :: 0 <= k < |it.albums| - 1 && !EmptyAt(fetch, it.albums, it.albumsIndex, k)
  {
    var n := |it.albums|;
    if k :| 0 <= k < n - 1 && !EmptyAt(fetch, it.albums, it.albumsIndex, k) {
      var first := FirstNonEmpty(it, fetch, k);
      NextWithinFirstFound(it, fetch, n, first);
    } else {
      NextWithinAllEmpty(it, fetch, n);
    }
  }

  /**
   * `Next` as written, once the current album is used up, hands out the first
   * asset of the first non-empty album among the next len(albums) - 1 cursor
   * positions, and holds that album with its cursor past that asset.
   */
  lemma NextFindsFirstNonEmpty(it: Iter, fetch: Fetcher, k: nat)
    requires Valid(it) && |it.albums| > 0 && Stable(fetch) && it.albumAssetsIndex == |it.albumAssets|
    requires k < |it.albums| - 1 && !EmptyAt(fetch, it.albums, it.albumsIndex, k)
    requires forall j :: 0 <= j < k ==> EmptyAt(fetch, it.albums, it.albumsIndex, j)
    ensures var r := Next(it, fetch);
            var i := AttemptAlbum(|it.albums|, it.albumsIndex, k);
            && r.out == Some(Loaded(fetch, it.albums[i].id)[0])
            && r.iter.albumsIndex == i
            && r.iter.albumAssets == Loaded(fetch, it.albums[i].id)
            && r.iter.albumAssetsIndex == 1
  {
    NextWithinFirstFound(it, fetch, |it.albums|, k);
  }

  /** The first round, up to `k`, whose album holds something. */
  lemma FirstNonEmpty(it: Iter, fetch: Fetcher, k: nat) returns (first: nat)
    requires |it.albums| > 0 && -1 <= it.albumsIndex < |it.albums|
    requires !EmptyAt(fetch, it.albums, it.albumsIndex, k)
    ensures first <= k && !EmptyAt(fetch, it.albums, it.albumsIndex, first)
    ensures forall j :: 0 <= j < first ==> EmptyAt(fetch, it.albums, it.albumsIndex, j)
  {
    first := 0;
    while first < k && EmptyAt(fetch, it.albums, it.albumsIndex, first)
      invariant first <= k
      invariant forall j :: 0 <= j < first ==> EmptyAt(fetch, it.albums, it.albumsIndex, j)
    {
      first := first + 1;
    }
  }

  /** When the fixed `Next` finds nothing, every album of a stable source is empty. */
  lemma FixedNextNothingMeansAllEmpty(it: Iter, fetch: Fetcher)
    requires Valid(it) && Stable(fetch) && |it.albums| > 0
    requires FixedNext(it, fetch).out.None?
    ensures forall j :: 0 <= j < |it.albums| ==> Loaded(fetch, it.albums[j].id) == []
  {
    var n := |it.albums|;
    var s := NextWithin(it, fetch, n);
    NextWithinFindsNothing(it, fetch, n);
    assert NextAsset(s.iter).out.None?;
    forall j | 0 <= j < n
      ensures Loaded(fetch, it.albums[j].id) == []
    {
      AttemptCovers(n, it.albumsIndex, j);
      var k :| 0 <= k < n && AttemptAlbum(n, it.albumsIndex, k) == j;
      if k < n - 1 {
        assert EmptyAt(fetch, it.albums, it.albumsIndex, k);
      }
    }
  }

  /**
   * Corrected behaviour: with a stable source, the fixed `Next` returns an asset
   * whenever any configured album has one, from any reachable state.
   */
  lemma FixedNextFindsAssets(it: Iter, fetch: Fetcher, j: nat)
    requires Valid(it) && Stable(fetch) && j < |it.albums| && Loaded(fetch, it.albums[j].id) != []
    ensures FixedNext(it, fetch).out.Some?
  {
    if FixedNext(it, fetch).out.None? {
      FixedNextNothingMeansAllEmpty(it, fetch);
    }
  }

  /**
   * The defect as written: one album holding an asset, a fresh iterator, and
   * `Next` returns nothing, so the iterator sequence is empty whatever the
   * consumer.
   */
  lemma SingleAlbumYieldsNothing(consume: (nat, AssetMetadata) -> bool, fuel: nat)
    ensures var fetch := TableSource(map["album-1" := [MetaWithID("asset-1")]]);
            && Loaded(fetch, "album-1") != []
            && Next(NewIter([AlbumWithID("album-1", 1)]), fetch).out.None?
            && Sequence(NewIter([AlbumWithID("album-1", 1)]), fetch, consume, fuel, 0) == []
            && FixedNext(NewIter([AlbumWithID("album-1", 1)]), fetch).out == Some(MetaWithID("asset-1"))
  {
    var fetch := TableSource(map["album-1" := [MetaWithID("asset-1")]]);
    var it := NewIter([AlbumWithID("album-1", 1)]);
    var it1 := NextAlbum(it, fetch);
    assert it1.albumAssets == [MetaWithID("asset-1")];
    assert Next(it, fetch) == NextWithin(it1, fetch, 0);
  }
}

/** The scenarios of the asset-metadata iterator's unit tests. */
module AssetIterExamples {
  import opened Wrappers
  import opened Immich
  import opened AssetIter

  const Albums := [AlbumWithID("album-1", 2), AlbumWithID("album-2", 3)]

  function TestSource(): Fetcher {
    TableSource(map[
      "album-1" := [MetaWithID("asset-1"), MetaWithID("asset-2")],
      "album-2" := [MetaWithID("asset-3"), MetaWithID("asset-4"), MetaWithID("asset-5")]])
  }

  /** The test consumer counts items and asks for more while it has fewer than six. */
  function UpToSix(): (nat, AssetMetadata) -> bool {
    (k: nat, md: AssetMetadata) => k + 1 < 6
  }

  function Ids(xs: seq<AssetMetadata>): seq<AssetID> {
    seq(|xs|, i requires 0 <= i < |xs| => xs[i].id)
  }

  /** A step the consumer accepts puts the yielded item in front of the rest. */
  lemma SequenceStep(it: Iter, f: Fetcher, c: (nat, AssetMetadata) -> bool, fuel: nat, count: nat, next: Iter, md: AssetMetadata)
    requires Valid(it) && fuel > 0
    requires Next(it, f) == Step(next, Some(md))
    ensures c(count, md) ==> Sequence(it, f, c, fuel, count) == [md] + Sequence(next, f, c, fuel - 1, count + 1)
    ensures !c(count, md) ==> Sequence(it, f, c, fuel, count) == [md]
  {
  }

  /** Consecutive states `its[i]` step to `its[i + 1]`, handing out `mds[i]`. */
  predicate Steps(its: seq<Iter>, mds: seq<AssetMetadata>, f: Fetcher)
    requires |its| == |mds| + 1 && forall i :: 0 <= i < |its| ==> Valid(its[i])
  {
    forall i {:trigger Next(its[i], f)} :: 0 <= i < |mds| ==> Next(its[i], f) == Step(its[i + 1], Some(mds[i]))
  }

  /** The consumer accepts `mds[i]` as item `count + i`, for every item but the last. */
  predicate Accepts(mds: seq<AssetMetadata>, c: (nat, AssetMetadata) -> bool, count: nat) {
    forall i {:trigger mds[i]} :: 0 <= i < |mds| - 1 ==> c(count + i, mds[i])
  }

  /** Dropping the first step of a run leaves a run. */
  lemma StepsTail(its: seq<Iter>, mds: seq<AssetMetadata>, f: Fetcher)
    requires |mds| > 1 && |its| == |mds| + 1 && forall i :: 0 <= i < |its| ==> Valid(its[i])
    requires Steps(its, mds, f)
    ensures forall i :: 0 <= i < |its[1..]| ==> Valid(its[1..][i])
    ensures Steps(its[1..], mds[1..], f)
  {
    var its', mds' := its[1..], mds[1..];
    forall i | 0 <= i < |mds'| ensures Next(its'[i], f) == Step(its'[i + 1], Some(mds'[i])) {
      assert its'[i] == its[i + 1] && its'[i + 1] == its[i + 2] && mds'[i] == mds[i + 1];
      assert Next(its[i + 1], f) == Step(its[i + 2], Some(mds[i + 1]));
    }
  }

  /** Dropping the first item leaves the consumer's answers for the rest. */
  lemma AcceptsTail(mds: seq<AssetMetadata>, c: (nat, AssetMetadata) -> bool, count: nat)
    requires |mds| > 1 && Accepts(mds, c, count)
    ensures Accepts(mds[1..], c, count + 1)
  {
    var mds' := mds[1..];
    forall i | 0 <= i < |mds'| - 1 ensures c(count + 1 + i, mds'[i]) {
      assert mds'[i] == mds[i + 1];
      assert c(count + (i + 1), mds[i + 1]);
    }
  }

  /**
   * A run of steps, each handing out one item, where the consumer accepts
   * every item but the last: the iteration yields exactly those items.
   */
  lemma {:induction false} SequenceFollowsSteps(its: seq<Iter>, mds: seq<AssetMetadata>, f: Fetcher,
                                                c: (nat, AssetMetadata) -> bool, fuel: nat, count: nat)
    requires |mds| > 0 && |its| == |mds| + 1 && fuel >= |mds|
    requires forall i :: 0 <= i < |its| ==> Valid(its[i])
    requires Steps(its, mds, f) && Accepts(mds, c, count)
    requires !c(count + |mds| - 1, mds[|mds| - 1])
    ensures Sequence(its[0], f, c, fuel, count) == mds
    decreases |mds|
  {
    assert Next(its[0], f) == Step(its[1], Some(mds[0]));
    SequenceStep(its[0], f, c, fuel, count, its[1], mds[0]);
    if |mds| > 1 {
      assert c(count, mds[0]);
      StepsTail(its, mds, f);
      AcceptsTail(mds, c, count);
      SequenceFollowsSteps(its[1..], mds[1..], f, c, fuel - 1, count + 1);
      assert mds == [mds[0]] + mds[1..];
    }
  }

  const A1 := [MetaWithID("asset-1"), MetaWithID("asset-2")]
  const A2 := [MetaWithID("asset-3"), MetaWithID("asset-4"), MetaWithID("asset-5")]

  /** The iterator states the two-album run passes through. */
  const Its := [NewIter(Albums), Iter(Albums, 0, A1, 1, 1), Iter(Albums, 0, A1, 2, 1), Iter(Albums, 1, A2, 1, 2),
                Iter(Albums, 1, A2, 2, 2), Iter(Albums, 1, A2, 3, 2), Iter(Albums, 0, A1, 1, 3)]

  /** What each step of the two-album run hands out. */
  const Mds := [A1[0], A1[1], A2[0], A2[1], A2[2], A1[0]]

  /** Each state of the run steps to the next one, handing out the next item. */
  lemma TwoAlbumSteps()
    ensures forall i :: 0 <= i < |Its| ==> Valid(Its[i])
    ensures Steps(Its, Mds, TestSource())
  {
    var f := TestSource();
    assert f("album-1", 0) == Some(A1) && f("album-2", 1) == Some(A2) && f("album-1", 2) == Some(A1);
    forall i | 0 <= i < |Mds| ensures Next(Its[i], f) == Step(Its[i + 1], Some(Mds[i])) {
      if i == 0 || i == 2 || i == 5 {
        NextAcross(Its[i], f, if i == 2 then A2 else A1);
      }
    }
  }

  /** The run yields the items the steps hand out. */
  lemma TwoAlbumRun()
    ensures Sequence(Its[0], TestSource(), UpToSix(), 10, 0) == Mds
  {
    TwoAlbumSteps();
    SequenceFollowsSteps(Its, Mds, TestSource(), UpToSix(), 10, 0);
  }

  lemma TwoAlbumIds()
    ensures Ids(Mds) == ["asset-1", "asset-2", "asset-3", "asset-4", "asset-5", "asset-1"]
  {
  }

  /** Two albums: asset-1 .. asset-5, then back to asset-1, where the consumer stops. */
  lemma TwoAlbumsInOrder()
    ensures Ids(Sequence(NewIter(Albums), TestSource(), UpToSix(), 10, 0))
            == ["asset-1", "asset-2", "asset-3", "asset-4", "asset-5", "asset-1"]
  {
    TwoAlbumRun();
    TwoAlbumIds();
    assert Its[0] == NewIter(Albums);
  }

  /** A source that always fails: nothing reaches the consumer. */
  lemma FailingSourceYieldsNothing(consume: (nat, AssetMetadata) -> bool)
    ensures Sequence(NewIter(Albums), (id: AlbumID, n: nat) => None, consume, 10, 0) == []
  {
    var f: Fetcher := (id: AlbumID, n: nat) => None;
    var it0 := NewIter(Albums);
    var it1 := NextAlbum(it0, f);
    assert it1.albumAssets == [];
    var it2 := NextAlbum(it1, f);
    assert it2.albumAssets == [];
    assert Next(it0, f).out.None?;
  }

  /** Albums that load but hold nothing: nothing reaches the consumer. */
  lemma EmptyAlbumsYieldNothing(consume: (nat, AssetMetadata) -> bool)
    ensures Sequence(NewIter(Albums), TableSource(map["album-1" := [], "album-2" := []]), consume, 10, 0) == []
  {
    var f := TableSource(map["album-1" := [], "album-2" := []]);
    var it0 := NewIter(Albums);
    var it1 := NextAlbum(it0, f);
    assert it1.albumAssets == [];
    var it2 := NextAlbum(it1, f);
    assert it2.albumAssets == [];
    assert Next(it0, f).out.None?;
  }
}
