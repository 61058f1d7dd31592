/**
 * The sequential slideshow planner: albums are visited round-robin in the
 * configured order, and each album's assets in the order the album is
 * configured with on the server ("asc" albums are listed newest first by the
 * server and are therefore reversed).
 */
module Sequential {
  import opened Wrappers
  import opened Immich
  import opened Cursor

  /**
   * Planner state. `albumIndex` is -1 until the first album is loaded;
   * `calls` counts the calls made to the album source since `Init`.
   */
  datatype Planner = Planner(
    albums: seq<Album>,
    albumIndex: int,
    assets: seq<AssetMetadata>,
    assetIndex: nat,
    calls: nat)

  /** The index bounds every reachable planner state keeps. */
  predicate Valid(p: Planner) {
    -1 <= p.albumIndex < |p.albums| && p.assetIndex <= |p.assets|
  }

  /** The outcome of one `Next` call: the new state and the asset, if any. */
  datatype Step = Step(planner: Planner, out: Option<AssetMetadata>)

  const PlannerName := "sequential"

  /** `Init` forgets everything but the albums, so the first `Next` loads the first album. */
  function Init(albums: seq<Album>): (p: Planner)
    ensures Valid(p) && p.albums == albums
    ensures p.albumIndex == -1 && p.assets == [] && p.assetIndex == 0 && p.calls == 0
  {
    Planner(albums, -1, [], 0, 0)
  }

  function Reverse<T>(xs: seq<T>): (r: seq<T>)
    ensures |r| == |xs|
    ensures forall i :: 0 <= i < |xs| ==> r[i] == xs[|xs| - 1 - i]
  {
    if |xs| == 0 then [] else Reverse(xs[1..]) + [xs[0]]
  }

  /** An album's assets in display order: reversed for "asc" albums, as listed otherwise. */
  function InOrder(album: Album, mds: seq<AssetMetadata>): (r: seq<AssetMetadata>)
    ensures |r| == |mds| && multiset(r) == multiset(mds)
    ensures album.order == "asc" ==> forall i :: 0 <= i < |mds| ==> r[i] == mds[|mds| - 1 - i]
    ensures album.order != "asc" ==> r == mds
  {
    if album.order == "asc" then
      var r := Reverse(mds);
      ReverseMultiset(mds);
      r
    else mds
  }

  lemma {:induction false} ReverseMultiset<T>(xs: seq<T>)
    ensures multiset(Reverse(xs)) == multiset(xs)
  {
    if |xs| > 0 {
      ReverseMultiset(xs[1..]);
      assert xs == [xs[0]] + xs[1..];
    }
  }

  // ------------------------------------------------------------ album search

  /** Whether the k-th attempt after `albumIndex`, made as call `calls + k`, failed. */
  predicate AttemptFailed(fetch: Fetcher, albums: seq<Album>, albumIndex: int, calls: nat, k: nat)
    requires |albums| > 0 && -1 <= albumIndex < |albums|
  {
    fetch(albums[AttemptAlbum(|albums|, albumIndex, k)].id, calls + k).None?
  }

  datatype Probe = Probe(albumIndex: int, loaded: Option<seq<AssetMetadata>>, attempts: nat)

  /**
   * The album loop of `Next`: advance cyclically at most `rounds` times and
   * stop at the first album whose assets load, even when it has none.
   */
  function Search(albums: seq<Album>, fetch: Fetcher, albumIndex: int, calls: nat, rounds: nat): (r: Probe)
    requires |albums| > 0 && -1 <= albumIndex < |albums|
    ensures r.attempts <= rounds
    ensures r.loaded.None? ==> r.attempts == rounds
    ensures r.attempts == 0 ==> r.albumIndex == albumIndex && r.loaded.None?
    ensures r.attempts > 0 ==> r.albumIndex == AttemptAlbum(|albums|, albumIndex, r.attempts - 1)
    decreases rounds
  {
    if rounds == 0 then Probe(albumIndex, None, 0)
    else
      var i := Advance(|albums|, albumIndex);
      match fetch(albums[i].id, calls)
      case Some(raw) => Probe(i, Some(InOrder(albums[i], raw)), 1)
      case None =>
        var r := Search(albums, fetch, i, calls + 1, rounds - 1);
        Probe(r.albumIndex, r.loaded, r.attempts + 1)
  }

  /** After a failed first attempt, the search continues from the next album with the next call. */
  lemma SearchAfterFailure(albums: seq<Album>, fetch: Fetcher, albumIndex: int, calls: nat, rounds: nat)
    requires |albums| > 0 && -1 <= albumIndex < |albums| && rounds > 0
    requires fetch(albums[Advance(|albums|, albumIndex)].id, calls).None?
    ensures var r := Search(albums, fetch, Advance(|albums|, albumIndex), calls + 1, rounds - 1);
            Search(albums, fetch, albumIndex, calls, rounds) == Probe(r.albumIndex, r.loaded, r.attempts + 1)
  {
  }

  /** Every attempt before the last one failed, and the last one too when nothing loaded. */
  lemma {:induction false} SearchFailuresFirst(albums: seq<Album>, fetch: Fetcher, albumIndex: int, calls: nat, rounds: nat)
    requires |albums| > 0 && -1 <= albumIndex < |albums|
    ensures var r := Search(albums, fetch, albumIndex, calls, rounds);
            forall k :: 0 <= k < r.attempts && (r.loaded.None? || k < r.attempts - 1) ==>
              AttemptFailed(fetch, albums, albumIndex, calls, k)
    decreases rounds
  {
    if rounds > 0 {
      var i := Advance(|albums|, albumIndex);
      if fetch(albums[i].id, calls).None? {
        var r := Search(albums, fetch, i, calls + 1, rounds - 1);
        SearchAfterFailure(albums, fetch, albumIndex, calls, rounds);
        SearchFailuresFirst(albums, fetch, i, calls + 1, rounds - 1);
        ShiftedFailures(albums, fetch, albumIndex, i, calls, calls + 1, r.attempts, r.loaded.None?);
      }
    }
  }

  /** When something loaded, the last attempt succeeded and its answer, in display order, is what was loaded. */
  lemma {:induction false} SearchLoadedLast(albums: seq<Album>, fetch: Fetcher, albumIndex: int, calls: nat, rounds: nat)
    requires |albums| > 0 && -1 <= albumIndex < |albums|
    ensures var r := Search(albums, fetch, albumIndex, calls, rounds);
            r.loaded.Some? ==>
              && r.attempts > 0
              && !AttemptFailed(fetch, albums, albumIndex, calls, r.attempts - 1)
              && r.loaded.value == InOrder(albums[r.albumIndex], fetch(albums[r.albumIndex].id, calls + r.attempts - 1).value)
    decreases rounds
  {
    if rounds > 0 {
      var i := Advance(|albums|, albumIndex);
      if fetch(albums[i].id, calls).None? {
        var r := Search(albums, fetch, i, calls + 1, rounds - 1);
        SearchAfterFailure(albums, fetch, albumIndex, calls, rounds);
        SearchLoadedLast(albums, fetch, i, calls + 1, rounds - 1);
        if r.loaded.Some? {
          ShiftedLoad(albums, fetch, albumIndex, i, calls, r.attempts);
          assert calls + (r.attempts + 1) - 1 == calls + 1 + r.attempts - 1;
        }
      }
    }
  }

  /**
   * Every attempt before the last one failed; the last one failed only if all
   * `rounds` failed, and otherwise its answer, put in display order, is what
   * was loaded.
   */
  lemma SearchStopsAtFirstLoad(albums: seq<Album>, fetch: Fetcher, albumIndex: int, calls: nat, rounds: nat)
    requires |albums| > 0 && -1 <= albumIndex < |albums|
    ensures var r := Search(albums, fetch, albumIndex, calls, rounds);
            && (forall k :: 0 <= k < r.attempts && (r.loaded.None? || k < r.attempts - 1) ==>
                  AttemptFailed(fetch, albums, albumIndex, calls, k))
            && (r.loaded.Some? ==>
                  && r.attempts > 0
                  && !AttemptFailed(fetch, albums, albumIndex, calls, r.attempts - 1)
                  && r.loaded.value == InOrder(albums[r.albumIndex], fetch(albums[r.albumIndex].id, calls + r.attempts - 1).value))
  {
    SearchFailuresFirst(albums, fetch, albumIndex, calls, rounds);
    SearchLoadedLast(albums, fetch, albumIndex, calls, rounds);
  }

  /** The k-th attempt from the next album is the (k+1)-th attempt from this one. */
  lemma ShiftedLoad(albums: seq<Album>, fetch: Fetcher, albumIndex: int, next: nat, calls: nat, attempts: nat)
    requires |albums| > 0 && -1 <= albumIndex < |albums|
    requires next == Advance(|albums|, albumIndex) && attempts > 0
    ensures AttemptAlbum(|albums|, albumIndex, attempts) == AttemptAlbum(|albums|, next, attempts - 1)
    ensures AttemptFailed(fetch, albums, albumIndex, calls, attempts) == AttemptFailed(fetch, albums, next, calls + 1, attempts - 1)
  {
  }

  /** Failures seen from the next album are failures of later attempts from this one. */
  lemma ShiftedFailures(albums: seq<Album>, fetch: Fetcher, albumIndex: int, next: nat, calls: nat, later: nat,
                        attempts: nat, none: bool)
    requires |albums| > 0 && -1 <= albumIndex < |albums|
    requires next == Advance(|albums|, albumIndex) && later == calls + 1
    requires AttemptFailed(fetch, albums, albumIndex, calls, 0)
    requires forall k :: 0 <= k < attempts && (none || k < attempts - 1) ==>
               AttemptFailed(fetch, albums, next, later, k)
    ensures forall k :: 0 <= k < attempts + 1 && (none || k < attempts) ==>
              AttemptFailed(fetch, albums, albumIndex, calls, k)
  {
    forall k | 1 <= k < attempts + 1 && (none || k < attempts)
      ensures AttemptFailed(fetch, albums, albumIndex, calls, k)
    {
      assert AttemptFailed(fetch, albums, next, later, k - 1);
    }
  }

  // ------------------------------------------------------------ next

  /** PlanIter.Next of the sequential planner. */
  function Next(p: Planner, fetch: Fetcher): (r: Step)
    requires Valid(p)
    ensures Valid(r.planner) && r.planner.albums == p.albums
    ensures |p.albums| == 0 ==> r == Step(p, None)
    ensures |p.albums| > 0 && p.assetIndex < |p.assets| ==>
              r == Step(p.(assetIndex := p.assetIndex + 1), Some(p.assets[p.assetIndex]))
    ensures |p.albums| > 0 && p.assetIndex >= |p.assets| ==>
              var tries := r.planner.calls - p.calls;
              && 1 <= tries <= |p.albums|
              && r.planner.albumIndex == AttemptAlbum(|p.albums|, p.albumIndex, tries - 1)
              && (forall k :: 0 <= k < tries - 1 ==> AttemptFailed(fetch, p.albums, p.albumIndex, p.calls, k))
              && (AttemptFailed(fetch, p.albums, p.albumIndex, p.calls, tries - 1) ==>
                    tries == |p.albums| && r.planner.assets == [])
              && (!AttemptFailed(fetch, p.albums, p.albumIndex, p.calls, tries - 1) ==>
                    r.planner.assets == InOrder(p.albums[r.planner.albumIndex],
                                                fetch(p.albums[r.planner.albumIndex].id, r.planner.calls - 1).value))
              && (r.out.None? <==> r.planner.assets == [])
              && (r.out.Some? ==> r.out.value == r.planner.assets[0] && r.planner.assetIndex == 1)
              && (r.out.None? ==> r.planner.assetIndex == 0)
  {
    if |p.albums| == 0 then Step(p, None)
    else if p.assetIndex < |p.assets| then
      Step(p.(assetIndex := p.assetIndex + 1), Some(p.assets[p.assetIndex]))
    else
      var probe := Search(p.albums, fetch, p.albumIndex, p.calls, |p.albums|);
      SearchStopsAtFirstLoad(p.albums, fetch, p.albumIndex, p.calls, |p.albums|);
      var assets := if probe.loaded.Some? then probe.loaded.value else [];
      var q := Planner(p.albums, probe.albumIndex, assets, 0, p.calls + probe.attempts);
      if |assets| == 0 then Step(q, None)
      else Step(q.(assetIndex := 1), Some(assets[0]))
  }

  /** The outputs of `k` successive `Next` calls. */
  function Run(p: Planner, fetch: Fetcher, k: nat): (outs: seq<Option<AssetMetadata>>)
    requires Valid(p)
    ensures |outs| == k
    decreases k
  {
    if k == 0 then [] else
      var s := Next(p, fetch);
      [s.out] + Run(s.planner, fetch, k - 1)
  }
}

/** The scenarios of the sequential planner's unit tests. */
module SequentialExamples {
  import opened Wrappers
  import opened Immich
  import opened Sequential

  const A1 := [MetaWithID("asset-1"), MetaWithID("asset-2")]
  const A2 := [MetaWithID("asset-3"), MetaWithID("asset-4"), MetaWithID("asset-5")]

  function TestSource(): Fetcher {
    TableSource(map["album-1" := A1, "album-2" := A2])
  }

  /** One album of two assets: three calls give asset-1, asset-2, asset-1. */
  lemma OneAlbumCycles()
    ensures IDs(Run(Init([AlbumWithID("album-1", 0)]), TestSource(), 3)) == ["asset-1", "asset-2", "asset-1"]
  {
    var f := TestSource();
    var p0 := Init([AlbumWithID("album-1", 0)]);
    var s1 := Next(p0, f);
    assert s1.out == Some(MetaWithID("asset-1"));
    var s2 := Next(s1.planner, f);
    assert s2.out == Some(MetaWithID("asset-2"));
    var s3 := Next(s2.planner, f);
    assert s3.out == Some(MetaWithID("asset-1"));
    assert Run(p0, f, 3) == [s1.out, s2.out, s3.out];
  }

  /** Two albums: six calls walk both albums in order and wrap around to asset-1. */
  lemma TwoAlbumsRoundRobin()
    ensures IDs(Run(Init([AlbumWithID("album-1", 0), AlbumWithID("album-2", 0)]), TestSource(), 6))
            == ["asset-1", "asset-2", "asset-3", "asset-4", "asset-5", "asset-1"]
  {
    var f := TestSource();
    var p0 := Init([AlbumWithID("album-1", 0), AlbumWithID("album-2", 0)]);
    var s1 := Next(p0, f);
    assert s1.out == Some(MetaWithID("asset-1"));
    var s2 := Next(s1.planner, f);
    assert s2.out == Some(MetaWithID("asset-2"));
    var s3 := Next(s2.planner, f);
    assert s3.out == Some(MetaWithID("asset-3"));
    var s4 := Next(s3.planner, f);
    assert s4.out == Some(MetaWithID("asset-4"));
    var s5 := Next(s4.planner, f);
    assert s5.out == Some(MetaWithID("asset-5"));
    var s6 := Next(s5.planner, f);
    assert s6.out == Some(MetaWithID("asset-1"));
    assert Run(p0, f, 6) == [s1.out, s2.out, s3.out, s4.out, s5.out, s6.out];
  }
}
