/**
 * The shuffle planner: all assets of all albums are collected once, then
 * replayed in random order, reshuffling after every full pass. The random
 * number generator is a parameter: a seed chooses one permutation.
 */
module Shuffle {
  import opened Wrappers
  import opened Immich

  datatype Shuffler = Shuffler(assets: seq<AssetMetadata>, assetIndex: nat)

  predicate Valid(s: Shuffler) {
    s.assetIndex <= |s.assets|
  }

  datatype Step = Step(shuffler: Shuffler, out: Option<AssetMetadata>)

  const ShufflerName := "shuffle"

  /**
   * rand.Shuffle as a function of its random draws: the seed, read in the
   * factorial number system, picks which remaining element comes next.
   */
  function Permute<T>(xs: seq<T>, seed: nat): (r: seq<T>)
    ensures |r| == |xs|
    ensures multiset(r) == multiset(xs)
    decreases |xs|
  {
    if |xs| == 0 then []
    else
      var i := seed % |xs|;
      var rest := xs[..i] + xs[i + 1..];
      assert xs == xs[..i] + [xs[i]] + xs[i + 1..];
      [xs[i]] + Permute(rest, seed / |xs|)
  }

  /**
   * The assets of every album whose fetch succeeds, concatenated in album
   * order; album k is fetched by call `calls + k`, and failed albums are skipped.
   */
  function Collect(albums: seq<Album>, fetch: Fetcher, calls: nat): (r: seq<AssetMetadata>)
    decreases |albums|
  {
    if |albums| == 0 then []
    else
      (match fetch(albums[0].id, calls) case Some(xs) => xs case None => [])
      + Collect(albums[1..], fetch, calls + 1)
  }

  /** What album k contributes to the collection. */
  function Contribution(albums: seq<Album>, fetch: Fetcher, calls: nat, k: nat): seq<AssetMetadata>
    requires k < |albums|
  {
    match fetch(albums[k].id, calls + k) case Some(xs) => xs case None => []
  }

  /** Collecting one more album appends exactly its contribution. */
  lemma {:induction false} CollectSnoc(albums: seq<Album>, fetch: Fetcher, calls: nat)
    requires |albums| > 0
    ensures Collect(albums, fetch, calls)
            == Collect(albums[..|albums| - 1], fetch, calls) + Contribution(albums, fetch, calls, |albums| - 1)
    decreases |albums|
  {
    if |albums| > 1 {
      CollectSnoc(albums[1..], fetch, calls + 1);
      assert albums[1..][..|albums| - 2] == albums[..|albums| - 1][1..];
    }
  }

  /** When every album fails to load, nothing is collected and `Next` will return nothing. */
  lemma {:induction false} CollectAllFailed(albums: seq<Album>, fetch: Fetcher, calls: nat)
    requires forall k :: 0 <= k < |albums| ==> Contribution(albums, fetch, calls, k) == []
    ensures Collect(albums, fetch, calls) == []
    decreases |albums|
  {
    if |albums| > 0 {
      assert Contribution(albums, fetch, calls, 0) == [];
      var rest, later := albums[1..], calls + 1;
      forall k | 0 <= k < |rest|
        ensures Contribution(rest, fetch, later, k) == []
      {
        assert Contribution(rest, fetch, later, k) == Contribution(albums, fetch, calls, k + 1);
      }
      CollectAllFailed(rest, fetch, later);
    }
  }

  /** PlanIter.Init: collect everything, then shuffle with the given seed. */
  function Init(albums: seq<Album>, fetch: Fetcher, seed: nat): (s: Shuffler)
    ensures Valid(s) && s.assetIndex == 0
    ensures multiset(s.assets) == multiset(Collect(albums, fetch, 0))
  {
    Shuffler(Permute(Collect(albums, fetch, 0), seed), 0)
  }

  /**
   * PlanIter.Next: nothing when there are no assets; otherwise the next asset
   * of the current permutation, reshuffling with `seed` once the pass is over.
   */
  function Next(s: Shuffler, seed: nat): (r: Step)
    requires Valid(s)
    ensures Valid(r.shuffler)
    ensures r.out.None? <==> |s.assets| == 0
    ensures r.out.None? ==> r.shuffler == s
    ensures multiset(r.shuffler.assets) == multiset(s.assets)
    ensures r.out.Some? ==> 1 <= r.shuffler.assetIndex && r.out.value == r.shuffler.assets[r.shuffler.assetIndex - 1]
    ensures s.assetIndex < |s.assets| ==>
              r.shuffler.assets == s.assets && r.shuffler.assetIndex == s.assetIndex + 1
    ensures 0 < |s.assets| <= s.assetIndex ==>
              r.shuffler.assets == Permute(s.assets, seed) && r.shuffler.assetIndex == 1
  {
    if |s.assets| == 0 then Step(s, None)
    else
      var t := if s.assetIndex >= |s.assets| then Shuffler(Permute(s.assets, seed), 0) else s;
      Step(t.(assetIndex := t.assetIndex + 1), Some(t.assets[t.assetIndex]))
  }

  /** The outputs of `|seeds|` successive `Next` calls, the i-th using `seeds[i]`. */
  function Run(s: Shuffler, seeds: seq<nat>): (outs: seq<Option<AssetMetadata>>)
    requires Valid(s)
    ensures |outs| == |seeds|
    decreases |seeds|
  {
    if |seeds| == 0 then []
    else
      var st := Next(s, seeds[0]);
      [st.out] + Run(st.shuffler, seeds[1..])
  }

  function Wrap(xs: seq<AssetMetadata>): (r: seq<Option<AssetMetadata>>)
    ensures |r| == |xs| && forall i :: 0 <= i < |xs| ==> r[i] == Some(xs[i])
  {
    if |xs| == 0 then [] else [Some(xs[0])] + Wrap(xs[1..])
  }

  /** Inside a pass, `Next` reads the current permutation in order, whatever the seeds. */
  lemma {:induction false} RunWithinPass(s: Shuffler, seeds: seq<nat>)
    requires Valid(s) && s.assetIndex + |seeds| <= |s.assets|
    ensures Run(s, seeds) == Wrap(s.assets[s.assetIndex..s.assetIndex + |seeds|])
    decreases |seeds|
  {
    if |seeds| > 0 {
      var st := Next(s, seeds[0]);
      RunWithinPass(st.shuffler, seeds[1..]);
      var w := s.assets[s.assetIndex..s.assetIndex + |seeds|];
      assert w[1..] == st.shuffler.assets[st.shuffler.assetIndex..st.shuffler.assetIndex + |seeds| - 1];
    }
  }

  /**
   * A full pass after the previous one ended yields every asset exactly as
   * often as it occurs: the outputs are a permutation of the assets.
   */
  lemma FullPassIsPermutation(s: Shuffler, seeds: seq<nat>)
    requires Valid(s) && s.assetIndex == |s.assets| && |seeds| == |s.assets| > 0
    ensures Run(s, seeds) == Wrap(Permute(s.assets, seeds[0]))
    ensures multiset(Permute(s.assets, seeds[0])) == multiset(s.assets)
  {
    var st := Next(s, seeds[0]);
    RunWithinPass(st.shuffler, seeds[1..]);
    var p := Permute(s.assets, seeds[0]);
    assert st.shuffler.assets[1..|seeds|] == p[1..];
    assert Wrap(p) == [Some(p[0])] + Wrap(p[1..]);
  }

  /** The first pass after `Init` is a permutation of the collected assets. */
  lemma FirstPassIsPermutation(albums: seq<Album>, fetch: Fetcher, seed: nat, seeds: seq<nat>)
    requires |seeds| == |Collect(albums, fetch, 0)|
    ensures var s := Init(albums, fetch, seed);
            Run(s, seeds) == Wrap(s.assets) && multiset(s.assets) == multiset(Collect(albums, fetch, 0))
  {
    var s := Init(albums, fetch, seed);
    RunWithinPass(s, seeds);
    assert s.assets[0..|seeds|] == s.assets;
  }
}
