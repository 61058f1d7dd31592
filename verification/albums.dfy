/**
 * Choosing the configured albums among those the server lists, and counting
 * their assets. The controller and the older application entry point share
 * this logic.
 */
module AlbumSelection {
  import opened Wrappers
  import opened Immich

  /** `xs` is `ys` with some elements dropped and the rest kept in order. */
  predicate IsSubsequence<T(==)>(xs: seq<T>, ys: seq<T>)
    decreases |ys|
  {
    if |xs| == 0 then true
    else if |ys| == 0 then false
    else if xs[0] == ys[0] then IsSubsequence(xs[1..], ys[1..])
    else IsSubsequence(xs, ys[1..])
  }

  /** The albums whose name is in `names`, in server order. */
  function Select(all: seq<Album>, names: set<string>): (r: seq<Album>)
    ensures IsSubsequence(r, all)
    ensures forall a :: a in r ==> a.name in names
    ensures forall a :: multiset(r)[a] == if a.name in names then multiset(all)[a] else 0
    decreases |all|
  {
    if |all| == 0 then []
    else
      var rest := Select(all[1..], names);
      assert all == [all[0]] + all[1..];
      if all[0].name in names then [all[0]] + rest else rest
  }

  /**
   * getConfiguredAlbums after the album list was fetched: every album when no
   * names are configured, otherwise the albums bearing a configured name.
   */
  function ConfiguredAlbums<E>(fetched: Result<seq<Album>, E>, names: seq<string>): (r: Result<seq<Album>, E>)
    ensures fetched.Failure? ==> r == fetched
    ensures fetched.Success? && |names| == 0 ==> r == fetched
    ensures fetched.Success? && |names| > 0 ==>
              && r.Success?
              && IsSubsequence(r.value, fetched.value)
              && (forall a :: a in r.value ==> a.name in names)
              && (forall a :: a in fetched.value && a.name in names ==> a in r.value)
              && (forall a :: multiset(r.value)[a] == if a.name in names then multiset(fetched.value)[a] else 0)
  {
    match fetched
    case Failure(e) => Failure(e)
    case Success(all) =>
      if |names| == 0 then Success(all)
      else
        var r := Select(all, set n | n in names);
        assert forall a :: a in all && a.name in names ==> multiset(r)[a] > 0;
        Success(r)
  }

  /** The total asset count of a list of albums. */
  function TotalAssets(albums: seq<Album>): int
    decreases |albums|
  {
    if |albums| == 0 then 0 else albums[0].assetCount + TotalAssets(albums[1..])
  }

  lemma {:induction false} TotalAssetsAppend(xs: seq<Album>, ys: seq<Album>)
    ensures TotalAssets(xs + ys) == TotalAssets(xs) + TotalAssets(ys)
    decreases |xs|
  {
    if |xs| > 0 {
      TotalAssetsAppend(xs[1..], ys);
      assert (xs + ys)[0] == xs[0];
      assert (xs + ys)[1..] == xs[1..] + ys;
    } else {
      assert xs + ys == ys;
    }
  }

  /** countAssets: the loop summing `AssetCount` over the albums. */
  method CountAssets(albums: seq<Album>) returns (n: int)
    ensures n == TotalAssets(albums)
  {
    n := 0;
    var i := 0;
    while i < |albums|
      invariant 0 <= i <= |albums|
      invariant n == TotalAssets(albums[..i])
    {
      TotalAssetsAppend(albums[..i], [albums[i]]);
      assert albums[..i + 1] == albums[..i] + [albums[i]];
      n := n + albums[i].assetCount;
      i := i + 1;
    }
    assert albums[..i] == albums;
  }

  /** Albums whose counts are all zero have no assets in total. */
  lemma {:induction false} ZeroCountsTotalZero(albums: seq<Album>)
    requires forall i :: 0 <= i < |albums| ==> albums[i].assetCount == 0
    ensures TotalAssets(albums) == 0
    decreases |albums|
  {
    if |albums| > 0 {
      ZeroCountsTotalZero(albums[1..]);
    }
  }
}
