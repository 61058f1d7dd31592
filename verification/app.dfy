/**
 * The application's start-up checks: fetch the album list, keep the
 * configured albums, and refuse to start when they hold no assets. What
 * follows a successful start (the window, the workers) is not modelled.
 */
module App {
  import opened Wrappers
  import opened Immich
  import AlbumSelection
  import Controller

  datatype RunError = FetchFailed(reason: string) | NoAssetsFound

  /**
   * photoFrame.run up to the workers: the configured albums, a fetch error
   * passed through, or "no assets found" when their counts add up to zero.
   */
  function Start(names: seq<string>, fetched: Result<seq<Album>, string>): (r: Result<seq<Album>, RunError>)
    ensures fetched.Failure? ==> r == Failure(FetchFailed(fetched.error))
    ensures fetched.Success? && |names| == 0 ==>
              (r.Success? <==> AlbumSelection.TotalAssets(fetched.value) != 0) && (r.Success? ==> r.value == fetched.value)
    ensures fetched.Success? ==> (r == Failure(NoAssetsFound) <==> r.Failure?)
    ensures r.Success? ==>
              && fetched.Success?
              && AlbumSelection.TotalAssets(r.value) != 0
              && (forall a :: a in r.value ==> a in fetched.value)
              && (|names| > 0 ==> forall a :: a in r.value ==> a.name in names)
    ensures fetched.Success? && |names| > 0 && r.Success? ==>
              forall a :: a in fetched.value && a.name in names ==> a in r.value
  {
    match AlbumSelection.ConfiguredAlbums(fetched, names)
    case Failure(e) => Failure(FetchFailed(e))
    case Success(albums) =>
      if AlbumSelection.TotalAssets(albums) == 0 then Failure(NoAssetsFound)
      else Success(albums)
  }

  /**
   * The configured names no listed album bears; run only logs them. They are
   * exactly the configured names that no selected album carries.
   */
  function MissingNames(names: seq<string>, all: seq<Album>): (missing: set<string>)
    ensures forall n :: n in missing ==> n in names
    ensures forall n :: n in names ==>
              (n in missing <==> forall a :: a in AlbumSelection.Select(all, set m | m in names) ==> a.name != n)
  {
    set n | n in names && forall a :: a in all ==> a.name != n
  }

  /** Every configured name is either missing or borne by a selected album. */
  lemma MissingOrSelected(names: seq<string>, all: seq<Album>, n: string)
    requires |names| > 0 && n in names
    ensures n in MissingNames(names, all) <==>
              forall a :: a in AlbumSelection.ConfiguredAlbums<string>(Success(all), names).value ==> a.name != n
  {
    var selected := AlbumSelection.ConfiguredAlbums<string>(Success(all), names).value;
    if n !in MissingNames(names, all) {
      var a :| a in all && a.name == n;
      assert a in selected;
    }
  }

  /** The start-up checks and controller.New accept and refuse the same album lists, with the same albums. */
  lemma StartAgreesWithController(conf: Controller.Config, fetched: Result<seq<Album>, string>)
    ensures Start(conf.albumNames, fetched).Success? <==> Controller.New(conf, fetched).Success?
    ensures Start(conf.albumNames, fetched).Success? ==>
              Start(conf.albumNames, fetched).value == Controller.New(conf, fetched).value.albums
    ensures Start(conf.albumNames, fetched) == Failure(NoAssetsFound) <==>
              Controller.New(conf, fetched) == Failure(Controller.NoAssets)
  {
  }

  /** When nothing is configured, every album on the server is used. */
  lemma NothingConfiguredUsesAll(all: seq<Album>)
    requires AlbumSelection.TotalAssets(all) != 0
    ensures Start([], Success(all)) == Success(all)
  {
  }

  /** Configured names that match no album leave nothing to show. */
  lemma NoMatchRefuses(names: seq<string>, all: seq<Album>)
    requires |names| > 0
    requires forall a :: a in all ==> a.name !in names
    ensures Start(names, Success(all)) == Failure(NoAssetsFound)
  {
    var selected := AlbumSelection.ConfiguredAlbums<string>(Success(all), names).value;
    assert |selected| == 0;
    AlbumSelection.ZeroCountsTotalZero(selected);
  }
}
