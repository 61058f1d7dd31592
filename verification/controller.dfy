/**
 * The slideshow controller: a fixed-length history window of decoded assets
 * with a cursor, moved forward by the timer or the "next" key and backward by
 * the "prev" key.
 */
module Controller {
  import opened Wrappers
  import opened Immich
  import AlbumSelection
  import Planners

  /** A decoded image; only its presence matters to the controller. */
  datatype Image = Image(pixels: seq<bv8>)

  /** display.DecodedAsset: metadata and the decoded image, if any. */
  datatype Decoded = Decoded(meta: AssetMetadata, img: Option<Image>)

  /** The zero value that fills the history before anything was shown. */
  const Blank := Decoded(MetaWithID(""), None)

  datatype History = History(slots: seq<Decoded>, index: nat)

  /** The cursor stays on a slot. */
  predicate Valid(h: History) {
    h.index < |h.slots|
  }

  datatype Config = Config(albumNames: seq<string>, historySize: nat, plan: Planners.PlanKind)

  datatype Controller = Controller(conf: Config, albums: seq<Album>, history: History)

  datatype ControllerError = AlbumsUnavailable(reason: string) | NoAssets

  /** A history of `historySize + 1` blank slots with the cursor on the last one. */
  function NewHistory(historySize: nat): (h: History)
    ensures Valid(h) && |h.slots| == historySize + 1 && h.index == historySize
    ensures forall i :: 0 <= i < |h.slots| ==> h.slots[i] == Blank
  {
    History(seq(historySize + 1, _ => Blank), historySize)
  }

  /**
   * controller.New: select the configured albums, refuse a selection without
   * assets, and start with an empty history.
   */
  function New(conf: Config, fetched: Result<seq<Album>, string>): (r: Result<Controller, ControllerError>)
    ensures fetched.Failure? ==> r == Failure(AlbumsUnavailable(fetched.error))
    ensures fetched.Success? ==>
              var selected := AlbumSelection.ConfiguredAlbums(fetched, conf.albumNames).value;
              && (r == Failure(NoAssets) <==> AlbumSelection.TotalAssets(selected) == 0)
              && (r.Success? ==>
                    && r.value.albums == selected
                    && r.value.conf == conf
                    && r.value.history == NewHistory(conf.historySize))
  {
    match AlbumSelection.ConfiguredAlbums(fetched, conf.albumNames)
    case Failure(e) => Failure(AlbumsUnavailable(e))
    case Success(albums) =>
      if AlbumSelection.TotalAssets(albums) == 0 then Failure(NoAssets)
      else Success(Controller(conf, albums, NewHistory(conf.historySize)))
  }

  /** currentAsset: what the window shows, always one of the history's slots. */
  function CurrentAsset(h: History): (d: Decoded)
    requires Valid(h)
    ensures d in h.slots
  {
    h.slots[h.index]
  }

  // ------------------------------------------------------------ fetching

  const MaxPlanAttempts: nat := 5

  /**
   * The outcome of nextAssetFromPlan. Each attempt asks the planner for the
   * next metadata, downloads the asset and decodes it; `attempt(k)` is the
   * outcome of the k-th such attempt, `None` when any of the three failed.
   */
  datatype PlanResult = PlanResult(asset: Option<Decoded>, attempts: nat)

  function TryFrom(attempt: nat -> Option<Decoded>, k: nat): (r: PlanResult)
    requires k < MaxPlanAttempts
    ensures k < r.attempts <= MaxPlanAttempts
    ensures forall j :: k <= j < r.attempts - 1 ==> attempt(j).None?
    ensures r.asset.Some? ==> r.asset == attempt(r.attempts - 1)
    ensures r.asset.None? ==> r.attempts == MaxPlanAttempts && attempt(MaxPlanAttempts - 1).None?
    decreases MaxPlanAttempts - k
  {
    match attempt(k)
    case Some(d) => PlanResult(Some(d), k + 1)
    case None =>
      if k + 1 == MaxPlanAttempts then PlanResult(None, MaxPlanAttempts)
      else TryFrom(attempt, k + 1)
  }

  /** At most five attempts; the first success wins, five failures are an error. */
  function NextAssetFromPlan(attempt: nat -> Option<Decoded>): (r: PlanResult)
    ensures 1 <= r.attempts <= MaxPlanAttempts
    ensures forall j :: 0 <= j < r.attempts - 1 ==> attempt(j).None?
    ensures r.asset == attempt(r.attempts - 1)
    ensures r.asset.None? <==> forall j :: 0 <= j < MaxPlanAttempts ==> attempt(j).None?
  {
    TryFrom(attempt, 0)
  }

  // ------------------------------------------------------------ history

  /** The new history and how many plan attempts it took (0: nothing fetched). */
  datatype HistoryStep = HistoryStep(history: History, attempts: nat)

  /**
   * nextHistory: move forward inside the window without fetching; at the last
   * slot fetch a new asset, drop the oldest slot and append the new one.
   */
  function NextHistory(h: History, attempt: nat -> Option<Decoded>): (r: HistoryStep)
    requires Valid(h)
    ensures Valid(r.history) && |r.history.slots| == |h.slots|
    ensures h.index < |h.slots| - 1 ==> r == HistoryStep(h.(index := h.index + 1), 0)
    ensures h.index == |h.slots| - 1 ==>
              && 1 <= r.attempts <= MaxPlanAttempts
              && r.history.index == h.index
              && (forall j :: 0 <= j < r.attempts - 1 ==> attempt(j).None?)
              && (attempt(r.attempts - 1).None? ==>
                    && r.history == h
                    && forall j :: 0 <= j < MaxPlanAttempts ==> attempt(j).None?)
              && (attempt(r.attempts - 1).Some? ==>
                    && r.history.slots[..|h.slots| - 1] == h.slots[1..]
                    && CurrentAsset(r.history) == attempt(r.attempts - 1).value)
  {
    if h.index < |h.slots| - 1 then HistoryStep(h.(index := h.index + 1), 0)
    else
      var p := NextAssetFromPlan(attempt);
      match p.asset
      case None => HistoryStep(h, p.attempts)
      case Some(d) => HistoryStep(History((h.slots + [d])[1..], h.index), p.attempts)
  }

  /** prevHistory: step back only onto a slot that holds an image. */
  function PrevHistory(h: History): (r: History)
    requires Valid(h)
    ensures Valid(r) && r.slots == h.slots
    ensures h.index > 0 && h.slots[h.index - 1].img.Some? ==> r.index == h.index - 1
    ensures !(h.index > 0 && h.slots[h.index - 1].img.Some?) ==> r == h
    ensures r != h ==> CurrentAsset(r).img.Some?
  {
    if h.index > 0 && h.slots[h.index - 1].img.Some? then h.(index := h.index - 1) else h
  }

  /** Going back and then forward returns to the same slot without fetching. */
  lemma PrevThenNextRestores(h: History, attempt: nat -> Option<Decoded>)
    requires Valid(h) && PrevHistory(h) != h
    ensures NextHistory(PrevHistory(h), attempt) == HistoryStep(h, 0)
  {
  }

  /** A fresh controller cannot step back: every earlier slot is blank. */
  lemma FreshHistoryCannotGoBack(historySize: nat)
    ensures PrevHistory(NewHistory(historySize)) == NewHistory(historySize)
  {
    var h := NewHistory(historySize);
    if historySize > 0 {
      assert h.slots[h.index - 1] == Blank;
    }
  }

  /**
   * A successful fetch at the end of the window shifts everything one slot
   * towards the front, so the asset shown `historySize` fetches ago is dropped.
   */
  lemma FetchShiftsWindow(h: History, attempt: nat -> Option<Decoded>, i: nat)
    requires Valid(h) && h.index == |h.slots| - 1 && 0 < i < |h.slots|
    requires attempt(0).Some?
    ensures NextHistory(h, attempt).history.slots[i - 1] == h.slots[i]
    ensures CurrentAsset(NextHistory(h, attempt).history) == attempt(0).value
  {
  }
}
