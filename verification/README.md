# immich-photo-frame — a Dafny model of the slideshow core

immich-photo-frame is a full-screen photo frame that shows the photos of
chosen albums from an Immich server. This project models its core in Dafny
and proves properties of the model:

- **album selection and start-up checks**: the configured albums, chosen by
  name from the server's list, and the refusal to start when they hold no
  assets (`AlbumSelection`, `App`, `Controller.New`);
- **planners**: the sequential planner (round-robin over albums, each album
  in its configured order, skipping albums that fail to load), the shuffle
  planner (one random permutation per pass), and the planner registry
  (`Sequential`, `Shuffle`, `Planners`, with the shared cursor in `Cursor`);
- **the controller**: the history window with its cursor, the five-attempt
  fetch loop, and moving forward and backward (`Controller`);
- **the older asset-metadata iterator** and the sequence it feeds to a
  consumer (`AssetIter`, with the unit-test scenarios in `AssetIterExamples`);
- **the two in-memory cache tiers**, both backed by a least-recently-used
  store (`Lru`, `MemoryCache`, `LegacyCache`);
- **caption formatters**: location and date/time captions and the
  `name[:size]` configuration syntax (`ImageLocation`, `ImageDateTime`,
  `Formatters`);
- **the raw API client**: status-code checking, the request rewrite under
  `/api` and the round-trip error path (`ApiClient`).

Shared pieces: `Wrappers` (`Option`, `Result`), `Immich` (the catalog records
and the `Fetcher` type), `Text` (ASCII lower-casing, `strings.Cut`,
`strconv.Atoi`/`Itoa`, 64-bit wrap-around).

Everything the program gets from the outside world is a parameter:

- **Album sources** are a `Fetcher`, `(album, n) -> Option<assets>`, where
  `n` numbers the calls made so far. A source can therefore fail now and
  succeed later, which is what the retry loops are about.
- **Randomness.** `rand.Shuffle` is a seed that picks one permutation.
- **Library functions.** `strconv.ParseFloat`, `time.Parse`,
  `time.LoadLocation` and the clock are functions or values passed in.
- **The network.** The HTTP transport is a function from a request to a
  reply.

Both the Go struct-based code and the Go maps become immutable datatypes and
pure functions: each operation takes the old state and returns the new one
with its result.

## Model

| member | source | states |
|---|---|---|
| AlbumSelection.Select | internal/app/controller/controller.go:150-165 | the selected albums are the server's albums, in server order, whose name is configured: each such album kept exactly as often as listed, every other album dropped |
| AlbumSelection.ConfiguredAlbums | internal/app/controller/controller.go:137-178 | a fetch error passes through; no configured names selects every album; otherwise the result holds exactly the albums bearing a configured name, in server order and with their multiplicities |
| AlbumSelection.CountAssets | internal/app/controller/controller.go:180-186 | the loop's sum equals the total asset count of the albums |
| AlbumSelection.TotalAssetsAppend | internal/app/controller/controller.go:180-186 | the total of two album lists joined is the sum of their totals |
| AlbumSelection.ZeroCountsTotalZero | internal/app/controller/controller.go:44-46 | albums whose counts are all zero have a zero total, so the no-assets refusal fires |
| App.Start | internal/app/app.go:41-48 | run refuses with the fetch error or with "no assets found"; when it starts, its albums have a non-zero total, come from the server's list, carry configured names, and include every listed album with a configured name |
| App.MissingNames | internal/app/app.go:97-106 | the names logged as missing are configured names, and a configured name is logged exactly when no album of the selection carries it |
| App.MissingOrSelected | internal/app/app.go:86-106 | every configured name is either reported missing or borne by a selected album, never both |
| App.StartAgreesWithController | internal/app/app.go:66-108 | the application's start-up and controller.New accept the same album lists with the same albums and refuse the same ones for lack of assets |
| App.NothingConfiguredUsesAll | internal/app/app.go:74-77 | with no names configured every album on the server is used |
| App.NoMatchRefuses | internal/app/app.go:46-48 | configured names that match no album leave nothing to show, so start-up is refused |
| Cursor.Advance | internal/app/controller/planners/sequential.go:53 | the cursor moves to the next album and wraps from the last one to the first |
| Cursor.AttemptCompose | internal/app/controller/planners/sequential.go:51-62 | walking a steps and then b more lands where walking a + b steps does |
| Cursor.AttemptNoWrap | internal/app/controller/planners/sequential.go:53 | before the wrap-around the cursor simply counts up |
| Cursor.AttemptCovers | internal/app/controller/planners/sequential.go:51-62 | as many steps as there are albums visit every album, from any start |
| Sequential.Init | internal/app/controller/planners/sequential.go:24-32 | a fresh planner keeps only the albums and starts before the first one |
| Sequential.InOrder | internal/app/controller/planners/sequential.go:75-84 | an "asc" album's assets are reversed, any other album's kept as listed; either way the same multiset |
| Sequential.Search | internal/app/controller/planners/sequential.go:51-62 | the album loop makes at most as many attempts as allowed and stops on the album it reached last |
| Sequential.SearchStopsAtFirstLoad | internal/app/controller/planners/sequential.go:51-62 | every attempt before the last failed; the last failed only if all did; otherwise what was loaded is that album's answer in display order |
| Sequential.SearchFailuresFirst | internal/app/controller/planners/sequential.go:55-59 | a failed load moves the loop on to the next album |
| Sequential.SearchLoadedLast | internal/app/controller/planners/sequential.go:60-61 | the first album that loads ends the loop, even when it is empty |
| Sequential.Next | internal/app/controller/planners/sequential.go:35-71 | no albums: nothing; assets left: the next one; otherwise the first album (among at most all of them, in cursor order) that loads becomes current, with every earlier attempt a failure, and its first asset is returned, or nothing when it is empty or all failed |
| SequentialExamples.OneAlbumCycles | internal/app/controller/planners/sequential_test.go:45-68 | one album of two assets gives asset-1, asset-2, asset-1 |
| SequentialExamples.TwoAlbumsRoundRobin | internal/app/controller/planners/sequential_test.go:69-92 | two albums give asset-1 to asset-5 and wrap around to asset-1 |
| Shuffle.Permute | internal/app/controller/planners/shuffle.go:55-59 | the shuffle keeps the length and the multiset of the assets |
| Shuffle.Init | internal/app/controller/planners/shuffle.go:21-38 | the planner holds a permutation of every asset of every album that loaded, failed albums skipped |
| Shuffle.CollectSnoc | internal/app/controller/planners/shuffle.go:24-35 | collecting one more album appends exactly that album's assets (nothing when it failed) |
| Shuffle.CollectAllFailed | internal/app/controller/planners/shuffle.go:26-33 | when every album fails nothing is collected |
| Shuffle.Next | internal/app/controller/planners/shuffle.go:41-52 | nothing exactly when there are no assets; within a pass the next asset; after a pass a reshuffle, a permutation of the same assets, read from its start |
| Shuffle.RunWithinPass | internal/app/controller/planners/shuffle.go:49-51 | inside a pass successive calls read the current permutation in order, whatever the random draws |
| Shuffle.FullPassIsPermutation | internal/app/controller/planners/shuffle.go:41-52 | a full pass after the previous one ended yields every asset exactly as often as it occurs |
| Shuffle.FirstPassIsPermutation | internal/app/controller/planners/shuffle.go:21-52 | the first pass after Init yields a permutation of the collected assets |
| Planners.UnmarshalText | internal/app/controller/planners/planners.go:35-48 | selection succeeds exactly for a case-insensitive "sequential"; otherwise the held planner is unchanged and the error lists the registered names |
| Planners.RegistryHoldsOnlySequential | internal/app/controller/planners/planners.go:30-32 | the registry holds only "sequential", under its own name; "shuffle" is not registered |
| Planners.AnyCasingSelectsSequential | internal/app/controller/planners/planners.go:36 | "Sequential" and "SEQUENTIAL" select the sequential planner; "shuffle" is refused |
| Controller.CurrentAsset | internal/app/controller/controller.go:91-93 | what the window shows is always one of the history's slots |
| Controller.NewHistory | internal/app/controller/controller.go:53-54 | the history has history size + 1 blank slots with the cursor on the last |
| Controller.New | internal/app/controller/controller.go:39-56 | a fetch error passes through; the selection is refused exactly when its total is zero; otherwise the controller holds the selection and a fresh history |
| Controller.TryFrom | internal/app/controller/controller.go:116-133 | the attempts from k on stop at the first success, within the five-attempt bound |
| Controller.NextAssetFromPlan | internal/app/controller/controller.go:115-135 | at most five attempts; the first success is returned and every earlier attempt failed; nothing exactly when all five failed |
| Controller.NextHistory | internal/app/controller/controller.go:95-107 | inside the window the cursor moves forward without fetching; at the end a fetch drops the oldest slot and shows the new asset, and a failed fetch changes nothing |
| Controller.PrevHistory | internal/app/controller/controller.go:109-113 | the cursor moves back exactly when the previous slot holds an image, so it never lands on a blank slot |
| Controller.PrevThenNextRestores | internal/app/controller/controller.go:95-113 | going back and then forward returns to the same state without fetching |
| Controller.FreshHistoryCannotGoBack | internal/app/controller/controller.go:53-54 | a fresh controller cannot step back |
| Controller.FetchShiftsWindow | internal/app/controller/controller.go:105-106 | a successful fetch shifts every slot one place towards the front |
| AssetIter.NewIter | internal/app/assets.go:21-29 | the cursor starts before the first album with no assets loaded |
| AssetIter.NextAsset | internal/app/assets.go:46-53 | the asset under the cursor and the cursor moved on, or failure with nothing changed |
| AssetIter.LoadAlbum | internal/app/assets.go:60-68 | up to three calls; the first success is kept, every earlier call failed, and all failing leaves no assets |
| AssetIter.NextAlbum | internal/app/assets.go:55-69 | the cursor moves to the next album, whose assets (after the retries) replace the old ones |
| AssetIter.Next | internal/app/assets.go:31-44 | as written: without albums nothing is returned and the iterator is unchanged, so the source is never consulted; with assets left the one under the cursor is returned and the cursor moves by one; the album list never changes |
| AssetIter.FixedNext | internal/app/assets.go:31-44 | the corrected Next agrees with the written one whenever that one returns an asset |
| AssetIter.FixedNextWithin | internal/app/assets.go:37-38 | with assets left in the album the next one is handed out |
| AssetIter.FixedNextAcross | internal/app/assets.go:36-42 | corrected: at the end of an album the next album is loaded and its first asset handed out, even with a single album |
| AssetIter.NextAcross | internal/app/assets.go:36-42 | as written, with at least two albums: at the end of an album the next album is loaded in the first round and its first asset handed out in the second |
| AssetIter.Sequence | internal/app/assets.go:71-80 | built on Next as written: no albums yield nothing; a first Next that returns nothing ends the run empty; the first item is what Next returns; every item but the last was accepted by the consumer |
| AssetIter.LoadStable | internal/app/assets.go:60-68 | with a source that answers the same every time, the retries load what the source holds |
| AssetIter.NextWithinAllEmpty | internal/app/assets.go:36-43 | when every album the loop reads is empty it finds nothing; of m rounds only the albums of the first m - 1 are read |
| AssetIter.NextWithinFirstFound | internal/app/assets.go:36-43 | the loop stops on the first album that holds something, if a later round remains to read it, and hands out its first asset |
| AssetIter.NextExhausted | internal/app/assets.go:31-44 | once the current album is used up, Next as written returns an asset exactly when an album on one of the next len(albums) - 1 cursor positions holds one; the album on the last position is never read |
| AssetIter.NextFindsFirstNonEmpty | internal/app/assets.go:31-44 | once the current album is used up, Next as written returns the first asset of the first non-empty album among those positions and holds that album with its cursor past the asset |
| AssetIter.NextWithinFindsNothing | internal/app/assets.go:36-43 | when the loop finds nothing, every album it passed was empty and the last one loaded is held unread |
| AssetIter.FixedNextNothingMeansAllEmpty | internal/app/assets.go:31-44 | when the corrected Next finds nothing, every album is empty |
| AssetIter.FixedNextFindsAssets | internal/app/assets.go:31-44 | the corrected Next returns an asset whenever some album holds one |
| AssetIter.SingleAlbumYieldsNothing | internal/app/assets.go:36-43 | the code as written returns nothing for one album holding an asset, so the iterator yields nothing to any consumer, where the corrected Next returns the asset |
| AssetIterExamples.SequenceStep | internal/app/assets.go:74-78 | an accepted item is followed by the rest of the sequence; a declined one ends it |
| AssetIterExamples.SequenceFollowsSteps | internal/app/assets.go:71-80 | a run of steps whose items the consumer accepts until the last yields exactly those items |
| AssetIterExamples.TwoAlbumsInOrder | internal/app/assets_test.go:24-68 | two albums yield asset-1 to asset-5 and then asset-1, where the consumer stops |
| AssetIterExamples.FailingSourceYieldsNothing | internal/app/assets_test.go:82-96 | a source that always fails reaches the consumer with nothing |
| AssetIterExamples.EmptyAlbumsYieldNothing | internal/app/assets_test.go:98-115 | albums that load but are empty reach the consumer with nothing |
| Lru.Get | internal/immich/memory.go:108-114 | a lookup returns the stored value exactly when the key is present, makes a hit the most recent key, and changes no entry |
| Lru.Add | internal/immich/memory.go:45 | the key holds the new value and is the most recent; the only entry that can disappear is the least recent one, and only when a new key arrives in a full store; other values are unchanged |
| Lru.AddThenGet | internal/immich/memory.go:45 | a value just stored reads back |
| Lru.ReplaceKeepsOthers | internal/immich/memory.go:45 | storing under a present key evicts nothing |
| Lru.RoomKeepsOthers | internal/immich/memory.go:45 | storing into a store with room evicts nothing |
| Lru.MostRecentSurvives | internal/immich/memory.go:117-124 | the most recent key survives any run of insertions shorter than the capacity |
| Lru.RecentSurvives | internal/immich/memory.go:117-124 | a key survives as many insertions as there are older keys plus free slots |
| Lru.Slots | internal/immich/memory.go:119-122 | a byte budget buys the budget over the average entry size, rounded down, but at least one slot |
| MemoryCache.New | internal/immich/memory.go:117-125 | a fresh cache is empty, with one slot per 350 kB of the budget and at least one |
| MemoryCache.GetAlbumAssets | internal/immich/memory.go:21-36 | a miss is "not found", a value of another kind is an unexpected-type error, and a hit returns the stored assets; entries are unchanged |
| MemoryCache.StoreAlbumAssets | internal/immich/memory.go:39-47 | the album's key holds the assets afterwards and a well-shaped cache stays well-shaped, every other entry keeps its value, and the only entry that can disappear is the least recently used one when a new key arrives in a full cache |
| MemoryCache.GetAlbums | internal/immich/memory.go:51-67 | a miss is "not found", another kind is an unexpected-type error, a hit returns the stored response |
| MemoryCache.StoreAlbums | internal/immich/memory.go:70-79 | the album-list key holds the response afterwards, every other entry keeps its value, and the only entry that can disappear is the least recently used one when a new key arrives in a full cache |
| MemoryCache.GetAsset | internal/immich/memory.go:83-95 | a miss is "not found", another kind is an unexpected-type error, a hit returns the stored asset |
| MemoryCache.StoreAsset | internal/immich/memory.go:98-104 | the asset's key holds the asset afterwards, every other entry keeps its value, and the only entry that can disappear is the least recently used one when a new key arrives in a full cache |
| MemoryCache.AlbumAssetsRoundTrip | internal/immich/memory.go:21-47 | stored album metadata reads back unchanged |
| MemoryCache.AlbumsRoundTrip | internal/immich/memory.go:51-79 | a stored album list reads back unchanged |
| MemoryCache.AssetRoundTrip | internal/immich/memory.go:83-104 | a stored asset reads back for any metadata with its identifier |
| MemoryCache.ReadTwice | internal/immich/memory.go:21-36 | reads never change what is stored, so a second read answers as the first |
| MemoryCache.WellShapedReadsOnlyMiss | internal/immich/memory.go:27-30 | a cache filled only by its store operations never reports a wrong-type value: every failed read is a miss |
| MemoryCache.FreshCacheExample | internal/immich/memory.go:83-104 | a fresh cache returns a stored asset and misses on another |
| MemoryCache.OneSlotEvicts | internal/immich/memory.go:117-124 | a cache sized for one entry evicts the first asset when a second is stored |
| LegacyCache.New | internal/immich/cache/memory.go:46-54 | a fresh cache is empty, with one slot per 3 MB of the budget and at least one |
| LegacyCache.AssetKey | internal/immich/cache/memory.go:44 | the key is "asset-" followed by the identifier |
| LegacyCache.AssetKeyInjective | internal/immich/cache/memory.go:44 | two identifiers share a key exactly when they are equal |
| LegacyCache.GetAsset | internal/immich/cache/memory.go:17-30 | a miss is no asset and no error; a stored asset is returned; any other value is an unexpected-type error |
| LegacyCache.IsConnected | internal/immich/cache/memory.go:33-35 | the in-memory tier always reports itself connected |
| LegacyCache.StoreAsset | internal/immich/cache/memory.go:38-42 | the asset's key holds the asset afterwards, every other entry keeps its value, and the only entry that can disappear is the least recently used one when a new key arrives in a full cache |
| LegacyCache.StoreThenGet | internal/immich/cache/memory.go:33-42 | the tier reports itself connected, and a stored asset reads back |
| LegacyCache.OtherAssetMisses | internal/immich/cache/memory.go:17-23 | a stored asset never answers for another identifier |
| ImageLocation.Format | internal/app/formatters/imagelocation.go:13-30 | nothing without a country; abroad the country, after the city when known; in the United States nothing, the city, the state, or "city, state", never the country |
| ImageLocation.JoinNonEmpty | internal/app/formatters/imagelocation.go:13-30 | the joined caption is empty exactly when every part is |
| ImageLocation.FormatShowsKnownParts | internal/app/formatters/imagelocation.go:13-30 | the decision table equals "the known city and state at home, the known city and the country abroad, nothing without a country" |
| ImageLocation.EmptyExactly | internal/app/formatters/imagelocation.go:17-29 | the caption is empty exactly when no country is known, or the place is in the United States with neither city nor state |
| ImageLocation.UsaCaptionIgnoresCountry | internal/app/formatters/imagelocation.go:22-27 | in the United States the caption depends on city and state only |
| ImageLocation.ForeignCaptionEndsWithCountry | internal/app/formatters/imagelocation.go:18-21 | abroad the caption ends with the country |
| ImageLocation.Examples | internal/app/formatters/imagelocation.go:17-29 | one caption per row of the decision table |
| ImageDateTime.ParseTimeZone | internal/app/formatters/imagedatetime.go:57-74 | a zone known by name wins; otherwise anything not "UTC" plus at least one character is a format error; after "UTC" the zone parses exactly when the rest reads as an integer, and is then fixed at that many hours times 3600 seconds, wrapped to int64, else the rest is reported as a bad offset |
| ImageDateTime.OffsetRoundTrip | internal/app/formatters/imagedatetime.go:63-73 | "UTC" followed by any written number of hours reads back as that many hours of offset |
| ImageDateTime.ZoneExamples | internal/app/formatters/imagedatetime.go:57-73 | with a lookup that knows only "UTC", as time.LoadLocation always does: "UTC" loads by name; UTC-6 and UTC+9 give -21600 and 32400 seconds; "GMT+1" is a format error; "UTC+x" is a bad offset |
| ImageDateTime.Elapsed | internal/app/formatters/imagedatetime.go:43 | the elapsed time is exact within the int64 range and saturates outside it |
| ImageDateTime.Format | internal/app/formatters/imagedatetime.go:18-52 | the caption is blank exactly when the timestamp or the zone does not parse; otherwise it is the layout chosen by age |
| ImageDateTime.BucketByDays | internal/app/formatters/imagedatetime.go:44-51 | under 7 days the weekday layout, under 90 days the relative one, from 90 days on the long date |
| ImageDateTime.BucketMonotone | internal/app/formatters/imagedatetime.go:44-51 | an older photo never gets a layout meant for a more recent one |
| ImageDateTime.FutureIsRecent | internal/app/formatters/imagedatetime.go:45-46 | photos dated in the future get the weekday layout |
| Formatters.BuildRegistry | internal/app/formatters/formatters.go:92-96 | the registry's names are exactly the formatters' names, each mapped to a formatter of that name |
| Formatters.RegistryContents | internal/app/formatters/formatters.go:33-36 | the registry maps "image-date-time" and "image-location" to their formatters |
| Formatters.ParseFormatter | internal/app/formatters/formatters.go:72-83 | without ':' the lower-cased text at size 16; otherwise the lower-cased part before the first ':' and the parsed size, or size 0 and an invalid-size error |
| Formatters.ParseRoundTrip | internal/app/formatters/formatters.go:72-83 | a name and size written with ':' between them parse back to the lower-cased name and the size |
| Formatters.UnmarshalText | internal/app/formatters/formatters.go:43-64 | success exactly when the size parses and the name is registered; a registered name with a bad size fails parsing; an unknown name lists the registered ones |
| Formatters.AnyCasingSelects | internal/app/formatters/formatters.go:43-50 | any casing of a registered name selects that formatter at size 16 |
| Formatters.SizedExample | internal/app/formatters/formatters.go:43-50 | "image-location:24" selects the location formatter at size 24 |
| Formatters.CasedExample | internal/app/formatters/formatters.go:72-77 | "Image-Location" selects the location formatter at size 16 |
| Text.ToLowerMatchesKey | internal/app/controller/planners/planners.go:36 | lower-casing a text gives a lower-case key exactly when the two are equal ignoring case |
| Text.CutRoundTrip | internal/app/formatters/formatters.go:73 | cutting "before:after" at the first ':' gives back the two parts when the first has no ':' |
| Text.AtoiItoa | internal/app/formatters/imagedatetime.go:67 | every int64 written in decimal reads back as itself |
| Text.Wrap64 | internal/app/formatters/imagedatetime.go:72 | the result is in the int64 range and agrees with the exact value when that is in range |
| ApiClient.Message | internal/immich/api/client.go:129-132 | exactly the token error reads "invalid immich token"; any other reads "unexpected status code " followed by the code in decimal |
| ApiClient.CheckStatusCode | internal/immich/api/client.go:128-135 | no error exactly for 200 |
| ApiClient.StatusClassification | internal/immich/api/client.go:129-132 | 401 is a token error; every other code but 200 is reported by number |
| ApiClient.MessageNamesCode | internal/immich/api/client.go:132 | the number in the message reads back as the status code |
| ApiClient.MessagesDistinguishCodes | internal/immich/api/client.go:128-135 | different rejected codes never produce the same message |
| ApiClient.CleanIdempotent | internal/immich/api/client.go:96 | cleaning a cleaned path changes nothing |
| ApiClient.StaysUnderApi | internal/immich/api/client.go:96 | a request path without ".." is joined under "/api" with its names kept in order |
| ApiClient.RenderedUnderApi | internal/immich/api/client.go:96 | a clean rooted path is moved under "/api" unchanged |
| ApiClient.UsersMeExample | internal/immich/api/client.go:104-107 | "/users/me" becomes "/api/users/me" |
| ApiClient.TrailingSlashExample | internal/immich/api/client.go:96 | "albums/" becomes "/api/albums" |
| ApiClient.EmptyPathExample | internal/immich/api/client.go:96 | an empty path becomes "/api" |
| ApiClient.DotDotExample | internal/immich/api/client.go:96 | "/../x" climbs out of "/api" to "/x" |
| ApiClient.NewClient | internal/immich/api/client.go:82-87 | the endpoint's path becomes "/api" whatever it was; scheme, host and key are kept |
| ApiClient.Rewrite | internal/immich/api/client.go:91-98 | the key header is added after the existing headers, and the query is kept |
| ApiClient.RequestsGoToApi | internal/immich/api/client.go:82-101 | every request goes to the configured server with the key as last header and its query kept, and stays under "/api" unless its path climbs out with ".." |
| ApiClient.RoundTrip | internal/immich/api/client.go:57-70 | a transport error passes through with whatever response came with it; a response other than 200 is dropped in favour of the status error; a 200 response is returned |
| ApiClient.OnlyOkSucceeds | internal/immich/api/client.go:57-70 | a caller gets no error exactly when the server answered 200, and then always gets the response |

## Left out

- The user interface (fyne window, display decoding, key bindings), the timer, goroutines and channels: the controller is modelled as the state changes they trigger.
- Configuration loading (TOML, environment variables, the image-scale default) and logging. Logged values (found albums, missing album names) appear only as `App.MissingNames`.
- The local-storage cache tier, the remote client wrapper and the diagnostics are not part of this model.
- HTTP and JSON: requests, responses and the transport are data, and the transport is a parameter. The network part of `IsConnected` (the `/users/me` probe and JSON check) is not modelled; only `checkStatusCode` and the path it requests are.
- ApiClient.NewClient: the endpoint is taken already parsed; `url.Parse` failing (which would panic on the nil URL) is not modelled.
- ApiClient.RoundTrip: draining and closing a rejected response body is not modelled; the body is dropped.
- `path.Join` is modelled only for rooted paths under "/api" (which is all the client uses); the path cleaner is a reference definition of `path.Clean`, not a port of it.
- ImageDateTime.Format: the text of each layout (`time.Format`, `humanize.Time`) is not rendered; the model returns which layout is chosen and its inputs.
- Sizes in `Formatters` are exact reals; the `float32` rounding of `strconv.ParseFloat(s, 32)` is left to the `parseFloat` parameter.
- `Text.ToLower` lower-cases ASCII letters only; Go's `strings.ToLower` also folds other Unicode letters.
- `Lru`: the cache library's own code is not part of this model; the store follows its documented least-recently-used policy (a hit or an insertion makes a key most recent; a new key in a full store evicts the least recent).
- AlbumSelection.CountAssets: sums in unbounded integers and does not model the wrap-around of Go's `int` on overflow, because album counts far below 2^63 are all a server reports.
- AssetIter.Sequence: iteration is bounded by a fuel argument; an endless run is described by its prefixes.
- The planner registry in the source shares one planner object between all configurations; the model returns planner values instead.
- Asset metadata keeps only identifier, type, name, duration and the EXIF fields the captions read; people and coordinates are not modelled.
- Controller.NewHistory: the history size is a natural number; a negative `HistorySize`, which makes `make` panic in `New` (controller.go:53-54), is not modelled.
- The controller's unit test calls a constructor with a different signature than the one in the source and is not modelled.

## Findings

| source | as written | input that shows it | evidently intended | confidence | as-written member | corrected member |
|---|---|---|---|---|---|---|
| internal/app/assets.go:36-43 | the loop runs `len(albums)` times and each failed round ends by loading the next album, so the album loaded in the last round is never read | one album with one asset and a fresh iterator: round 1 finds no asset and loads the album, then the loop ends and `Next` returns nil, so the iterator yields nothing | the album loaded last is read before giving up, so any album holding an asset is found | not executed | AssetIter.SingleAlbumYieldsNothing | AssetIter.FixedNextFindsAssets |
