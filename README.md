# MusicLog: a verified model of the library and its views

MusicLog is a single-page React app. It searches a music catalog, keeps a
personal log of listened albums and songs, and lets the user rate them and
filter the log. This project models its logic in Dafny and proves what that
logic promises:

- **The library handlers** of `App.tsx`, as the class `App.MusicLog`:
  - log an album or a song (id-keyed insert-if-absent);
  - rate an entry (update by id);
  - "mark all" the unlogged tracks of an album (batch append);
  - load the stored collections;
  - open and close the rating modal and the album view.
- **The derived views** of `App.tsx`, as pure functions:
  - the tag split of search results and the search filters;
  - the stable sort by listening time, most recent first;
  - the library filters: artist substring, rating with `0` meaning any, and the year range typed as text and read with `parseInt`;
  - the known-year range and the per-album song count.
- **The result shaping** of `services/musicService.ts`:
  - `searchMusic`'s loop over the raw tracks is an imperative method with a map and its insertion order, proved equal to a specification function;
  - `getAlbumTracks` and `getAlbumDetails` are pure maps from the reply to records.
- **The `FilterBar` rules**: input change, the rating toggle, "any filter active" and the selected star.
- **The `AlbumDetailView` state**: the fetch effect, the rating change, the displayed album, "all tracks logged" and track-click routing.
- **The `RatingModal` state**: the reset on open, the star clicks, the save gate, and the disabled and label rules.

The JavaScript built-ins the views rely on are modelled in `Builtins.dfy`: `filter`, ASCII `toLowerCase`, `includes`, `trim` and `parseInt`.

Time is an abstract integer timestamp. Every network reply is an input datatype. Each handler is one atomic step.

Points where the code is narrower than one might expect. The model follows the code in each case:

- `handleSaveRating` copies only `rating` into the stored entry. The year and track count carried by the merged record of the detail view are not written into the library (`App.MusicLog.SaveRating`, `Library.SetRatingKeepsRecords`).
- A non-empty year bound that `parseInt` reads as NaN fails every comparison, so it empties the album view (`Views.NaNYearExcludesAll`).
- "Mark all" checks each track only against the library, not against the batch. A tracklist naming a song twice logs it twice (`Library.DuplicateTracksDuplicate`). Uniqueness is kept only for a tracklist with distinct ids (`Library.AppendKeepsUnique`).
- Logging an album checks the clicked record's id, but appends the record with the fetched details spread over it, and that record carries the id of the detail response. Uniqueness is kept when the two ids agree (`App.MusicLog.MarkAsListened`).
- The detail view's fetch keeps no token, so a late reply for an earlier album can overwrite the state. No property here depends on discarding stale replies.

## Model

| member | source | states |
|---|---|---|
| Types.WithDetails | App.tsx:95-99 | no details leave the stub as it is; details that carry a track count replace every catalog field |
| Types.Overlay | components/AlbumDetailView.tsx:81 | object spread: every field of the top record wins, and the track count wins only when the top record has that key |
| Builtins.Filter | App.tsx:173-179 | the result holds only elements of the input that pass, and every passing element is kept |
| Builtins.FilterAppend | App.tsx:173 | filtering distributes over concatenation, so relative order is kept |
| Builtins.FilterCount | App.tsx:173 | a passing element occurs in the result as often as in the input; a failing one not at all |
| Builtins.FilterPermutes | App.tsx:173 | inputs with the same elements, counted, filter to results with the same elements, counted |
| Builtins.FilterKeepsAll | App.tsx:154 | a test that rejects nothing returns the input unchanged |
| Builtins.Lower | App.tsx:155 | lower-casing keeps the length and folds each ASCII capital to its small letter |
| Builtins.IncludesIff | App.tsx:155 | the left-to-right scan finds the needle exactly when it occurs at some index |
| Builtins.EmptyNeedle | App.tsx:154-155 | the empty filter string is contained in every field |
| Builtins.ContainsPrefix | App.tsx:174 | a prefix is found whatever the letter case of either side |
| Builtins.IsBlank | services/musicService.ts:35 | a query trims to empty exactly when all its characters are white space |
| Builtins.SkipSpace | App.tsx:176 | `parseInt` skips exactly the leading white space |
| Builtins.DigitRun | App.tsx:176 | the digit prefix is the longest run of digits of the radix |
| Builtins.ParseDigits | App.tsx:176 | no digit gives NaN, otherwise a value |
| Builtins.ParseInt | App.tsx:176-177 | a blank string parses to NaN |
| Builtins.Decimal | App.tsx:176 | the decimal rendering is all digits without a leading zero |
| Builtins.DecimalValue | App.tsx:176 | the digits of the rendering denote the number |
| Builtins.ParseFormat | App.tsx:176-177 | `parseInt` reads back the decimal rendering of every integer |
| Library.InsertIfAbsent | App.tsx:102-111 | afterwards the id is present; the list is unchanged iff the id was present; otherwise it is the old list with the entry appended at the end |
| Library.InsertKeepsUnique | App.tsx:91-100 | logging keeps ids pairwise distinct |
| Library.InsertIdempotent | App.tsx:102-105 | logging an item a second time, even later, keeps the first entry and its listened date |
| Library.SetRating | App.tsx:117-120 | same length; entries with the id get the rating, the others are copied |
| Library.SetRatingKeepsId | App.tsx:115-130 | rating an entry neither adds nor removes any id |
| Library.SetRatingKeepsRecords | App.tsx:115-130 | a rating update keeps every catalog record, every listened date, the set of ids and their uniqueness |
| Library.SetRatingAbsent | App.tsx:118-119 | an id not in the library leaves it unchanged |
| Library.RatingOf | App.tsx:391-395 | the rating of the FIRST entry with the id (as `find` returns), absent when none has it |
| Library.RatingAfterSet | App.tsx:115-131 | after a rating update, the entry with that id reports the new rating |
| Library.SetRatingInRange | App.tsx:115-131 | a rating in 1..5 keeps all ratings in 1..5 |
| Library.SetRatingKeepsInvariant | App.tsx:115-131 | a rating in 1..5 keeps ids unique and all ratings in 1..5 |
| Library.LogThenRate | App.tsx:106-128 | logging a new item and rating it keeps the earlier entries and gives the new one the rating and its listened date |
| Library.Unlogged | App.tsx:136-138 | exactly the tracks whose id is not in the library |
| Library.Stamp | App.tsx:139-142 | one unrated entry per track, logged at the given time |
| Library.AppendUnlogged | App.tsx:135-146 | the library keeps its entries as a prefix and is followed by the stamped unlogged tracks in tracklist order |
| Library.AllLoggedNoop | App.tsx:144-146 | when every track is logged, "mark all" changes nothing |
| Library.AppendLogsAll | App.tsx:135-146 | afterwards every track's id is in the library |
| Library.UnloggedDistinct | App.tsx:137-138 | the unlogged part of a tracklist with distinct ids has distinct ids |
| Library.AppendKeepsUnique | App.tsx:135-146 | a tracklist with distinct ids keeps library ids unique |
| Library.DuplicateTracksDuplicate | App.tsx:136-138 | a tracklist naming one unlogged song twice appends it twice |
| Views.AlbumsOf | App.tsx:149 | the album split holds exactly the albums of the album-tagged results |
| Views.SongsOf | App.tsx:150 | the song split holds exactly the songs of the song-tagged results |
| Views.SplitCounts | App.tsx:149-150 | the two splits together have as many items as the results |
| Views.SplitJoin | App.tsx:149-150 | splitting albums followed by songs gives back both lists |
| Views.AlbumsOfAppend | App.tsx:149 | the album split of a concatenation is the concatenation of the album splits |
| Views.SongsOfAppend | App.tsx:150 | the song split of a concatenation is the concatenation of the song splits |
| Views.AlbumsOnly | App.tsx:149-150 | album results split into exactly those albums and no songs |
| Views.SongsOnly | App.tsx:150 | song results have no album part |
| Views.FilterAlbumResults | App.tsx:152-156 | an empty artist keeps everything; otherwise exactly the albums whose artist contains it, ignoring case |
| Views.FieldMatchesIff | App.tsx:161-162 | a field test passes exactly when the field contains the filter text, ignoring case |
| Views.FilterSongResults | App.tsx:158-165 | exactly the songs matching both the artist and the album field; empty filters keep everything |
| Views.InsertByDate | App.tsx:168 | inserting adds exactly one occurrence of the entry |
| Views.InsertSorted | App.tsx:168 | inserting into a list sorted most recent first keeps it sorted |
| Views.SortByDate | App.tsx:167-169 | the sorted copy is a permutation of the library, most recent first |
| Views.SortPair | App.tsx:167-169 | two entries already most recent first keep their order |
| Views.SortKeepsAll | App.tsx:167-173 | a filter that passes every entry returns the sorted copy |
| Views.SortThenFilter | App.tsx:171-180 | sorting then filtering gives a sorted list of exactly the passing entries, each as often as in the library, so the same entries, counted, as filtering the unsorted library |
| Views.SortFilterMembers | App.tsx:171-180 | sorting then filtering gives a sorted list whose members are exactly the passing entries |
| Views.SortFilterCounts | App.tsx:171-180 | sorting then filtering keeps each passing entry as often as the library has it and drops each failing one |
| Views.InsertStable | App.tsx:168 | inserting into a sorted list keeps the entries logged at one time in order, the new one last |
| Views.SortStable | App.tsx:168 | the sort is stable: entries logged at the same time keep their relative order |
| Views.FilterSorted | App.tsx:173 | filtering a sorted list keeps it sorted |
| Views.AlbumView | App.tsx:171-180 | sorted most recent first; exactly the library albums matching artist, rating (0 = any) and both year bounds, each as often as the library has it |
| Views.AlbumViewCounts | App.tsx:171-180 | each matching album occurs in the view as often as in the library; a non-matching one not at all |
| Views.SongView | App.tsx:186-194 | sorted most recent first; exactly the library songs matching artist, album title and rating, each as often as the library has it |
| Views.SongViewCounts | App.tsx:186-194 | each matching song occurs in the view as often as in the library; a non-matching one not at all |
| Views.InitialFiltersShowAll | App.tsx:12-13 | under the initial filters the views are the whole sorted library |
| Views.NaNYearExcludesAll | App.tsx:176-177 | a non-empty year bound that parses to NaN empties the album view |
| Views.YearBoundsAsTyped | App.tsx:176-177 | year bounds typed as integers select exactly the inclusive range |
| Views.AlbumViewPair | App.tsx:167-180 | a two-entry library already most recent first is filtered in place |
| Views.ExampleArtists | App.tsx:174 | "Abc" contains "ab" ignoring case, "Xyz" does not |
| Views.ArtistFilterExample | App.tsx:174 | the artist filter "ab" selects only the Abc album |
| Views.RatingFilterExample | App.tsx:175 | the rating filter 5 selects only the album rated 5 |
| Views.ParseYear1995 | App.tsx:176 | "1995" parses to 1995 |
| Views.YearFromMatches | App.tsx:176 | the bound "1995" rejects the 1990 album and accepts the 2001 one |
| Views.YearFilterExample | App.tsx:176 | the lower bound "1995" selects only the 2001 album |
| Views.KnownYears | App.tsx:197 | exactly the positive album years |
| Views.Min | App.tsx:199 | the least of the years |
| Views.Max | App.tsx:200 | the greatest of the years |
| Views.AlbumYears | App.tsx:196-202 | with a known year, the min and max of the known years; otherwise twenty years back to the current year |
| Views.ListenedCount | App.tsx:318 | zero iff no logged song names the album, the whole list iff all do |
| Views.ListenedCountAppend | App.tsx:318 | counts add up over concatenation |
| Views.MarkAllRaisesCount | App.tsx:318 | "mark all" on an album's tracklist raises its count by the number of newly logged tracks |
| MusicService.CoverOr | services/musicService.ts:60 | a missing cover becomes the fixed default cover |
| MusicService.SongOf | services/musicService.ts:54-62 | a song result takes its id, artist and album fields from the track |
| MusicService.AlbumOf | services/musicService.ts:66-72 | an album result takes the track's album and artist, with year 0 |
| MusicService.Albums | services/musicService.ts:65-74 | every album result has year 0 and no track count |
| MusicService.Shape | services/musicService.ts:34-81 | a blank query, a rejected or null reply, and a reply without a `data` array all give [] |
| MusicService.MapHas | services/musicService.ts:65 | the map test answers whether an album with the id has been built |
| MusicService.MapAdd | services/musicService.ts:73 | entering a new id keeps map, insertion order and album list in step |
| MusicService.AlbumsStep | services/musicService.ts:51-75 | one more track extends the songs and albums as the loop body does |
| MusicService.CollectTracks | services/musicService.ts:47-75 | the pass yields the songs of the kept tracks and a map plus insertion order holding exactly the album results |
| MusicService.MapValues | services/musicService.ts:77 | reading the map's values in insertion order yields the album results |
| MusicService.SearchMusic | services/musicService.ts:34-82 | the method returns the specified results |
| MusicService.ShapeResolved | services/musicService.ts:47-78 | a non-blank query over a reply with a `data` array gives the albums followed by the songs |
| MusicService.SongsAreKept | services/musicService.ts:51-63 | one song per track with both album and artist, in input order |
| MusicService.AlbumsComplete | services/musicService.ts:65-74 | the album of every kept track is among the album results |
| MusicService.AlbumsDistinct | services/musicService.ts:65-74 | album results have pairwise distinct ids |
| MusicService.AlbumsFirstOccurrence | services/musicService.ts:65-74 | each album result is built from the first kept track with its album id |
| MusicService.AlbumsInFirstOrder | services/musicService.ts:65-77 | album results appear in the order their ids first appear among the kept tracks |
| MusicService.FirstFromInit | services/musicService.ts:65-74 | an album already produced by the earlier tracks has its first occurrence among them |
| MusicService.AlbumsSound | services/musicService.ts:65-74 | each album result comes from a kept track |
| MusicService.SongAlbumsListed | services/musicService.ts:51-74 | every song result's album id names an album result |
| MusicService.SearchOrder | services/musicService.ts:77-78 | all album results come before all song results, and the tag split recovers both lists |
| MusicService.ExampleAlbums | services/musicService.ts:65-74 | two tracks of one album give one album result, built from the first |
| MusicService.ExampleSongs | services/musicService.ts:52-63 | the short title wins when set, an empty cover becomes the default, a track without artist is skipped |
| MusicService.SearchExample | services/musicService.ts:51-78 | two tracks of one album and one without artist give one album from the first track and two songs |
| MusicService.AlbumTracks | services/musicService.ts:89-109 | [] on a failed reply or a track without artist; otherwise one song per track with the album's id, title and cover |
| MusicService.TrackSongs | services/musicService.ts:98-105 | one song per track, with the track's id, title and artist |
| MusicService.AlbumDetails | services/musicService.ts:116-143 | absent on failure, error or missing artist; otherwise year 0 without a release year and track count 0 without one |
| MusicService.DetailsReplaceStub | App.tsx:95-99 | a detail record always has a track count, so spreading it over a stub replaces the stub |
| App.MusicLog.constructor | App.tsx:17-23 | everything starts empty and closed |
| App.MusicLog.Load | App.tsx:32-45 | parsed values replace the collections; a corrupt album list also skips the songs |
| App.MusicLog.Search | App.tsx:63-73 | a blank query does nothing; otherwise the results become the shaped reply and the album view closes |
| App.MusicLog.OpenModal | App.tsx:75-82 | the item is selected and the modal opens |
| App.MusicLog.CloseModal | App.tsx:84-87 | the modal closes and the selection clears |
| App.MusicLog.MarkAsListened | App.tsx:89-113 | a new album is appended with its details spread over it and a logged one changes nothing; a song is inserted if absent and the modal opens on it; uniqueness is kept (for an album, when the detail id agrees); logging the viewed album makes `IsViewingAlbumLogged` true when the detail id agrees |
| App.MusicLog.SaveRating | App.tsx:115-133 | only the rating of the entries with the id changes, in the collection of the item's tag; a viewed album with that id shows the rating; the modal closes; whether the viewed album is logged does not change |
| App.MusicLog.MarkAllSongsAsListened | App.tsx:135-147 | the unlogged tracks are appended in order; uniqueness is kept for distinct track ids |
| App.MusicLog.ViewAlbum | App.tsx:204-206 | the album view shows the album |
| App.MusicLog.CloseAlbumView | App.tsx:208-210 | the album view closes |
| App.MusicLog.IsViewingAlbumLogged | App.tsx:212-215 | true iff an album is viewed and a library album has its id; `MarkAsListened` of the viewed album makes it true and `SaveRating` keeps it |
| App.MusicLog.ExistingRating | App.tsx:391-395 | the rating of the first entry with the selected item's id, in the collection of its tag; absent when no entry has the id; in 1..5 when the library invariant holds |
| FilterBar.InputChange | components/FilterBar.tsx:28-31 | the named field takes the text and every other field is copied |
| FilterBar.RatingToggle | components/FilterBar.tsx:33-36 | the rating becomes 0 when it already was the star, else the star; other fields are copied |
| FilterBar.SelectedStars | components/FilterBar.tsx:98-100 | at most one offered star is selected, the one equal to the rating |
| FilterBar.ToggleFlipsStar | components/FilterBar.tsx:33-36 | a click flips whether that star is selected |
| FilterBar.ToggleTwice | components/FilterBar.tsx:33-36 | two clicks on one star restore a rating that was that star or 0 |
| FilterBar.AlbumFiltersActive | components/FilterBar.tsx:38-42 | active iff a text field is non-empty or the rating is positive; the initial album filters are not active |
| FilterBar.SongFiltersActive | components/FilterBar.tsx:38-42 | the same for song filters |
| FilterBar.AlbumRatingToggle | components/FilterBar.tsx:33-36 | on an album filter record the click acts on the rating alone |
| FilterBar.AlbumArtistInput | components/FilterBar.tsx:28-31 | typing an artist changes the artist field alone |
| AlbumDetailView.InitialAlbumRating | components/AlbumDetailView.tsx:39-44 | the album's rating when present and non-zero, else 0 |
| AlbumDetailView.DisplayAlbum | components/AlbumDetailView.tsx:88 | the fetched details when present, else the album passed in |
| AlbumDetailView.DisplayedIsSent | components/AlbumDetailView.tsx:79-88 | when the details carry a track count, the album shown is exactly the album a star click sends up |
| AlbumDetailView.RatingUpdateRecord | components/AlbumDetailView.tsx:79-83 | catalog fields come from the details; rating and listened date of the passed record survive |
| AlbumDetailView.ClickTrack | components/AlbumDetailView.tsx:160-173 | a logged track routes to rating, an unlogged one to mark-as-listened |
| AlbumDetailView.MarkAllLogsAll | components/AlbumDetailView.tsx:85-86 | after "mark all" on a non-empty tracklist, all tracks count as logged |
| AlbumDetailView.AllLoggedMarkAllNoop | components/AlbumDetailView.tsx:142-148 | when all tracks are logged, "mark all" would change nothing |
| AlbumDetailView.MarkAllThenClickRates | components/AlbumDetailView.tsx:160-173 | after "mark all", clicking any track routes to rating |
| AlbumDetailView.EmptyNeverAllLogged | components/AlbumDetailView.tsx:86 | an empty tracklist is never "all logged" |
| AlbumDetailView.DetailView.constructor | components/AlbumDetailView.tsx:34-39 | no tracks, no details, loading, initial rating; the stored details (none) count as fetched |
| AlbumDetailView.DetailView.AlbumChanged | components/AlbumDetailView.tsx:42-44 | a new album prop resets the stars |
| AlbumDetailView.DetailView.BeginFetch | components/AlbumDetailView.tsx:49-50 | loading starts and the details are cleared |
| AlbumDetailView.DetailView.CompleteFetch | components/AlbumDetailView.tsx:52-61 | tracks become the fetched list; details are set only when fetched; loading ends; stored details keep a track count |
| AlbumDetailView.DetailView.HandleRatingChange | components/AlbumDetailView.tsx:79-83 | the stars show the new rating and the merged record is sent as an album; with fetched details, the album sent is the album shown |
| RatingModal.InitialRating | components/RatingModal.tsx:16-22 | the existing rating when truthy, else 0 |
| RatingModal.Label | components/RatingModal.tsx:82 | "Update Rating" iff the existing rating is truthy, else "Save Rating" |
| RatingModal.Modal.constructor | components/RatingModal.tsx:15-16 | the stars start at the initial rating, within 0..5 when the existing rating is |
| RatingModal.Modal.Props | components/RatingModal.tsx:20-30 | when open and one of `isOpen`, `item`, `existingRating` changed, the stars reset to the initial rating; otherwise they keep their value; the 0..5 range is kept |
| RatingModal.Modal.SetRating | components/RatingModal.tsx:61 | a star click sets the rating, within 0..5 |
| RatingModal.Modal.SaveDisabled | components/RatingModal.tsx:79 | disabled exactly when the rating is 0; within 0..5 the button is enabled exactly when `Save` forwards |
| RatingModal.Modal.Save | components/RatingModal.tsx:34-38 | forwards the item and rating exactly when the rating is positive, with no upper bound; within 0..5 it forwards exactly when the button is enabled |
| RatingModal.ReopenGate | components/RatingModal.tsx:20-22 | re-opening on a rating in 1..5 passes the gate and shows "Update Rating"; re-opening without one is blocked |

## Left out

- The JSONP transport (services/musicService.ts:5-26) is not modelled: it is browser I/O. Each operation receives the reply it awaited as a `Reply` value.
- Persisting to `localStorage` (App.tsx:47-61) is not modelled: it is storage I/O. This includes the first write of the empty collections before the load.
- `App.MusicLog.Load` models only values that parse to lists of records. A parsed value of another shape is not modelled.
- The Gemini calls (services/geminiService.ts) are not modelled: they are calls into a foreign SDK. So the fun fact in the modal, the overview in the detail view, and their loading flags are left out.
- Interleavings of asynchronous handlers are not modelled: each handler is one atomic step. Two overlapping album clicks both pass the duplicate check before the `await` (App.tsx:91-93), so no uniqueness is claimed under interleaving.
- Stale replies are not modelled: the fetch effect of the detail view has no cleanup, so nothing is claimed about them.
- Dates are not modelled: `toISOString`, `getTime` and `getFullYear` are clock reads. `listenedDate` is an integer passed in, the sort compares it directly, and the current year for `myAlbumYears` is a parameter.
- `Library.Stamp` gives a whole "mark all" batch one timestamp: the source reads the clock once per track.
- Year extraction from `release_date` is not modelled: it depends on the time zone and can give NaN. `AlbumBody.releaseYear` is the extracted year, or absent when the field is empty.
- `Builtins.Lower` folds ASCII letters only, because full Unicode case mapping is out of scope.
- `Builtins.ParseInt` reads exact integers: the floating-point rounding of very long digit strings is not modelled.
- The `type` field is not modelled as a field: the spread into stored entries copies it, but here the tag is the constructor of `SearchResult`, and a library entry is known by the collection that holds it.
- `App.MusicLog.OpenModal` takes only tagged items. The untyped branch, which only logs a warning, is not reachable from any caller.
- The App's `filters` state cell and its `onFilterChange`/`onReset` wiring are not modelled. The views take the filter record as a parameter, and `FilterBar` works on the objects.
- `App.MusicLog.Search` does not model `searchQuery`, `isLoading` or the transient clearing of the results, which are rendering state.
- Elements of `data` that are not objects are not modelled: `track.album` would throw on them and the `catch` would answer `[]`.
- RatingModal.Modal.Props: the effect's dependencies are compared by value, while React compares `item` by reference. A new object with the same fields resets the stars in the source but not here.
- The star hover of StarRating.tsx, the cards, icons and layout are presentation only.

## Findings

None.
