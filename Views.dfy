/** The derived views of App.tsx: the split of search results by tag, the
    search filters, the library sorted by listening time and filtered, the
    range of known album years and the per-album count of logged songs.
    All are pure functions of the collections and the filter records. */
module Views {
  import opened Types
  import opened Builtins
  import Library

  // ---------------------------------------------------------------------------
  // Search results split by tag

  /** The album results, in their order. */
  function AlbumsOf(rs: seq<SearchResult>): (r: seq<Album>)
    ensures |r| <= |rs|
    ensures forall i :: 0 <= i < |r| ==> AlbumResult(r[i]) in rs
    ensures forall i :: 0 <= i < |rs| && rs[i].AlbumResult? ==> rs[i].album in r
  {
    if rs == [] then []
    else (if rs[0].AlbumResult? then [rs[0].album] else []) + AlbumsOf(rs[1..])
  }

  /** The song results, in their order. */
  function SongsOf(rs: seq<SearchResult>): (r: seq<Song>)
    ensures |r| <= |rs|
    ensures forall i :: 0 <= i < |r| ==> SongResult(r[i]) in rs
    ensures forall i :: 0 <= i < |rs| && rs[i].SongResult? ==> rs[i].song in r
  {
    if rs == [] then []
    else (if rs[0].SongResult? then [rs[0].song] else []) + SongsOf(rs[1..])
  }

  /** Every result lands in exactly one of the two lists. */
  lemma {:induction false} SplitCounts(rs: seq<SearchResult>)
    ensures |AlbumsOf(rs)| + |SongsOf(rs)| == |rs|
  {
    if rs != [] {
      SplitCounts(rs[1..]);
    }
  }

  /** Splitting albums-then-songs gives back the albums and the songs. */
  lemma SplitJoin(albums: seq<Album>, songs: seq<Song>)
    ensures AlbumsOf(AlbumItems(albums) + SongItems(songs)) == albums
    ensures SongsOf(AlbumItems(albums) + SongItems(songs)) == songs
  {
    AlbumsOfAppend(AlbumItems(albums), SongItems(songs));
    SongsOfAppend(AlbumItems(albums), SongItems(songs));
    AlbumsOnly(albums);
    SongsOnly(songs);
  }

  /** The album split distributes over concatenation. */
  lemma {:induction false} AlbumsOfAppend(a: seq<SearchResult>, b: seq<SearchResult>)
    ensures AlbumsOf(a + b) == AlbumsOf(a) + AlbumsOf(b)
  {
    if a == [] {
      assert a + b == b;
    } else {
      AlbumsOfAppend(a[1..], b);
      var head := if a[0].AlbumResult? then [a[0].album] else [];
      assert AlbumsOf(a + b) == head + AlbumsOf(a[1..] + b) by {
        assert (a + b)[0] == a[0];
        assert (a + b)[1..] == a[1..] + b;
      }
      Regroup(AlbumsOf(a + b), AlbumsOf(a), head, AlbumsOf(a[1..]), AlbumsOf(b));
    }
  }

  /** The song split distributes over concatenation. */
  lemma {:induction false} SongsOfAppend(a: seq<SearchResult>, b: seq<SearchResult>)
    ensures SongsOf(a + b) == SongsOf(a) + SongsOf(b)
  {
    if a == [] {
      assert a + b == b;
    } else {
      SongsOfAppend(a[1..], b);
      var head := if a[0].SongResult? then [a[0].song] else [];
      assert SongsOf(a + b) == head + SongsOf(a[1..] + b) by {
        assert (a + b)[0] == a[0];
        assert (a + b)[1..] == a[1..] + b;
      }
      Regroup(SongsOf(a + b), SongsOf(a), head, SongsOf(a[1..]), SongsOf(b));
    }
  }

  lemma {:induction false} AlbumsOnly(albums: seq<Album>)
    ensures AlbumsOf(AlbumItems(albums)) == albums
    ensures SongsOf(AlbumItems(albums)) == []
  {
    if albums != [] {
      assert AlbumItems(albums)[1..] == AlbumItems(albums[1..]);
      AlbumsOnly(albums[1..]);
    }
  }

  lemma {:induction false} SongsOnly(songs: seq<Song>)
    ensures AlbumsOf(SongItems(songs)) == []
    ensures SongsOf(SongItems(songs)) == songs
  {
    if songs != [] {
      assert SongItems(songs)[1..] == SongItems(songs[1..]);
      SongsOnly(songs[1..]);
    }
  }

  // ---------------------------------------------------------------------------
  // Search filters

  /** The album results whose artist contains the filter text, ignoring case;
      an empty filter keeps all of them. */
  function FilterAlbumResults(albums: seq<Album>, artist: string): (r: seq<Album>)
    ensures artist == "" ==> r == albums
    ensures forall i :: 0 <= i < |r| ==> r[i] in albums && ContainsFolded(r[i].artist, artist)
    ensures forall i :: 0 <= i < |albums| && ContainsFolded(albums[i].artist, artist) ==> albums[i] in r
  {
    EmptyNeedle();
    if artist == "" then albums
    else Filter(albums, (a: Album) => ContainsFolded(a.artist, artist))
  }

  /** One field of a search filter: empty means "no constraint". */
  predicate FieldMatches(value: string, filter: string) {
    filter == "" || ContainsFolded(value, filter)
  }

  /** An empty filter field imposes nothing, so the guard agrees with the
      bare case-insensitive containment test. */
  lemma FieldMatchesIff(value: string, filter: string)
    ensures FieldMatches(value, filter) <==> ContainsFolded(value, filter)
  {
    EmptyNeedle();
  }

  predicate SongResultMatches(s: Song, artist: string, album: string) {
    FieldMatches(s.artist, artist) && FieldMatches(s.albumTitle, album)
  }

  /** The song results matching both the artist and the album-title filter. */
  function FilterSongResults(songs: seq<Song>, artist: string, album: string): (r: seq<Song>)
    ensures forall i :: 0 <= i < |r| ==>
      (r[i] in songs && ContainsFolded(r[i].artist, artist) && ContainsFolded(r[i].albumTitle, album))
    ensures forall i :: (0 <= i < |songs| &&
      ContainsFolded(songs[i].artist, artist) && ContainsFolded(songs[i].albumTitle, album)) ==> songs[i] in r
    ensures artist == "" && album == "" ==> r == songs
  {
    EmptyNeedle();
    var p := (s: Song) => SongResultMatches(s, artist, album);
    if artist == "" && album == "" then FilterKeepsAll(songs, p); Filter(songs, p)
    else Filter(songs, p)
  }

  // ---------------------------------------------------------------------------
  // Sorting by listening time, most recent first, stably

  predicate SortedByDate<T>(s: seq<Rated<T>>) {
    forall i, j :: 0 <= i < j < |s| ==> s[i].listenedDate >= s[j].listenedDate
  }

  /** Places `x` after every entry of `t` logged at the same time or later. */
  function InsertByDate<T>(t: seq<Rated<T>>, x: Rated<T>): (r: seq<Rated<T>>)
    ensures multiset(r) == multiset(t) + multiset{x}
    ensures |r| == |t| + 1
  {
    if t == [] then [x]
    else if t[0].listenedDate >= x.listenedDate then
      assert t == [t[0]] + t[1..];
      [t[0]] + InsertByDate(t[1..], x)
    else
      [x] + t
  }

  lemma {:induction false} InsertSorted<T>(t: seq<Rated<T>>, x: Rated<T>)
    requires SortedByDate(t)
    ensures SortedByDate(InsertByDate(t, x))
  {
    if t != [] {
      SortedTail(t);
      if t[0].listenedDate >= x.listenedDate {
        var rest := InsertByDate(t[1..], x);
        InsertSorted(t[1..], x);
        forall k | 0 <= k < |rest| ensures rest[k].listenedDate <= t[0].listenedDate {
          assert rest[k] in multiset(rest);
          if rest[k] in multiset(t[1..]) {
            var j :| 0 <= j < |t[1..]| && t[1..][j] == rest[k];
          }
        }
        SortedCons(t[0], rest);
      } else {
        SortedCons(x, t);
      }
    }
  }

  /** The tail of a sorted list is sorted and bounded by its head. */
  lemma SortedTail<T>(s: seq<Rated<T>>)
    requires SortedByDate(s) && s != []
    ensures SortedByDate(s[1..])
    ensures forall k :: 0 <= k < |s[1..]| ==> s[1..][k].listenedDate <= s[0].listenedDate
  {
    var tail := s[1..];
    forall i, j | 0 <= i < j < |tail| ensures tail[i].listenedDate >= tail[j].listenedDate {
      assert tail[i] == s[i + 1] && tail[j] == s[j + 1];
    }
    forall k | 0 <= k < |tail| ensures tail[k].listenedDate <= s[0].listenedDate {
      assert tail[k] == s[k + 1];
    }
  }

  /** The library sorted by `listenedDate`, most recent first. The stored
      list itself is a value and stays as it was. */
  function SortByDate<T>(s: seq<Rated<T>>): (r: seq<Rated<T>>)
    ensures |r| == |s|
    ensures multiset(r) == multiset(s)
    ensures SortedByDate(r)
  {
    if s == [] then []
    else
      assert s == s[..|s| - 1] + [s[|s| - 1]];
      InsertSorted(SortByDate(s[..|s| - 1]), s[|s| - 1]);
      InsertByDate(SortByDate(s[..|s| - 1]), s[|s| - 1])
  }

  /** Elements of a permutation are elements of the original. */
  lemma SameMembers<T>(s: seq<T>, t: seq<T>)
    requires multiset(s) == multiset(t)
    ensures forall i :: 0 <= i < |t| ==> t[i] in s
    ensures forall i :: 0 <= i < |s| ==> s[i] in t
  {
    forall i | 0 <= i < |t| ensures t[i] in s {
      assert t[i] in multiset(t);
    }
    forall i | 0 <= i < |s| ensures s[i] in t {
      assert s[i] in multiset(s);
    }
  }

  lemma SortKeepsAll<T>(s: seq<Rated<T>>, p: Rated<T> -> bool)
    requires forall i :: 0 <= i < |s| ==> p(s[i])
    ensures Filter(SortByDate(s), p) == SortByDate(s)
  {
    var sorted := SortByDate(s);
    SameMembers(s, sorted);
    forall j | 0 <= j < |sorted| ensures p(sorted[j]) {
      var i :| 0 <= i < |s| && s[i] == sorted[j];
    }
    FilterKeepsAll(sorted, p);
  }

  /** Sorting then filtering keeps each passing entry as often as the library
      has it, and drops every failing one. */
  lemma SortFilterCounts<T>(s: seq<Rated<T>>, p: Rated<T> -> bool)
    ensures var r := Filter(SortByDate(s), p);
      && multiset(r) == multiset(Filter(s, p))
      && (forall x :: multiset(r)[x] == if p(x) then multiset(s)[x] else 0)
  {
    var sorted := SortByDate(s);
    FilterPermutes(sorted, s, p);
    forall x ensures multiset(Filter(sorted, p))[x] == if p(x) then multiset(s)[x] else 0 {
      FilterCount(sorted, p, x);
    }
  }

  /** Sorting then filtering: sorted, and exactly the entries that pass, each
      as often as in the library. */
  lemma SortThenFilter<T>(s: seq<Rated<T>>, p: Rated<T> -> bool)
    ensures var r := Filter(SortByDate(s), p);
      && SortedByDate(r)
      && (forall i :: 0 <= i < |r| ==> r[i] in s && p(r[i]))
      && (forall i :: 0 <= i < |s| && p(s[i]) ==> s[i] in r)
      && ((forall i :: 0 <= i < |s| ==> p(s[i])) ==> r == SortByDate(s))
      && ((forall i :: 0 <= i < |s| ==> !p(s[i])) ==> r == [])
      && multiset(r) == multiset(Filter(s, p))
      && (forall x :: multiset(r)[x] == if p(x) then multiset(s)[x] else 0)
  {
    SortFilterMembers(s, p);
    SortFilterCounts(s, p);
  }

  /** Sorting then filtering: sorted, and the members are the passing entries. */
  lemma SortFilterMembers<T>(s: seq<Rated<T>>, p: Rated<T> -> bool)
    ensures var r := Filter(SortByDate(s), p);
      && SortedByDate(r)
      && (forall i :: 0 <= i < |r| ==> r[i] in s && p(r[i]))
      && (forall i :: 0 <= i < |s| && p(s[i]) ==> s[i] in r)
      && ((forall i :: 0 <= i < |s| ==> p(s[i])) ==> r == SortByDate(s))
      && ((forall i :: 0 <= i < |s| ==> !p(s[i])) ==> r == [])
  {
    var sorted := SortByDate(s);
    var r := Filter(sorted, p);
    FilterSorted(sorted, p);
    SameMembers(s, sorted);
    forall i | 0 <= i < |s| && p(s[i]) ensures s[i] in r {
      var j :| 0 <= j < |sorted| && sorted[j] == s[i];
    }
    if forall i :: 0 <= i < |s| ==> p(s[i]) {
      SortKeepsAll(s, p);
    }
    if forall i :: 0 <= i < |s| ==> !p(s[i]) {
      forall j | 0 <= j < |sorted| ensures !p(sorted[j]) {
        var i :| 0 <= i < |s| && s[i] == sorted[j];
      }
      FilterKeepsNone(sorted, p);
    }
  }

  /** The test "logged at time `d`". */
  function AtTime<T>(d: int): Rated<T> -> bool {
    (e: Rated<T>) => e.listenedDate == d
  }

  lemma {:induction false} InsertStable<T>(t: seq<Rated<T>>, x: Rated<T>, d: int)
    requires SortedByDate(t)
    ensures Filter(InsertByDate(t, x), AtTime(d)) == Filter(t, AtTime(d)) + Filter([x], AtTime(d))
  {
    var p := AtTime<T>(d);
    if t == [] {
      assert InsertByDate(t, x) == [x];
    } else {
      SortedTail(t);
      if t[0].listenedDate >= x.listenedDate {
        InsertStable(t[1..], x, d);
        FilterInsertHead(t, x, p);
        FilterCons(t, p);
        Regroup(Filter(InsertByDate(t, x), p), Filter(t, p), Filter([t[0]], p), Filter(t[1..], p), Filter([x], p));
      } else {
        assert InsertByDate(t, x) == [x] + t;
        FilterAppend([x], t, p);
        if p(x) {
          forall i | 0 <= i < |t| ensures !p(t[i]) {
            assert t[i].listenedDate <= t[0].listenedDate;
          }
          FilterKeepsNone(t, p);
        } else {
          assert Filter([x], p) == [];
        }
      }
    }
  }

  /** Filtering an insertion that goes past the head of `t`. */
  lemma FilterInsertHead<T>(t: seq<Rated<T>>, x: Rated<T>, p: Rated<T> -> bool)
    requires t != [] && t[0].listenedDate >= x.listenedDate
    ensures Filter(InsertByDate(t, x), p) == Filter([t[0]], p) + Filter(InsertByDate(t[1..], x), p)
  {
    assert InsertByDate(t, x) == [t[0]] + InsertByDate(t[1..], x);
    FilterAppend([t[0]], InsertByDate(t[1..], x), p);
  }

  /** Stability: for every timestamp, the entries logged at that time appear
      in the sorted view in the same relative order as in the library. */
  lemma {:induction false} SortStable<T>(s: seq<Rated<T>>, d: int)
    ensures Filter(SortByDate(s), AtTime(d)) == Filter(s, AtTime(d))
  {
    if s != [] {
      var init, last := s[..|s| - 1], s[|s| - 1];
      assert SortByDate(s) == InsertByDate(SortByDate(init), last);
      SortStable(init, d);
      InsertStable(SortByDate(init), last, d);
      SplitLast(s);
      FilterAppend(init, [last], AtTime(d));
    }
  }

  /** A filter of a sorted list is sorted. */
  lemma {:induction false} FilterSorted<T>(s: seq<Rated<T>>, p: Rated<T> -> bool)
    requires SortedByDate(s)
    ensures SortedByDate(Filter(s, p))
  {
    if s != [] {
      var tail := s[1..];
      SortedTail(s);
      FilterSorted(tail, p);
      if p(s[0]) {
        FilterBounded(tail, p, s[0].listenedDate);
        SortedCons(s[0], Filter(tail, p));
      }
    }
  }

  /** Every entry a filter keeps is bounded by a bound on the whole list. */
  lemma FilterBounded<T>(s: seq<Rated<T>>, p: Rated<T> -> bool, d: int)
    requires forall i :: 0 <= i < |s| ==> s[i].listenedDate <= d
    ensures forall k :: 0 <= k < |Filter(s, p)| ==> Filter(s, p)[k].listenedDate <= d
  {
    var r := Filter(s, p);
    forall k | 0 <= k < |r| ensures r[k].listenedDate <= d {
      var i :| 0 <= i < |s| && s[i] == r[k];
    }
  }

  /** An entry no earlier than every entry of a sorted list can be put in front of it. */
  lemma SortedCons<T>(x: Rated<T>, t: seq<Rated<T>>)
    requires SortedByDate(t)
    requires forall k :: 0 <= k < |t| ==> t[k].listenedDate <= x.listenedDate
    ensures SortedByDate([x] + t)
  {
    var f := [x] + t;
    forall i, j | 0 <= i < j < |f| ensures f[i].listenedDate >= f[j].listenedDate {
      assert f[j] == t[j - 1];
      if i > 0 {
        assert f[i] == t[i - 1];
      }
    }
  }

  // ---------------------------------------------------------------------------
  // Library filters

  /** The rating filter: 0 accepts every entry, otherwise the rating must equal it. */
  predicate RatingMatches(rating: Option<int>, filter: int) {
    filter == 0 || rating == Some(filter)
  }

  /** A year bound after `parseInt`; a NaN bound (`None`) makes the comparison false. */
  predicate AtLeast(year: int, bound: Option<int>) {
    bound.Some? && year >= bound.value
  }

  predicate AtMost(year: int, bound: Option<int>) {
    bound.Some? && year <= bound.value
  }

  predicate AlbumMatches(e: RatedAlbum, f: AlbumFilters) {
    && FieldMatches(e.item.artist, f.artist)
    && RatingMatches(e.rating, f.rating)
    && (f.yearFrom == "" || AtLeast(e.item.year, ParseInt(f.yearFrom)))
    && (f.yearTo == "" || AtMost(e.item.year, ParseInt(f.yearTo)))
  }

  predicate SongMatches(e: RatedSong, f: SongFilters) {
    && FieldMatches(e.item.artist, f.artist)
    && FieldMatches(e.item.albumTitle, f.album)
    && RatingMatches(e.rating, f.rating)
  }

  /** The album filter as the callback handed to `filter`. */
  function AlbumMatcher(f: AlbumFilters): RatedAlbum -> bool {
    (e: RatedAlbum) => AlbumMatches(e, f)
  }

  /** The album view keeps each matching album as often as the library has it. */
  lemma AlbumViewCounts(albums: seq<RatedAlbum>, f: AlbumFilters)
    ensures var r := Filter(SortByDate(albums), AlbumMatcher(f));
      forall x :: multiset(r)[x] == if AlbumMatches(x, f) then multiset(albums)[x] else 0
  {
    SortFilterCounts(albums, AlbumMatcher(f));
  }

  /** The song view keeps each matching song as often as the library has it. */
  lemma SongViewCounts(songs: seq<RatedSong>, f: SongFilters)
    ensures var r := Filter(SortByDate(songs), SongMatcher(f));
      forall x :: multiset(r)[x] == if SongMatches(x, f) then multiset(songs)[x] else 0
  {
    SortFilterCounts(songs, SongMatcher(f));
  }

  /** The song filter as the callback handed to `filter`. */
  function SongMatcher(f: SongFilters): RatedSong -> bool {
    (e: RatedSong) => SongMatches(e, f)
  }

  /** The album view: the library sorted, then filtered. */
  function AlbumView(albums: seq<RatedAlbum>, f: AlbumFilters): (r: seq<RatedAlbum>)
    ensures SortedByDate(r)
    ensures forall i :: 0 <= i < |r| ==> r[i] in albums && AlbumMatches(r[i], f)
    ensures forall i :: 0 <= i < |albums| && AlbumMatches(albums[i], f) ==> albums[i] in r
    ensures (forall i :: 0 <= i < |albums| ==> AlbumMatches(albums[i], f)) ==> r == SortByDate(albums)
    ensures (forall i :: 0 <= i < |albums| ==> !AlbumMatches(albums[i], f)) ==> r == []
    ensures forall x :: multiset(r)[x] == if AlbumMatches(x, f) then multiset(albums)[x] else 0
  {
    SortThenFilter(albums, AlbumMatcher(f));
    AlbumViewCounts(albums, f);
    Filter(SortByDate(albums), AlbumMatcher(f))
  }

  /** The song view: the library sorted, then filtered. */
  function SongView(songs: seq<RatedSong>, f: SongFilters): (r: seq<RatedSong>)
    ensures SortedByDate(r)
    ensures forall i :: 0 <= i < |r| ==> r[i] in songs && SongMatches(r[i], f)
    ensures forall i :: 0 <= i < |songs| && SongMatches(songs[i], f) ==> songs[i] in r
    ensures (forall i :: 0 <= i < |songs| ==> SongMatches(songs[i], f)) ==> r == SortByDate(songs)
    ensures (forall i :: 0 <= i < |songs| ==> !SongMatches(songs[i], f)) ==> r == []
    ensures forall x :: multiset(r)[x] == if SongMatches(x, f) then multiset(songs)[x] else 0
  {
    SortThenFilter(songs, SongMatcher(f));
    SongViewCounts(songs, f);
    Filter(SortByDate(songs), SongMatcher(f))
  }

  /** With the initial filters every entry is shown, most recent first. */
  lemma InitialFiltersShowAll(albums: seq<RatedAlbum>, songs: seq<RatedSong>)
    ensures AlbumView(albums, InitialAlbumFilters) == SortByDate(albums)
    ensures SongView(songs, InitialSongFilters) == SortByDate(songs)
  {
    assert forall i :: 0 <= i < |albums| ==> AlbumMatches(albums[i], InitialAlbumFilters);
    assert forall i :: 0 <= i < |songs| ==> SongMatches(songs[i], InitialSongFilters);
  }

  /** A non-empty year bound that `parseInt` reads as NaN excludes every album. */
  lemma NaNYearExcludesAll(albums: seq<RatedAlbum>, f: AlbumFilters)
    requires (f.yearFrom != "" && ParseInt(f.yearFrom).None?) || (f.yearTo != "" && ParseInt(f.yearTo).None?)
    ensures AlbumView(albums, f) == []
  {
    assert forall i :: 0 <= i < |albums| ==> !AlbumMatches(albums[i], f);
  }

  /** The album view of a two-entry library that is already most recent first. */
  lemma AlbumViewPair(a: RatedAlbum, b: RatedAlbum, f: AlbumFilters)
    requires a.listenedDate >= b.listenedDate
    ensures AlbumView([a, b], f) ==
      (if AlbumMatches(a, f) then [a] else []) + (if AlbumMatches(b, f) then [b] else [])
  {
    SortPair(a, b);
    FilterPair(a, b, AlbumMatcher(f));
  }

  /** Two entries already most recent first are sorted as they are. */
  lemma SortPair<T>(a: Rated<T>, b: Rated<T>)
    requires a.listenedDate >= b.listenedDate
    ensures SortByDate([a, b]) == [a, b]
  {
    assert [a, b][..1] == [a];
    assert SortByDate([a]) == [a];
    assert InsertByDate([a], b) == [a, b];
  }

  lemma FilterPair<T>(a: T, b: T, p: T -> bool)
    ensures Filter([a, b], p) == (if p(a) then [a] else []) + (if p(b) then [b] else [])
  {
    assert [a, b][1..] == [b];
    assert Filter([b], p) == (if p(b) then [b] else []) + Filter([], p);
  }

  function ExampleAbc(): RatedAlbum { Rated(Album("1", "First", "Abc", "", 1990, None), Some(3), 20) }
  function ExampleXyz(): RatedAlbum { Rated(Album("2", "Second", "Xyz", "", 2001, None), Some(5), 10) }

  lemma ExampleArtists()
    ensures ContainsFolded("Abc", "ab") && !ContainsFolded("Xyz", "ab")
  {
    ContainsPrefix("Abc", 2);
    assert "Abc"[..2] == "Ab";
    assert Lower("Ab") == "ab";
    assert Lower("Xyz") == "xyz";
    assert Lower("Xyz")[1..] == "yz";
    assert Lower("Xyz")[1..][1..] == "z";
  }

  // Two logged albums, `Abc` from 1990 rated 3 and `Xyz` from 2001 rated 5:
  // an artist filter, a rating filter and a lower year bound each select one.

  lemma ArtistFilterExample()
    ensures AlbumView([ExampleAbc(), ExampleXyz()], InitialAlbumFilters.(artist := "ab")) == [ExampleAbc()]
  {
    var f := InitialAlbumFilters.(artist := "ab");
    ExampleArtists();
    assert AlbumMatches(ExampleAbc(), f) && !AlbumMatches(ExampleXyz(), f);
    AlbumViewPair(ExampleAbc(), ExampleXyz(), f);
  }

  lemma RatingFilterExample()
    ensures AlbumView([ExampleAbc(), ExampleXyz()], InitialAlbumFilters.(rating := 5)) == [ExampleXyz()]
  {
    var f := InitialAlbumFilters.(rating := 5);
    EmptyNeedle();
    assert !AlbumMatches(ExampleAbc(), f) && AlbumMatches(ExampleXyz(), f);
    AlbumViewPair(ExampleAbc(), ExampleXyz(), f);
  }

  lemma ParseYear1995()
    ensures ParseInt("1995") == Some(1995)
  {
    assert Decimal(1) == "1";
    assert Decimal(19) == Decimal(1) + "9";
    assert Decimal(199) == Decimal(19) + "9";
    assert Decimal(1995) == Decimal(199) + "5";
    assert Format(1995) == "1995";
    ParseFormat(1995);
  }

  /** The bound "1995" rejects the 1990 album and accepts the 2001 one. */
  lemma YearFromMatches()
    ensures !AlbumMatches(ExampleAbc(), InitialAlbumFilters.(yearFrom := "1995"))
    ensures AlbumMatches(ExampleXyz(), InitialAlbumFilters.(yearFrom := "1995"))
  {
    EmptyNeedle();
    ParseYear1995();
  }

  lemma YearFilterExample()
    ensures AlbumView([ExampleAbc(), ExampleXyz()], InitialAlbumFilters.(yearFrom := "1995")) == [ExampleXyz()]
  {
    YearFromMatches();
    AlbumViewPair(ExampleAbc(), ExampleXyz(), InitialAlbumFilters.(yearFrom := "1995"));
  }

  /** A year bound typed as the decimal rendering of `n` compares against `n`. */
  lemma YearBoundsAsTyped(e: RatedAlbum, f: AlbumFilters, lo: int, hi: int)
    requires f.yearFrom == Format(lo) && f.yearTo == Format(hi)
    ensures AlbumMatches(e, f) <==>
      FieldMatches(e.item.artist, f.artist) && RatingMatches(e.rating, f.rating) && lo <= e.item.year <= hi
  {
    ParseFormat(lo);
    ParseFormat(hi);
  }

  // ---------------------------------------------------------------------------
  // Known years and per-album song counts

  /** The album years that are known (positive), in library order. */
  function KnownYears(albums: seq<RatedAlbum>): (r: seq<int>)
    ensures forall i :: 0 <= i < |r| ==> r[i] > 0 && exists k :: 0 <= k < |albums| && albums[k].item.year == r[i]
    ensures forall k :: 0 <= k < |albums| && albums[k].item.year > 0 ==> albums[k].item.year in r
  {
    if albums == [] then []
    else
      var rest := KnownYears(albums[1..]);
      assert forall i :: 0 <= i < |rest| ==> exists k :: 0 <= k < |albums| && albums[k].item.year == rest[i] by {
        forall i | 0 <= i < |rest| ensures exists k :: 0 <= k < |albums| && albums[k].item.year == rest[i] {
          var k :| 0 <= k < |albums[1..]| && albums[1..][k].item.year == rest[i];
          assert albums[k + 1].item.year == rest[i];
        }
      }
      (if albums[0].item.year > 0 then [albums[0].item.year] else []) + rest
  }

  function Min(ys: seq<int>): (m: int)
    requires ys != []
    ensures m in ys && forall i :: 0 <= i < |ys| ==> m <= ys[i]
  {
    if |ys| == 1 then ys[0]
    else var m := Min(ys[1..]); if ys[0] <= m then ys[0] else m
  }

  function Max(ys: seq<int>): (m: int)
    requires ys != []
    ensures m in ys && forall i :: 0 <= i < |ys| ==> ys[i] <= m
  {
    if |ys| == 1 then ys[0]
    else var m := Max(ys[1..]); if ys[0] >= m then ys[0] else m
  }

  datatype YearRange = YearRange(min: int, max: int)

  /** The placeholder range of the year inputs: the least and greatest known
      year, or the twenty years up to `currentYear` when none is known. */
  function AlbumYears(albums: seq<RatedAlbum>, currentYear: int): (r: YearRange)
    ensures (forall k :: 0 <= k < |albums| ==> albums[k].item.year <= 0) ==> r == YearRange(currentYear - 20, currentYear)
    ensures (exists k :: 0 <= k < |albums| && albums[k].item.year > 0) ==>
      && r.min <= r.max
      && (exists k :: 0 <= k < |albums| && albums[k].item.year == r.min && r.min > 0)
      && (exists k :: 0 <= k < |albums| && albums[k].item.year == r.max)
      && (forall k :: 0 <= k < |albums| && albums[k].item.year > 0 ==> r.min <= albums[k].item.year <= r.max)
  {
    var years := KnownYears(albums);
    if |years| > 0 then
      var lo, hi := Min(years), Max(years);
      assert lo <= years[0] <= hi;
      YearRange(lo, hi)
    else
      YearRange(currentYear - 20, currentYear)
  }

  /** The number of logged songs that belong to the album. */
  function ListenedCount(songs: seq<RatedSong>, albumId: string): (n: nat)
    ensures n <= |songs|
    ensures n == 0 <==> forall i :: 0 <= i < |songs| ==> songs[i].item.albumId != albumId
    ensures n == |songs| <==> forall i :: 0 <= i < |songs| ==> songs[i].item.albumId == albumId
  {
    if songs == [] then 0
    else
      var last := songs[|songs| - 1];
      assert forall i :: 0 <= i < |songs| - 1 ==> songs[..|songs| - 1][i] == songs[i];
      ListenedCount(songs[..|songs| - 1], albumId) + (if last.item.albumId == albumId then 1 else 0)
  }

  lemma {:induction false} ListenedCountAppend(a: seq<RatedSong>, b: seq<RatedSong>, albumId: string)
    ensures ListenedCount(a + b, albumId) == ListenedCount(a, albumId) + ListenedCount(b, albumId)
    decreases |b|
  {
    if b != [] {
      assert (a + b)[..|a + b| - 1] == a + b[..|b| - 1];
      ListenedCountAppend(a, b[..|b| - 1], albumId);
    } else {
      assert a + b == a;
    }
  }

  /** Marking all tracks of an album, whose songs all carry its id, raises its
      listened-song count by the number of tracks not yet logged. */
  lemma MarkAllRaisesCount(songs: seq<RatedSong>, tracks: seq<Song>, albumId: string, now: int)
    requires forall i :: 0 <= i < |tracks| ==> tracks[i].albumId == albumId
    ensures ListenedCount(Library.AppendUnlogged(songs, SongId, tracks, now), albumId) ==
      ListenedCount(songs, albumId) + |Library.Unlogged(songs, SongId, tracks)|
  {
    var r := Library.AppendUnlogged(songs, SongId, tracks, now);
    var added := Library.Stamp(Library.Unlogged(songs, SongId, tracks), now);
    assert r == r[..|songs|] + r[|songs|..];
    ListenedCountAppend(songs, added, albumId);
    forall i | 0 <= i < |added| ensures added[i].item.albumId == albumId {
    }
  }
}
