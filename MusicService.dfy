/** The shaping half of the catalog service: `searchMusic` rebuilds songs and
    de-duplicated albums from the raw track list of a search reply,
    `getAlbumTracks` maps a tracklist reply onto the album it was asked for,
    and `getAlbumDetails` builds an album record from a detail reply. The
    transport is not modelled: each operation receives the reply it awaited. */
module MusicService {
  import opened Types
  import opened Builtins
  import Views

  /** The cover used when a record has no `cover_medium`. */
  const DefaultCover := "https://e-cdns-images.dzcdn.net/images/cover/d41d8cd98f00b204e9800998ecf8427e/250x250-000000-80-0-0.jpg"

  // ---------------------------------------------------------------------------
  // Raw replies. Ids are given already converted with `String(...)`; a text
  // field that is absent is the empty string, which `||` treats alike.

  datatype RawArtist = RawArtist(name: string)
  datatype RawAlbumRef = RawAlbumRef(id: string, title: string, coverMedium: string)
  datatype RawTrack = RawTrack(
    id: string,
    titleShort: string,
    title: string,
    artist: Option<RawArtist>,
    album: Option<RawAlbumRef>)

  /** How a request ends: rejected (the promise throws, so the `catch` answers),
      or resolved with a response that may be null. */
  datatype Reply<T> = Rejected | Resolved(response: Option<T>)

  /** A search or tracklist response; `data` is absent when it is not an array. */
  datatype TrackListBody = TrackListBody(data: Option<seq<RawTrack>>)

  /** A detail response. `releaseYear` is the year read from `release_date`,
      absent when that field is empty; `nbTracks` is absent when missing. */
  datatype AlbumBody = AlbumBody(
    error: bool,
    id: string,
    title: string,
    artist: Option<RawArtist>,
    coverMedium: string,
    releaseYear: Option<int>,
    nbTracks: Option<int>)

  function CoverOr(cover: string): (c: string)
    ensures cover != "" ==> c == cover
    ensures cover == "" ==> c == DefaultCover
  {
    if cover != "" then cover else DefaultCover
  }

  function TitleOf(t: RawTrack): string {
    if t.titleShort != "" then t.titleShort else t.title
  }

  // ---------------------------------------------------------------------------
  // searchMusic

  /** A track the search keeps: it has both an album and an artist. */
  predicate Kept(t: RawTrack) {
    t.album.Some? && t.artist.Some?
  }

  /** The song result built from a kept track. */
  function SongOf(t: RawTrack): (s: Song)
    requires Kept(t)
    ensures s.id == t.id && s.artist == t.artist.value.name
    ensures s.albumId == t.album.value.id && s.albumTitle == t.album.value.title
    ensures s.coverUrl == CoverOr(t.album.value.coverMedium)
  {
    Song(t.id, TitleOf(t), t.artist.value.name, t.album.value.id, t.album.value.title,
         CoverOr(t.album.value.coverMedium))
  }

  /** The album result built from a kept track: year 0 and no track count. */
  function AlbumOf(t: RawTrack): (a: Album)
    requires Kept(t)
    ensures a.id == t.album.value.id && a.title == t.album.value.title
    ensures a.artist == t.artist.value.name && a.coverUrl == CoverOr(t.album.value.coverMedium)
    ensures a.year == 0 && a.trackCount.None?
  {
    Album(t.album.value.id, t.album.value.title, t.artist.value.name,
          CoverOr(t.album.value.coverMedium), 0, None)
  }

  /** Some album of the list has the id. */
  predicate HasAlbum(albums: seq<Album>, id: string) {
    exists k :: 0 <= k < |albums| && albums[k].id == id
  }

  /** The song results of a track list, in track order. */
  function Songs(ts: seq<RawTrack>): seq<Song> {
    if ts == [] then []
    else
      var t := ts[|ts| - 1];
      Songs(ts[..|ts| - 1]) + (if Kept(t) then [SongOf(t)] else [])
  }

  /** The album results of a track list: one per album id, in the order the ids
      first appear, each built from the track where its id first appears. */
  function Albums(ts: seq<RawTrack>): (r: seq<Album>)
    ensures |r| <= |ts|
    ensures forall k :: 0 <= k < |r| ==> r[k].year == 0 && r[k].trackCount.None?
  {
    if ts == [] then []
    else
      var prev := Albums(ts[..|ts| - 1]);
      var t := ts[|ts| - 1];
      if Kept(t) && !HasAlbum(prev, t.album.value.id) then prev + [AlbumOf(t)] else prev
  }

  /** What `searchMusic` resolves to. */
  function Shape(query: string, reply: Reply<TrackListBody>): (r: seq<SearchResult>)
    ensures IsBlank(query) ==> r == []
    ensures reply.Rejected? || (reply.Resolved? && reply.response.None?) ==> r == []
    ensures reply.Resolved? && reply.response.Some? && reply.response.value.data.None? ==> r == []
  {
    if IsBlank(query) then []
    else match reply
      case Rejected => []
      case Resolved(None) => []
      case Resolved(Some(body)) =>
        match body.data
        case None => []
        case Some(ts) => AlbumItems(Albums(ts)) + SongItems(Songs(ts))
  }

  /** The album map and its insertion order hold exactly `albums`: the order
      lists their ids and the map sends each id to its album. */
  ghost predicate MapHolds(albumMap: map<string, Album>, albumOrder: seq<string>, albums: seq<Album>) {
    && |albumOrder| == |albums|
    && (forall k :: 0 <= k < |albumOrder| ==> albumOrder[k] == albums[k].id)
    && (forall id :: id in albumMap <==> id in albumOrder)
    && (forall k :: 0 <= k < |albumOrder| ==> albumMap[albumOrder[k]] == albums[k])
  }

  /** A map lookup answers whether the album list has the id. */
  lemma MapHas(albumMap: map<string, Album>, albumOrder: seq<string>, albums: seq<Album>, id: string)
    requires MapHolds(albumMap, albumOrder, albums)
    ensures id in albumMap <==> HasAlbum(albums, id)
  {
    if id in albumMap {
      var k :| 0 <= k < |albumOrder| && albumOrder[k] == id;
      assert albums[k].id == id;
    }
    if k :| 0 <= k < |albums| && albums[k].id == id {
      assert albumOrder[k] == id;
    }
  }

  /** Entering a new id keeps the map and its order in step with the list. */
  lemma MapAdd(albumMap: map<string, Album>, albumOrder: seq<string>, albums: seq<Album>, a: Album)
    requires MapHolds(albumMap, albumOrder, albums) && a.id !in albumMap
    ensures MapHolds(albumMap[a.id := a], albumOrder + [a.id], albums + [a])
  {
    var m, o, s := albumMap[a.id := a], albumOrder + [a.id], albums + [a];
    forall k | 0 <= k < |o| ensures m[o[k]] == s[k] {
      if k < |albumOrder| {
        assert o[k] == albumOrder[k] && albumOrder[k] in albumMap;
      }
    }
  }

  /** One more track extends the album list as `Albums` says. */
  lemma AlbumsStep(ts: seq<RawTrack>, i: nat)
    requires i < |ts|
    ensures Albums(ts[..i + 1]) ==
      (if Kept(ts[i]) && !HasAlbum(Albums(ts[..i]), ts[i].album.value.id)
       then Albums(ts[..i]) + [AlbumOf(ts[i])] else Albums(ts[..i]))
    ensures Songs(ts[..i + 1]) == Songs(ts[..i]) + (if Kept(ts[i]) then [SongOf(ts[i])] else [])
  {
    assert ts[..i + 1][..i] == ts[..i];
    assert ts[..i + 1][i] == ts[i];
  }

  /** The `forEach` pass of `searchMusic`: a song per kept track, and each new
      album id entered into the map, remembering the order of insertion. */
  method CollectTracks(tracks: seq<RawTrack>)
      returns (albumMap: map<string, Album>, albumOrder: seq<string>, songResults: seq<Song>)
    ensures songResults == Songs(tracks)
    ensures MapHolds(albumMap, albumOrder, Albums(tracks))
  {
    albumMap, albumOrder, songResults := map[], [], [];
    var i := 0;
    while i < |tracks|
      invariant 0 <= i <= |tracks|
      invariant songResults == Songs(tracks[..i])
      invariant MapHolds(albumMap, albumOrder, Albums(tracks[..i]))
    {
      var track := tracks[i];
      AlbumsStep(tracks, i);
      if track.album.Some? && track.artist.Some? {
        songResults := songResults + [SongOf(track)];
        var albumId := track.album.value.id;
        MapHas(albumMap, albumOrder, Albums(tracks[..i]), albumId);
        if albumId !in albumMap {
          MapAdd(albumMap, albumOrder, Albums(tracks[..i]), AlbumOf(track));
          albumMap := albumMap[albumId := AlbumOf(track)];
          albumOrder := albumOrder + [albumId];
        }
      }
      i := i + 1;
    }
    assert tracks[..i] == tracks;
  }

  /** `Array.from(albumMap.values())`: the values in insertion order. */
  method MapValues(albumMap: map<string, Album>, albumOrder: seq<string>, ghost expected: seq<Album>)
      returns (albums: seq<Album>)
    requires MapHolds(albumMap, albumOrder, expected)
    ensures albums == expected
  {
    albums := [];
    var k := 0;
    while k < |albumOrder|
      invariant 0 <= k <= |albumOrder|
      invariant albums == expected[..k]
    {
      albums := albums + [albumMap[albumOrder[k]]];
      k := k + 1;
    }
  }

  /** `searchMusic`: one pass over the tracks pushes a song per kept track and
      enters each new album id into a map, whose values are then read back in
      insertion order, albums first. */
  method SearchMusic(query: string, reply: Reply<TrackListBody>) returns (results: seq<SearchResult>)
    ensures results == Shape(query, reply)
  {
    if IsBlank(query) {
      return [];
    }
    if reply.Rejected? || reply.response.None? || reply.response.value.data.None? {
      return [];
    }
    var tracks := reply.response.value.data.value;
    var albumMap, albumOrder, songResults := CollectTracks(tracks);
    var albums := MapValues(albumMap, albumOrder, Albums(tracks));
    results := AlbumItems(albums) + SongItems(songResults);
  }

  /** The songs are the kept tracks, one each, in input order. */
  lemma {:induction false} SongsAreKept(ts: seq<RawTrack>)
    ensures |Songs(ts)| == |Filter(ts, Kept)|
    ensures forall k :: 0 <= k < |Songs(ts)| ==> Songs(ts)[k] == SongOf(Filter(ts, Kept)[k])
  {
    if ts != [] {
      var init, t := ts[..|ts| - 1], ts[|ts| - 1];
      SplitLast(ts);
      FilterAppend(init, [t], Kept);
      assert Filter([t], Kept) == (if Kept(t) then [t] else []) + Filter([], Kept);
      SongsAreKept(init);
    }
  }

  /** The album of every kept track is among the album results. */
  lemma {:induction false} AlbumsComplete(ts: seq<RawTrack>)
    ensures forall j :: 0 <= j < |ts| && Kept(ts[j]) ==> HasAlbum(Albums(ts), ts[j].album.value.id)
  {
    if ts != [] {
      var init, t := ts[..|ts| - 1], ts[|ts| - 1];
      var prev := Albums(init);
      AlbumsComplete(init);
      forall j | 0 <= j < |ts| && Kept(ts[j]) ensures HasAlbum(Albums(ts), ts[j].album.value.id) {
        if j < |ts| - 1 {
          assert init[j] == ts[j];
          var k :| 0 <= k < |prev| && prev[k].id == ts[j].album.value.id;
          assert Albums(ts)[k] == prev[k];
        } else if !HasAlbum(prev, t.album.value.id) {
          assert Albums(ts)[|prev|] == AlbumOf(t);
        }
      }
    }
  }

  /** No two album results share an id. */
  lemma {:induction false} AlbumsDistinct(ts: seq<RawTrack>)
    ensures forall a, b :: 0 <= a < b < |Albums(ts)| ==> Albums(ts)[a].id != Albums(ts)[b].id
  {
    if ts != [] {
      var prev := Albums(ts[..|ts| - 1]);
      var t := ts[|ts| - 1];
      AlbumsDistinct(ts[..|ts| - 1]);
      if Kept(t) && !HasAlbum(prev, t.album.value.id) {
        var r := prev + [AlbumOf(t)];
        forall a, b | 0 <= a < b < |r| ensures r[a].id != r[b].id {
          if b == |prev| {
            assert r[a] == prev[a];
          } else {
            assert r[a] == prev[a] && r[b] == prev[b];
          }
        }
      }
    }
  }

  /** Index `j` holds the first kept track of `ts` whose album id is `a.id`,
      and `a` is the album built from it. */
  predicate FirstFrom(ts: seq<RawTrack>, j: int, a: Album) {
    && 0 <= j < |ts| && Kept(ts[j]) && AlbumOf(ts[j]) == a
    && forall j' :: 0 <= j' < j && Kept(ts[j']) ==> ts[j'].album.value.id != a.id
  }

  lemma FirstFromExtend(ts: seq<RawTrack>, j: int, a: Album)
    requires ts != [] && FirstFrom(ts[..|ts| - 1], j, a)
    ensures FirstFrom(ts, j, a)
  {
    var init := ts[..|ts| - 1];
    assert forall j' :: 0 <= j' <= j ==> ts[j'] == init[j'];
  }

  /** Every album result is built from the FIRST kept track carrying its id. */
  lemma {:induction false} AlbumsFirstOccurrence(ts: seq<RawTrack>, k: nat)
    requires k < |Albums(ts)|
    ensures exists j :: FirstFrom(ts, j, Albums(ts)[k])
  {
    var init, t := ts[..|ts| - 1], ts[|ts| - 1];
    var prev := Albums(init);
    var r := Albums(ts);
    if k < |prev| {
      assert r[k] == prev[k];
      AlbumsFirstOccurrence(init, k);
      var j :| FirstFrom(init, j, prev[k]);
      FirstFromExtend(ts, j, prev[k]);
    } else {
      AlbumsComplete(init);
      assert r[k] == AlbumOf(t) && !HasAlbum(prev, t.album.value.id);
      forall j' | 0 <= j' < |ts| - 1 && Kept(ts[j']) ensures ts[j'].album.value.id != r[k].id {
        assert init[j'] == ts[j'];
      }
      assert FirstFrom(ts, |ts| - 1, r[k]);
    }
  }

  /** The album results come in the order their ids first appear among the
      kept tracks. */
  lemma {:induction false} AlbumsInFirstOrder(ts: seq<RawTrack>, a: nat, b: nat, ja: int, jb: int)
    requires a < b < |Albums(ts)|
    requires FirstFrom(ts, ja, Albums(ts)[a]) && FirstFrom(ts, jb, Albums(ts)[b])
    ensures ja < jb
  {
    var init, t := ts[..|ts| - 1], ts[|ts| - 1];
    var prev := Albums(init);
    var r := Albums(ts);
    AlbumsDistinct(ts);
    if b < |prev| {
      assert r[a] == prev[a] && r[b] == prev[b];
      FirstFromInit(ts, ja, a);
      FirstFromInit(ts, jb, b);
      AlbumsInFirstOrder(init, a, b, ja, jb);
    } else {
      assert r[b] == AlbumOf(t) && !HasAlbum(prev, t.album.value.id);
      if jb < |ts| - 1 {
        assert init[jb] == ts[jb];
        AlbumsComplete(init);
      }
      assert ja != jb;
    }
  }

  /** A first occurrence of an album that was already a result before the last
      track lies before that track. */
  lemma FirstFromInit(ts: seq<RawTrack>, j: int, k: nat)
    requires ts != [] && k < |Albums(ts[..|ts| - 1])| && FirstFrom(ts, j, Albums(ts[..|ts| - 1])[k])
    ensures j < |ts| - 1 && FirstFrom(ts[..|ts| - 1], j, Albums(ts[..|ts| - 1])[k])
  {
    var init := ts[..|ts| - 1];
    var x := Albums(init)[k];
    AlbumsSound(init, k);
    var i :| 0 <= i < |init| && Kept(init[i]) && init[i].album.value.id == x.id;
    assert ts[i] == init[i];
  }

  /** Every album result comes from some kept track. */
  lemma AlbumsSound(ts: seq<RawTrack>, k: nat)
    requires k < |Albums(ts)|
    ensures exists j :: 0 <= j < |ts| && Kept(ts[j]) && ts[j].album.value.id == Albums(ts)[k].id
  {
    AlbumsFirstOccurrence(ts, k);
    var j :| FirstFrom(ts, j, Albums(ts)[k]);
  }

  /** The album a song result belongs to is itself a result. */
  lemma SongAlbumsListed(ts: seq<RawTrack>)
    ensures forall k :: 0 <= k < |Songs(ts)| ==> HasAlbum(Albums(ts), Songs(ts)[k].albumId)
  {
    SongsAreKept(ts);
    AlbumsComplete(ts);
    var kept := Filter(ts, Kept);
    forall k | 0 <= k < |Songs(ts)| ensures HasAlbum(Albums(ts), Songs(ts)[k].albumId) {
      var j :| 0 <= j < |ts| && ts[j] == kept[k];
    }
  }

  /** A well-formed search reply gives every album result before every song result,
      and the tag-based split of the App recovers both lists exactly. */
  lemma SearchOrder(query: string, ts: seq<RawTrack>)
    requires !IsBlank(query)
    ensures var r := Shape(query, Resolved(Some(TrackListBody(Some(ts)))));
      |r| == |Albums(ts)| + |Songs(ts)| &&
      (forall k :: 0 <= k < |r| ==> (r[k].AlbumResult? <==> k < |Albums(ts)|)) &&
      Views.AlbumsOf(r) == Albums(ts) && Views.SongsOf(r) == Songs(ts)
  {
    ShapeResolved(query, ts);
    Views.SplitJoin(Albums(ts), Songs(ts));
  }

  // Two tracks of album "10" and a track without an artist.

  function ExampleTracks(): seq<RawTrack> {
    [RawTrack("1", "", "One", Some(RawArtist("Band")), Some(RawAlbumRef("10", "Debut", "c1"))),
     RawTrack("2", "Two", "Two (edit)", Some(RawArtist("Band")), Some(RawAlbumRef("10", "Debut (other)", ""))),
     RawTrack("3", "", "Three", None, Some(RawAlbumRef("10", "Debut", "c1")))]
  }

  /** One album, built from the first track that names it. */
  lemma ExampleAlbums()
    ensures Albums(ExampleTracks()) == [Album("10", "Debut", "Band", "c1", 0, None)]
  {
    var ts := ExampleTracks();
    assert ts[..2] == [ts[0], ts[1]] && ts[..2][..1] == [ts[0]] && [ts[0]][..0] == [];
    var a := Album("10", "Debut", "Band", "c1", 0, None);
    assert Albums([ts[0]]) == [a];
    assert [a][0].id == "10";
    assert HasAlbum([a], "10");
    assert Albums([ts[0], ts[1]]) == [a];
  }

  /** Two songs: the short title wins when it is set, and an empty cover
      becomes the default one; the track without an artist is skipped. */
  lemma ExampleSongs()
    ensures Songs(ExampleTracks()) ==
      [Song("1", "One", "Band", "10", "Debut", "c1"),
       Song("2", "Two", "Band", "10", "Debut (other)", DefaultCover)]
  {
    var ts := ExampleTracks();
    assert ts[..2] == [ts[0], ts[1]] && ts[..2][..1] == [ts[0]] && [ts[0]][..0] == [];
    assert Songs([ts[0]]) == [] + [SongOf(ts[0])];
    assert Songs([ts[0], ts[1]]) == [SongOf(ts[0])] + [SongOf(ts[1])];
  }

  /** The example search: the album first, then the two songs. */
  lemma SearchExample()
    ensures Shape("band", Resolved(Some(TrackListBody(Some(ExampleTracks()))))) ==
      [AlbumResult(Album("10", "Debut", "Band", "c1", 0, None)),
       SongResult(Song("1", "One", "Band", "10", "Debut", "c1")),
       SongResult(Song("2", "Two", "Band", "10", "Debut (other)", DefaultCover))]
  {
    BandNotBlank();
    ShapeResolved("band", ExampleTracks());
    ExampleAlbums();
    ExampleSongs();
  }

  lemma BandNotBlank()
    ensures !IsBlank("band")
  {
    assert !IsSpace("band"[0]);
  }

  /** A non-blank query over a reply with a `data` array gives the albums
      followed by the songs of its tracks. */
  lemma ShapeResolved(query: string, ts: seq<RawTrack>)
    requires !IsBlank(query)
    ensures Shape(query, Resolved(Some(TrackListBody(Some(ts))))) == AlbumItems(Albums(ts)) + SongItems(Songs(ts))
  {
  }

  // ---------------------------------------------------------------------------
  // getAlbumTracks

  /** `getAlbumTracks(album)`: one song per element of `data`, with the album's
      own id, title and cover; `[]` on a failed or malformed reply, and also when
      a track has no artist, since reading its name throws inside the `try`. */
  function AlbumTracks(album: Album, reply: Reply<TrackListBody>): (r: seq<Song>)
    ensures reply.Rejected? || (reply.Resolved? && (reply.response.None? || reply.response.value.data.None?)) ==> r == []
    ensures reply.Resolved? && reply.response.Some? && reply.response.value.data.Some? ==>
      var ts := reply.response.value.data.value;
      ((exists j :: 0 <= j < |ts| && ts[j].artist.None?) ==> r == []) &&
      ((forall j :: 0 <= j < |ts| ==> ts[j].artist.Some?) ==>
        |r| == |ts| &&
        forall k :: 0 <= k < |r| ==>
          r[k].id == ts[k].id && r[k].title == TitleOf(ts[k]) && r[k].artist == ts[k].artist.value.name &&
          r[k].albumId == album.id && r[k].albumTitle == album.title && r[k].coverUrl == album.coverUrl)
  {
    match reply
    case Rejected => []
    case Resolved(None) => []
    case Resolved(Some(body)) =>
      match body.data
      case None => []
      case Some(ts) =>
        if exists j :: 0 <= j < |ts| && ts[j].artist.None? then []
        else TrackSongs(album, ts)
  }

  /** The songs of a tracklist whose tracks all have an artist. */
  function TrackSongs(album: Album, ts: seq<RawTrack>): (r: seq<Song>)
    requires forall j :: 0 <= j < |ts| ==> ts[j].artist.Some?
    ensures |r| == |ts|
    ensures forall k :: 0 <= k < |r| ==>
      r[k] == Song(ts[k].id, TitleOf(ts[k]), ts[k].artist.value.name, album.id, album.title, album.coverUrl)
  {
    if ts == [] then []
    else
      [Song(ts[0].id, TitleOf(ts[0]), ts[0].artist.value.name, album.id, album.title, album.coverUrl)] +
      TrackSongs(album, ts[1..])
  }

  // ---------------------------------------------------------------------------
  // getAlbumDetails

  /** `getAlbumDetails`: absent on a rejected or null reply, on an error reply,
      and when the artist is missing (reading its name throws); otherwise the
      record with year 0 when no release year is known and the track count
      defaulted to 0. */
  function AlbumDetails(reply: Reply<AlbumBody>): (r: Option<Album>)
    ensures reply.Rejected? || (reply.Resolved? && reply.response.None?) ==> r.None?
    ensures reply.Resolved? && reply.response.Some? ==>
      var b := reply.response.value;
      (r.None? <==> b.error || b.artist.None?) &&
      (r.Some? ==>
        r.value.id == b.id && r.value.title == b.title && r.value.artist == b.artist.value.name &&
        r.value.coverUrl == CoverOr(b.coverMedium) &&
        r.value.year == (if b.releaseYear.Some? then b.releaseYear.value else 0) &&
        r.value.trackCount == Some(if b.nbTracks.Some? then b.nbTracks.value else 0))
  {
    match reply
    case Rejected => None
    case Resolved(None) => None
    case Resolved(Some(b)) =>
      if b.error || b.artist.None? then None
      else
        var year := match b.releaseYear case Some(y) => y case None => 0;
        var count := match b.nbTracks case Some(n) => n case None => 0;
        Some(Album(b.id, b.title, b.artist.value.name, CoverOr(b.coverMedium), year, Some(count)))
  }

  /** A detail record always carries a track count, so spreading it over a
      search stub replaces the stub entirely. */
  lemma DetailsReplaceStub(stub: Album, reply: Reply<AlbumBody>)
    requires AlbumDetails(reply).Some?
    ensures WithDetails(stub, AlbumDetails(reply)) == AlbumDetails(reply).value
  {
  }
}
