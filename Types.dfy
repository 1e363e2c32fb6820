/** The records of the music log: catalog albums and songs, their logged
    (rated) forms, the tagged search results and the filter records. */
module Types {

  /** `undefined` versus a present value. */
  datatype Option<+T> = None | Some(value: T)

  /** A catalog album. `year` is 0 when unknown; `trackCount` is an optional key. */
  datatype Album = Album(
    id: string,
    title: string,
    artist: string,
    coverUrl: string,
    year: int,
    trackCount: Option<int>)

  /** A catalog song; `albumId`, `albumTitle` and `coverUrl` describe its album. */
  datatype Song = Song(
    id: string,
    title: string,
    artist: string,
    albumId: string,
    albumTitle: string,
    coverUrl: string)

  /** A logged item: the catalog record plus the user's rating (absent until rated)
      and the moment it was logged, as an abstract timestamp. */
  datatype Rated<T> = Rated(item: T, rating: Option<int>, listenedDate: int)

  type RatedAlbum = Rated<Album>
  type RatedSong = Rated<Song>

  function AlbumId(a: Album): string { a.id }
  function SongId(s: Song): string { s.id }

  /** A search result, tagged `album` or `song`. */
  datatype SearchResult = AlbumResult(album: Album) | SongResult(song: Song)
  {
    function Id(): (id: string)
      ensures AlbumResult? ==> id == album.id
      ensures SongResult? ==> id == song.id
    {
      match this
      case AlbumResult(a) => a.id
      case SongResult(s) => s.id
    }
  }

  /** The album a detail view is showing: a catalog stub, or a library entry
      (`Album | RatedAlbum`), so the user fields may be absent. */
  datatype ViewedAlbum = ViewedAlbum(album: Album, rating: Option<int>, listenedDate: Option<int>)

  /** Object spread of `top` over `base`: every field of `top` wins, and
      `trackCount` wins only when `top` has that key. */
  function Overlay(base: Album, top: Album): (r: Album)
    ensures r.id == top.id && r.title == top.title && r.artist == top.artist
    ensures r.coverUrl == top.coverUrl && r.year == top.year
    ensures r.trackCount == (if top.trackCount.Some? then top.trackCount else base.trackCount)
  {
    top.(trackCount := if top.trackCount.Some? then top.trackCount else base.trackCount)
  }

  /** A stub with the fetched details, if any, spread over it. */
  function WithDetails(stub: Album, details: Option<Album>): (r: Album)
    ensures details.None? ==> r == stub
    ensures details.Some? && details.value.trackCount.Some? ==> r == details.value
  {
    match details
    case None => stub
    case Some(d) => Overlay(stub, d)
  }

  /** Albums and songs tagged as search results. */
  function AlbumItems(albums: seq<Album>): (r: seq<SearchResult>)
    ensures |r| == |albums|
    ensures forall i :: 0 <= i < |r| ==> r[i] == AlbumResult(albums[i])
  {
    if albums == [] then [] else [AlbumResult(albums[0])] + AlbumItems(albums[1..])
  }

  function SongItems(songs: seq<Song>): (r: seq<SearchResult>)
    ensures |r| == |songs|
    ensures forall i :: 0 <= i < |r| ==> r[i] == SongResult(songs[i])
  {
    if songs == [] then [] else [SongResult(songs[0])] + SongItems(songs[1..])
  }

  datatype AlbumFilters = AlbumFilters(artist: string, yearFrom: string, yearTo: string, rating: int)
  datatype SongFilters = SongFilters(artist: string, album: string, rating: int)

  /** The filters a library view starts with (and is reset to). */
  const InitialAlbumFilters := AlbumFilters("", "", "", 0)
  const InitialSongFilters := SongFilters("", "", 0)
}
