/** The album detail view: its state cells (tracks, fetched details, loading
    flag, the album rating shown by the stars), the fetch effect that fills
    them, and the pure rules derived from them. */
module AlbumDetailView {
  import opened Types
  import opened Library
  import MusicService

  /** The stars start at the album's rating when it has a non-zero one, else 0. */
  function InitialAlbumRating(album: ViewedAlbum): (r: int)
    ensures album.rating.Some? && album.rating.value != 0 ==> r == album.rating.value
    ensures album.rating.None? || album.rating.value == 0 ==> r == 0
  {
    match album.rating
    case Some(x) => if x != 0 then x else 0
    case None => 0
  }

  /** `displayAlbum`: the fetched details when there are any, else the album passed in. */
  function DisplayAlbum(album: ViewedAlbum, details: Option<Album>): (r: Album)
    ensures details.Some? ==> r == details.value
    ensures details.None? ==> r == album.album
  {
    match details
    case Some(d) => d
    case None => album.album
  }

  /** The record a star click sends: the album with the details spread over it.
      The details carry no user fields, so `rating` and `listenedDate` survive. */
  function RatingUpdateRecord(album: ViewedAlbum, details: Option<Album>): (r: ViewedAlbum)
    ensures r.rating == album.rating && r.listenedDate == album.listenedDate
    ensures details.None? ==> r.album == album.album
    ensures details.Some? ==> r.album.id == details.value.id && r.album.year == details.value.year
    ensures details.Some? && details.value.trackCount.Some? ==> r.album == details.value
  {
    album.(album := WithDetails(album.album, details))
  }

  /** When the details carry a track count (the fetched ones always do), the
      album the view shows is exactly the album a star click sends up. */
  lemma DisplayedIsSent(album: ViewedAlbum, details: Option<Album>)
    requires details.None? || details.value.trackCount.Some?
    ensures DisplayAlbum(album, details) == RatingUpdateRecord(album, details).album
  {
  }

  /** `allTracksLogged`: there is a track and every track's id is a logged song id. */
  predicate AllTracksLogged(tracks: seq<Song>, mySongs: seq<RatedSong>) {
    |tracks| > 0 && forall i :: 0 <= i < |tracks| ==> HasId(mySongs, SongId, tracks[i].id)
  }

  /** Where a click on a track goes. */
  datatype TrackClick = RateSong(song: Song) | MarkSongAsListened(item: SearchResult)

  /** A logged track opens its rating; an unlogged one is marked as listened. */
  function ClickTrack(track: Song, mySongs: seq<RatedSong>): (r: TrackClick)
    ensures r.RateSong? <==> HasId(mySongs, SongId, track.id)
    ensures r.RateSong? ==> r.song == track
    ensures r.MarkSongAsListened? ==> r.item == SongResult(track)
  {
    if HasId(mySongs, SongId, track.id) then RateSong(track) else MarkSongAsListened(SongResult(track))
  }

  /** After "mark all" on a non-empty tracklist, every track counts as logged. */
  lemma MarkAllLogsAll(tracks: seq<Song>, mySongs: seq<RatedSong>, now: int)
    requires |tracks| > 0
    ensures AllTracksLogged(tracks, AppendUnlogged(mySongs, SongId, tracks, now))
  {
    AppendLogsAll(mySongs, SongId, tracks, now);
  }

  /** When every track is logged, "mark all" (whose button is then disabled)
      would not change the library. */
  lemma AllLoggedMarkAllNoop(tracks: seq<Song>, mySongs: seq<RatedSong>, now: int)
    requires AllTracksLogged(tracks, mySongs)
    ensures AppendUnlogged(mySongs, SongId, tracks, now) == mySongs
  {
    AllLoggedNoop(mySongs, SongId, tracks, now);
  }

  /** After "mark all", a click on any track opens its rating. */
  lemma MarkAllThenClickRates(tracks: seq<Song>, mySongs: seq<RatedSong>, now: int, i: nat)
    requires i < |tracks|
    ensures ClickTrack(tracks[i], AppendUnlogged(mySongs, SongId, tracks, now)) == RateSong(tracks[i])
  {
    AppendLogsAll(mySongs, SongId, tracks, now);
  }

  /** An empty tracklist is never "all logged". */
  lemma EmptyNeverAllLogged(mySongs: seq<RatedSong>)
    ensures !AllTracksLogged([], mySongs)
  {
  }

  /** A rating change: the record sent up, tagged as an album, and the new rating. */
  datatype RatingUpdate = RatingUpdate(item: SearchResult, record: ViewedAlbum, rating: int)

  class DetailView {
    var album: ViewedAlbum
    var tracks: seq<Song>
    var albumDetails: Option<Album>
    var isTracksLoading: bool
    var albumRating: int

    /** The stored details, if any, are a fetched record: they carry a track count. */
    predicate Fetched()
      reads this
    {
      albumDetails.None? || albumDetails.value.trackCount.Some?
    }

    /** The first render: no tracks, no details, loading, and the initial rating. */
    constructor (album: ViewedAlbum)
      ensures this.album == album && tracks == [] && albumDetails.None? && isTracksLoading
      ensures albumRating == InitialAlbumRating(album)
      ensures Fetched()
    {
      this.album := album;
      tracks := [];
      albumDetails := None;
      isTracksLoading := true;
      albumRating := InitialAlbumRating(album);
    }

    /** The album prop changes: the rating effect resets the stars. */
    method AlbumChanged(newAlbum: ViewedAlbum)
      modifies this
      ensures album == newAlbum && albumRating == InitialAlbumRating(newAlbum)
      ensures tracks == old(tracks) && albumDetails == old(albumDetails) && isTracksLoading == old(isTracksLoading)
      ensures old(Fetched()) ==> Fetched()
    {
      album := newAlbum;
      albumRating := InitialAlbumRating(newAlbum);
    }

    /** The fetch effect starts: loading, and the previous details are cleared. */
    method BeginFetch()
      modifies this
      ensures isTracksLoading && albumDetails.None?
      ensures Fetched()
      ensures album == old(album) && tracks == old(tracks) && albumRating == old(albumRating)
    {
      isTracksLoading := true;
      albumDetails := None;
    }

    /** Both requests have answered: the tracks become the fetched list, the
        details are stored only when the fetch produced some, loading ends. */
    method CompleteFetch(tracksReply: MusicService.Reply<MusicService.TrackListBody>,
                         detailsReply: MusicService.Reply<MusicService.AlbumBody>)
      modifies this
      ensures tracks == MusicService.AlbumTracks(album.album, tracksReply)
      ensures albumDetails ==
        (if MusicService.AlbumDetails(detailsReply).Some? then MusicService.AlbumDetails(detailsReply)
         else old(albumDetails))
      ensures !isTracksLoading
      ensures album == old(album) && albumRating == old(albumRating)
      ensures old(Fetched()) ==> Fetched()
    {
      var fetchedTracks := MusicService.AlbumTracks(album.album, tracksReply);
      var fetchedDetails := MusicService.AlbumDetails(detailsReply);
      tracks := fetchedTracks;
      if fetchedDetails.Some? {
        albumDetails := fetchedDetails;
      }
      isTracksLoading := false;
    }

    /** `handleRatingChange`: the stars show the new rating and the merged record
        is sent up as an album with it. */
    method HandleRatingChange(newRating: int) returns (update: RatingUpdate)
      modifies this
      ensures albumRating == newRating
      ensures update.record == RatingUpdateRecord(album, albumDetails)
      ensures update.item == AlbumResult(update.record.album) && update.rating == newRating
      ensures Fetched() ==> update.record.album == DisplayAlbum(album, albumDetails)
      ensures album == old(album) && tracks == old(tracks)
      ensures albumDetails == old(albumDetails) && isTracksLoading == old(isTracksLoading)
    {
      albumRating := newRating;
      var record := RatingUpdateRecord(album, albumDetails);
      if Fetched() {
        DisplayedIsSent(album, albumDetails);
      }
      update := RatingUpdate(AlbumResult(record.album), record, newRating);
    }
  }
}
