/** The state of the App component and its handlers: the two library
    collections, the album being viewed, the search results and the rating
    modal. Each handler is modelled as one atomic step; the values its
    `await`s resolve to are passed in as parameters. */
module App {
  import opened Types
  import opened Builtins
  import opened Library
  import MusicService

  /** What `localStorage.getItem` followed by `JSON.parse` gives for one key:
      nothing stored (or an empty string), text that does not parse, or a value. */
  datatype Stored<T> = Missing | Corrupt | Parsed(value: T)

  class MusicLog {
    var searchResults: seq<SearchResult>
    var myAlbums: seq<RatedAlbum>
    var mySongs: seq<RatedSong>
    var selectedItem: Option<SearchResult>
    var isModalOpen: bool
    var viewingAlbum: Option<ViewedAlbum>

    /** The library invariant the handlers keep under their stated conditions:
        ids are unique in each collection and every rating lies in 1..5. */
    predicate Valid()
      reads this
    {
      Unique(myAlbums, AlbumId) && Unique(mySongs, SongId) &&
      RatingsInRange(myAlbums) && RatingsInRange(mySongs)
    }

    /** The initial state: everything empty, nothing open. */
    constructor ()
      ensures Valid()
      ensures searchResults == [] && myAlbums == [] && mySongs == []
      ensures selectedItem.None? && !isModalOpen && viewingAlbum.None?
    {
      searchResults := [];
      myAlbums := [];
      mySongs := [];
      selectedItem := None;
      isModalOpen := false;
      viewingAlbum := None;
    }

    /** The mount effect: both keys are read inside one `try`, so a corrupt
        album list also skips the songs, while parsed albums followed by corrupt
        songs keep the albums. A missing key leaves its collection as it was. */
    method Load(storedAlbums: Stored<seq<RatedAlbum>>, storedSongs: Stored<seq<RatedSong>>)
      modifies this
      ensures myAlbums == (if storedAlbums.Parsed? then storedAlbums.value else old(myAlbums))
      ensures mySongs == (if !storedAlbums.Corrupt? && storedSongs.Parsed? then storedSongs.value else old(mySongs))
      ensures searchResults == old(searchResults) && viewingAlbum == old(viewingAlbum)
      ensures selectedItem == old(selectedItem) && isModalOpen == old(isModalOpen)
    {
      match storedAlbums {
        case Corrupt => return;
        case Parsed(albums) => myAlbums := albums;
        case Missing =>
      }
      match storedSongs {
        case Corrupt =>
        case Parsed(songs) => mySongs := songs;
        case Missing =>
      }
    }

    /** `handleSearch`: a blank query does nothing; otherwise the album view is
        closed and the results become what `searchMusic` returns for `reply`. */
    method Search(query: string, reply: MusicService.Reply<MusicService.TrackListBody>)
      modifies this
      ensures IsBlank(query) ==>
        searchResults == old(searchResults) && viewingAlbum == old(viewingAlbum)
      ensures !IsBlank(query) ==>
        searchResults == MusicService.Shape(query, reply) && viewingAlbum.None?
      ensures myAlbums == old(myAlbums) && mySongs == old(mySongs)
      ensures selectedItem == old(selectedItem) && isModalOpen == old(isModalOpen)
    {
      if IsBlank(query) {
        return;
      }
      searchResults := [];
      viewingAlbum := None;
      var results := MusicService.SearchMusic(query, reply);
      searchResults := results;
    }

    /** `handleOpenModal` for a tagged item. */
    method OpenModal(item: SearchResult)
      modifies this
      ensures selectedItem == Some(item) && isModalOpen
      ensures searchResults == old(searchResults) && myAlbums == old(myAlbums)
      ensures mySongs == old(mySongs) && viewingAlbum == old(viewingAlbum)
    {
      selectedItem := Some(item);
      isModalOpen := true;
    }

    /** `handleCloseModal`. */
    method CloseModal()
      modifies this
      ensures selectedItem.None? && !isModalOpen
      ensures searchResults == old(searchResults) && myAlbums == old(myAlbums)
      ensures mySongs == old(mySongs) && viewingAlbum == old(viewingAlbum)
    {
      isModalOpen := false;
      selectedItem := None;
    }

    /** `handleMarkAsListened`. An album is looked up by the id of the clicked
        record; if it is new, the record with the fetched `details` spread over
        it is appended, unrated, logged at `now`. A song already in the library
        is only routed to the rating modal; a new one is appended first. */
    method MarkAsListened(item: SearchResult, details: Option<Album>, now: int)
      modifies this
      ensures item.AlbumResult? ==>
        myAlbums == (if HasId(old(myAlbums), AlbumId, item.album.id) then old(myAlbums)
                     else old(myAlbums) + [Rated(WithDetails(item.album, details), None, now)])
      ensures item.AlbumResult? ==>
        mySongs == old(mySongs) && selectedItem == old(selectedItem) && isModalOpen == old(isModalOpen)
      ensures item.AlbumResult? && (details.None? || details.value.id == item.album.id) ==>
        myAlbums == InsertIfAbsent(old(myAlbums), AlbumId, Rated(WithDetails(item.album, details), None, now))
      ensures item.SongResult? ==>
        mySongs == InsertIfAbsent(old(mySongs), SongId, Rated(item.song, None, now)) && myAlbums == old(myAlbums)
      ensures item.SongResult? ==> selectedItem == Some(item) && isModalOpen
      ensures searchResults == old(searchResults) && viewingAlbum == old(viewingAlbum)
      ensures old(Valid()) && (item.AlbumResult? ==> details.None? || details.value.id == item.Id()) ==> Valid()
      ensures (item.AlbumResult? && viewingAlbum.Some? && viewingAlbum.value.album.id == item.album.id &&
               (details.None? || details.value.id == item.album.id)) ==> IsViewingAlbumLogged()
    {
      match item {
        case AlbumResult(stub) =>
          if HasId(myAlbums, AlbumId, stub.id) {
            return;
          }
          var logged := Rated(WithDetails(stub, details), None, now);
          ghost var before := myAlbums;
          myAlbums := myAlbums + [logged];
          if Unique(before, AlbumId) && (details.None? || details.value.id == stub.id) {
            InsertKeepsUnique(before, AlbumId, logged);
          }
        case SongResult(song) =>
          var logged := Rated(song, None, now);
          if !HasId(mySongs, SongId, song.id) {
            if Unique(mySongs, SongId) {
              InsertKeepsUnique(mySongs, SongId, logged);
            }
            mySongs := mySongs + [logged];
          }
          OpenModal(item);
      }
    }

    /** `handleSaveRating`: only the `rating` of the entries with the item's id
        changes, in the collection the tag selects; a viewed album with that id
        shows the new rating; the modal closes. */
    method SaveRating(item: SearchResult, rating: int)
      modifies this
      ensures item.AlbumResult? ==>
        myAlbums == SetRating(old(myAlbums), AlbumId, item.album.id, rating) && mySongs == old(mySongs)
      ensures item.SongResult? ==>
        mySongs == SetRating(old(mySongs), SongId, item.song.id, rating) && myAlbums == old(myAlbums)
      ensures viewingAlbum ==
        (if item.AlbumResult? && old(viewingAlbum).Some? && old(viewingAlbum).value.album.id == item.album.id
         then Some(old(viewingAlbum).value.(rating := Some(rating)))
         else old(viewingAlbum))
      ensures selectedItem.None? && !isModalOpen && searchResults == old(searchResults)
      ensures old(Valid()) && 1 <= rating <= 5 ==> Valid()
      ensures IsViewingAlbumLogged() == old(IsViewingAlbumLogged())
    {
      match item {
        case AlbumResult(a) =>
          if viewingAlbum.Some? {
            SetRatingKeepsId(myAlbums, AlbumId, a.id, rating, viewingAlbum.value.album.id);
          }
          if Unique(myAlbums, AlbumId) && RatingsInRange(myAlbums) && 1 <= rating <= 5 {
            SetRatingKeepsInvariant(myAlbums, AlbumId, a.id, rating);
          }
          myAlbums := SetRating(myAlbums, AlbumId, a.id, rating);
          if viewingAlbum.Some? && viewingAlbum.value.album.id == a.id {
            viewingAlbum := Some(viewingAlbum.value.(rating := Some(rating)));
          }
        case SongResult(s) =>
          if Unique(mySongs, SongId) && RatingsInRange(mySongs) && 1 <= rating <= 5 {
            SetRatingKeepsInvariant(mySongs, SongId, s.id, rating);
          }
          mySongs := SetRating(mySongs, SongId, s.id, rating);
      }
      CloseModal();
    }

    /** `handleMarkAllSongsAsListened`: the tracks whose id is not logged yet are
        appended, in tracklist order, each unrated and logged at `now`. */
    method MarkAllSongsAsListened(tracks: seq<Song>, now: int)
      modifies this
      ensures mySongs == AppendUnlogged(old(mySongs), SongId, tracks, now)
      ensures myAlbums == old(myAlbums) && viewingAlbum == old(viewingAlbum)
      ensures searchResults == old(searchResults)
      ensures selectedItem == old(selectedItem) && isModalOpen == old(isModalOpen)
      ensures old(Valid()) && Distinct(tracks, SongId) ==> Valid()
    {
      var newSongs := Stamp(Unlogged(mySongs, SongId, tracks), now);
      if Unique(mySongs, SongId) && Distinct(tracks, SongId) {
        AppendKeepsUnique(mySongs, SongId, tracks, now);
      }
      if |newSongs| > 0 {
        mySongs := mySongs + newSongs;
      } else {
        assert mySongs + newSongs == mySongs;
      }
    }

    /** `handleViewAlbum`. */
    method ViewAlbum(album: ViewedAlbum)
      modifies this
      ensures viewingAlbum == Some(album)
      ensures searchResults == old(searchResults) && myAlbums == old(myAlbums) && mySongs == old(mySongs)
      ensures selectedItem == old(selectedItem) && isModalOpen == old(isModalOpen)
    {
      viewingAlbum := Some(album);
    }

    /** `handleCloseAlbumView`. */
    method CloseAlbumView()
      modifies this
      ensures viewingAlbum.None?
      ensures searchResults == old(searchResults) && myAlbums == old(myAlbums) && mySongs == old(mySongs)
      ensures selectedItem == old(selectedItem) && isModalOpen == old(isModalOpen)
    {
      viewingAlbum := None;
    }

    /** `isViewingAlbumLogged`: some library album has the viewed album's id. */
    function IsViewingAlbumLogged(): (r: bool)
      reads this
      ensures r <==> (viewingAlbum.Some? &&
        exists i :: 0 <= i < |myAlbums| && myAlbums[i].item.id == viewingAlbum.value.album.id)
    {
      viewingAlbum.Some? && HasId(myAlbums, AlbumId, viewingAlbum.value.album.id)
    }

    /** The `existingRating` handed to the modal: the rating of the first entry
        with the selected item's id in the collection its tag selects. */
    function ExistingRating(): (r: Option<int>)
      reads this
      ensures selectedItem.None? ==> r.None?
      ensures selectedItem.Some? && selectedItem.value.AlbumResult? && !HasId(myAlbums, AlbumId, selectedItem.value.Id()) ==> r.None?
      ensures selectedItem.Some? && selectedItem.value.SongResult? && !HasId(mySongs, SongId, selectedItem.value.Id()) ==> r.None?
      ensures selectedItem.Some? && selectedItem.value.AlbumResult? && HasId(myAlbums, AlbumId, selectedItem.value.Id()) ==>
        exists i :: FirstWithId(myAlbums, AlbumId, selectedItem.value.Id(), i) && r == myAlbums[i].rating
      ensures selectedItem.Some? && selectedItem.value.SongResult? && HasId(mySongs, SongId, selectedItem.value.Id()) ==>
        exists i :: FirstWithId(mySongs, SongId, selectedItem.value.Id(), i) && r == mySongs[i].rating
      ensures Valid() ==> r.None? || 1 <= r.value <= 5
    {
      match selectedItem
      case None => None
      case Some(AlbumResult(a)) => RatingOf(myAlbums, AlbumId, a.id)
      case Some(SongResult(s)) => RatingOf(mySongs, SongId, s.id)
    }
  }
}
