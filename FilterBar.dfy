/** The filter bar: a filter record is a plain object whose values are strings
    or numbers, keyed by field name. The handlers build a new record by spread
    and hand it to the owner; here they return it. */
module FilterBar {
  import opened Types

  datatype FilterValue = Str(s: string) | Num(n: int)

  type Filters = map<string, FilterValue>

  /** The star values the bar offers. */
  const Stars: seq<int> := [1, 2, 3, 4, 5]

  /** `handleInputChange`: the field named by the input takes the typed text. */
  function InputChange(filters: Filters, name: string, value: string): (r: Filters)
    ensures name in r && r[name] == Str(value)
    ensures r.Keys == filters.Keys + {name}
    ensures forall k :: k in filters && k != name ==> r[k] == filters[k]
  {
    filters[name := Str(value)]
  }

  /** The rating the bar reads: the `rating` field when present, else 0. */
  function CurrentRating(filters: Filters): FilterValue {
    if "rating" in filters then filters["rating"] else Num(0)
  }

  /** `handleRatingChange`: clicking the star that is already the filter
      clears it to 0; any other star becomes the filter. */
  function RatingToggle(filters: Filters, star: int): (r: Filters)
    ensures "rating" in r
    ensures r["rating"] == Num(0) || r["rating"] == Num(star)
    ensures r["rating"] == Num(0) <==> CurrentRating(filters) == Num(star) || star == 0
    ensures r.Keys == filters.Keys + {"rating"}
    ensures forall k :: k in filters && k != "rating" ==> r[k] == filters[k]
  {
    filters["rating" := Num(if CurrentRating(filters) == Num(star) then 0 else star)]
  }

  /** A value that counts as an active filter: a non-empty string or a positive number. */
  predicate Active(v: FilterValue) {
    match v
    case Str(s) => |s| > 0
    case Num(n) => n > 0
  }

  /** `hasActiveFilters`: some value of the record is active. */
  predicate HasActiveFilters(filters: Filters) {
    exists k :: k in filters && Active(filters[k])
  }

  /** Star `star` is drawn selected: the record has a rating equal to it. */
  predicate IsSelected(filters: Filters, star: int) {
    "rating" in filters && filters["rating"] == Num(star)
  }

  /** The selected stars among those offered. */
  function SelectedStars(filters: Filters): (r: seq<int>)
    ensures |r| <= 1
    ensures forall i :: 0 <= i < |r| ==> r[i] in Stars && IsSelected(filters, r[i])
    ensures forall i :: 0 <= i < |Stars| && IsSelected(filters, Stars[i]) ==> Stars[i] in r
  {
    if "rating" in filters && filters["rating"].Num? && 1 <= filters["rating"].n <= 5
    then [filters["rating"].n] else []
  }

  /** Clicking a star flips whether that star is selected. */
  lemma ToggleFlipsStar(filters: Filters, star: int)
    requires star != 0
    ensures IsSelected(RatingToggle(filters, star), star) <==> !IsSelected(filters, star)
  {
    if "rating" in filters {
      assert CurrentRating(filters) == filters["rating"];
    }
  }

  /** Clicking the same star twice restores a record whose rating was that star or 0. */
  lemma ToggleTwice(filters: Filters, star: int)
    requires "rating" in filters && (filters["rating"] == Num(0) || filters["rating"] == Num(star))
    ensures RatingToggle(RatingToggle(filters, star), star) == filters
  {
    var r := RatingToggle(RatingToggle(filters, star), star);
    assert r.Keys == filters.Keys;
    assert r["rating"] == filters["rating"];
  }

  // ---------------------------------------------------------------------------
  // The App's filter records, seen as the objects the bar works on.

  function AlbumFiltersObject(f: AlbumFilters): Filters {
    map["artist" := Str(f.artist), "yearFrom" := Str(f.yearFrom), "yearTo" := Str(f.yearTo), "rating" := Num(f.rating)]
  }

  function SongFiltersObject(f: SongFilters): Filters {
    map["artist" := Str(f.artist), "album" := Str(f.album), "rating" := Num(f.rating)]
  }

  /** A library album filter is active exactly when a text field is non-empty
      or the rating is positive; the initial filters are not active. */
  lemma AlbumFiltersActive(f: AlbumFilters)
    ensures HasActiveFilters(AlbumFiltersObject(f)) <==>
      f.artist != "" || f.yearFrom != "" || f.yearTo != "" || f.rating > 0
    ensures !HasActiveFilters(AlbumFiltersObject(InitialAlbumFilters))
  {
    var m := AlbumFiltersObject(f);
    if f.artist != "" { assert Active(m["artist"]); }
    if f.yearFrom != "" { assert Active(m["yearFrom"]); }
    if f.yearTo != "" { assert Active(m["yearTo"]); }
    if f.rating > 0 { assert Active(m["rating"]); }
    var m0 := AlbumFiltersObject(InitialAlbumFilters);
    assert forall k :: k in m0 ==> !Active(m0[k]);
  }

  lemma SongFiltersActive(f: SongFilters)
    ensures HasActiveFilters(SongFiltersObject(f)) <==> f.artist != "" || f.album != "" || f.rating > 0
    ensures !HasActiveFilters(SongFiltersObject(InitialSongFilters))
  {
    var m := SongFiltersObject(f);
    if f.artist != "" { assert Active(m["artist"]); }
    if f.album != "" { assert Active(m["album"]); }
    if f.rating > 0 { assert Active(m["rating"]); }
    var m0 := SongFiltersObject(InitialSongFilters);
    assert forall k :: k in m0 ==> !Active(m0[k]);
  }

  /** On a library album filter the star click acts on the `rating` field alone. */
  lemma AlbumRatingToggle(f: AlbumFilters, star: int)
    ensures RatingToggle(AlbumFiltersObject(f), star) ==
      AlbumFiltersObject(f.(rating := if f.rating == star then 0 else star))
  {
  }

  /** Typing into the artist box changes the artist field alone. */
  lemma AlbumArtistInput(f: AlbumFilters, value: string)
    ensures InputChange(AlbumFiltersObject(f), "artist", value) == AlbumFiltersObject(f.(artist := value))
  {
  }
}
