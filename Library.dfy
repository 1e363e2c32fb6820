/** The list operations behind the library handlers of App.tsx: id-keyed
    insert-if-absent, update of the rating by id, and the batch append of
    "mark all". Entries are `Rated<T>`; `idOf` reads the catalog id of `T`. */
module Library {
  import opened Types
  import opened Builtins

  /** Some entry carries the id. */
  predicate HasId<T>(entries: seq<Rated<T>>, idOf: T -> string, id: string) {
    exists i :: 0 <= i < |entries| && idOf(entries[i].item) == id
  }

  /** No two entries share an id. */
  predicate Unique<T>(entries: seq<Rated<T>>, idOf: T -> string) {
    forall i, j :: 0 <= i < j < |entries| ==> idOf(entries[i].item) != idOf(entries[j].item)
  }

  /** No two catalog records share an id. */
  predicate Distinct<T>(items: seq<T>, idOf: T -> string) {
    forall i, j :: 0 <= i < j < |items| ==> idOf(items[i]) != idOf(items[j])
  }

  /** Every rating present lies in 1..5. */
  predicate RatingsInRange<T>(entries: seq<Rated<T>>) {
    forall i :: 0 <= i < |entries| && entries[i].rating.Some? ==> 1 <= entries[i].rating.value <= 5
  }

  // ---------------------------------------------------------------------------
  // Insert if absent (handleMarkAsListened)

  /** Appends `e` unless an entry with its id is already present. */
  function InsertIfAbsent<T>(entries: seq<Rated<T>>, idOf: T -> string, e: Rated<T>): (r: seq<Rated<T>>)
    ensures HasId(r, idOf, idOf(e.item))
    ensures HasId(entries, idOf, idOf(e.item)) <==> r == entries
    ensures !HasId(entries, idOf, idOf(e.item)) <==> |r| == |entries| + 1
    ensures !HasId(entries, idOf, idOf(e.item)) ==> r == entries + [e]
    ensures r[..|entries|] == entries
  {
    if HasId(entries, idOf, idOf(e.item)) then entries
    else
      assert (entries + [e])[|entries|] == e;
      entries + [e]
  }

  /** Inserting keeps the ids pairwise distinct. */
  lemma InsertKeepsUnique<T>(entries: seq<Rated<T>>, idOf: T -> string, e: Rated<T>)
    requires Unique(entries, idOf)
    ensures Unique(InsertIfAbsent(entries, idOf, e), idOf)
  {
    var r := InsertIfAbsent(entries, idOf, e);
    if !HasId(entries, idOf, idOf(e.item)) {
      forall i, j | 0 <= i < j < |r| ensures idOf(r[i].item) != idOf(r[j].item) {
        if j == |entries| {
          assert r[i] == entries[i];
        } else {
          assert r[i] == entries[i] && r[j] == entries[j];
        }
      }
    }
  }

  /** Inserting the same entry twice is inserting it once; the second call keeps
      the first entry, with its `listenedDate`, even with a later timestamp. */
  lemma InsertIdempotent<T>(entries: seq<Rated<T>>, idOf: T -> string, e: Rated<T>, later: Rated<T>)
    requires idOf(later.item) == idOf(e.item)
    ensures InsertIfAbsent(InsertIfAbsent(entries, idOf, e), idOf, later) == InsertIfAbsent(entries, idOf, e)
  {
  }

  // ---------------------------------------------------------------------------
  // Update the rating by id (handleSaveRating)

  /** Every entry with the id gets the rating; the others are copied as they are. */
  function SetRating<T>(entries: seq<Rated<T>>, idOf: T -> string, id: string, rating: int): (r: seq<Rated<T>>)
    ensures |r| == |entries|
    ensures forall i :: 0 <= i < |r| && idOf(entries[i].item) == id ==> r[i] == entries[i].(rating := Some(rating))
    ensures forall i :: 0 <= i < |r| && idOf(entries[i].item) != id ==> r[i] == entries[i]
  {
    if entries == [] then []
    else
      var e := entries[0];
      [if idOf(e.item) == id then e.(rating := Some(rating)) else e] + SetRating(entries[1..], idOf, id, rating)
  }

  /** A rating update keeps every catalog record and every `listenedDate`, so the
      ids, their order and their uniqueness are unchanged. */
  lemma SetRatingKeepsRecords<T>(entries: seq<Rated<T>>, idOf: T -> string, id: string, rating: int)
    ensures var r := SetRating(entries, idOf, id, rating);
      forall i :: 0 <= i < |r| ==> r[i].item == entries[i].item && r[i].listenedDate == entries[i].listenedDate
    ensures Unique(entries, idOf) ==> Unique(SetRating(entries, idOf, id, rating), idOf)
    ensures forall x :: HasId(SetRating(entries, idOf, id, rating), idOf, x) <==> HasId(entries, idOf, x)
  {
    var r := SetRating(entries, idOf, id, rating);
    forall i | 0 <= i < |r| ensures r[i].item == entries[i].item {
    }
    forall x ensures HasId(r, idOf, x) <==> HasId(entries, idOf, x) {
      if HasId(r, idOf, x) {
        var i :| 0 <= i < |r| && idOf(r[i].item) == x;
        assert idOf(entries[i].item) == x;
      }
      if HasId(entries, idOf, x) {
        var i :| 0 <= i < |entries| && idOf(entries[i].item) == x;
        assert idOf(r[i].item) == x;
      }
    }
  }

  /** Rating keeps the set of logged ids. */
  lemma SetRatingKeepsId<T>(entries: seq<Rated<T>>, idOf: T -> string, id: string, rating: int, x: string)
    ensures HasId(SetRating(entries, idOf, id, rating), idOf, x) <==> HasId(entries, idOf, x)
  {
    SetRatingKeepsRecords(entries, idOf, id, rating);
  }

  /** An id that is not in the list leaves the list as it was. */
  lemma SetRatingAbsent<T>(entries: seq<Rated<T>>, idOf: T -> string, id: string, rating: int)
    requires !HasId(entries, idOf, id)
    ensures SetRating(entries, idOf, id, rating) == entries
  {
    var r := SetRating(entries, idOf, id, rating);
    forall i | 0 <= i < |r| ensures r[i] == entries[i] {
      assert idOf(entries[i].item) != id;
    }
  }

  /** The rating of the first entry with the id, absent when there is none. */
  function RatingOf<T>(entries: seq<Rated<T>>, idOf: T -> string, id: string): (r: Option<int>)
    ensures !HasId(entries, idOf, id) ==> r.None?
    ensures HasId(entries, idOf, id) ==> exists i :: FirstWithId(entries, idOf, id, i) && r == entries[i].rating
  {
    if entries == [] then None
    else if idOf(entries[0].item) == id then
      assert FirstWithId(entries, idOf, id, 0);
      entries[0].rating
    else
      var rest := entries[1..];
      var r := RatingOf(rest, idOf, id);
      assert HasId(entries, idOf, id) ==> HasId(rest, idOf, id) by {
        if HasId(entries, idOf, id) {
          var i :| 0 <= i < |entries| && idOf(entries[i].item) == id;
          assert rest[i - 1] == entries[i];
        }
      }
      assert HasId(rest, idOf, id) ==> exists i :: FirstWithId(entries, idOf, id, i) && r == entries[i].rating by {
        if HasId(rest, idOf, id) {
          var i :| FirstWithId(rest, idOf, id, i) && r == rest[i].rating;
          ShiftFirst(entries, idOf, id, i);
        }
      }
      r
  }

  /** Index `i` holds the first entry of `entries` with id `id`. */
  predicate FirstWithId<T>(entries: seq<Rated<T>>, idOf: T -> string, id: string, i: int) {
    && 0 <= i < |entries| && idOf(entries[i].item) == id
    && forall j :: 0 <= j < i ==> idOf(entries[j].item) != id
  }

  lemma ShiftFirst<T>(entries: seq<Rated<T>>, idOf: T -> string, id: string, i: int)
    requires entries != [] && idOf(entries[0].item) != id && FirstWithId(entries[1..], idOf, id, i)
    ensures FirstWithId(entries, idOf, id, i + 1) && entries[i + 1] == entries[1..][i]
  {
    forall j | 1 <= j < i + 1 ensures idOf(entries[j].item) != id {
      assert entries[j] == entries[1..][j - 1];
    }
  }

  /** A rating in 1..5 keeps a library's invariant: unique ids, ratings in 1..5. */
  lemma SetRatingKeepsInvariant<T>(entries: seq<Rated<T>>, idOf: T -> string, id: string, rating: int)
    requires Unique(entries, idOf) && RatingsInRange(entries) && 1 <= rating <= 5
    ensures Unique(SetRating(entries, idOf, id, rating), idOf)
    ensures RatingsInRange(SetRating(entries, idOf, id, rating))
  {
    SetRatingKeepsRecords(entries, idOf, id, rating);
    SetRatingInRange(entries, idOf, id, rating);
  }

  /** After a rating update the entry with that id reports the new rating. */
  lemma {:induction false} RatingAfterSet<T>(entries: seq<Rated<T>>, idOf: T -> string, id: string, rating: int)
    requires HasId(entries, idOf, id)
    ensures RatingOf(SetRating(entries, idOf, id, rating), idOf, id) == Some(rating)
  {
    var r := SetRating(entries, idOf, id, rating);
    if idOf(entries[0].item) != id {
      assert r[1..] == SetRating(entries[1..], idOf, id, rating);
      var i :| 0 <= i < |entries| && idOf(entries[i].item) == id;
      assert entries[1..][i - 1] == entries[i];
      RatingAfterSet(entries[1..], idOf, id, rating);
    }
  }

  /** A rating in 1..5 keeps every rating of the list in 1..5. */
  lemma SetRatingInRange<T>(entries: seq<Rated<T>>, idOf: T -> string, id: string, rating: int)
    requires RatingsInRange(entries) && 1 <= rating <= 5
    ensures RatingsInRange(SetRating(entries, idOf, id, rating))
  {
  }

  /** Logging a new item and then rating it leaves the earlier entries as they
      were and gives the new one the rating, keeping the time it was logged. */
  lemma LogThenRate<T>(entries: seq<Rated<T>>, idOf: T -> string, e: Rated<T>, rating: int)
    requires !HasId(entries, idOf, idOf(e.item))
    ensures var r := SetRating(InsertIfAbsent(entries, idOf, e), idOf, idOf(e.item), rating);
      |r| == |entries| + 1 && r[..|entries|] == entries &&
      r[|entries|] == e.(rating := Some(rating)) && r[|entries|].listenedDate == e.listenedDate
  {
    var logged := InsertIfAbsent(entries, idOf, e);
    var r := SetRating(logged, idOf, idOf(e.item), rating);
    assert logged == entries + [e];
    forall i | 0 <= i < |entries| ensures r[i] == entries[i] {
      assert logged[i] == entries[i];
    }
  }

  // ---------------------------------------------------------------------------
  // Batch append (handleMarkAllSongsAsListened)

  /** The items whose id is not in `entries`, in their order. */
  function Unlogged<T>(entries: seq<Rated<T>>, idOf: T -> string, items: seq<T>): (r: seq<T>)
    ensures |r| <= |items|
    ensures forall i :: 0 <= i < |r| ==> r[i] in items && !HasId(entries, idOf, idOf(r[i]))
    ensures forall i :: 0 <= i < |items| && !HasId(entries, idOf, idOf(items[i])) ==> items[i] in r
  {
    Filter(items, (t: T) => !HasId(entries, idOf, idOf(t)))
  }

  /** Each item becomes a fresh entry, unrated, logged at `now`. */
  function Stamp<T>(items: seq<T>, now: int): (r: seq<Rated<T>>)
    ensures |r| == |items|
    ensures forall i :: 0 <= i < |r| ==> r[i] == Rated(items[i], None, now)
  {
    if items == [] then [] else [Rated(items[0], None, now)] + Stamp(items[1..], now)
  }

  /** The library followed by a fresh entry for each item whose id it does not hold yet. */
  function AppendUnlogged<T>(entries: seq<Rated<T>>, idOf: T -> string, items: seq<T>, now: int): (r: seq<Rated<T>>)
    ensures |r| == |entries| + |Unlogged(entries, idOf, items)|
    ensures r[..|entries|] == entries
    ensures r[|entries|..] == Stamp(Unlogged(entries, idOf, items), now)
  {
    var added := Stamp(Unlogged(entries, idOf, items), now);
    assert (entries + added)[..|entries|] == entries;
    assert (entries + added)[|entries|..] == added;
    entries + added
  }

  /** If every item is already logged, "mark all" changes nothing. */
  lemma AllLoggedNoop<T>(entries: seq<Rated<T>>, idOf: T -> string, items: seq<T>, now: int)
    requires forall i :: 0 <= i < |items| ==> HasId(entries, idOf, idOf(items[i]))
    ensures AppendUnlogged(entries, idOf, items, now) == entries
  {
    FilterKeepsNone(items, (t: T) => !HasId(entries, idOf, idOf(t)));
    assert entries + [] == entries;
  }

  /** After "mark all" every item's id is in the library. */
  lemma AppendLogsAll<T>(entries: seq<Rated<T>>, idOf: T -> string, items: seq<T>, now: int)
    ensures forall i :: 0 <= i < |items| ==> HasId(AppendUnlogged(entries, idOf, items, now), idOf, idOf(items[i]))
  {
    var r := AppendUnlogged(entries, idOf, items, now);
    var u := Unlogged(entries, idOf, items);
    forall i | 0 <= i < |items| ensures HasId(r, idOf, idOf(items[i])) {
      if HasId(entries, idOf, idOf(items[i])) {
        var k :| 0 <= k < |entries| && idOf(entries[k].item) == idOf(items[i]);
        assert r[k] == entries[k];
      } else {
        var k :| 0 <= k < |u| && u[k] == items[i];
        assert r[|entries| + k] == r[|entries|..][k];
      }
    }
  }

  /** The unlogged items of a list with distinct ids have distinct ids. */
  lemma {:induction false} UnloggedDistinct<T>(entries: seq<Rated<T>>, idOf: T -> string, items: seq<T>)
    requires Distinct(items, idOf)
    ensures Distinct(Unlogged(entries, idOf, items), idOf)
  {
    var p := (t: T) => !HasId(entries, idOf, idOf(t));
    if items != [] {
      UnloggedDistinct(entries, idOf, items[1..]);
      var rest := Filter(items[1..], p);
      assert Unlogged(entries, idOf, items) == (if p(items[0]) then [items[0]] else []) + rest;
      forall k | 0 <= k < |rest| ensures idOf(rest[k]) != idOf(items[0]) {
        var j :| 0 <= j < |items[1..]| && items[1..][j] == rest[k];
        assert items[j + 1] == rest[k];
      }
    }
  }

  /** "Mark all" keeps the library's ids distinct, PROVIDED the track list itself
      has distinct ids: only the library is consulted, not the batch. */
  lemma AppendKeepsUnique<T>(entries: seq<Rated<T>>, idOf: T -> string, items: seq<T>, now: int)
    requires Unique(entries, idOf) && Distinct(items, idOf)
    ensures Unique(AppendUnlogged(entries, idOf, items, now), idOf)
  {
    var r := AppendUnlogged(entries, idOf, items, now);
    var u := Unlogged(entries, idOf, items);
    UnloggedDistinct(entries, idOf, items);
    assert r == r[..|entries|] + r[|entries|..];
    forall i, j | 0 <= i < j < |r| ensures idOf(r[i].item) != idOf(r[j].item) {
      if j < |entries| {
        assert r[i] == entries[i] && r[j] == entries[j];
      } else if i < |entries| {
        assert r[i] == entries[i];
        assert r[j] == r[|entries|..][j - |entries|];
        assert !HasId(entries, idOf, idOf(u[j - |entries|]));
      } else {
        assert r[i] == r[|entries|..][i - |entries|];
        assert r[j] == r[|entries|..][j - |entries|];
      }
    }
  }

  /** Without distinct track ids the library can gain a duplicate: a track list
      that names the same unlogged song twice appends it twice. */
  lemma DuplicateTracksDuplicate(s: Song, now: int)
    ensures var r := AppendUnlogged([], SongId, [s, s], now);
      |r| == 2 && r[0].item.id == r[1].item.id && !Unique(r, SongId)
  {
    var u := Unlogged([], SongId, [s, s]);
    assert u == [s, s] by {
      FilterKeepsAll([s, s], (t: Song) => !HasId([], SongId, SongId(t)));
    }
    var r := AppendUnlogged([], SongId, [s, s], now);
    assert r == r[0..] == Stamp(u, now);
    assert r[0] == Rated(s, None, now) && r[1] == Rated(s, None, now);
  }
}
