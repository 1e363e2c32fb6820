/** The rating modal: its `rating` state cell, the reset on open, the star
    clicks, and the save gate that never forwards a rating of 0. */
module RatingModal {
  import opened Types

  /** The start value of the stars: the existing rating when it is non-zero, else 0. */
  function InitialRating(existingRating: Option<int>): (r: int)
    ensures existingRating.Some? && existingRating.value != 0 ==> r == existingRating.value
    ensures existingRating.None? || existingRating.value == 0 ==> r == 0
  {
    match existingRating
    case Some(x) => if x != 0 then x else 0
    case None => 0
  }

  /** The button caption: "Update Rating" when an existing rating is truthy. */
  function Label(existingRating: Option<int>): (s: string)
    ensures s == "Update Rating" <==> existingRating.Some? && existingRating.value != 0
    ensures s == "Save Rating" <==> !(existingRating.Some? && existingRating.value != 0)
  {
    if existingRating.Some? && existingRating.value != 0 then "Update Rating" else "Save Rating"
  }

  /** A rating the stars can show: absent, or in 0..5. */
  predicate StarValue(existingRating: Option<int>) {
    existingRating.None? || 0 <= existingRating.value <= 5
  }

  /** What a save hands to the owner. */
  datatype SaveRequest = SaveRequest(item: SearchResult, rating: int)

  class Modal {
    var item: SearchResult
    var isOpen: bool
    var existingRating: Option<int>
    var rating: int

    /** The stars show 0 (none chosen) up to 5. */
    predicate Valid()
      reads this
    {
      0 <= rating <= 5
    }

    /** The first render with its props. */
    constructor (item: SearchResult, isOpen: bool, existingRating: Option<int>)
      ensures this.item == item && this.isOpen == isOpen && this.existingRating == existingRating
      ensures rating == InitialRating(existingRating)
      ensures StarValue(existingRating) ==> Valid()
    {
      this.item := item;
      this.isOpen := isOpen;
      this.existingRating := existingRating;
      rating := InitialRating(existingRating);
    }

    /** New props. The effect runs when one of `isOpen`, `item` and
        `existingRating` changed, and resets the stars when the modal is open. */
    method Props(newItem: SearchResult, newIsOpen: bool, newExisting: Option<int>)
      modifies this
      ensures item == newItem && isOpen == newIsOpen && existingRating == newExisting
      ensures rating ==
        (if newIsOpen && (newItem != old(item) || !old(isOpen) || newExisting != old(existingRating))
         then InitialRating(newExisting)
         else old(rating))
      ensures old(Valid()) && StarValue(newExisting) ==> Valid()
    {
      var changed := newItem != item || newIsOpen != isOpen || newExisting != existingRating;
      item := newItem;
      isOpen := newIsOpen;
      existingRating := newExisting;
      if changed && newIsOpen {
        rating := InitialRating(newExisting);
      }
    }

    /** A star click. The stars offer 1..5. */
    method SetRating(star: int)
      requires 1 <= star <= 5
      modifies this
      ensures rating == star
      ensures Valid()
      ensures item == old(item) && isOpen == old(isOpen) && existingRating == old(existingRating)
    {
      rating := star;
    }

    /** The save button is disabled exactly when no star is chosen. */
    function SaveDisabled(): (r: bool)
      reads this
      ensures r <==> rating == 0
    {
      rating == 0
    }

    /** `handleSave`: forwards the item and the rating only when the rating is
        positive; there is no upper bound. */
    method Save() returns (request: Option<SaveRequest>)
      ensures request.Some? <==> rating > 0
      ensures request.Some? ==> request.value == SaveRequest(item, rating)
      ensures Valid() ==> (request.Some? <==> !SaveDisabled())
    {
      if rating > 0 {
        request := Some(SaveRequest(item, rating));
      } else {
        request := None;
      }
    }
  }

  /** A reset from an existing rating in 1..5 re-opens on that rating, which the
      gate lets through; an absent rating re-opens on 0, which it blocks. */
  lemma ReopenGate(existingRating: Option<int>)
    requires existingRating.None? || 1 <= existingRating.value <= 5
    ensures InitialRating(existingRating) > 0 <==> existingRating.Some?
    ensures Label(existingRating) == "Update Rating" <==> existingRating.Some?
  {
  }
}
