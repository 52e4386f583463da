/**
 * The five-star widget: which stars are filled for a value, and, when the
 * widget is editable (a `setRating` callback is given), the hover preview and
 * the click that commits it.
 */
module RatingStars {

  /** `Array.from({ length: 5 })`. */
  const StarCount: nat := 5

  /**
   * The fill of each star: star `i` is filled when `i + 1 <= value`. There are
   * always five stars, and the filled ones come first.
   */
  function StarFills(value: real): (fills: seq<bool>)
    ensures |fills| == StarCount
    ensures forall i :: 0 <= i < StarCount ==> (fills[i] <==> i + 1 <= value.Floor)
    ensures forall i, j :: 0 <= i < j < StarCount && fills[j] ==> fills[i]
  {
    seq(StarCount, i requires 0 <= i < StarCount => (i + 1) as real <= value)
  }

  function CountFilled(fills: seq<bool>): nat
  {
    if fills == [] then 0 else (if fills[0] then 1 else 0) + CountFilled(fills[1..])
  }

  function Clamp(n: int, lo: int, hi: int): int
  {
    if n < lo then lo else if n > hi then hi else n
  }

  /** A sequence whose first `n` entries are set and the rest clear has `n` set entries. */
  lemma {:induction false} CountFilledPrefix(fills: seq<bool>, n: nat)
    requires n <= |fills|
    requires forall i :: 0 <= i < |fills| ==> (fills[i] <==> i < n)
    ensures CountFilled(fills) == n
  {
    if fills != [] {
      CountFilledPrefix(fills[1..], if n > 0 then n - 1 else 0);
    }
  }

  /** There are as many filled stars as the whole part of the value, kept within 0..5. */
  lemma FilledStarCount(value: real)
    ensures CountFilled(StarFills(value)) == Clamp(value.Floor, 0, StarCount)
  {
    var fills := StarFills(value);
    var n := Clamp(value.Floor, 0, StarCount);
    forall i | 0 <= i < StarCount ensures fills[i] <==> i < n {
      assert (i + 1) as real <= value <==> i + 1 <= value.Floor;
    }
    CountFilledPrefix(fills, n);
  }

  class StarWidget {
    /** The `rating` prop. */
    var rating: real
    /** `isEditable`: a `setRating` callback was passed. */
    const editable: bool
    var previewValue: real
    /** The values handed to `setRating`, oldest first. */
    var committed: seq<real>

    constructor (rating: real, editable: bool)
      ensures this.rating == rating && this.editable == editable
      ensures previewValue == 0.0 && committed == []
    {
      this.rating := rating;
      this.editable := editable;
      previewValue := 0.0;
      committed := [];
    }

    /** `ratingValue`: the preview when editable, the prop otherwise. */
    function RatingValue(): (value: real)
      reads this
      ensures editable ==> value == previewValue
      ensures !editable ==> value == rating
    {
      if editable then previewValue else rating
    }

    function Fills(): seq<bool>
      reads this
    {
      StarFills(RatingValue())
    }

    /** `handleMouseEnter(index + 1)` for the star at `index`. */
    method MouseEnter(index: nat)
      requires index < StarCount
      modifies this
      ensures editable ==> previewValue == (index + 1) as real && CountFilled(Fills()) == index + 1
      ensures editable ==> rating == old(rating) && committed == old(committed)
      ensures !editable ==> unchanged(this)
    {
      if editable {
        previewValue := (index + 1) as real;
        FilledStarCount(previewValue);
      }
    }

    /** `handleMouseLeave`: the preview falls back to the prop. */
    method MouseLeave()
      modifies this
      ensures editable ==> previewValue == rating && rating == old(rating) && committed == old(committed)
      ensures !editable ==> unchanged(this)
    {
      if editable {
        previewValue := rating;
      }
    }

    /** `handleSetValue`: hands the displayed value to `setRating`. */
    method SetValue()
      modifies this
      ensures editable ==> committed == old(committed) + [old(RatingValue())]
      ensures editable ==> rating == old(rating) && previewValue == old(previewValue)
      ensures !editable ==> unchanged(this)
    {
      if editable {
        committed := committed + [RatingValue()];
      }
    }

    /** The parent renders the widget again with a new `rating` prop; the preview state is kept. */
    method ReceiveRating(rating: real)
      modifies this
      ensures this.rating == rating && previewValue == old(previewValue) && committed == old(committed)
    {
      this.rating := rating;
    }
  }
}
