/**
 * The rating form: its submit guard (`submitDisabled`), the text and score it
 * holds, the POST it sends, and what a successful post does (query
 * invalidations and closing the form through `onCancel`).
 */
module RatingForm {
  import opened Domain

  /** The textarea's `maxLength`. */
  const MaxDescriptionLength: nat := 450

  /** The characters `String.prototype.trim` removes: JavaScript white space and line terminators. */
  predicate IsWhitespace(c: char)
  {
    var n := c as int;
    || 0x09 <= n <= 0x0D         // tab, line feed, vertical tab, form feed, carriage return
    || n == 0x20 || n == 0xA0    // space, no-break space
    || n == 0x1680
    || 0x2000 <= n <= 0x200A     // en quad .. hair space
    || n == 0x2028 || n == 0x2029 // line and paragraph separators
    || n == 0x202F || n == 0x205F || n == 0x3000
    || n == 0xFEFF               // byte order mark
  }

  predicate AllWhitespace(s: string)
  {
    forall k :: 0 <= k < |s| ==> IsWhitespace(s[k])
  }

  /** The number of white-space characters `s` starts with. */
  function LeadingWhitespace(s: string): (n: nat)
    ensures n <= |s| && AllWhitespace(s[..n])
    ensures n < |s| ==> !IsWhitespace(s[n])
  {
    if s != [] && IsWhitespace(s[0]) then
      var m := LeadingWhitespace(s[1..]);
      m + 1
    else 0
  }

  /** The number of white-space characters `s` ends with. */
  function TrailingWhitespace(s: string): (n: nat)
    ensures n <= |s| && AllWhitespace(s[|s| - n..])
    ensures n < |s| ==> !IsWhitespace(s[|s| - n - 1])
  {
    if s != [] && IsWhitespace(s[|s| - 1]) then
      var init := s[..|s| - 1];
      var m := TrailingWhitespace(init);
      assert s[|s| - (m + 1)..] == init[|init| - m..] + [s[|s| - 1]];
      m + 1
    else 0
  }

  /** `String.prototype.trim`: a slice of the text with no white space at either end. */
  function Trim(s: string): (r: string)
    ensures exists i, j :: 0 <= i <= j <= |s| && r == s[i..j] && AllWhitespace(s[..i]) && AllWhitespace(s[j..])
    ensures r == [] <==> AllWhitespace(s)
    ensures r != [] ==> !IsWhitespace(r[0]) && !IsWhitespace(r[|r| - 1])
  {
    var i := LeadingWhitespace(s);
    if i == |s| then
      assert s[..i] == s && s[0..0] == [] && s[0..] == s;
      []
    else
      var t := s[i..];
      var n := TrailingWhitespace(t);
      assert !AllWhitespace(s) by {
        assert !IsWhitespace(s[i]);
      }
      assert t[..|t| - n] == s[i..|s| - n];
      assert t[|t| - n..] == s[|s| - n..];
      t[..|t| - n]
  }

  /**
   * `submitDisabled = !description.trim() || !currentRate`: submission is
   * blocked exactly when the text is blank or no score was chosen.
   */
  predicate SubmitDisabled(description: string, currentRate: real): (disabled: bool)
    ensures disabled <==> AllWhitespace(description) || currentRate == 0.0
  {
    Trim(description) == [] || currentRate == 0.0
  }

  /** The form's initial state cannot be submitted. */
  lemma InitiallyDisabled()
    ensures SubmitDisabled("", 0.0)
  {
  }

  /** A request the form sends: path and JSON body. */
  datatype RatePost = RatePost(path: string, description: string, rate: real)

  /** `/books/${bookId}/rate`. */
  function RatePath(bookId: BookId): (p: string)
    ensures |p| == |bookId| + 12
    ensures p[..7] == "/books/" && p[|p| - 5..] == "/rate" && p[7..|p| - 5] == bookId
  {
    "/books/" + bookId + "/rate"
  }

  /** A React Query key. */
  type QueryKey = seq<string>

  /** The textarea never holds more than `maxLength` characters. */
  function CapDescription(text: string): (r: string)
    ensures |r| == if |text| <= MaxDescriptionLength then |text| else MaxDescriptionLength
    ensures r == text[..|r|]
    ensures |text| <= MaxDescriptionLength ==> r == text
  {
    if |text| <= MaxDescriptionLength then text else text[..MaxDescriptionLength]
  }

  class RatingFormState {
    const bookId: BookId
    var description: string
    var currentRate: real
    /** The posts sent, oldest first. */
    var posts: seq<RatePost>
    /** The query keys invalidated, in order. */
    var invalidated: seq<QueryKey>
    /** How many times `onCancel` was called. */
    var cancelCalls: nat

    ghost predicate Valid()
      reads this
    {
      |description| <= MaxDescriptionLength
    }

    constructor (bookId: BookId)
      ensures Valid()
      ensures this.bookId == bookId && description == "" && currentRate == 0.0
      ensures posts == [] && invalidated == [] && cancelCalls == 0
      ensures SubmitDisabled(description, currentRate)
    {
      this.bookId := bookId;
      description, currentRate := "", 0.0;
      posts, invalidated, cancelCalls := [], [], 0;
      InitiallyDisabled();
    }

    /** The textarea's `onChange`. */
    method ChangeDescription(text: string)
      modifies this
      ensures Valid()
      ensures description == CapDescription(text)
      ensures currentRate == old(currentRate) && posts == old(posts)
      ensures invalidated == old(invalidated) && cancelCalls == old(cancelCalls)
    {
      description := CapDescription(text);
    }

    /** `setCurrentRate`, the stars' `setRating`. */
    method SetCurrentRate(rate: real)
      modifies this
      ensures currentRate == rate && description == old(description) && posts == old(posts)
      ensures invalidated == old(invalidated) && cancelCalls == old(cancelCalls)
    {
      currentRate := rate;
    }

    /**
     * `handleSubmit`: nothing happens while submission is disabled; otherwise
     * the rating is posted and, when the post succeeds, `['book', bookId]` and
     * `['books']` are invalidated and `onCancel` is called.
     */
    method HandleSubmit(postSucceeds: bool) returns (posted: bool)
      requires Valid()
      modifies this
      ensures Valid()
      ensures posted <==> !SubmitDisabled(old(description), old(currentRate))
      ensures description == old(description) && currentRate == old(currentRate)
      ensures posts == old(posts) + (if posted then [RatePost(RatePath(bookId), description, currentRate)] else [])
      ensures invalidated == old(invalidated) + (if posted && postSucceeds then [["book", bookId], ["books"]] else [])
      ensures cancelCalls == old(cancelCalls) + (if posted && postSucceeds then 1 else 0)
    {
      if SubmitDisabled(description, currentRate) {
        return false;
      }
      posted := true;
      posts := posts + [RatePost(RatePath(bookId), description, currentRate)];
      if postSucceeds {
        invalidated := invalidated + [["book", bookId], ["books"]];
        cancelCalls := cancelCalls + 1;
      }
    }
  }
}
