/**
 * The explore page: search filtering of the listed books, newest-first
 * ordering of the selected book's ratings, the "can rate" rule, and the
 * drawer / rating form / login modal state the page's handlers update.
 */
module Explore {
  import opened Domain
  import opened BooksListing

  // ---------------------------------------------------------------------------
  // Search

  function LowerChar(c: char): char
  {
    if 'A' <= c <= 'Z' then (c as int + 32) as char else c
  }

  /** `toLowerCase`, on the ASCII letters. */
  function ToLower(s: string): (r: string)
    ensures |r| == |s|
    ensures forall i :: 0 <= i < |s| ==> r[i] == LowerChar(s[i])
    ensures forall i :: 0 <= i < |r| ==> !('A' <= r[i] <= 'Z')
  {
    seq(|s|, i requires 0 <= i < |s| => LowerChar(s[i]))
  }

  lemma ToLowerIdempotent(s: string)
    ensures ToLower(ToLower(s)) == ToLower(s)
  {
  }

  /** `t` occurs in `s` starting at index `i`. */
  predicate OccursAt(s: string, t: string, i: int)
  {
    0 <= i && i + |t| <= |s| && s[i..i + |t|] == t
  }

  /** `String.prototype.includes`: the first `|t|` characters match, or `t` occurs further on. */
  function Includes(s: string, t: string): (r: bool)
    ensures r <==> exists i :: OccursAt(s, t, i)
    decreases |s|
  {
    if |t| > |s| then false
    else if s[..|t|] == t then
      assert OccursAt(s, t, 0);
      true
    else
      var r := Includes(s[1..], t);
      assert forall i :: OccursAt(s[1..], t, i) <==> OccursAt(s, t, i + 1);
      assert !OccursAt(s, t, 0);
      assert (exists i :: OccursAt(s, t, i)) ==> exists i :: OccursAt(s[1..], t, i) by {
        if exists i :: OccursAt(s, t, i) {
          var i :| OccursAt(s, t, i);
          assert OccursAt(s[1..], t, i - 1);
        }
      }
      r
  }

  /** The search predicate of `filteredBooks`: lowercased name or author contains the lowercased search. */
  predicate MatchesSearch(book: BookSummary, search: string): (r: bool)
    ensures r <==> ((exists i :: OccursAt(ToLower(book.info.name), ToLower(search), i)) ||
                    (exists i :: OccursAt(ToLower(book.info.author), ToLower(search), i)))
  {
    Includes(ToLower(book.info.name), ToLower(search)) || Includes(ToLower(book.info.author), ToLower(search))
  }

  /** `filteredBooks`: the books matching the search, in their listed order. */
  function FilterBooks(books: seq<BookSummary>, search: string): (r: seq<BookSummary>)
    ensures forall k :: 0 <= k < |r| ==> MatchesSearch(r[k], search)
    ensures forall k :: 0 <= k < |books| && MatchesSearch(books[k], search) ==> books[k] in r
    ensures forall b :: multiset(r)[b] == if MatchesSearch(b, search) then multiset(books)[b] else 0
    ensures IsSubsequence(r, books)
  {
    Filter(books, (b: BookSummary) => MatchesSearch(b, search))
  }

  /** An empty search keeps every book. */
  lemma EmptySearchKeepsAll(books: seq<BookSummary>)
    ensures FilterBooks(books, "") == books
  {
    forall k | 0 <= k < |books| ensures MatchesSearch(books[k], "") {
      assert OccursAt(ToLower(books[k].info.name), "", 0);
    }
    FilterKeepsAll(books, (b: BookSummary) => MatchesSearch(b, ""));
  }

  /** The search ignores the case of the search string. */
  lemma {:induction false} SearchIgnoresCase(books: seq<BookSummary>, search: string)
    ensures FilterBooks(books, ToLower(search)) == FilterBooks(books, search)
  {
    if books != [] {
      ToLowerIdempotent(search);
      SearchIgnoresCase(books[1..], search);
    }
  }

  // ---------------------------------------------------------------------------
  // Ratings newest first

  predicate NewestFirst(s: seq<Rating>)
  {
    forall i, j :: 0 <= i < j < |s| ==> s[i].createdAt >= s[j].createdAt
  }

  /**
   * `ratings.sort((a, b) => b.createdAt - a.createdAt)`, in place: an insertion
   * sort that moves each newer rating left past the older ones.
   */
  method SortNewestFirst(a: array<Rating>)
    modifies a
    ensures NewestFirst(a[..])
    ensures multiset(a[..]) == multiset(old(a[..]))
  {
    var i := 0;
    while i < a.Length
      invariant 0 <= i <= a.Length
      invariant NewestFirst(a[..i])
      invariant multiset(a[..]) == multiset(old(a[..]))
    {
      SiftLeft(a, i);
      i := i + 1;
    }
    assert a[..] == a[..a.Length];
  }

  /**
   * While `s[j]` travels left from position `i`: the other entries of
   * `s[..i + 1]` are newest first, and `s[j]` is newer than everything it
   * has passed.
   */
  predicate Sifting(s: seq<Rating>, i: nat, j: nat)
    requires j <= i < |s|
  {
    && (forall p, q :: 0 <= p < q <= i && p != j && q != j ==> s[p].createdAt >= s[q].createdAt)
    && (forall q :: j < q <= i ==> s[j].createdAt > s[q].createdAt)
  }

  lemma SiftingStarts(s: seq<Rating>, i: nat)
    requires i < |s| && NewestFirst(s[..i])
    ensures Sifting(s, i, i)
  {
    forall p, q | 0 <= p < q <= i && p != i && q != i ensures s[p].createdAt >= s[q].createdAt {
      assert s[p] == s[..i][p] && s[q] == s[..i][q];
    }
  }

  lemma SiftingSteps(s: seq<Rating>, i: nat, j: nat)
    requires 0 < j <= i < |s| && Sifting(s, i, j)
    requires s[j - 1].createdAt < s[j].createdAt
    ensures Sifting(s[j - 1 := s[j]][j := s[j - 1]], i, j - 1)
  {
  }

  lemma SiftingEnds(s: seq<Rating>, i: nat, j: nat)
    requires j <= i < |s| && Sifting(s, i, j)
    requires j > 0 ==> s[j - 1].createdAt >= s[j].createdAt
    ensures NewestFirst(s[..i + 1])
  {
    forall p, q | 0 <= p < q <= i ensures s[p].createdAt >= s[q].createdAt {
      if q == j && p < j - 1 {
        assert s[p].createdAt >= s[j - 1].createdAt;
      }
    }
  }

  lemma SwapKeepsMultiset<T>(s: seq<T>, x: nat, y: nat)
    requires x < y < |s|
    ensures multiset(s[x := s[y]][y := s[x]]) == multiset(s)
  {
    var t := s[x := s[y]];
    assert multiset(t) == multiset(s) - multiset{s[x]} + multiset{s[y]};
    assert t[y] == s[y];
    assert multiset(t[y := s[x]]) == multiset(t) - multiset{s[y]} + multiset{s[x]};
  }

  /** Moves `a[i]` left past the strictly older ratings before it, extending the sorted prefix by one. */
  method SiftLeft(a: array<Rating>, i: nat)
    requires i < a.Length
    requires NewestFirst(a[..i])
    modifies a
    ensures NewestFirst(a[..i + 1])
    ensures multiset(a[..]) == multiset(old(a[..]))
  {
    SiftingStarts(a[..], i);
    var j := i;
    while j > 0 && a[j - 1].createdAt < a[j].createdAt
      invariant 0 <= j <= i
      invariant Sifting(a[..], i, j)
      invariant multiset(a[..]) == multiset(old(a[..]))
    {
      ghost var before := a[..];
      SiftingSteps(before, i, j);
      a[j - 1], a[j] := a[j], a[j - 1];
      assert a[..] == before[j - 1 := before[j]][j := before[j - 1]];
      SwapKeepsMultiset(before, j - 1, j);
      j := j - 1;
    }
    SiftingEnds(a[..], i, j);
  }

  // ---------------------------------------------------------------------------
  // Who may rate

  /** The client session as `useSession` reports it. */
  datatype SessionStatus = Loading | Unauthenticated | Authenticated(user: UserId)

  /** `session?.user?.id`. */
  function ViewerId(status: SessionStatus): (r: Option<UserId>)
    ensures r.Some? <==> status.Authenticated?
    ensures r.Some? ==> r.value == status.user
  {
    if status.Authenticated? then Some(status.user) else None
  }

  /** `ratings.every(r => r.userId !== viewer)`; a missing viewer differs from every user id. */
  function NoRatingBy(ratings: seq<Rating>, viewer: Option<UserId>): (r: bool)
    ensures r <==> viewer.None? || forall k :: 0 <= k < |ratings| ==> ratings[k].userId != viewer.value
  {
    if ratings == [] then true
    else (viewer.None? || ratings[0].userId != viewer.value) && NoRatingBy(ratings[1..], viewer)
  }

  /** `canRate`: undefined (false) without a selected book. */
  function CanRate(book: Option<BookSummary>, viewer: Option<UserId>): (r: bool)
    ensures r <==> (book.Some? && (viewer.None? ||
                     forall k :: 0 <= k < |book.value.ratings| ==> book.value.ratings[k].userId != viewer.value))
    ensures book.Some? && book.value.ratings == [] ==> r
  {
    book.Some? && NoRatingBy(book.value.ratings, viewer)
  }

  /** What a click on "Avaliar" ends up doing. */
  datatype AvaliarEffect = FormShown | LoginModalOpened | NoEffect

  /** `onClick={canRate ? handleRateClick : handleOpenModal}`, with `handleRateClick` showing the form only when authenticated. */
  function AvaliarAsWritten(book: BookSummary, status: SessionStatus): (e: AvaliarEffect)
    ensures e == FormShown <==> status.Authenticated? && CanRate(Some(book), ViewerId(status))
    ensures e == NoEffect <==> !status.Authenticated? && CanRate(Some(book), ViewerId(status))
    ensures e == LoginModalOpened <==> !CanRate(Some(book), ViewerId(status))
  {
    if CanRate(Some(book), ViewerId(status)) then
      if status.Authenticated? then FormShown else NoEffect
    else LoginModalOpened
  }

  /** As written, a click by a signed-out viewer does nothing: the login modal never opens for them. */
  lemma SignedOutAvaliarDoesNothing(book: BookSummary, status: SessionStatus)
    requires !status.Authenticated?
    ensures AvaliarAsWritten(book, status) == NoEffect
  {
  }

  /** As written, a signed-in viewer who already rated the book is asked to log in. */
  lemma RatedViewerAskedToLogIn(book: BookSummary, user: UserId, k: nat)
    requires k < |book.ratings| && book.ratings[k].userId == user
    ensures AvaliarAsWritten(book, Authenticated(user)) == LoginModalOpened
  {
  }

  /** The evident intent: signed-out viewers get the login modal, signed-in viewers get the form unless they already rated. */
  function AvaliarIntended(book: BookSummary, status: SessionStatus): (e: AvaliarEffect)
    ensures e == LoginModalOpened <==> !status.Authenticated?
    ensures e == FormShown <==>
      status.Authenticated? && forall k :: 0 <= k < |book.ratings| ==> book.ratings[k].userId != status.user
  {
    if !status.Authenticated? then LoginModalOpened
    else if CanRate(Some(book), ViewerId(status)) then FormShown
    else NoEffect
  }

  // ---------------------------------------------------------------------------
  // Page state

  /** A snapshot of the session status and the page's `useState` values. */
  datatype PageState = PageState(
    status: SessionStatus,
    showForm: bool,
    visibility: bool,
    modalVisibility: bool,
    selectedBook: Option<BookSummary>,
    selectedCategory: Option<CategoryId>,
    search: string)

  class ExplorePage {
    /** What `useSession` reports; it changes while the page is open (loading, sign-in, sign-out). */
    var status: SessionStatus
    var showForm: bool
    var visibility: bool
    var modalVisibility: bool
    var selectedBook: Option<BookSummary>
    var selectedCategory: Option<CategoryId>
    var search: string

    function State(): PageState
      reads this
    {
      PageState(status, showForm, visibility, modalVisibility, selectedBook, selectedCategory, search)
    }

    constructor (status: SessionStatus)
      ensures State() == PageState(status, false, false, false, None, None, "")
    {
      this.status := status;
      showForm, visibility, modalVisibility := false, false, false;
      selectedBook, selectedCategory, search := None, None, "";
    }

    /** `useSession` reports a new status; the page's own state is kept. */
    method SetStatus(status: SessionStatus)
      modifies this
      ensures State() == old(State()).(status := status)
    {
      this.status := status;
    }

    /** `handleOpenDrawer`. */
    method OpenDrawer(book: BookSummary)
      modifies this
      ensures State() == old(State()).(visibility := true, selectedBook := Some(book))
    {
      visibility := true;
      selectedBook := Some(book);
    }

    /** `handleCloseDrawer`; the rating form flag is left as it was. */
    method CloseDrawer()
      modifies this
      ensures State() == old(State()).(visibility := false, selectedBook := None)
    {
      visibility := false;
      selectedBook := None;
    }

    /** `handleOpenModal`. */
    method OpenModal()
      modifies this
      ensures State() == old(State()).(modalVisibility := true)
    {
      modalVisibility := true;
    }

    /** `handleCloseModal`. */
    method CloseModal()
      modifies this
      ensures State() == old(State()).(modalVisibility := false)
    {
      modalVisibility := false;
    }

    /** `handleSelectCategory`. */
    method SelectCategory(category: Option<CategoryId>)
      modifies this
      ensures State() == old(State()).(selectedCategory := category)
    {
      selectedCategory := category;
    }

    /** The search input's `onChange`. */
    method ChangeSearch(text: string)
      modifies this
      ensures State() == old(State()).(search := text)
    {
      search := text;
    }

    /** `handleRateClick`: shows the form when authenticated and changes nothing otherwise. */
    method RateClick()
      modifies this
      ensures status.Authenticated? ==> State() == old(State()).(showForm := true)
      ensures !status.Authenticated? ==> State() == old(State())
    {
      if status.Authenticated? {
        showForm := true;
      }
    }

    /** The rating form's `onCancel`. */
    method CancelForm()
      modifies this
      ensures State() == old(State()).(showForm := false)
    {
      showForm := false;
    }

    function CanRateSelected(): bool
      reads this
    {
      CanRate(selectedBook, ViewerId(status))
    }

    /** The "Avaliar" button, rendered only while a book is selected. */
    method ClickAvaliar()
      requires selectedBook.Some?
      modifies this
      ensures old(CanRateSelected()) ==> State() == old(State()).(showForm := old(showForm) || status.Authenticated?)
      ensures !old(CanRateSelected()) ==> State() == old(State()).(modalVisibility := true)
      ensures var effect := AvaliarAsWritten(old(selectedBook).value, status);
        && (effect == FormShown ==> showForm)
        && (effect == LoginModalOpened ==> modalVisibility)
        && (effect == NoEffect ==> State() == old(State()))
    {
      if CanRateSelected() {
        RateClick();
      } else {
        OpenModal();
      }
    }

    /** The corrected "Avaliar" dispatch: login modal when signed out, the form when signed in and not yet rated. */
    method ClickAvaliarIntended()
      requires selectedBook.Some?
      modifies this
      ensures !status.Authenticated? ==> State() == old(State()).(modalVisibility := true)
      ensures status.Authenticated? && old(CanRateSelected()) ==> State() == old(State()).(showForm := true)
      ensures status.Authenticated? && !old(CanRateSelected()) ==> State() == old(State())
      ensures var effect := AvaliarIntended(old(selectedBook).value, status);
        && (effect == FormShown ==> showForm)
        && (effect == LoginModalOpened ==> modalVisibility)
        && (effect == NoEffect ==> State() == old(State()))
    {
      if !status.Authenticated? {
        OpenModal();
      } else if CanRateSelected() {
        RateClick();
      }
    }

    /** `filteredBooks` over the listed books, for the current search text. */
    function FilteredBooks(books: seq<BookSummary>): (r: seq<BookSummary>)
      reads this
      ensures IsSubsequence(r, books)
      ensures forall k :: 0 <= k < |r| ==> MatchesSearch(r[k], search)
      ensures forall k :: 0 <= k < |books| && MatchesSearch(books[k], search) ==> books[k] in r
      ensures forall b :: multiset(r)[b] == if MatchesSearch(b, search) then multiset(books)[b] else 0
    {
      FilterBooks(books, search)
    }

    /**
     * `sortedRatingsByDate`: sorts the selected book's ratings in place (the
     * book itself is left holding them newest first) and returns them; empty
     * without a selected book.
     */
    method SortedRatingsByDate() returns (sorted: seq<Rating>)
      modifies this
      ensures old(selectedBook).None? ==> sorted == [] && State() == old(State())
      ensures old(selectedBook).Some? ==>
        && NewestFirst(sorted)
        && multiset(sorted) == multiset(old(selectedBook).value.ratings)
        && State() == old(State()).(selectedBook := Some(old(selectedBook).value.(ratings := sorted)))
    {
      if selectedBook.None? {
        return [];
      }
      var book := selectedBook.value;
      var a := new Rating[|book.ratings|](i requires 0 <= i < |book.ratings| => book.ratings[i]);
      assert a[..] == book.ratings;
      SortNewestFirst(a);
      sorted := a[..];
      selectedBook := Some(book.(ratings := sorted));
    }
  }
}
