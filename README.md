# BookWise: a Dafny model of the rating rules

BookWise is a book-review web application. Readers browse a catalogue,
search it, look at a book's reviews and rate books from one to five stars.
This project models the logic behind those screens and proves properties of
it. The logic consists of:

- three API handlers:
  - `GET /books`: the listing with rating count, average and the viewer's
    "already read" flag;
  - `GET /books/popular`: the four most-rated books;
  - `GET /ratings/user-latest`: the signed-in user's newest rating;
- the rules of the explore page:
  - search;
  - newest-first ordering of a book's reviews;
  - who may rate;
  - the drawer, rating-form and login-modal state;
- three components:
  - the five-star widget;
  - the rating form's submit guard and its effects;
  - the summary truncation of a rating card.

Modules:

| module | models |
|---|---|
| `Domain` | rows as the ORM returns them, HTTP outcomes, `filter`, `find` on the average groups |
| `BooksListing` | `src/pages/api/books/index.ts` |
| `PopularBooks` | `src/pages/api/books/popular.ts` |
| `UserLatest` | `src/pages/api/ratings/user-latest.ts` |
| `Explore` | `src/pages/explore.tsx`; the page state is the class `ExplorePage`, and the in-place `sort` is a method on an array |
| `RatingStars` | `src/components/RatingStars.tsx`; the widget state is the class `StarWidget` |
| `RatingForm` | `src/components/RatingForm.tsx`; the form state is the class `RatingFormState` |
| `RatingCard` | `src/components/RatingCard.tsx` |

Database queries become inputs:

- the book table (each row with its category links and ratings attached);
- the `groupBy` averages, kept opaque as `real` values;
- the rating rows.

The query semantics become specification functions:

- category filtering;
- order by rating count with `take: 4`;
- latest by `createdAt`.

The server session is an `Option<UserId>`. On the client it is a
`SessionStatus` of `Loading`, `Unauthenticated` or `Authenticated(user)`.

Two readings of the code that the model makes explicit:

- **Listing without a category.** The listing's filter is
  `categories: { some: { categoryId } }`. With no `category` query parameter
  the inner filter is `{ categoryId: undefined }`, which the ORM treats as
  `some: {}`. So the unfiltered listing holds every book that has at least one
  category link, not literally every book (`BooksListing.InCategory`).
- **Who may rate.** `canRate` compares every rating's `userId` with
  `session?.user?.id`. For a signed-out viewer that id is `undefined`, and no
  rating's `userId` equals it. So `canRate` holds for signed-out viewers. The
  consequence is logged under "## Findings".

## Model

| member | source | states |
|---|---|---|
| Domain.Filter | src/pages/explore.tsx:88-93 | `Array.prototype.filter`: every kept element satisfies the predicate; every element satisfying it is kept, each occurrence as many times as in the input, and no other element; the result is an order-preserving subsequence of the input |
| Domain.FindAvg | src/pages/api/books/index.ts:66-68 | the average is absent exactly when no group has the book's id; otherwise it is the average of the first matching group |
| Domain.FindAvgIsMean | src/pages/api/books/index.ts:34-39 | when the groups agree with the table, the average found for a book is the mean of its scores, and absent for a book without ratings |
| BooksListing.InCategory | src/pages/api/books/index.ts:17-24 | `some` on the category links: a row matches iff one of its links has the requested category id, or any link when no category is given |
| BooksListing.FindBooks | src/pages/api/books/index.ts:17-24 | a row is listed iff it is in the table and has a category link matching the query (any link when no category is given); table order is kept |
| BooksListing.RatedBookIds | src/pages/api/books/index.ts:52-62 | an id is among the viewer's book ids iff some row with that id has a rating by the viewer |
| BooksListing.ViewerBookIds | src/pages/api/books/index.ts:41-63 | empty without a session; with one, an id is present iff some row with that id has a rating by the session user |
| BooksListing.Enrich | src/pages/api/books/index.ts:65-76 | one entry per row, in order, with the book fields and ratings copied; `sumRatings` is the rating count; `avgRating` is the first matching group's, absent iff none matches; `alreadyRead` iff the id is among the viewer's book ids |
| BooksListing.ListBooks | src/pages/api/books/index.ts:11-78 | status 405 iff the method is not GET, 200 otherwise; never 401; otherwise one entry per listed book, in order |
| BooksListing.ListedBooksComeFromStore | src/pages/api/books/index.ts:17-76 | every listed entry is a table row in the requested category; its count is its number of ratings; with agreeing groups its average is the mean of its scores |
| BooksListing.AlreadyReadIffRated | src/pages/api/books/index.ts:49-74 | with unique ids, `alreadyRead` holds iff there is a session and the viewer has rated that book |
| BooksListing.AnonymousReadsNothing | src/pages/api/books/index.ts:41-74 | without a session no entry is marked `alreadyRead` |
| PopularBooks.Insert | src/pages/api/books/popular.ts:13-18 | inserting into a count-descending list keeps it count-descending, adds exactly that row and grows it by one |
| PopularBooks.SortByCount | src/pages/api/books/popular.ts:13-18 | the result is count-descending and a permutation of the table |
| PopularBooks.PrefixDominates | src/pages/api/books/popular.ts:13-22 | a prefix of a count-descending permutation comes from the table, and none of its rows has fewer ratings than a row left out |
| PopularBooks.TopBooks | src/pages/api/books/popular.ts:13-23 | exactly min(4, table size) rows, count-descending, drawn from the table, none with fewer ratings than a row left out |
| PopularBooks.Ids | src/pages/api/books/popular.ts:30 | the ids of the returned books, one per book, in order |
| PopularBooks.RestrictGroups | src/pages/api/books/popular.ts:25-35 | a group is kept iff it belongs to a returned book, each occurrence as often as in the input; the groups keep their order |
| PopularBooks.RestrictKeepsAverage | src/pages/api/books/popular.ts:25-40 | restricting the groups to the returned ids does not change the average found for any returned book |
| PopularBooks.Shape | src/pages/api/books/popular.ts:37-48 | one entry per book, in order, carrying the book's own fields without `ratings`, and the first matching group's average, absent iff none matches |
| PopularBooks.ListPopular | src/pages/api/books/popular.ts:9-50 | status 405 iff the method is not GET, 200 otherwise; never 401; at most four entries, never more than the table has |
| PopularBooks.PopularIsMostRated | src/pages/api/books/popular.ts:13-48 | each entry is a table row, in count-descending order, none with fewer ratings than a row left out; with agreeing groups each carries the mean of its scores |
| UserLatest.Latest | src/pages/api/ratings/user-latest.ts:27-37 | none iff the user has no rating; otherwise a row of the user's with no rating of theirs dated later |
| UserLatest.UserLatestRating | src/pages/api/ratings/user-latest.ts:11-39 | status 405 iff the method is not GET; 401 iff a GET has no session; 200 otherwise; otherwise the session user's latest rating, or null iff they have none |
| UserLatest.UnauthorizedIgnoresRows | src/pages/api/ratings/user-latest.ts:21-23 | without a session the answer is 401 whatever the rating rows are |
| UserLatest.OtherUsersIrrelevant | src/pages/api/ratings/user-latest.ts:27-30 | inserting another user's rating at any position among the rows never changes the answer |
| Explore.ToLower | src/pages/explore.tsx:90-91 | same length; each letter lowered; no upper-case letter left |
| Explore.ToLowerIdempotent | src/pages/explore.tsx:90-91 | lowering twice is lowering once |
| Explore.Includes | src/pages/explore.tsx:90-91 | `includes` holds iff the needle occurs at some index of the text |
| Explore.MatchesSearch | src/pages/explore.tsx:89-92 | a book matches iff the lowercased search occurs in its lowercased name or in its lowercased author |
| Explore.FilterBooks | src/pages/explore.tsx:88-93 | a book is kept iff its lowercased name or author contains the lowercased search, each matching occurrence kept as often as it is listed; the result is an order-preserving subsequence |
| Explore.EmptySearchKeepsAll | src/pages/explore.tsx:88-93 | an empty search keeps every book, in order |
| Explore.SearchIgnoresCase | src/pages/explore.tsx:88-93 | the result does not depend on the case of the search text |
| Explore.SortNewestFirst | src/pages/explore.tsx:95-100 | afterwards the array is newest first and a permutation of what it held |
| Explore.SiftLeft | src/pages/explore.tsx:97-100 | one insertion step: the first `i + 1` entries end newest first; the contents stay a permutation |
| Explore.ViewerId | src/pages/explore.tsx:105 | a viewer id exists iff the session is authenticated, and it is the session user's id |
| Explore.NoRatingBy | src/pages/explore.tsx:104-106 | `every` holds iff no rating has the viewer's id; a missing viewer id matches no rating |
| Explore.CanRate | src/pages/explore.tsx:104-106 | `canRate` holds iff a book is selected and no rating of it has the viewer's id; a book without ratings can always be rated |
| Explore.AvaliarAsWritten | src/pages/explore.tsx:221 | the form shows iff the viewer is authenticated and `canRate` holds; the login modal opens iff `canRate` fails; nothing happens iff the viewer is signed out and `canRate` holds |
| Explore.SignedOutAvaliarDoesNothing | src/pages/explore.tsx:62-66 | as written, a click by a signed-out viewer changes nothing |
| Explore.RatedViewerAskedToLogIn | src/pages/explore.tsx:104-106 | as written, a signed-in viewer who already rated the book gets the login modal |
| Explore.AvaliarIntended | src/pages/explore.tsx:221 | corrected dispatch: login modal iff signed out; form iff signed in with no rating on the book |
| Explore.ExplorePage.constructor | src/pages/explore.tsx:28-38 | the session status as given; all flags false, no book or category selected, empty search |
| Explore.ExplorePage.SetStatus | src/pages/explore.tsx:28 | a new session status from `useSession` replaces the old one; the rest of the page state is kept, an open rating form included |
| Explore.ExplorePage.OpenDrawer | src/pages/explore.tsx:40-43 | the drawer is visible and holds the book; nothing else changes |
| Explore.ExplorePage.CloseDrawer | src/pages/explore.tsx:45-48 | the drawer is hidden and no book is selected; nothing else changes |
| Explore.ExplorePage.OpenModal | src/pages/explore.tsx:50-52 | the login modal is visible; nothing else changes |
| Explore.ExplorePage.CloseModal | src/pages/explore.tsx:54-56 | the login modal is hidden; nothing else changes |
| Explore.ExplorePage.SelectCategory | src/pages/explore.tsx:58-60 | only the selected category changes |
| Explore.ExplorePage.ChangeSearch | src/pages/explore.tsx:121 | only the search text changes |
| Explore.ExplorePage.RateClick | src/pages/explore.tsx:62-66 | shows the form iff authenticated; otherwise nothing changes |
| Explore.ExplorePage.CancelForm | src/pages/explore.tsx:231 | the form is hidden; nothing else changes |
| Explore.ExplorePage.ClickAvaliar | src/pages/explore.tsx:221 | calls the rate handler when `canRate` holds and opens the login modal otherwise; its effect is the one the as-written dispatch predicts |
| Explore.ExplorePage.ClickAvaliarIntended | src/pages/explore.tsx:221 | corrected dispatch on the page state: a signed-out viewer gets the login modal, a signed-in viewer who has not rated gets the form, and nothing else changes |
| Explore.ExplorePage.FilteredBooks | src/pages/explore.tsx:88-93 | the books shown for the current search are exactly the listed books matching it, each as often as listed, in listed order |
| Explore.ExplorePage.SortedRatingsByDate | src/pages/explore.tsx:95-102 | empty without a selected book; otherwise the selected book's ratings newest first, a permutation of the originals, and the selected book now holds them in that order |
| RatingStars.StarFills | src/components/RatingStars.tsx:58-62 | exactly five stars; star `i` is filled iff `i + 1` is at most the whole part of the value; the filled stars come first |
| RatingStars.FilledStarCount | src/components/RatingStars.tsx:58-62 | the number of filled stars is the whole part of the value, clamped to 0..5 |
| RatingStars.StarWidget.RatingValue | src/components/RatingStars.tsx:35-36 | the displayed value is the hover preview when the widget is editable, the `rating` prop otherwise |
| RatingStars.CountFilledPrefix | src/components/RatingStars.tsx:58-62 | a fill pattern set on its first `n` positions has `n` filled stars |
| RatingStars.StarWidget.constructor | src/components/RatingStars.tsx:27-35 | the props are kept; the preview starts at 0; nothing is committed |
| RatingStars.StarWidget.MouseEnter | src/components/RatingStars.tsx:38-42 | when editable, hovering star `index` sets the preview to `index + 1` and fills exactly that many stars; a read-only widget is unchanged |
| RatingStars.StarWidget.MouseLeave | src/components/RatingStars.tsx:44-48 | when editable, the preview returns to the `rating` prop; a read-only widget is unchanged |
| RatingStars.StarWidget.SetValue | src/components/RatingStars.tsx:50-54 | when editable, the displayed value is handed to `setRating`; a read-only widget is unchanged |
| RatingStars.StarWidget.ReceiveRating | src/components/RatingStars.tsx:29-36 | a new `rating` prop replaces the old one; the preview and the committed values stay |
| RatingForm.Trim | src/components/RatingForm.tsx:43 | `trim` returns the slice left after removing white space at both ends: it is empty iff the text is all white space, and otherwise neither starts nor ends with white space |
| RatingForm.SubmitDisabled | src/components/RatingForm.tsx:43 | `submitDisabled` holds iff the description is all white space or the rate is 0 |
| RatingForm.InitiallyDisabled | src/components/RatingForm.tsx:22-23 | the initial empty description and zero rate cannot be submitted |
| RatingForm.RatePath | src/components/RatingForm.tsx:29 | the path is `/books/`, then the book id, then `/rate` |
| RatingForm.CapDescription | src/components/RatingForm.tsx:81 | the text kept is a prefix of the input of length min(450, input length), so the whole input when it fits |
| RatingForm.RatingFormState.constructor | src/components/RatingForm.tsx:22-23 | empty description, zero rate, nothing posted or invalidated; submission disabled |
| RatingForm.RatingFormState.ChangeDescription | src/components/RatingForm.tsx:81-83 | the description becomes the capped input; nothing else changes |
| RatingForm.RatingFormState.SetCurrentRate | src/components/RatingForm.tsx:70-74 | the rate becomes the committed star value; nothing else changes |
| RatingForm.RatingFormState.HandleSubmit | src/components/RatingForm.tsx:27-53 | posts iff submission is not disabled, with the form's text and rate to the book's rate path; on success `['book', bookId]` and `['books']` are invalidated in that order and `onCancel` is called once; otherwise nothing else changes |
| RatingCard.DisplayedSummary | src/components/RatingCard.tsx:32-39 | the first min(180, length) characters of the summary followed by `...`; at most 183 characters; always ending in `...` |
| RatingCard.ShortSummaryKeptWhole | src/components/RatingCard.tsx:37-39 | a summary of at most 180 characters is shown whole, followed by `...` |
| RatingCard.ShowsMoreButton | src/components/RatingCard.tsx:89 | the "ver mais" button shows iff the displayed text leaves part of the summary out |
| RatingCard.Layout | src/components/RatingCard.tsx:34-78 | the user header, with the stars, shows unless the variant is `'compact'` (so also by default); the relative time always shows; the numeric rate shows exactly when the stars do not |

## Left out

- Database and ORM calls: `findMany`, `groupBy` and `findFirst` are not executed. Their results are inputs, and their query semantics are functions.
- The averages are opaque values. `Domain.GroupsAgree` states the relation to the table that the lemmas assume; floating-point rounding is not modelled.
- Session retrieval: `getServerSession`, `useSession` and the auth adapter are not modelled. The session is a parameter.
- React Query fetching and caching are not modelled. Cache invalidation is a recorded list of query keys.
- The post's failure path is not modelled: the mutation's rejection and its error handling. `HandleSubmit` only takes whether the post succeeded.
- Rendering is not modelled: the drawer, modal, book card, inputs, navigation and sidebar.
- Relative time formatting is not modelled, because it depends on the clock and a locale.
- The rating-submission handler and the profile statistics are not part of this model.
- The check button of the rating form is `type="button"` and has no `onClick`, so it does not submit the form. The model covers only `handleSubmit`'s guard and effects, not how the form is submitted.
- The `user` relation included with each listed rating is not modelled. A rating carries only its `userId`.
- Explore.ToLower: lowers ASCII letters only, not the full Unicode case mapping of `toLowerCase`.
- RatingCard.DisplayedSummary: counts characters as code points. `substring(0, 180)` counts UTF-16 code units, so a summary with characters outside the Basic Multilingual Plane (emoji, for instance) is cut earlier in the source than in the model.
- RatingCard.ShowsMoreButton: compares the code-point length with 180, while `summary.length` counts UTF-16 code units. A summary of 100 emoji has length 200 in the source and shows the button; in the model it does not.
- RatingForm.CapDescription: caps at 450 code points, while the textarea's `maxLength` counts UTF-16 code units.
- Explore.ExplorePage.SortedRatingsByDate: sorts a copy of the ratings and updates only the selected book. In the source, the selected book is the same object as an entry of the cached book list, so `ratings.sort` also reorders that entry's ratings. The model does not capture this aliasing. No modelled rule depends on that order.
- Explore.Includes: works on Dafny characters, not on UTF-16 code units, so surrogate pairs are not split.
- Explore.SortNewestFirst: does not state that ratings with equal `createdAt` keep their relative order, although `Array.prototype.sort` is stable.
- PopularBooks.TopBooks: the database's order among books with equal rating counts is unspecified. The model keeps table order, and its contract states only the count ordering.
- UserLatest.Latest: the database's choice among ratings with equal `createdAt` is unspecified. The model takes the earliest row, and its contract states only maximality.
- RatingForm.CapDescription: the textarea's `maxLength` stops typing rather than cutting the text. The model truncates the new value, which yields the same bound.
- RatingForm.Trim: the white-space set is the one `String.prototype.trim` uses, taken code point by code point.

## Findings

| source | as written | input that shows it | evidently intended | confidence | as-written member | corrected member |
|---|---|---|---|---|---|---|
| src/pages/explore.tsx:104-106 | `canRate` compares each rating's `userId` with `session?.user?.id`, which is `undefined` for a signed-out viewer, so `canRate` holds. The button at line 221 then calls `handleRateClick`, which does nothing when not authenticated. The login modal opens only for a signed-in viewer who already rated the book. | A signed-out viewer clicks "Avaliar" on any book: nothing happens. A signed-in user who rated the book clicks it: they are asked to log in (Explore.SignedOutAvaliarDoesNothing, Explore.RatedViewerAskedToLogIn). | Signed-out viewers get the login modal. Signed-in viewers get the form unless they already rated the book (on the page state, Explore.ExplorePage.ClickAvaliarIntended). | not executed | Explore.AvaliarAsWritten | Explore.AvaliarIntended |
