/**
 * `GET /books`: the book listing with per-book rating count, average and the
 * viewer's "already read" flag. The ORM queries become functions over the
 * book table and the `groupBy` result, both passed in.
 */
module BooksListing {
  import opened Domain

  /** A listed book: the book's own fields and ratings, plus the three computed fields. */
  datatype BookSummary = BookSummary(
    info: BookInfo,
    ratings: seq<Rating>,
    sumRatings: nat,
    avgRating: Option<real>,
    alreadyRead: bool)

  /**
   * The `where: { categories: { some: { categoryId } } }` filter. Without a
   * category the inner filter is empty, and `some: {}` matches every book that
   * has at least one category link.
   */
  predicate InCategory(row: BookRow, category: Option<CategoryId>): (r: bool)
    ensures r <==> exists k :: 0 <= k < |row.categoryIds| && (category.None? || row.categoryIds[k] == category.value)
  {
    match category
    case None =>
      if row.categoryIds == [] then false
      else
        assert row.categoryIds[0] in row.categoryIds;
        true
    case Some(c) => c in row.categoryIds
  }

  /** The books `findMany` returns for the category query, in table order. */
  function FindBooks(store: seq<BookRow>, category: Option<CategoryId>): (r: seq<BookRow>)
    ensures forall row :: row in r <==> row in store && InCategory(row, category)
    ensures IsSubsequence(r, store)
  {
    Filter(store, row => InCategory(row, category))
  }

  predicate RatedBy(row: BookRow, user: UserId)
  {
    exists k :: 0 <= k < |row.ratings| && row.ratings[k].userId == user
  }

  /** `userBooks.map(x => x.id)` for the books having some rating by `user`. */
  function RatedBookIds(store: seq<BookRow>, user: UserId): (ids: seq<BookId>)
    ensures forall id :: id in ids <==> exists row :: row in store && row.info.id == id && RatedBy(row, user)
  {
    if store == [] then []
    else
      var rest := RatedBookIds(store[1..], user);
      assert forall row :: row in store <==> row == store[0] || row in store[1..];
      if RatedBy(store[0], user) then [store[0].info.id] + rest else rest
  }

  /** `userBooksIds`: empty without a session, the viewer's rated-book ids with one. */
  function ViewerBookIds(store: seq<BookRow>, session: Option<UserId>): (ids: seq<BookId>)
    ensures session.None? ==> ids == []
    ensures forall id :: id in ids <==>
      session.Some? && exists row :: row in store && row.info.id == id && RatedBy(row, session.value)
  {
    match session
    case None => []
    case Some(u) => RatedBookIds(store, u)
  }

  /** `booksWithAvgRating`: one summary per row, in the same order. */
  function Enrich(rows: seq<BookRow>, groups: seq<AvgGroup>, userBookIds: seq<BookId>): (r: seq<BookSummary>)
    ensures |r| == |rows|
    ensures forall i :: 0 <= i < |rows| ==>
      && r[i].info == rows[i].info
      && r[i].ratings == rows[i].ratings
      && r[i].sumRatings == |rows[i].ratings|
      && r[i].avgRating == FindAvg(groups, rows[i].info.id)
      && (r[i].avgRating.None? <==> forall k :: 0 <= k < |groups| ==> groups[k].bookId != rows[i].info.id)
      && (r[i].alreadyRead <==> rows[i].info.id in userBookIds)
  {
    seq(|rows|, i requires 0 <= i < |rows| =>
      var row := rows[i];
      BookSummary(row.info, row.ratings, |row.ratings|, FindAvg(groups, row.info.id), row.info.id in userBookIds))
  }

  /** The handler: 405 for anything but GET, otherwise the enriched listing. */
  function ListBooks(verb: string, category: Option<CategoryId>, store: seq<BookRow>,
                     groups: seq<AvgGroup>, session: Option<UserId>): (r: Response<seq<BookSummary>>)
    ensures verb != "GET" <==> r == MethodNotAllowed
    ensures !r.Unauthorized?
    ensures r.Status() == if verb != "GET" then 405 else 200
    ensures r.Ok? ==> (|r.body| == |FindBooks(store, category)|
      && forall i :: 0 <= i < |r.body| ==> r.body[i].info == FindBooks(store, category)[i].info)
  {
    if verb != "GET" then MethodNotAllowed
    else Ok(Enrich(FindBooks(store, category), groups, ViewerBookIds(store, session)))
  }

  /** Each listed book is a book of the table in the requested category, with its count and average. */
  lemma {:induction false} ListedBooksComeFromStore(category: Option<CategoryId>, store: seq<BookRow>,
                                                    groups: seq<AvgGroup>, session: Option<UserId>, i: nat)
    requires GroupsAgree(groups, store)
    requires ListBooks("GET", category, store, groups, session).Ok?
    requires i < |ListBooks("GET", category, store, groups, session).body|
    ensures var s := ListBooks("GET", category, store, groups, session).body[i];
      && (exists row :: row in store && InCategory(row, category) && row.info == s.info && row.ratings == s.ratings)
      && s.sumRatings == |s.ratings|
      && s.avgRating == if s.ratings == [] then None else Some(MeanRate(s.ratings))
  {
    var rows := FindBooks(store, category);
    var row := rows[i];
    assert row in rows;
    FindAvgIsMean(groups, store, row);
  }

  /** With unique ids, `alreadyRead` holds exactly when the signed-in viewer has rated that very book. */
  lemma AlreadyReadIffRated(category: Option<CategoryId>, store: seq<BookRow>,
                            groups: seq<AvgGroup>, session: Option<UserId>, i: nat)
    requires UniqueIds(store)
    requires i < |FindBooks(store, category)|
    ensures var row := FindBooks(store, category)[i];
      var listed := ListBooks("GET", category, store, groups, session).body[i];
      listed.alreadyRead <==> session.Some? && RatedBy(row, session.value)
  {
    var row := FindBooks(store, category)[i];
    assert row in FindBooks(store, category);
    if session.Some? {
      var u := session.value;
      if row.info.id in RatedBookIds(store, u) {
        var other :| other in store && other.info.id == row.info.id && RatedBy(other, u);
        var a, b :| 0 <= a < |store| && 0 <= b < |store| && store[a] == row && store[b] == other;
        assert a == b;
      }
    }
  }

  /** Without a session no listed book is marked as read. */
  lemma AnonymousReadsNothing(category: Option<CategoryId>, store: seq<BookRow>, groups: seq<AvgGroup>)
    ensures var r := ListBooks("GET", category, store, groups, None);
      forall i :: 0 <= i < |r.body| ==> !r.body[i].alreadyRead
  {
  }
}
