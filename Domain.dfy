/**
 * Entities shared by the BookWise handlers and pages: books as the ORM returns
 * them (with their category links and ratings attached), ratings, the
 * per-book average groups, HTTP outcomes, and the generic list operations
 * (`filter`, `find`) the handlers use.
 */
module Domain {

  datatype Option<+T> = None | Some(value: T)

  type UserId = string
  type BookId = string
  type CategoryId = string

  /** A rating row: score, review text, creation time (milliseconds), author and book. */
  datatype Rating = Rating(
    id: string,
    rate: int,
    description: string,
    createdAt: int,
    userId: UserId,
    bookId: BookId)

  /** The scalar columns of a book. */
  datatype BookInfo = BookInfo(
    id: BookId,
    name: string,
    author: string,
    summary: string,
    coverUrl: string,
    totalPages: int)

  /** A book row with the ids of its category links and its ratings eagerly loaded. */
  datatype BookRow = BookRow(info: BookInfo, categoryIds: seq<CategoryId>, ratings: seq<Rating>)

  /** One row of `groupBy(bookId)` with `_avg.rate`; the average is opaque to the handlers. */
  datatype AvgGroup = AvgGroup(bookId: BookId, avgRate: real)

  /** The outcome of an API handler. */
  datatype Response<T> = MethodNotAllowed | Unauthorized | Ok(body: T) {
    function Status(): int {
      match this
      case MethodNotAllowed => 405
      case Unauthorized => 401
      case Ok(_) => 200
    }
  }

  /** `xs` is obtained from `ys` by deleting elements, keeping the order of the rest. */
  predicate IsSubsequence<T(==)>(xs: seq<T>, ys: seq<T>)
    decreases |ys|
  {
    if xs == [] then true
    else if ys == [] then false
    else if xs[0] == ys[0] then IsSubsequence(xs[1..], ys[1..])
    else IsSubsequence(xs, ys[1..])
  }

  /** `Array.prototype.filter`: the elements satisfying `p`, in their original order. */
  function Filter<T(==,!new)>(s: seq<T>, p: T -> bool): (r: seq<T>)
    ensures forall k :: 0 <= k < |r| ==> r[k] in s && p(r[k])
    ensures forall k :: 0 <= k < |s| && p(s[k]) ==> s[k] in r
    ensures IsSubsequence(r, s)
    ensures |r| <= |s|
    ensures multiset(r) <= multiset(s)
    ensures forall x :: multiset(r)[x] == if p(x) then multiset(s)[x] else 0
  {
    if s == [] then []
    else
      assert s == [s[0]] + s[1..];
      if p(s[0]) then [s[0]] + Filter(s[1..], p) else Filter(s[1..], p)
  }

  lemma {:induction false} FilterKeepsAll<T(!new)>(s: seq<T>, p: T -> bool)
    requires forall k :: 0 <= k < |s| ==> p(s[k])
    ensures Filter(s, p) == s
  {
    if s != [] {
      assert s == [s[0]] + s[1..];
      FilterKeepsAll(s[1..], p);
    }
  }

  /**
   * `groups.find(g => g.bookId === id)?._avg.rate`: the average of the FIRST
   * group whose book id matches, absent when none does.
   */
  function FindAvg(groups: seq<AvgGroup>, id: BookId): (r: Option<real>)
    ensures r.None? <==> forall k :: 0 <= k < |groups| ==> groups[k].bookId != id
    ensures r.Some? ==>
      exists k :: 0 <= k < |groups| && groups[k].bookId == id && groups[k].avgRate == r.value
        && forall j :: 0 <= j < k ==> groups[j].bookId != id
  {
    if groups == [] then None
    else if groups[0].bookId == id then Some(groups[0].avgRate)
    else FindAvg(groups[1..], id)
  }

  /** Sum of the scores of `ratings`. */
  function SumRates(ratings: seq<Rating>): int
  {
    if ratings == [] then 0 else ratings[0].rate + SumRates(ratings[1..])
  }

  /** Arithmetic mean of the scores, the value `_avg.rate` denotes for a non-empty group. */
  function MeanRate(ratings: seq<Rating>): real
    requires ratings != []
  {
    SumRates(ratings) as real / |ratings| as real
  }

  /** Book ids are unique in a table of rows. */
  predicate UniqueIds(store: seq<BookRow>)
  {
    forall i, j :: 0 <= i < |store| && 0 <= j < |store| && store[i].info.id == store[j].info.id ==> i == j
  }

  /**
   * The average groups agree with the rows: a book has a group exactly when it
   * has ratings, and every group for it carries the mean of its scores.
   */
  predicate GroupsAgree(groups: seq<AvgGroup>, store: seq<BookRow>)
  {
    forall row :: row in store ==>
      && ((exists k :: 0 <= k < |groups| && groups[k].bookId == row.info.id) <==> row.ratings != [])
      && (forall k :: 0 <= k < |groups| && groups[k].bookId == row.info.id ==>
            row.ratings != [] && groups[k].avgRate == MeanRate(row.ratings))
  }

  /** Under GroupsAgree, the looked-up average is the mean of the book's own scores, absent without ratings. */
  lemma FindAvgIsMean(groups: seq<AvgGroup>, store: seq<BookRow>, row: BookRow)
    requires GroupsAgree(groups, store)
    requires row in store
    ensures FindAvg(groups, row.info.id) == if row.ratings == [] then None else Some(MeanRate(row.ratings))
  {
  }
}
