/**
 * `GET /books/popular`: the four books with the most ratings, each with its
 * average and without its rating list. `orderBy: { ratings: { _count: 'desc' } }`
 * with `take: 4` becomes a stable sort by rating count followed by a prefix.
 */
module PopularBooks {
  import opened Domain

  /** `take: 4`. */
  const PopularLimit: nat := 4

  /** A popular book: its own fields (the `ratings` field removed) and its average. */
  datatype PopularBook = PopularBook(info: BookInfo, avgRating: Option<real>)

  function RatingCount(row: BookRow): nat
  {
    |row.ratings|
  }

  predicate CountDescending(rows: seq<BookRow>)
  {
    forall i, j :: 0 <= i < j < |rows| ==> RatingCount(rows[i]) >= RatingCount(rows[j])
  }

  lemma ConsDescending(first: BookRow, rest: seq<BookRow>)
    requires CountDescending(rest)
    requires forall k :: 0 <= k < |rest| ==> RatingCount(rest[k]) <= RatingCount(first)
    ensures CountDescending([first] + rest)
  {
    var r := [first] + rest;
    forall i, j | 0 <= i < j < |r| ensures RatingCount(r[i]) >= RatingCount(r[j]) {
      assert r[j] == rest[j - 1];
      if i > 0 { assert r[i] == rest[i - 1]; }
    }
  }

  /** A permutation of `tail` plus `row` has no element with more ratings than `first` when neither had. */
  lemma BoundedByFirst(first: BookRow, row: BookRow, tail: seq<BookRow>, rest: seq<BookRow>)
    requires multiset(rest) == multiset(tail) + multiset{row}
    requires RatingCount(row) <= RatingCount(first)
    requires forall k :: 0 <= k < |tail| ==> RatingCount(tail[k]) <= RatingCount(first)
    ensures forall k :: 0 <= k < |rest| ==> RatingCount(rest[k]) <= RatingCount(first)
  {
    forall k | 0 <= k < |rest| ensures RatingCount(rest[k]) <= RatingCount(first) {
      assert rest[k] in multiset(rest);
      if rest[k] != row {
        assert rest[k] in multiset(tail);
      }
    }
  }

  /** Places `row` before the first element that has no more ratings than it. */
  function Insert(row: BookRow, sorted: seq<BookRow>): (r: seq<BookRow>)
    requires CountDescending(sorted)
    ensures CountDescending(r)
    ensures multiset(r) == multiset(sorted) + multiset{row}
    ensures |r| == |sorted| + 1
  {
    if sorted == [] then [row]
    else if RatingCount(row) >= RatingCount(sorted[0]) then
      ConsDescending(row, sorted);
      [row] + sorted
    else
      var rest := Insert(row, sorted[1..]);
      assert sorted == [sorted[0]] + sorted[1..];
      BoundedByFirst(sorted[0], row, sorted[1..], rest);
      ConsDescending(sorted[0], rest);
      [sorted[0]] + rest
  }

  /** The table ordered by rating count, descending; rows with equal counts keep table order. */
  function SortByCount(store: seq<BookRow>): (r: seq<BookRow>)
    ensures CountDescending(r)
    ensures multiset(r) == multiset(store)
    ensures |r| == |store|
  {
    if store == [] then []
    else
      assert store == [store[0]] + store[1..];
      Insert(store[0], SortByCount(store[1..]))
  }

  /**
   * The first `n` elements of a count-descending permutation of the table:
   * they come from the table, and every one of them has at least as many
   * ratings as any row left out.
   */
  lemma PrefixDominates(store: seq<BookRow>, sorted: seq<BookRow>, n: nat)
    requires CountDescending(sorted) && multiset(sorted) == multiset(store)
    requires n <= |sorted|
    ensures multiset(sorted[..n]) <= multiset(store)
    ensures forall b, c :: b in sorted[..n] && c in multiset(store) - multiset(sorted[..n]) ==>
      RatingCount(b) >= RatingCount(c)
  {
    assert sorted == sorted[..n] + sorted[n..];
    assert multiset(store) - multiset(sorted[..n]) == multiset(sorted[n..]);
    forall b, c | b in sorted[..n] && c in multiset(sorted[n..]) ensures RatingCount(b) >= RatingCount(c) {
      var i :| 0 <= i < n && sorted[i] == b;
      var j :| 0 <= j < |sorted| - n && sorted[n..][j] == c;
      assert sorted[n + j] == c;
    }
  }

  /** The `findMany` result: at most four rows, most-rated first. */
  function TopBooks(store: seq<BookRow>): (r: seq<BookRow>)
    ensures |r| == if |store| < PopularLimit then |store| else PopularLimit
    ensures CountDescending(r)
    ensures multiset(r) <= multiset(store)
    ensures forall b, c :: b in r && c in multiset(store) - multiset(r) ==> RatingCount(b) >= RatingCount(c)
  {
    var sorted := SortByCount(store);
    var n := if |store| < PopularLimit then |store| else PopularLimit;
    PrefixDominates(store, sorted, n);
    sorted[..n]
  }

  function Ids(rows: seq<BookRow>): (ids: seq<BookId>)
    ensures |ids| == |rows|
    ensures forall i :: 0 <= i < |rows| ==> ids[i] == rows[i].info.id
  {
    seq(|rows|, i requires 0 <= i < |rows| => rows[i].info.id)
  }

  /** `groupBy` restricted by `where: { bookId: { in: ids } }`. */
  function RestrictGroups(groups: seq<AvgGroup>, ids: seq<BookId>): (r: seq<AvgGroup>)
    ensures forall k :: 0 <= k < |r| ==> r[k].bookId in ids
    ensures forall k :: 0 <= k < |groups| && groups[k].bookId in ids ==> groups[k] in r
    ensures forall g :: multiset(r)[g] == if g.bookId in ids then multiset(groups)[g] else 0
    ensures IsSubsequence(r, groups)
  {
    Filter(groups, (g: AvgGroup) => g.bookId in ids)
  }

  /** Restricting the groups to a set of ids does not change the average found for any of those ids. */
  lemma {:induction false} RestrictKeepsAverage(groups: seq<AvgGroup>, ids: seq<BookId>, id: BookId)
    requires id in ids
    ensures FindAvg(RestrictGroups(groups, ids), id) == FindAvg(groups, id)
  {
    if groups != [] {
      RestrictKeepsAverage(groups[1..], ids, id);
    }
  }

  /** `booksWithAvgRating`: each row without its ratings, with the average of its group. */
  function Shape(rows: seq<BookRow>, groups: seq<AvgGroup>): (r: seq<PopularBook>)
    ensures |r| == |rows|
    ensures forall i :: 0 <= i < |rows| ==>
      && r[i].info == rows[i].info
      && r[i].avgRating == FindAvg(groups, rows[i].info.id)
      && (r[i].avgRating.None? <==> forall k :: 0 <= k < |groups| ==> groups[k].bookId != rows[i].info.id)
  {
    seq(|rows|, i requires 0 <= i < |rows| => PopularBook(rows[i].info, FindAvg(groups, rows[i].info.id)))
  }

  /** The handler: 405 for anything but GET, otherwise at most four shaped books. */
  function ListPopular(verb: string, store: seq<BookRow>, allGroups: seq<AvgGroup>): (r: Response<seq<PopularBook>>)
    ensures verb != "GET" <==> r == MethodNotAllowed
    ensures !r.Unauthorized?
    ensures r.Status() == if verb != "GET" then 405 else 200
    ensures r.Ok? ==> |r.body| <= PopularLimit && |r.body| <= |store|
  {
    if verb != "GET" then MethodNotAllowed
    else
      var books := TopBooks(store);
      Ok(Shape(books, RestrictGroups(allGroups, Ids(books))))
  }

  /**
   * Every popular entry is a row of the table, entries are ordered by rating
   * count, no row left out has more ratings than an entry, and when the groups
   * agree with the table each entry carries the mean of its scores.
   */
  lemma {:induction false} PopularIsMostRated(store: seq<BookRow>, allGroups: seq<AvgGroup>)
    requires GroupsAgree(allGroups, store)
    ensures var body := ListPopular("GET", store, allGroups).body;
      var top := TopBooks(store);
      && |body| == |top|
      && CountDescending(top)
      && (forall i :: 0 <= i < |top| ==> top[i] in store && body[i].info == top[i].info)
      && (forall i, c :: 0 <= i < |top| && c in multiset(store) - multiset(top) ==> RatingCount(top[i]) >= RatingCount(c))
      && (forall i :: 0 <= i < |top| ==>
            body[i].avgRating == if top[i].ratings == [] then None else Some(MeanRate(top[i].ratings)))
  {
    var top := TopBooks(store);
    var ids := Ids(top);
    forall i | 0 <= i < |top| ensures top[i] in store {
      assert top[i] in multiset(top);
    }
    forall i | 0 <= i < |top|
      ensures FindAvg(RestrictGroups(allGroups, ids), top[i].info.id)
        == if top[i].ratings == [] then None else Some(MeanRate(top[i].ratings))
    {
      assert top[i] in multiset(top);
      assert ids[i] == top[i].info.id;
      RestrictKeepsAverage(allGroups, ids, top[i].info.id);
      FindAvgIsMean(allGroups, store, top[i]);
    }
  }
}
