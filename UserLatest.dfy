/**
 * `GET /ratings/user-latest`: the signed-in user's most recent rating, with
 * its book, or null. `findFirst` ordered by `createdAt` descending becomes a
 * maximum-by-date selection over the rating rows passed in.
 */
module UserLatest {
  import opened Domain

  /** A rating row with its book included. */
  datatype RatingWithBook = RatingWithBook(rating: Rating, book: BookInfo)

  /**
   * The first of the user's rows with the greatest `createdAt`. The store's own
   * order among equal timestamps is unspecified; the model takes the earliest row.
   */
  function Latest(rows: seq<RatingWithBook>, user: UserId): (r: Option<RatingWithBook>)
    ensures r.None? <==> forall k :: 0 <= k < |rows| ==> rows[k].rating.userId != user
    ensures r.Some? ==> r.value in rows && r.value.rating.userId == user
    ensures r.Some? ==> forall k :: 0 <= k < |rows| && rows[k].rating.userId == user ==>
      rows[k].rating.createdAt <= r.value.rating.createdAt
  {
    if rows == [] then None
    else
      var rest := Latest(rows[1..], user);
      assert forall k :: 1 <= k < |rows| ==> rows[k] == rows[1..][k - 1];
      if rows[0].rating.userId != user then rest
      else if rest.Some? && rest.value.rating.createdAt > rows[0].rating.createdAt then rest
      else Some(rows[0])
  }

  /** The handler: 405 for anything but GET, 401 without a session, otherwise the latest rating or null. */
  function UserLatestRating(verb: string, session: Option<UserId>, rows: seq<RatingWithBook>)
    : (r: Response<Option<RatingWithBook>>)
    ensures verb != "GET" <==> r == MethodNotAllowed
    ensures r == Unauthorized <==> verb == "GET" && session.None?
    ensures r.Ok? ==> session.Some?
    ensures r.Status() == if verb != "GET" then 405 else if session.None? then 401 else 200
    ensures r.Ok? ==> (r.body.None? <==> forall k :: 0 <= k < |rows| ==> rows[k].rating.userId != session.value)
    ensures r.Ok? && r.body.Some? ==> r.body.value in rows && r.body.value.rating.userId == session.value
    ensures r.Ok? && r.body.Some? ==> forall k :: 0 <= k < |rows| && rows[k].rating.userId == session.value ==>
      rows[k].rating.createdAt <= r.body.value.rating.createdAt
  {
    if verb != "GET" then MethodNotAllowed
    else if session.None? then Unauthorized
    else Ok(Latest(rows, session.value))
  }

  /** The rating lookup is not consulted without a session: the answer does not depend on the rows. */
  lemma UnauthorizedIgnoresRows(rows1: seq<RatingWithBook>, rows2: seq<RatingWithBook>)
    ensures UserLatestRating("GET", None, rows1) == UserLatestRating("GET", None, rows2) == Unauthorized
  {
  }

  /** A rating of another user, inserted anywhere among the rows, never affects the answer. */
  lemma {:induction false} OtherUsersIrrelevant(rows: seq<RatingWithBook>, k: nat, user: UserId, other: RatingWithBook)
    requires k <= |rows|
    requires other.rating.userId != user
    ensures Latest(rows[..k] + [other] + rows[k..], user) == Latest(rows, user)
  {
    var extended := rows[..k] + [other] + rows[k..];
    if k == 0 {
      assert extended[0] == other && extended[1..] == rows;
    } else {
      assert extended[0] == rows[0];
      assert extended[1..] == rows[1..][..k - 1] + [other] + rows[1..][k - 1..];
      assert rows == [rows[0]] + rows[1..];
      OtherUsersIrrelevant(rows[1..], k - 1, user, other);
    }
  }
}
