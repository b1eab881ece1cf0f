/** A user's public profile and the ratings the user has received as a driver. */
module UserController {
  import opened Outcomes
  import opened Seqs
  import opened Models
  import opened Tables

  const INVALID_USER_ID := "ID de usuario inválido"
  const USER_NOT_FOUND := "Usuario no encontrado"
  const INVALID_ID := "ID inválido"

  /** getUserById: the user with that id, without the password hash. */
  function GetUserById(db: Db, id: Option<int>): (r: Result<PublicUser>)
    ensures id.None? ==> r == Err(BadRequest(INVALID_USER_ID))
    ensures id.Some? && (forall u :: u in db.users ==> u.id != id.value) ==> r == Err(NotFound(USER_NOT_FOUND))
    ensures r.Ok? ==> id.Some? && exists u :: u in db.users && u.id == id.value && r.value == WithoutPassword(u)
    ensures r.Ok? ==> r.value.id == id.value
    ensures id.Some? && (exists u :: u in db.users && u.id == id.value) ==> r.Ok?
    ensures Valid(db) ==> forall u :: u in db.users && id == Some(u.id) ==> r == Ok(WithoutPassword(u))
  {
    if id.None? then Err(BadRequest(INVALID_USER_ID))
    else match FindUser(db, id.value)
      case None => Err(NotFound(USER_NOT_FOUND))
      case Some(u) =>
        UserLookupUnique(db, u);
        Ok(WithoutPassword(u))
  }

  /** With unique ids, the user found is the only one holding the id. */
  lemma UserLookupUnique(db: Db, u: User)
    requires u in db.users
    ensures Valid(db) ==> forall v :: v in db.users && v.id == u.id ==> v == u
  {
    if Valid(db) {
      forall v | v in db.users && v.id == u.id ensures v == u {
        var i :| 0 <= i < |db.users| && db.users[i] == u;
        var j :| 0 <= j < |db.users| && db.users[j] == v;
        assert UserKey(db.users[i]) == UserKey(db.users[j]);
      }
    }
  }

  // ------------------------------------------------------------- ratings

  /** The author's `id` and `name`, attached to each rating. */
  datatype AuthorView = AuthorView(id: int, name: string)

  /** The rated trip's `origin`, `destination` and `departure_time`. */
  datatype TripView = TripView(origin: string, destination: string, departure_time: int)

  /** One rating as the API returns it; both joins are outer joins. */
  datatype RatingView = RatingView(calification: Calification, author: Option<AuthorView>, trip: Option<TripView>)

  datatype RatingsSummary = RatingsSummary(average: real, total: nat, ratings: seq<RatingView>)

  /** A rating's view keeps the row and carries the id and name of its
      stored author and the origin, destination and departure of its stored
      trip, each absent exactly when no stored row has that id. */
  function ViewOf(db: Db, c: Calification): (r: RatingView)
    ensures r.calification == c
    ensures r.author.Some? ==> exists u :: u in db.users && u.id == c.user_author_id && r.author.value == AuthorView(u.id, u.name)
    ensures r.author.None? <==> forall u :: u in db.users ==> u.id != c.user_author_id
    ensures r.trip.Some? ==> exists t :: t in db.trips && t.id == c.trip_id
                                         && r.trip.value == TripView(t.origin, t.destination, t.departure_time)
    ensures r.trip.None? <==> forall t :: t in db.trips ==> t.id != c.trip_id
  {
    RatingView(c,
               match FindUser(db, c.user_author_id) case Some(u) => Some(AuthorView(u.id, u.name)) case None => None,
               match FindTrip(db, c.trip_id)
               case Some(t) => Some(TripView(t.origin, t.destination, t.departure_time))
               case None => None)
  }

  function Views(db: Db, cs: seq<Calification>): (r: seq<RatingView>)
    ensures |r| == |cs|
    ensures forall i :: 0 <= i < |cs| ==> r[i] == ViewOf(db, cs[i])
    ensures forall v :: v in r <==> v.calification in cs && v == ViewOf(db, v.calification)
  {
    if cs == [] then []
    else
      assert cs == [cs[0]] + cs[1..];
      [ViewOf(db, cs[0])] + Views(db, cs[1..])
  }

  /** A view occurs among the views as often as its calification occurs
      among the califications, and a view no calification yields does not
      occur. */
  lemma {:induction false} ViewsCount(db: Db, cs: seq<Calification>, v: RatingView)
    ensures multiset(Views(db, cs))[v] == if v == ViewOf(db, v.calification) then multiset(cs)[v.calification] else 0
  {
    if cs != [] {
      ViewsHead(db, cs);
      ViewsCount(db, cs[1..], v);
      if v == ViewOf(db, cs[0]) {
        assert v.calification == cs[0];
      }
    }
  }

  /** Splitting off the first calification splits off its view. */
  lemma ViewsHead(db: Db, cs: seq<Calification>)
    requires cs != []
    ensures multiset(cs) == multiset{cs[0]} + multiset(cs[1..])
    ensures multiset(Views(db, cs)) == multiset{ViewOf(db, cs[0])} + multiset(Views(db, cs[1..]))
  {
    assert cs == [cs[0]] + cs[1..];
    assert Views(db, cs) == [ViewOf(db, cs[0])] + Views(db, cs[1..]);
  }

  /** Reordering the ratings reorders their views: the same views, each as
      often as before. */
  lemma ViewsPermutation(db: Db, cs: seq<Calification>, ds: seq<Calification>)
    requires multiset(cs) == multiset(ds)
    ensures multiset(Views(db, cs)) == multiset(Views(db, ds))
  {
    forall v ensures multiset(Views(db, cs))[v] == multiset(Views(db, ds))[v] {
      ViewsCount(db, cs, v);
      ViewsCount(db, ds, v);
    }
  }

  function SumScores(cs: seq<Calification>): int {
    if cs == [] then 0 else cs[0].score + SumScores(cs[1..])
  }

  /** The arithmetic mean of the scores; 0 when there are none. */
  function Average(cs: seq<Calification>): real {
    if |cs| > 0 then SumScores(cs) as real / |cs| as real else 0.0
  }

  /** Scores in 1..5 add up to between one and five times their number. */
  lemma {:induction false} SumScoresBounds(cs: seq<Calification>)
    requires forall c :: c in cs ==> ValidScore(c.score)
    ensures |cs| <= SumScores(cs) <= 5 * |cs|
  {
    if cs != [] {
      assert cs[0] in cs;
      SumScoresBounds(cs[1..]);
    }
  }

  /** The average of valid scores lies in 1..5. */
  lemma AverageInRange(cs: seq<Calification>)
    requires forall c :: c in cs ==> ValidScore(c.score)
    requires cs != []
    ensures 1.0 <= Average(cs) <= 5.0
  {
    SumScoresBounds(cs);
    var n := |cs| as real;
    var s := SumScores(cs) as real;
    QuotientBounds(s, n);
  }

  /** A quotient of a sum between `n` and `5 n` by a positive `n`. */
  lemma QuotientBounds(s: real, n: real)
    requires 0.0 < n && n <= s <= 5.0 * n
    ensures 1.0 <= s / n <= 5.0
  {
    var q := s / n;
    assert q * n == s;
    assert (q - 1.0) * n == s - n;
    assert (5.0 - q) * n == 5.0 * n - s;
    PositiveFactor(q - 1.0, n);
    PositiveFactor(5.0 - q, n);
  }

  /** A product with a positive factor that is not negative has a
      non-negative other factor. */
  lemma PositiveFactor(x: real, n: real)
    requires 0.0 < n && x * n >= 0.0
    ensures x >= 0.0
  {
  }

  /** Reordering the ratings does not change their sum. */
  lemma {:induction false} SumScoresPermutation(cs: seq<Calification>, ds: seq<Calification>)
    requires multiset(cs) == multiset(ds)
    ensures SumScores(cs) == SumScores(ds)
    decreases |cs|
  {
    if cs != [] {
      var x := cs[0];
      assert cs == [x] + cs[1..];
      assert x in multiset(ds);
      var i :| 0 <= i < |ds| && ds[i] == x;
      var rest := ds[..i] + ds[i + 1..];
      SumScoresRemoveAt(ds, i);
      MultisetRemoveAt(ds, i);
      assert multiset(cs[1..]) == multiset(cs) - multiset{x};
      SumScoresPermutation(cs[1..], rest);
    }
  }

  /** Taking one rating out of a sequence: the rest sums to the total
      minus that score. */
  lemma SumScoresRemoveAt(ds: seq<Calification>, i: int)
    requires 0 <= i < |ds|
    ensures SumScores(ds) == ds[i].score + SumScores(ds[..i] + ds[i + 1..])
  {
    var a, x, b := ds[..i], ds[i], ds[i + 1..];
    SumScoresMiddle(ds, a, x, b);
  }

  lemma SumScoresMiddle(ds: seq<Calification>, a: seq<Calification>, x: Calification, b: seq<Calification>)
    requires ds == a + ([x] + b)
    ensures SumScores(ds) == x.score + SumScores(a + b)
  {
    assert ([x] + b)[1..] == b;
    SumScoresSplit(a, [x] + b);
    SumScoresSplit(a, b);
  }

  lemma {:induction false} SumScoresSplit(a: seq<Calification>, b: seq<Calification>)
    ensures SumScores(a + b) == SumScores(a) + SumScores(b)
  {
    if a == [] {
      assert a + b == b;
    } else {
      assert (a + b)[1..] == a[1..] + b;
      SumScoresSplit(a[1..], b);
    }
  }

  function NewestFirst(c: Calification): int { -c.createdAt }

  /** The califications `user` received, in table order. */
  function ReceivedBy(db: Db, user: int): seq<Calification> {
    Filter(db.califications, (c: Calification) => c.user_receiver_id == user)
  }

  /** Ordering ratings newest first keeps them all and keeps their average. */
  lemma NewestFirstOrder(cs: seq<Calification>)
    ensures var ordered := SortBy(cs, NewestFirst);
      && multiset(ordered) == multiset(cs)
      && (forall i, j :: 0 <= i < j < |ordered| ==> ordered[i].createdAt >= ordered[j].createdAt)
      && Average(ordered) == Average(cs)
  {
    var ordered := SortBy(cs, NewestFirst);
    SumScoresPermutation(ordered, cs);
    assert forall i, j :: 0 <= i < j < |ordered| ==> NewestFirst(ordered[i]) <= NewestFirst(ordered[j]);
  }

  /** The received califications, newest first, are exactly those of the
      table addressed to `user`, and their average lies in 1..5 when there
      is any. */
  lemma NewestFirstFacts(db: Db, user: int)
    ensures var ordered := SortBy(ReceivedBy(db, user), NewestFirst);
      && (forall c :: c in ordered <==> c in db.califications && c.user_receiver_id == user)
      && (forall i, j :: 0 <= i < j < |ordered| ==> ordered[i].createdAt >= ordered[j].createdAt)
      && Average(ordered) == Average(ReceivedBy(db, user))
      && (Valid(db) && ordered != [] ==> 1.0 <= Average(ordered) <= 5.0)
  {
    var received := ReceivedBy(db, user);
    var ordered := SortBy(received, NewestFirst);
    NewestFirstOrder(received);
    SameElements(received, ordered);
    if Valid(db) && ordered != [] {
      assert forall c :: c in ordered ==> ValidScore(c.score);
      AverageInRange(ordered);
    }
  }

  /** getUserRatings: the califications received by the user, newest first,
      with their number and average. The id is not looked up: an unknown
      user simply has no ratings. */
  function GetUserRatings(db: Db, id: Option<int>): (r: Result<RatingsSummary>)
    ensures id.None? <==> r == Err(BadRequest(INVALID_ID))
    ensures r.Err? ==> id.None?
    ensures r.Ok? ==> r.value.total == |r.value.ratings|
    ensures r.Ok? ==> forall v :: v in r.value.ratings ==>
              v.calification in db.califications && v.calification.user_receiver_id == id.value
              && v == ViewOf(db, v.calification)
    ensures r.Ok? ==> forall c :: c in db.califications && c.user_receiver_id == id.value ==>
              ViewOf(db, c) in r.value.ratings
    ensures r.Ok? ==> forall i, j :: 0 <= i < j < |r.value.ratings| ==>
              r.value.ratings[i].calification.createdAt >= r.value.ratings[j].calification.createdAt
    ensures r.Ok? ==> r.value.total == |ReceivedBy(db, id.value)|
    ensures r.Ok? ==> multiset(r.value.ratings) == multiset(Views(db, ReceivedBy(db, id.value)))
    ensures r.Ok? ==> r.value.average == Average(ReceivedBy(db, id.value))
    ensures r.Ok? && r.value.total == 0 ==> r.value.average == 0.0
    ensures r.Ok? && r.value.total > 0 && Valid(db) ==> 1.0 <= r.value.average <= 5.0
  {
    if id.None? then Err(BadRequest(INVALID_ID))
    else
      var ordered := SortBy(ReceivedBy(db, id.value), NewestFirst);
      NewestFirstFacts(db, id.value);
      ViewsPermutation(db, ordered, ReceivedBy(db, id.value));
      Ok(RatingsSummary(Average(ordered), |ordered|, Views(db, ordered)))
  }
}
