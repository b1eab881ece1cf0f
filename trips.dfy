/** Publishing a trip and searching the published trips. */
module TripController {
  import opened Outcomes
  import opened Seqs
  import opened Text
  import opened Models
  import opened Tables

  const REQUIRED_FIELDS := "origin, destination, departure_time, price_per_seat y total_seats son requeridos"
  const TOTAL_SEATS_POSITIVE := "total_seats debe ser mayor a cero"
  const AVAILABLE_SEATS_RANGE := "available_seats debe estar entre 0 y total_seats"
  const INVALID_DEPARTURE := "departure_time debe ser una fecha válida"
  const CREATE_FAILED := "Error al publicar viaje"
  const INVALID_DATE := "date debe ser una fecha válida (YYYY-MM-DD)"
  const LIST_FAILED := "Error al obtener viajes"

  // ---------------------------------------------------------- createTrip

  /** The `departure_time` field as `new Date` reads it: absent or empty,
      a string that is not a date, or an instant in milliseconds. */
  datatype Departure = Missing | Unparseable | At(time: int)

  /** The request body of createTrip. Strings are "" when absent; `status`
      is the raw string the client sent, if any. */
  datatype NewTripBody = NewTripBody(
    origin: string,
    destination: string,
    departure: Departure,
    price_per_seat: Option<int>,
    total_seats: Option<int>,
    available_seats: Option<int>,
    status: Option<string>)

  /** The required fields are present: non-empty strings and non-zero numbers. */
  predicate HasRequiredFields(b: NewTripBody) {
    b.origin != [] && b.destination != [] && !b.departure.Missing?
    && Truthy(b.price_per_seat) && Truthy(b.total_seats)
  }

  /** The seats the trip opens with: the given number, else all of them. */
  function SeatsOffered(b: NewTripBody): int
    requires b.total_seats.Some?
  {
    b.available_seats.GetOr(b.total_seats.value)
  }

  /** createTrip: validates the body in the handler's order (required fields,
      a positive capacity, the available seats within it, a readable date)
      and builds the row `Trip.create` inserts. A status outside the enum is
      refused by the database, which the handler reports as a server error. */
  function NewTrip(db: Db, caller: Option<int>, b: NewTripBody): (r: Result<Trip>)
    ensures !Authenticated(caller) ==> r == Err(Unauthorized)
    ensures Authenticated(caller) && !HasRequiredFields(b) ==> r == Err(BadRequest(REQUIRED_FIELDS))
    ensures Authenticated(caller) && HasRequiredFields(b) && b.total_seats.value <= 0
            ==> r == Err(BadRequest(TOTAL_SEATS_POSITIVE))
    ensures Authenticated(caller) && HasRequiredFields(b) && b.total_seats.value > 0
            && !(0 <= SeatsOffered(b) <= b.total_seats.value)
            ==> r == Err(BadRequest(AVAILABLE_SEATS_RANGE))
    ensures Authenticated(caller) && HasRequiredFields(b) && b.total_seats.value > 0
            && 0 <= SeatsOffered(b) <= b.total_seats.value && b.departure.Unparseable?
            ==> r == Err(BadRequest(INVALID_DEPARTURE))
    ensures r.Ok? <==> Authenticated(caller) && HasRequiredFields(b) && b.total_seats.value > 0
                       && 0 <= SeatsOffered(b) <= b.total_seats.value && b.departure.At?
                       && (b.status.Some? ==> ParseTripStatus(b.status.value).Some?)
    ensures Authenticated(caller) && HasRequiredFields(b) && b.total_seats.value > 0
            && 0 <= SeatsOffered(b) <= b.total_seats.value && b.departure.At?
            && b.status.Some? && ParseTripStatus(b.status.value).None?
            ==> r == Err(ServerError(CREATE_FAILED))
    ensures r.Ok? ==> SeatsInRange(r.value)
    ensures r.Ok? ==> && r.value.user_id == caller.value
                      && r.value.origin == b.origin && r.value.destination == b.destination
                      && r.value.departure_time == b.departure.time
                      && r.value.price_per_seat == b.price_per_seat.value
                      && r.value.total_seats == b.total_seats.value
    ensures r.Ok? && b.available_seats.None? ==> r.value.available_seats == r.value.total_seats
    ensures r.Ok? && b.available_seats.Some? ==> r.value.available_seats == b.available_seats.value
    ensures r.Ok? && b.status.None? ==> r.value.status == DEFAULT_TRIP_STATUS
    ensures r.Ok? && b.status.Some? ==> TripStatusName(r.value.status) == b.status.value
    ensures r.Ok? ==> forall t :: t in db.trips ==> t.id != r.value.id
  {
    if !Authenticated(caller) then Err(Unauthorized)
    else if !HasRequiredFields(b) then Err(BadRequest(REQUIRED_FIELDS))
    else if b.total_seats.value <= 0 then Err(BadRequest(TOTAL_SEATS_POSITIVE))
    else
      var seats := SeatsOffered(b);
      if seats < 0 || seats > b.total_seats.value then Err(BadRequest(AVAILABLE_SEATS_RANGE))
      else if !b.departure.At? then Err(BadRequest(INVALID_DEPARTURE))
      else
        var status := if b.status.None? then Some(DEFAULT_TRIP_STATUS) else ParseTripStatus(b.status.value);
        match status
        case None => Err(ServerError(CREATE_FAILED))
        case Some(st) =>
          Ok(Trip(NextId(db.trips, TripKey), caller.value, b.origin, b.destination, b.departure.time,
                  b.price_per_seat.value, b.total_seats.value, seats, st))
  }

  // ----------------------------------------------------------- listTrips

  /** The `date` query parameter: absent or empty, not a date, or a day
      given by the instant of its local midnight. */
  datatype DateQuery = NoDate | InvalidDate | Day(start: int)

  /** From 00:00:00.000 to 23:59:59.999 of the same day, in milliseconds. */
  const END_OF_DAY_OFFSET: int := 86_399_999

  /** The query string of listTrips; absent parameters are "". */
  datatype TripQuery = TripQuery(origin: string, destination: string, date: DateQuery, status: string)

  /** The `where` object the handler assembles. */
  datatype Where = Where(
    origin: Option<string>,
    destination: Option<string>,
    status: string,
    window: Option<(int, int)>)

  function OptionalPattern(s: string): Option<string> {
    if s == [] then None else Some(s)
  }

  function BuildWhere(q: TripQuery): Where
    requires !q.date.InvalidDate?
  {
    Where(OptionalPattern(q.origin), OptionalPattern(q.destination),
          if q.status == [] then TripStatusName(DEFAULT_TRIP_STATUS) else q.status,
          if q.date.Day? then Some((q.date.start, q.date.start + END_OF_DAY_OFFSET)) else None)
  }

  /** How the database evaluates the `where`: ILIKE '%…%' for the place
      names, equality for the status, BETWEEN (inclusive) for the window. */
  predicate MatchesWhere(w: Where, t: Trip) {
    && (w.origin.Some? ==> ILikeContains(t.origin, w.origin.value))
    && (w.destination.Some? ==> ILikeContains(t.destination, w.destination.value))
    && TripStatusName(t.status) == w.status
    && (w.window.Some? ==> w.window.value.0 <= t.departure_time <= w.window.value.1)
  }

  /** What a search promises, stated without the `where` object: the given
      place names occur in the trip's, ignoring ASCII case; the trip has the
      requested status, `published` when none is given; and it departs on
      the requested day. */
  ghost predicate TripSelected(q: TripQuery, t: Trip) {
    && PlaceMatches(t.origin, q.origin)
    && PlaceMatches(t.destination, q.destination)
    && (if q.status == [] then t.status == Published else TripStatusName(t.status) == q.status)
    && (q.date.Day? ==> q.date.start <= t.departure_time < q.date.start + 86_400_000)
  }

  /** A place name given in the search occurs in the trip's, ignoring ASCII
      case; an absent one matches every trip. */
  ghost predicate PlaceMatches(value: string, pattern: string) {
    pattern != [] ==> exists k :: OccursAt(Lower(value), Lower(pattern), k)
  }

  lemma MatchesWhereIff(q: TripQuery, t: Trip)
    requires !q.date.InvalidDate?
    ensures MatchesWhere(BuildWhere(q), t) <==> TripSelected(q, t)
  {
    var w := BuildWhere(q);
    PatternMatchIff(t.origin, q.origin);
    PatternMatchIff(t.destination, q.destination);
    StatusMatchIff(q.status, t.status);
    assert w.origin == OptionalPattern(q.origin) && w.destination == OptionalPattern(q.destination);
    assert (w.window.Some? ==> w.window.value.0 <= t.departure_time <= w.window.value.1)
       <==> (q.date.Day? ==> q.date.start <= t.departure_time < q.date.start + 86_400_000);
  }

  /** The status condition of the `where`: the requested name, or
      `published` when none is given. */
  lemma StatusMatchIff(status: string, st: TripStatus)
    ensures TripStatusName(st) == (if status == [] then TripStatusName(DEFAULT_TRIP_STATUS) else status)
            <==> (if status == [] then st == Published else TripStatusName(st) == status)
  {
    if status == [] && TripStatusName(st) == "published" {
      assert st == Published;
    }
  }

  /** One place-name condition of the `where`: present exactly when the
      query gives a name, and then an ILIKE match. */
  lemma PatternMatchIff(value: string, pattern: string)
    ensures (OptionalPattern(pattern).Some? ==> ILikeContains(value, OptionalPattern(pattern).value))
            <==> PlaceMatches(value, pattern)
  {
    ILikeContainsIff(value, pattern);
  }

  /** A trip in the answer, with its driver minus the password. The driver
      join is an outer one: a trip whose driver is gone is still listed. */
  datatype Listing = Listing(trip: Trip, driver: Option<PublicUser>)

  function ListingOf(db: Db, t: Trip): Listing {
    Listing(t, PublicDriver(db, t))
  }

  function ListingDeparture(l: Listing): int { l.trip.departure_time }

  function Listings(db: Db, ts: seq<Trip>): (r: seq<Listing>)
    ensures |r| == |ts|
    ensures forall i :: 0 <= i < |ts| ==> r[i] == ListingOf(db, ts[i])
    ensures forall l :: l in r <==> l.trip in ts && l == ListingOf(db, l.trip)
  {
    if ts == [] then []
    else
      assert ts == [ts[0]] + ts[1..];
      [ListingOf(db, ts[0])] + Listings(db, ts[1..])
  }

  /** The trips the query with this `where` returns, in table order. */
  function Selection(db: Db, w: Where): seq<Trip> {
    Filter(db.trips, (t: Trip) => MatchesWhere(w, t))
  }

  /** The rows the built `where` selects are exactly the trips the query asks for. */
  lemma SelectionIff(db: Db, q: TripQuery)
    requires !q.date.InvalidDate?
    ensures forall t :: t in Selection(db, BuildWhere(q)) <==> t in db.trips && TripSelected(q, t)
  {
    forall t ensures MatchesWhere(BuildWhere(q), t) <==> TripSelected(q, t) {
      MatchesWhereIff(q, t);
    }
  }

  /** Sorting the listings of some trips keeps exactly those listings, in
      ascending departure order. */
  lemma SortedListings(db: Db, rows: seq<Trip>)
    ensures var out := SortBy(Listings(db, rows), ListingDeparture);
      && (forall l :: l in out <==> l.trip in rows && l == ListingOf(db, l.trip))
      && (forall i, j :: 0 <= i < j < |out| ==> out[i].trip.departure_time <= out[j].trip.departure_time)
  {
    SortedListingsMembers(db, rows);
    SortedListingsOrdered(db, rows);
  }

  lemma SortedListingsMembers(db: Db, rows: seq<Trip>)
    ensures forall l :: l in SortBy(Listings(db, rows), ListingDeparture) <==>
              l.trip in rows && l == ListingOf(db, l.trip)
  {
    SameElements(Listings(db, rows), SortBy(Listings(db, rows), ListingDeparture));
  }

  lemma SortedListingsOrdered(db: Db, rows: seq<Trip>)
    ensures var out := SortBy(Listings(db, rows), ListingDeparture);
      forall i, j :: 0 <= i < j < |out| ==> out[i].trip.departure_time <= out[j].trip.departure_time
  {
    var out := SortBy(Listings(db, rows), ListingDeparture);
    assert forall i, j :: 0 <= i < j < |out| ==> ListingDeparture(out[i]) <= ListingDeparture(out[j]);
  }

  /** listTrips: the `where` is filled in field by field; an unreadable
      date is refused before the query runs; a status outside the enum makes
      the query fail; otherwise the answer is every selected trip, with its
      driver, earliest departure first. */
  method ListTrips(db: Db, q: TripQuery) returns (r: Result<seq<Listing>>)
    ensures q.date.InvalidDate? ==> r == Err(BadRequest(INVALID_DATE))
    ensures !q.date.InvalidDate? && q.status != [] && ParseTripStatus(q.status).None?
            ==> r == Err(ServerError(LIST_FAILED))
    ensures r.Ok? <==> !q.date.InvalidDate? && (q.status == [] || ParseTripStatus(q.status).Some?)
    ensures r.Ok? ==> forall l :: l in r.value ==>
              l.trip in db.trips && TripSelected(q, l.trip) && l == ListingOf(db, l.trip)
    ensures r.Ok? ==> forall t :: t in db.trips && TripSelected(q, t) ==> ListingOf(db, t) in r.value
    ensures r.Ok? ==> forall i, j :: 0 <= i < j < |r.value| ==>
              r.value[i].trip.departure_time <= r.value[j].trip.departure_time
    ensures r.Ok? ==> multiset(r.value) == multiset(Listings(db, Selection(db, BuildWhere(q))))
  {
    var w := Where(None, None, "", None);
    if q.origin != [] {
      w := w.(origin := Some(q.origin));
    }
    if q.destination != [] {
      w := w.(destination := Some(q.destination));
    }
    if q.status != [] {
      w := w.(status := q.status);
    } else {
      w := w.(status := TripStatusName(DEFAULT_TRIP_STATUS));
    }
    match q.date {
      case InvalidDate =>
        return Err(BadRequest(INVALID_DATE));
      case Day(start) =>
        w := w.(window := Some((start, start + END_OF_DAY_OFFSET)));
      case NoDate =>
    }
    assert w == BuildWhere(q);
    if ParseTripStatus(w.status).None? {
      return Err(ServerError(LIST_FAILED));
    }
    var rows := Selection(db, w);
    SelectionIff(db, q);
    SortedListings(db, rows);
    r := Ok(SortBy(Listings(db, rows), ListingDeparture));
  }
}
