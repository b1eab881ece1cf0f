/** The reservation workflow: the guard chains of accept, reject and rate
    (the writes themselves are `Workflow.Store`'s), the driver's view of a
    trip's reservations, and the merged list of a user's upcoming trips. */
module ReservationController {
  import opened Outcomes
  import opened Seqs
  import opened Models
  import opened Tables

  const INVALID_RESERVATION_ID := "El id de la reserva no es válido"
  const RESERVATION_NOT_FOUND := "Reserva no encontrada"
  const NO_ASSOCIATED_TRIP := "Reserva no tiene viaje asociado"
  const NOT_YOUR_RESERVATION := "No tienes permisos para gestionar esta reserva"
  const ALREADY_MANAGED := "La reserva ya fue gestionada"
  const PAST_TRIP := "No se pueden aceptar reservas de un viaje que ya ocurrió"
  const NO_SEATS := "No hay asientos disponibles para este viaje"
  const ACCEPTED := "Reserva aceptada correctamente"
  const REJECTED := "Reserva rechazada correctamente"

  const RATE_INVALID_ID := "ID de reserva inválido"
  const RATING_RANGE := "La calificación debe estar entre 1 y 5"
  const RATE_NO_TRIP := "La reserva no tiene viaje asociado"
  const NOT_YOUR_TRIP_TO_RATE := "No tienes permiso para calificar este viaje"
  const TRIP_NOT_DONE := "Solo puedes calificar viajes que ya ocurrieron"
  const ALREADY_RATED := "Ya calificaste este viaje"
  const RATED := "Calificación registrada correctamente"

  const INVALID_TRIP_ID := "El id de viaje no es válido"
  const TRIP_NOT_FOUND := "Viaje no encontrado"
  const NOT_YOUR_TRIP := "No tienes permisos para ver las reservas de este viaje"

  // ----------------------------------------------------- accept and reject

  /** Where a reservation and its trip sit in their tables. */
  datatype Target = Target(ri: nat, ti: nat)

  ghost predicate Locates(db: Db, rid: int, t: Target) {
    && t.ri < |db.reservations| && t.ti < |db.trips|
    && db.reservations[t.ri].id == rid
    && db.trips[t.ti].id == db.reservations[t.ri].trip_id
  }

  /** Reservation `rid` is pending and lies on a trip that `driver` drives. */
  ghost predicate ManageableBy(db: Db, driver: int, rid: int) {
    exists res, trip :: res in db.reservations && trip in db.trips
      && res.id == rid && trip.id == res.trip_id
      && trip.user_id == driver && res.status == Pending
  }

  /** ... and moreover its trip is still ahead and has a free seat. */
  ghost predicate AcceptableBy(db: Db, driver: int, rid: int, now: int) {
    exists res, trip :: res in db.reservations && trip in db.trips
      && res.id == rid && trip.id == res.trip_id
      && trip.user_id == driver && res.status == Pending
      && trip.departure_time > now && trip.available_seats > 0
  }

  /** The checks accept and reject share, in their order: a caller, a
      numeric id, the reservation, its trip, the caller drives that trip,
      the reservation is still pending. */
  function ManageGuard(db: Db, caller: Option<int>, rid: Option<int>): (r: Result<Target>)
    ensures r.Ok? ==> Authenticated(caller) && rid.Some? && Locates(db, rid.value, r.value)
    ensures r.Ok? ==> db.trips[r.value.ti].user_id == caller.value
    ensures r.Ok? ==> db.reservations[r.value.ri].status == Pending
    ensures !Authenticated(caller) ==> r == Err(Unauthorized)
    ensures Authenticated(caller) && rid.None? ==> r == Err(BadRequest(INVALID_RESERVATION_ID))
    ensures Authenticated(caller) && rid.Some? && FindReservation(db, rid.value).None?
            ==> r == Err(NotFound(RESERVATION_NOT_FOUND))
    ensures Authenticated(caller) && rid.Some? && FindReservation(db, rid.value).Some?
            && FindTrip(db, FindReservation(db, rid.value).value.trip_id).None?
            ==> r == Err(NotFound(NO_ASSOCIATED_TRIP))
    ensures Authenticated(caller) && rid.Some? && FindReservation(db, rid.value).Some?
            && FindTrip(db, FindReservation(db, rid.value).value.trip_id).Some?
            && FindTrip(db, FindReservation(db, rid.value).value.trip_id).value.user_id != caller.value
            ==> r == Err(Forbidden(NOT_YOUR_RESERVATION))
    ensures Authenticated(caller) && rid.Some? && FindReservation(db, rid.value).Some?
            && FindTrip(db, FindReservation(db, rid.value).value.trip_id).Some?
            && FindTrip(db, FindReservation(db, rid.value).value.trip_id).value.user_id == caller.value
            && FindReservation(db, rid.value).value.status != Pending
            ==> r == Err(BadRequest(ALREADY_MANAGED))
    ensures Authenticated(caller) && rid.Some? && FindReservation(db, rid.value).Some?
            && FindTrip(db, FindReservation(db, rid.value).value.trip_id).Some?
            && FindTrip(db, FindReservation(db, rid.value).value.trip_id).value.user_id == caller.value
            && FindReservation(db, rid.value).value.status == Pending
            ==> r.Ok?
    ensures Valid(db) ==>
              (r.Ok? <==> Authenticated(caller) && rid.Some? && ManageableBy(db, caller.value, rid.value))
  {
    if !Authenticated(caller) then Err(Unauthorized)
    else if rid.None? then Err(BadRequest(INVALID_RESERVATION_ID))
    else match FindIndex(db.reservations, ReservationKey, rid.value)
      case None => Err(NotFound(RESERVATION_NOT_FOUND))
      case Some(ri) =>
        var res := db.reservations[ri];
        match FindIndex(db.trips, TripKey, res.trip_id)
        case None => Err(NotFound(NO_ASSOCIATED_TRIP))
        case Some(ti) =>
          var trip := db.trips[ti];
          if trip.user_id != caller.value then Err(Forbidden(NOT_YOUR_RESERVATION))
          else if res.status != Pending then Err(BadRequest(ALREADY_MANAGED))
          else
            ManageGuardComplete(db, caller.value, rid.value);
            Ok(Target(ri, ti))
  }

  /** Under unique ids the first-match lookups see the rows that the
      declarative condition speaks of. */
  lemma ManageGuardComplete(db: Db, driver: int, rid: int)
    ensures Valid(db) && ManageableBy(db, driver, rid) ==>
      && FindIndex(db.reservations, ReservationKey, rid).Some?
      && var res := db.reservations[FindIndex(db.reservations, ReservationKey, rid).value];
         && FindIndex(db.trips, TripKey, res.trip_id).Some?
         && var trip := db.trips[FindIndex(db.trips, TripKey, res.trip_id).value];
            trip.user_id == driver && res.status == Pending
  {
    if Valid(db) && ManageableBy(db, driver, rid) {
      var res, trip :| res in db.reservations && trip in db.trips
        && res.id == rid && trip.id == res.trip_id
        && trip.user_id == driver && res.status == Pending;
      var i :| 0 <= i < |db.reservations| && db.reservations[i] == res;
      var j :| 0 <= j < |db.trips| && db.trips[j] == trip;
      FindUnique(db.reservations, ReservationKey, i);
      FindUnique(db.trips, TripKey, j);
    }
  }

  /** acceptReservation's checks (rejectReservation stops after
      `ManageGuard`): those of `ManageGuard`, then a departure
      still ahead of `now`, then a free seat. */
  function AcceptGuard(db: Db, caller: Option<int>, rid: Option<int>, now: int): (r: Result<Target>)
    ensures ManageGuard(db, caller, rid).Err? ==> r == ManageGuard(db, caller, rid)
    ensures r.Ok? ==> r == ManageGuard(db, caller, rid)
    ensures r.Ok? ==> db.trips[r.value.ti].departure_time > now
    ensures r.Ok? ==> db.trips[r.value.ti].available_seats > 0
    ensures ManageGuard(db, caller, rid).Ok? ==>
              var trip := db.trips[ManageGuard(db, caller, rid).value.ti];
              && (trip.departure_time <= now ==> r == Err(BadRequest(PAST_TRIP)))
              && (trip.departure_time > now && trip.available_seats <= 0 ==> r == Err(BadRequest(NO_SEATS)))
    ensures Valid(db) ==>
              (r.Ok? <==> Authenticated(caller) && rid.Some? && AcceptableBy(db, caller.value, rid.value, now))
  {
    AcceptableIsManageable(db, caller.GetOr(0), rid.GetOr(0), now);
    match ManageGuard(db, caller, rid)
    case Err(e) => Err(e)
    case Ok(t) =>
      var trip := db.trips[t.ti];
      AcceptGuardComplete(db, caller.value, rid.value, now, t);
      if trip.departure_time <= now then Err(BadRequest(PAST_TRIP))
      else if trip.available_seats <= 0 then Err(BadRequest(NO_SEATS))
      else Ok(t)
  }

  lemma AcceptableIsManageable(db: Db, driver: int, rid: int, now: int)
    ensures AcceptableBy(db, driver, rid, now) ==> ManageableBy(db, driver, rid)
  {
  }

  lemma AcceptGuardComplete(db: Db, driver: int, rid: int, now: int, t: Target)
    requires Locates(db, rid, t)
    ensures Valid(db) && AcceptableBy(db, driver, rid, now) ==>
              db.trips[t.ti].departure_time > now && db.trips[t.ti].available_seats > 0
  {
    if Valid(db) && AcceptableBy(db, driver, rid, now) {
      var res, trip :| res in db.reservations && trip in db.trips
        && res.id == rid && trip.id == res.trip_id
        && trip.user_id == driver && res.status == Pending
        && trip.departure_time > now && trip.available_seats > 0;
      var i :| 0 <= i < |db.reservations| && db.reservations[i] == res;
      var j :| 0 <= j < |db.trips| && db.trips[j] == trip;
      assert i == t.ri;
      assert j == t.ti;
    }
  }

  // ----------------------------------------------------------------- rate

  /** rateReservation's checks, in their order, and the calification it
      creates: the rating is checked before any lookup; only the
      reservation's passenger may rate, only once the trip has departed,
      and only once per (trip, passenger). The reservation's status is
      not checked. */
  function RateGuard(db: Db, caller: Option<int>, rid: Option<int>, rating: Option<int>,
                     comment: Option<string>, now: int): (r: Result<Calification>)
    ensures !Authenticated(caller) ==> r == Err(Unauthorized)
    ensures Authenticated(caller) && rid.None? ==> r == Err(BadRequest(RATE_INVALID_ID))
    ensures Authenticated(caller) && rid.Some? && (rating.None? || !ValidScore(rating.value))
            ==> r == Err(BadRequest(RATING_RANGE))
    ensures r.Ok? ==> && Authenticated(caller) && rid.Some? && rating.Some?
                      && FindReservation(db, rid.value).Some?
                      && var res := FindReservation(db, rid.value).value;
                         && FindTrip(db, res.trip_id).Some?
                         && var trip := FindTrip(db, res.trip_id).value;
                            && res.user_id == caller.value
                            && trip.departure_time <= now
                            && !HasCalification(db.califications, trip.id, res.user_id)
                            && r.value == Calification(NextId(db.califications, CalificationKey),
                                                       trip.id, res.user_id, trip.user_id,
                                                       rating.value, comment, now)
    ensures Authenticated(caller) && rid.Some? && rating.Some? && ValidScore(rating.value)
            && FindReservation(db, rid.value).None?
            ==> r == Err(NotFound(RESERVATION_NOT_FOUND))
    ensures Authenticated(caller) && rid.Some? && rating.Some? && ValidScore(rating.value)
            && FindReservation(db, rid.value).Some?
            && FindTrip(db, FindReservation(db, rid.value).value.trip_id).None?
            ==> r == Err(NotFound(RATE_NO_TRIP))
    ensures Authenticated(caller) && rid.Some? && rating.Some? && ValidScore(rating.value)
            && FindReservation(db, rid.value).Some?
            && FindTrip(db, FindReservation(db, rid.value).value.trip_id).Some?
            && FindReservation(db, rid.value).value.user_id != caller.value
            ==> r == Err(Forbidden(NOT_YOUR_TRIP_TO_RATE))
    ensures Authenticated(caller) && rid.Some? && rating.Some? && ValidScore(rating.value)
            && FindReservation(db, rid.value).Some?
            && FindTrip(db, FindReservation(db, rid.value).value.trip_id).Some?
            && FindReservation(db, rid.value).value.user_id == caller.value
            && FindTrip(db, FindReservation(db, rid.value).value.trip_id).value.departure_time > now
            ==> r == Err(BadRequest(TRIP_NOT_DONE))
    ensures Authenticated(caller) && rid.Some? && rating.Some? && ValidScore(rating.value)
            && FindReservation(db, rid.value).Some?
            && FindTrip(db, FindReservation(db, rid.value).value.trip_id).Some?
            && FindReservation(db, rid.value).value.user_id == caller.value
            && FindTrip(db, FindReservation(db, rid.value).value.trip_id).value.departure_time <= now
            && HasCalification(db.califications,
                               FindTrip(db, FindReservation(db, rid.value).value.trip_id).value.id,
                               caller.value)
            ==> r == Err(BadRequest(ALREADY_RATED))
    ensures Authenticated(caller) && rid.Some? && rating.Some? && ValidScore(rating.value)
            && FindReservation(db, rid.value).Some?
            && FindTrip(db, FindReservation(db, rid.value).value.trip_id).Some?
            && FindReservation(db, rid.value).value.user_id == caller.value
            && FindTrip(db, FindReservation(db, rid.value).value.trip_id).value.departure_time <= now
            && !HasCalification(db.califications,
                                FindTrip(db, FindReservation(db, rid.value).value.trip_id).value.id,
                                caller.value)
            ==> r.Ok?
    ensures r.Ok? ==> ValidScore(r.value.score)
    ensures r.Ok? ==> r.value.user_author_id == caller.value
    ensures r.Ok? ==> !HasCalification(db.califications, r.value.trip_id, r.value.user_author_id)
  {
    if !Authenticated(caller) then Err(Unauthorized)
    else if rid.None? then Err(BadRequest(RATE_INVALID_ID))
    else if rating.None? || rating.value < 1 || rating.value > 5 then Err(BadRequest(RATING_RANGE))
    else match FindReservation(db, rid.value)
      case None => Err(NotFound(RESERVATION_NOT_FOUND))
      case Some(res) =>
        match FindTrip(db, res.trip_id)
        case None => Err(NotFound(RATE_NO_TRIP))
        case Some(trip) =>
          if res.user_id != caller.value then Err(Forbidden(NOT_YOUR_TRIP_TO_RATE))
          else if trip.departure_time > now then Err(BadRequest(TRIP_NOT_DONE))
          else if FindCalification(db.califications, trip.id, res.user_id).Some? then Err(BadRequest(ALREADY_RATED))
          else Ok(Calification(NextId(db.califications, CalificationKey),
                               trip.id, res.user_id, trip.user_id, rating.value, comment, now))
  }

  // ------------------------------------------------ reservations of a trip

  /** `findAll({ where: { trip_id } })`: the trip's reservations, in table order. */
  function TripReservations(db: Db, tripId: int): seq<Reservation> {
    Filter(db.reservations, (x: Reservation) => x.trip_id == tripId)
  }

  /** A reservation with its passenger's `id`, `name` and `email` (an outer join). */
  datatype ReservationView = ReservationView(reservation: Reservation, user: Option<UserRef>)

  function ViewOf(db: Db, x: Reservation): (r: ReservationView)
    ensures r.reservation == x
    ensures r.user.Some? ==> exists u :: u in db.users && u.id == x.user_id
                                         && r.user.value == UserRef(u.id, u.name, u.email)
    ensures r.user.None? <==> forall u :: u in db.users ==> u.id != x.user_id
  {
    ReservationView(x, RefOf(db, x.user_id))
  }

  function ViewCreatedAt(v: ReservationView): int { v.reservation.createdAt }

  function Views(db: Db, rs: seq<Reservation>): (r: seq<ReservationView>)
    ensures |r| == |rs|
    ensures forall i :: 0 <= i < |rs| ==> r[i] == ViewOf(db, rs[i])
    ensures forall v :: v in r <==> v.reservation in rs && v == ViewOf(db, v.reservation)
  {
    if rs == [] then []
    else
      assert rs == [rs[0]] + rs[1..];
      [ViewOf(db, rs[0])] + Views(db, rs[1..])
  }

  /** The answer of listReservationsForTrip once its checks pass: the
      trip's reservations joined with their passengers, oldest first. */
  function TripReservationList(db: Db, tripId: int): (r: seq<ReservationView>)
    ensures forall v :: v in r ==>
              v.reservation in db.reservations && v.reservation.trip_id == tripId && v == ViewOf(db, v.reservation)
    ensures forall x :: x in db.reservations && x.trip_id == tripId ==> ViewOf(db, x) in r
    ensures forall i, j :: 0 <= i < j < |r| ==> r[i].reservation.createdAt <= r[j].reservation.createdAt
    ensures multiset(r) == multiset(Views(db, TripReservations(db, tripId)))
  {
    TripReservationMembers(db, tripId);
    TripReservationOrdered(db, tripId);
    SortBy(Views(db, TripReservations(db, tripId)), ViewCreatedAt)
  }

  /** Ordering the joined rows keeps exactly the views of the trip's reservations. */
  lemma TripReservationMembers(db: Db, tripId: int)
    ensures forall v :: v in SortBy(Views(db, TripReservations(db, tripId)), ViewCreatedAt) <==>
              v.reservation in db.reservations && v.reservation.trip_id == tripId && v == ViewOf(db, v.reservation)
  {
    var joined := Views(db, TripReservations(db, tripId));
    SameElements(joined, SortBy(joined, ViewCreatedAt));
  }

  /** The ordered rows are oldest first. */
  lemma TripReservationOrdered(db: Db, tripId: int)
    ensures var sorted := SortBy(Views(db, TripReservations(db, tripId)), ViewCreatedAt);
      forall i, j :: 0 <= i < j < |sorted| ==> sorted[i].reservation.createdAt <= sorted[j].reservation.createdAt
  {
    var sorted := SortBy(Views(db, TripReservations(db, tripId)), ViewCreatedAt);
    assert forall i, j :: 0 <= i < j < |sorted| ==> ViewCreatedAt(sorted[i]) <= ViewCreatedAt(sorted[j]);
  }

  /** listReservationsForTrip: only the trip's driver sees them; the list
      holds each of the trip's reservations once, joined with its
      passenger, oldest first (the join comes before the ordering). */
  function ListReservationsForTrip(db: Db, caller: Option<int>, tripId: Option<int>)
    : (r: Result<seq<ReservationView>>)
    ensures !Authenticated(caller) ==> r == Err(Unauthorized)
    ensures Authenticated(caller) && tripId.None? ==> r == Err(BadRequest(INVALID_TRIP_ID))
    ensures Authenticated(caller) && tripId.Some? && FindTrip(db, tripId.value).None?
            ==> r == Err(NotFound(TRIP_NOT_FOUND))
    ensures Authenticated(caller) && tripId.Some? && FindTrip(db, tripId.value).Some?
            && FindTrip(db, tripId.value).value.user_id != caller.value
            ==> r == Err(Forbidden(NOT_YOUR_TRIP))
    ensures r.Ok? <==> Authenticated(caller) && tripId.Some?
                       && FindTrip(db, tripId.value).Some?
                       && FindTrip(db, tripId.value).value.user_id == caller.value
    ensures r.Ok? ==> forall v :: v in r.value ==>
              v.reservation in db.reservations && v.reservation.trip_id == tripId.value
              && v == ViewOf(db, v.reservation)
    ensures r.Ok? ==> forall x :: x in db.reservations && x.trip_id == tripId.value ==> ViewOf(db, x) in r.value
    ensures r.Ok? ==> forall i, j :: 0 <= i < j < |r.value| ==>
              r.value[i].reservation.createdAt <= r.value[j].reservation.createdAt
    ensures r.Ok? ==> multiset(r.value) == multiset(Views(db, TripReservations(db, tripId.value)))
  {
    if !Authenticated(caller) then Err(Unauthorized)
    else if tripId.None? then Err(BadRequest(INVALID_TRIP_ID))
    else match FindTrip(db, tripId.value)
      case None => Err(NotFound(TRIP_NOT_FOUND))
      case Some(trip) =>
        if trip.user_id != caller.value then Err(Forbidden(NOT_YOUR_TRIP))
        else
          Ok(TripReservationList(db, tripId.value))
  }

  // ------------------------------------------------------- upcoming trips

  /** A reservation joined with its trip and the trip's driver, minus the
      password, as the queries attach them. */
  datatype Booking = Booking(reservation: Reservation, trip: Trip, driver: Option<PublicUser>)

  /** The inner join of the reservations with their trips, in table order;
      the driver join is an outer one. */
  function Join(rs: seq<Reservation>, db: Db): (r: seq<Booking>)
    ensures forall b :: b in r <==>
      b.reservation in rs && FindTrip(db, b.reservation.trip_id) == Some(b.trip) && b.driver == PublicDriver(db, b.trip)
  {
    if rs == [] then []
    else
      var rest := Join(rs[1..], db);
      assert rs == [rs[0]] + rs[1..];
      match FindTrip(db, rs[0].trip_id)
      case Some(t) => [Booking(rs[0], t, PublicDriver(db, t))] + rest
      case None => rest
  }

  /** The join yields a booking as often as its reservation occurs, when the
      booking carries the reservation's stored trip and that trip's driver,
      and never otherwise: one row per reservation whose trip exists. */
  lemma {:induction false} JoinCount(rs: seq<Reservation>, db: Db, b: Booking)
    ensures multiset(Join(rs, db))[b] ==
              if FindTrip(db, b.reservation.trip_id) == Some(b.trip) && b.driver == PublicDriver(db, b.trip)
              then multiset(rs)[b.reservation] else 0
  {
    if rs != [] {
      assert rs == [rs[0]] + rs[1..];
      assert multiset(rs) == multiset{rs[0]} + multiset(rs[1..]);
      JoinCount(rs[1..], db, b);
      match FindTrip(db, rs[0].trip_id)
      case Some(t) =>
        assert Join(rs, db) == [Booking(rs[0], t, PublicDriver(db, t))] + Join(rs[1..], db);
        assert multiset(Join(rs, db)) == multiset{Booking(rs[0], t, PublicDriver(db, t))} + multiset(Join(rs[1..], db));
      case None =>
    }
  }

  function Bookings(db: Db): seq<Booking> {
    Join(db.reservations, db)
  }

  function DepartureOf(b: Booking): int { b.trip.departure_time }

  /** The passenger query: `user`'s confirmed reservations on trips that
      have not departed before `now`. */
  predicate IsPassengerRow(b: Booking, user: int, now: int) {
    b.reservation.user_id == user && b.reservation.status == Confirmed && b.trip.departure_time >= now
  }

  /** The driver query: confirmed reservations on `user`'s trips that have
      not departed before `now`. */
  predicate IsDriverRow(b: Booking, user: int, now: int) {
    b.reservation.status == Confirmed && b.trip.user_id == user && b.trip.departure_time >= now
  }

  function PassengerRows(db: Db, user: int, now: int): seq<Booking> {
    SortBy(Filter(Bookings(db), (b: Booking) => IsPassengerRow(b, user, now)), DepartureOf)
  }

  function DriverRows(db: Db, user: int, now: int): seq<Booking> {
    SortBy(Filter(Bookings(db), (b: Booking) => IsDriverRow(b, user, now)), DepartureOf)
  }

  datatype Role = Passenger | Driver

  /** A passenger entry carries the reservation's status, a driver entry
      the trip's. */
  datatype EntryStatus = OfReservation(reservationStatus: ReservationStatus) | OfTrip(tripStatus: TripStatus)

  /** One element of the upcoming list: keyed by the reservation id for a
      passenger and by the trip id for a driver. */
  datatype Upcoming = Upcoming(id: int, role: Role, status: EntryStatus, trip: Trip, driver: Option<PublicUser>)

  function PassengerEntry(b: Booking): Upcoming {
    Upcoming(b.reservation.id, Passenger, OfReservation(b.reservation.status), b.trip, b.driver)
  }

  function DriverEntry(b: Booking): Upcoming {
    Upcoming(b.trip.id, Driver, OfTrip(b.trip.status), b.trip, b.driver)
  }

  function EntryDeparture(e: Upcoming): int { e.trip.departure_time }

  /** The `.map` that turns passenger rows into entries. */
  function PassengerEntries(rows: seq<Booking>): (r: seq<Upcoming>)
    ensures |r| == |rows|
    ensures forall i :: 0 <= i < |rows| ==> r[i] == PassengerEntry(rows[i])
    ensures forall e :: e in r <==> exists b :: b in rows && e == PassengerEntry(b)
    ensures forall e :: e in r ==> e.role == Passenger
  {
    if rows == [] then []
    else
      assert rows == [rows[0]] + rows[1..];
      [PassengerEntry(rows[0])] + PassengerEntries(rows[1..])
  }

  function EntryIds(es: seq<Upcoming>): set<int> {
    set e | e in es :: e.id
  }

  /** No two entries share an id. */
  ghost predicate DistinctIds(es: seq<Upcoming>) {
    forall i, j :: 0 <= i < j < |es| ==> es[i].id != es[j].id
  }

  /** Row `i` is the first row of its trip. */
  ghost predicate FirstOfTrip(rows: seq<Booking>, i: int) {
    0 <= i < |rows| && forall j :: 0 <= j < i ==> rows[j].trip.id != rows[i].trip.id
  }

  /** What the `driverTripMap` loop leaves behind: one driver entry per trip
      id, built from the trip's first row, in the order trips first appear. */
  function FirstPerTrip(rows: seq<Booking>): seq<Upcoming> {
    if rows == [] then []
    else
      var prev := FirstPerTrip(rows[..|rows| - 1]);
      var b := rows[|rows| - 1];
      if b.trip.id in EntryIds(prev) then prev else prev + [DriverEntry(b)]
  }

  /** No trip id appears twice among the driver entries. */
  lemma {:induction false} FirstPerTripDistinct(rows: seq<Booking>)
    ensures DistinctIds(FirstPerTrip(rows))
  {
    if rows != [] {
      var prev := FirstPerTrip(rows[..|rows| - 1]);
      FirstPerTripDistinct(rows[..|rows| - 1]);
      var t := rows[|rows| - 1].trip;
      if t.id !in EntryIds(prev) {
        var r := prev + [DriverEntry(rows[|rows| - 1])];
        forall i, j | 0 <= i < j < |r| ensures r[i].id != r[j].id {
          assert r[i] == prev[i];
          if j == |prev| {
            assert r[i].id in EntryIds(prev);
          } else {
            assert r[j] == prev[j];
          }
        }
        assert FirstPerTrip(rows) == r;
      } else {
        assert FirstPerTrip(rows) == prev;
      }
    }
  }

  /** Every row's trip has a driver entry. */
  lemma {:induction false} FirstPerTripCovers(rows: seq<Booking>)
    ensures forall i :: 0 <= i < |rows| ==> rows[i].trip.id in EntryIds(FirstPerTrip(rows))
  {
    if rows != [] {
      var n := |rows| - 1;
      var prev := FirstPerTrip(rows[..n]);
      FirstPerTripCovers(rows[..n]);
      var r := FirstPerTrip(rows);
      assert EntryIds(prev) <= EntryIds(r);
      forall i | 0 <= i < n ensures rows[i].trip.id in EntryIds(r) {
        assert rows[..n][i] == rows[i];
      }
      if rows[n].trip.id !in EntryIds(prev) {
        assert DriverEntry(rows[n]) in r;
      }
    }
  }

  /** A row first of its trip in a prefix is first of its trip in the whole. */
  lemma FirstOfTripExtends(rows: seq<Booking>, i: int)
    requires rows != [] && FirstOfTrip(rows[..|rows| - 1], i)
    ensures FirstOfTrip(rows, i) && rows[..|rows| - 1][i] == rows[i]
  {
    var init := rows[..|rows| - 1];
    forall j | 0 <= j < i ensures rows[j].trip.id != rows[i].trip.id {
      assert init[j] == rows[j] && init[i] == rows[i];
    }
  }

  /** Every driver entry is the entry of the first row of its trip. */
  lemma {:induction false} FirstPerTripFirst(rows: seq<Booking>)
    ensures forall e :: e in FirstPerTrip(rows) ==>
              exists i :: FirstOfTrip(rows, i) && e == DriverEntry(rows[i])
  {
    if rows != [] {
      var n := |rows| - 1;
      var init := rows[..n];
      var prev := FirstPerTrip(init);
      var t := rows[n].trip;
      FirstPerTripFirst(init);
      forall e | e in prev ensures exists i :: FirstOfTrip(rows, i) && e == DriverEntry(rows[i]) {
        var i :| FirstOfTrip(init, i) && e == DriverEntry(init[i]);
        FirstOfTripExtends(rows, i);
      }
      if t.id !in EntryIds(prev) {
        FirstPerTripCovers(init);
        assert FirstOfTrip(rows, n) by {
          forall j | 0 <= j < n ensures rows[j].trip.id != t.id {
            assert init[j] == rows[j];
          }
        }
        assert FirstPerTrip(rows) == prev + [DriverEntry(rows[n])];
      } else {
        assert FirstPerTrip(rows) == prev;
      }
    }
  }

  /** The driver half of listMyUpcomingTrips, as the handler computes it: a
      pass over the rows that keeps a trip only the first time its id is
      seen. */
  method DedupeByTrip(rows: seq<Booking>) returns (entries: seq<Upcoming>)
    ensures entries == FirstPerTrip(rows)
  {
    entries := [];
    var seen: set<int> := {};
    var i := 0;
    while i < |rows|
      invariant 0 <= i <= |rows|
      invariant entries == FirstPerTrip(rows[..i])
      invariant seen == EntryIds(entries)
    {
      var t := rows[i].trip;
      assert rows[..i + 1][..i] == rows[..i];
      if t.id !in seen {
        entries := entries + [DriverEntry(rows[i])];
        seen := seen + {t.id};
      }
      i := i + 1;
    }
    assert rows[..|rows|] == rows;
  }

  /** The passenger query returns one row for each of `user`'s confirmed
      reservations on a stored trip departing at or after `now`: a booking
      occurs as often as its reservation is stored, and only when it joins
      that reservation with its own trip and driver. */
  lemma PassengerRowsCount(db: Db, user: int, now: int, b: Booking)
    ensures multiset(PassengerRows(db, user, now))[b] ==
              if IsPassengerRow(b, user, now) && FindTrip(db, b.reservation.trip_id) == Some(b.trip)
                 && b.driver == PublicDriver(db, b.trip)
              then multiset(db.reservations)[b.reservation] else 0
  {
    JoinCount(db.reservations, db, b);
  }

  /** Every passenger entry comes from one of `user`'s confirmed upcoming
      reservations, and every such reservation has its entry. */
  lemma PassengerFacts(db: Db, user: int, now: int)
    ensures var es := PassengerEntries(PassengerRows(db, user, now));
      && (forall e :: e in es ==> e.role == Passenger && e.trip.departure_time >= now)
      && (forall e :: e in es ==>
            exists b :: b in Bookings(db) && IsPassengerRow(b, user, now) && e == PassengerEntry(b))
      && (forall b :: b in Bookings(db) && IsPassengerRow(b, user, now) ==> PassengerEntry(b) in es)
  {
    var sel := Filter(Bookings(db), (b: Booking) => IsPassengerRow(b, user, now));
    var rows := PassengerRows(db, user, now);
    SameElements(sel, rows);
  }

  /** Every driver entry is one of `user`'s trips with a confirmed passenger
      and a departure not before `now`, every such trip has an entry, and
      no trip has two. */
  lemma DriverFacts(db: Db, user: int, now: int)
    ensures var es := FirstPerTrip(DriverRows(db, user, now));
      && (forall e :: e in es ==> e.role == Driver && e.trip.departure_time >= now)
      && (forall e :: e in es ==>
            exists b :: b in Bookings(db) && IsDriverRow(b, user, now) && e == DriverEntry(b))
      && (forall b :: b in Bookings(db) && IsDriverRow(b, user, now) ==> b.trip.id in EntryIds(es))
      && DistinctIds(es)
  {
    var sel := Filter(Bookings(db), (b: Booking) => IsDriverRow(b, user, now));
    var rows := DriverRows(db, user, now);
    var es := FirstPerTrip(rows);
    SameElements(sel, rows);
    FirstPerTripDistinct(rows);
    FirstPerTripCovers(rows);
    FirstPerTripFirst(rows);
    forall e | e in es
      ensures e.role == Driver && e.trip.departure_time >= now
      ensures exists b :: b in Bookings(db) && IsDriverRow(b, user, now) && e == DriverEntry(b)
    {
      var i :| FirstOfTrip(rows, i) && e == DriverEntry(rows[i]);
      assert rows[i] in sel;
    }
    forall b | b in Bookings(db) && IsDriverRow(b, user, now) ensures b.trip.id in EntryIds(es) {
      assert b in rows;
    }
  }

  /** listMyUpcomingTrips: the passenger entries and the de-duplicated
      driver entries, merged and sorted by departure. */
  method ListMyUpcomingTrips(db: Db, caller: Option<int>, now: int) returns (r: Result<seq<Upcoming>>)
    ensures r.Ok? <==> Authenticated(caller)
    ensures r.Err? ==> r.error == Unauthorized
    ensures r.Ok? ==>
      multiset(r.value) == multiset(PassengerEntries(PassengerRows(db, caller.value, now))
                                    + FirstPerTrip(DriverRows(db, caller.value, now)))
    ensures r.Ok? ==> forall i, j :: 0 <= i < j < |r.value| ==>
              r.value[i].trip.departure_time <= r.value[j].trip.departure_time
    ensures r.Ok? ==> forall e :: e in r.value ==> e.trip.departure_time >= now
    ensures r.Ok? ==> forall e :: e in r.value && e.role == Passenger ==>
              exists b :: b in Bookings(db) && IsPassengerRow(b, caller.value, now) && e == PassengerEntry(b)
    ensures r.Ok? ==> forall b :: b in Bookings(db) && IsPassengerRow(b, caller.value, now) ==>
              PassengerEntry(b) in r.value
    ensures r.Ok? ==> forall e :: e in r.value && e.role == Driver ==>
              exists b :: b in Bookings(db) && IsDriverRow(b, caller.value, now) && e == DriverEntry(b)
    ensures r.Ok? ==> forall b :: b in Bookings(db) && IsDriverRow(b, caller.value, now) ==>
              exists e :: e in r.value && e.role == Driver && e.id == b.trip.id
    ensures r.Ok? ==> forall i, j ::
              0 <= i < j < |r.value| && r.value[i].role == Driver && r.value[j].role == Driver
              ==> r.value[i].id != r.value[j].id
  {
    if !Authenticated(caller) {
      return Err(Unauthorized);
    }
    var user := caller.value;
    var asPassenger := PassengerEntries(PassengerRows(db, user, now));
    var asDriver := DedupeByTrip(DriverRows(db, user, now));
    var merged := asPassenger + asDriver;
    var all := SortBy(merged, EntryDeparture);
    assert all == UpcomingList(db, user, now);
    UpcomingPassengers(db, user, now);
    UpcomingDrivers(db, user, now);
    UpcomingDriversDistinct(db, user, now);
    r := Ok(all);
  }

  /** The answer of listMyUpcomingTrips for `user`: the passenger entries
      and the de-duplicated driver entries, sorted by departure. */
  function UpcomingList(db: Db, user: int, now: int): seq<Upcoming> {
    SortBy(PassengerEntries(PassengerRows(db, user, now)) + FirstPerTrip(DriverRows(db, user, now)), EntryDeparture)
  }

  /** The passenger entries of the list are exactly the user's confirmed
      reservations on trips departing at or after `now`. */
  lemma UpcomingPassengers(db: Db, user: int, now: int)
    ensures var all := UpcomingList(db, user, now);
      && (forall e :: e in all && e.role == Passenger ==>
            exists b :: b in Bookings(db) && IsPassengerRow(b, user, now) && e == PassengerEntry(b))
      && (forall b :: b in Bookings(db) && IsPassengerRow(b, user, now) ==> PassengerEntry(b) in all)
      && (forall e :: e in all && e.role == Passenger ==> e.trip.departure_time >= now)
  {
    var asPassenger := PassengerEntries(PassengerRows(db, user, now));
    var asDriver := FirstPerTrip(DriverRows(db, user, now));
    PassengerFacts(db, user, now);
    DriverFacts(db, user, now);
    SameElements(asPassenger + asDriver, UpcomingList(db, user, now));
  }

  /** The driver entries of the list: one per trip of the user's with a
      confirmed passenger and no earlier departure than `now`. */
  lemma UpcomingDrivers(db: Db, user: int, now: int)
    ensures var all := UpcomingList(db, user, now);
      && (forall e :: e in all && e.role == Driver ==>
            exists b :: b in Bookings(db) && IsDriverRow(b, user, now) && e == DriverEntry(b))
      && (forall b :: b in Bookings(db) && IsDriverRow(b, user, now) ==>
            exists e :: e in all && e.role == Driver && e.id == b.trip.id)
      && (forall e :: e in all && e.role == Driver ==> e.trip.departure_time >= now)
  {
    var asPassenger := PassengerEntries(PassengerRows(db, user, now));
    var asDriver := FirstPerTrip(DriverRows(db, user, now));
    var merged := asPassenger + asDriver;
    var all := UpcomingList(db, user, now);
    DriverFacts(db, user, now);
    SameElements(merged, all);
    forall b | b in Bookings(db) && IsDriverRow(b, user, now)
      ensures exists e :: e in all && e.role == Driver && e.id == b.trip.id
    {
      var e :| e in asDriver && e.id == b.trip.id;
      assert e in merged;
    }
  }

  /** No trip appears twice as a driver entry of the list. */
  lemma UpcomingDriversDistinct(db: Db, user: int, now: int)
    ensures var all := UpcomingList(db, user, now);
      forall i, j :: 0 <= i < j < |all| && all[i].role == Driver && all[j].role == Driver
        ==> all[i].id != all[j].id
  {
    var asPassenger := PassengerEntries(PassengerRows(db, user, now));
    var asDriver := FirstPerTrip(DriverRows(db, user, now));
    FirstPerTripDistinct(DriverRows(db, user, now));
    DriverIdsDistinct(asPassenger, asDriver, UpcomingList(db, user, now));
  }

  /** Sorting the concatenation keeps the driver entries' ids distinct. */
  lemma DriverIdsDistinct(asPassenger: seq<Upcoming>, asDriver: seq<Upcoming>, all: seq<Upcoming>)
    requires forall e :: e in asPassenger ==> e.role == Passenger
    requires DistinctIds(asDriver)
    requires multiset(all) == multiset(asPassenger + asDriver)
    ensures forall i, j :: 0 <= i < j < |all| && all[i].role == Driver && all[j].role == Driver
              ==> all[i].id != all[j].id
  {
    var merged := asPassenger + asDriver;
    var isDriver := (e: Upcoming) => e.role == Driver;
    var id := (e: Upcoming) => e.id;
    assert forall k :: 0 <= k < |asPassenger| ==> !isDriver(merged[k]) by {
      forall k | 0 <= k < |asPassenger| ensures !isDriver(merged[k]) {
        assert merged[k] == asPassenger[k];
      }
    }
    forall i, j | 0 <= i < j < |merged| && isDriver(merged[i]) && isDriver(merged[j])
      ensures id(merged[i]) != id(merged[j])
    {
      assert merged[i] == asDriver[i - |asPassenger|];
      assert merged[j] == asDriver[j - |asPassenger|];
    }
    DistinctKeysPermutation(merged, all, isDriver, id);
  }
}
