/** The writes of the controllers, on a store whose tables the handlers
    update in place: accepting and rejecting a reservation, rating a trip,
    publishing a trip and sending a message. Each handler runs its guard
    (the functions of the controller modules) on the current state and
    either leaves every table as it was or performs exactly its update. */
module Workflow {
  import opened Outcomes
  import opened Seqs
  import opened Models
  import opened Tables
  import RC = ReservationController
  import TC = TripController
  import MC = MessageController

  /** The trip once an accepted reservation takes one of its seats: it is
      marked full when that was the last seat and keeps its status otherwise. */
  function TakeSeat(t: Trip): (r: Trip)
    ensures r.(available_seats := t.available_seats, status := t.status) == t
    ensures r.available_seats == t.available_seats - 1
    ensures r.status != t.status ==> r.status == Full && r.available_seats == 0
    ensures r.available_seats == 0 ==> r.status == Full
  {
    var seats := t.available_seats - 1;
    t.(available_seats := seats, status := if seats == 0 then Full else t.status)
  }

  /** Taking a free seat keeps the seat range, and a trip that was full
      exactly when empty stays so. */
  lemma TakeSeatInvariants(t: Trip)
    requires t.available_seats > 0
    ensures SeatsInRange(t) ==> SeatsInRange(TakeSeat(t))
    ensures FullExactlyWhenEmpty(t) ==> FullExactlyWhenEmpty(TakeSeat(t))
    ensures TakeSeat(t).available_seats == 0 ==> TakeSeat(t).status == Full
    ensures TakeSeat(t).id == t.id && TakeSeat(t).user_id == t.user_id
  {
  }

  /** The tables after accepting the reservation at `t.ri` on the trip at `t.ti`. */
  function Accepted(db: Db, t: RC.Target): Db
    requires t.ri < |db.reservations| && t.ti < |db.trips|
  {
    db.(reservations := db.reservations[t.ri := db.reservations[t.ri].(status := Confirmed)],
        trips := db.trips[t.ti := TakeSeat(db.trips[t.ti])])
  }

  /** Accepting a pending reservation on a trip with a free seat keeps
      the store invariant. */
  lemma AcceptedValid(db: Db, t: RC.Target)
    requires Valid(db)
    requires t.ri < |db.reservations| && t.ti < |db.trips|
    requires db.trips[t.ti].available_seats > 0
    ensures Valid(Accepted(db, t))
  {
    var db' := Accepted(db, t);
    var res := db.reservations[t.ri];
    var trip := db.trips[t.ti];
    TakeSeatInvariants(trip);
    UpdateSameKey(db.reservations, ReservationKey, t.ri, res.(status := Confirmed));
    UpdateSameKey(db.trips, TripKey, t.ti, TakeSeat(trip));
    assert forall x :: x in db'.trips ==> x == TakeSeat(trip) || x in db.trips;
    assert forall x :: x in db'.reservations ==> x == res.(status := Confirmed) || x in db.reservations;
    assert RatingInRange(res.(status := Confirmed)) by { assert res in db.reservations; }
  }

  class Store {
    var users: seq<User>
    var trips: seq<Trip>
    var reservations: seq<Reservation>
    var califications: seq<Calification>
    var messages: seq<Message>

    /** The tables as one value, for the guards to read. */
    function State(): Db
      reads this
    {
      Db(users, trips, reservations, califications, messages)
    }

    ghost predicate Valid()
      reads this
    {
      Tables.Valid(State())
    }

    constructor(initial: Db)
      requires Tables.Valid(initial)
      ensures State() == initial
      ensures Valid()
    {
      users := initial.users;
      trips := initial.trips;
      reservations := initial.reservations;
      califications := initial.califications;
      messages := initial.messages;
    }

    /** acceptReservation: the reservation becomes confirmed and its trip
        loses one seat; nothing else changes. On any refusal nothing changes. */
    method AcceptReservation(caller: Option<int>, rid: Option<int>, now: int) returns (r: Result<string>)
      requires Valid()
      modifies this
      ensures Valid()
      ensures match RC.AcceptGuard(old(State()), caller, rid, now)
        case Err(e) => r == Err(e) && State() == old(State())
        case Ok(t) =>
          && r == Ok(RC.ACCEPTED)
          && reservations == old(reservations)[t.ri := old(reservations)[t.ri].(status := Confirmed)]
          && trips == old(trips)[t.ti := TakeSeat(old(trips)[t.ti])]
          && users == old(users) && califications == old(califications) && messages == old(messages)
          && trips[t.ti].available_seats == old(trips)[t.ti].available_seats - 1
          && (FullExactlyWhenEmpty(old(trips)[t.ti]) ==> FullExactlyWhenEmpty(trips[t.ti]))
    {
      match RC.AcceptGuard(State(), caller, rid, now)
      case Err(e) =>
        r := Err(e);
      case Ok(t) =>
        var res := reservations[t.ri];
        var trip := trips[t.ti];
        TakeSeatInvariants(trip);
        AcceptedValid(State(), t);
        reservations := reservations[t.ri := res.(status := Confirmed)];
        trips := trips[t.ti := TakeSeat(trip)];
        r := Ok(RC.ACCEPTED);
        assert State() == Accepted(old(State()), t);
    }

    /** rejectReservation: the reservation becomes rejected; the seats are
        not touched; nothing else changes. */
    method RejectReservation(caller: Option<int>, rid: Option<int>) returns (r: Result<string>)
      requires Valid()
      modifies this
      ensures Valid()
      ensures match RC.ManageGuard(old(State()), caller, rid)
        case Err(e) => r == Err(e) && State() == old(State())
        case Ok(t) =>
          && r == Ok(RC.REJECTED)
          && reservations == old(reservations)[t.ri := old(reservations)[t.ri].(status := Rejected)]
          && trips == old(trips)
          && users == old(users) && califications == old(califications) && messages == old(messages)
    {
      match RC.ManageGuard(State(), caller, rid)
      case Err(e) =>
        r := Err(e);
      case Ok(t) =>
        var res := reservations[t.ri];
        UpdateSameKey(reservations, ReservationKey, t.ri, res.(status := Rejected));
        reservations := reservations[t.ri := res.(status := Rejected)];
        r := Ok(RC.REJECTED);
        assert forall x :: x in reservations ==> x == res.(status := Rejected) || x in old(reservations);
    }

    /** rateReservation: one calification is appended; nothing else changes. */
    method RateReservation(caller: Option<int>, rid: Option<int>, rating: Option<int>,
                           comment: Option<string>, now: int) returns (r: Result<string>)
      requires Valid()
      modifies this
      ensures Valid()
      ensures match RC.RateGuard(old(State()), caller, rid, rating, comment, now)
        case Err(e) => r == Err(e) && State() == old(State())
        case Ok(c) =>
          && r == Ok(RC.RATED)
          && califications == old(califications) + [c]
          && users == old(users) && trips == old(trips)
          && reservations == old(reservations) && messages == old(messages)
    {
      match RC.RateGuard(State(), caller, rid, rating, comment, now)
      case Err(e) =>
        r := Err(e);
      case Ok(c) =>
        AppendFresh(califications, CalificationKey, c);
        AppendNewPair(califications, c);
        califications := califications + [c];
        r := Ok(RC.RATED);
    }

    /** createTrip: the new trip is appended and returned; nothing else changes. */
    method CreateTrip(caller: Option<int>, body: TC.NewTripBody) returns (r: Result<Trip>)
      requires Valid()
      modifies this
      ensures Valid()
      ensures r == TC.NewTrip(old(State()), caller, body)
      ensures r.Err? ==> State() == old(State())
      ensures r.Ok? ==> && trips == old(trips) + [r.value]
                        && users == old(users) && reservations == old(reservations)
                        && califications == old(califications) && messages == old(messages)
    {
      r := TC.NewTrip(State(), caller, body);
      if r.Ok? {
        AppendFresh(trips, TripKey, r.value);
        trips := trips + [r.value];
      }
    }

    /** sendMessage: the new message is appended and returned; nothing else
        changes. */
    method SendMessage(caller: Option<int>, body: MC.MessageBody, now: int) returns (r: Result<Message>)
      requires Valid()
      modifies this
      ensures Valid()
      ensures r == MC.NewMessage(old(State()), caller, body, now)
      ensures r.Err? ==> State() == old(State())
      ensures r.Ok? ==> && messages == old(messages) + [r.value]
                        && users == old(users) && trips == old(trips)
                        && reservations == old(reservations) && califications == old(califications)
    {
      r := MC.NewMessage(State(), caller, body, now);
      if r.Ok? {
        var m := r.value;
        assert m.content != [];
        AppendFresh(messages, MessageKey, m);
        messages := messages + [m];
        assert forall x :: x in messages ==> x in old(messages) || x == m;
      }
    }
  }

  // ------------------------------------------------- sequences of requests

  /** The lookups of the guards see the same rows after an update that
      keeps every primary key. */
  lemma SameLookups(db: Db, db': Db)
    requires db'.users == db.users
    requires |db'.trips| == |db.trips| && forall i :: 0 <= i < |db.trips| ==> db'.trips[i].id == db.trips[i].id
    requires |db'.reservations| == |db.reservations|
    requires forall i :: 0 <= i < |db.reservations| ==> db'.reservations[i].id == db.reservations[i].id
    ensures forall k :: FindIndex(db'.trips, TripKey, k) == FindIndex(db.trips, TripKey, k)
    ensures forall k :: FindIndex(db'.reservations, ReservationKey, k) == FindIndex(db.reservations, ReservationKey, k)
  {
    forall k ensures FindIndex(db'.trips, TripKey, k) == FindIndex(db.trips, TripKey, k) {
      FindIndexSameKeys(db'.trips, db.trips, TripKey, k);
    }
    forall k ensures FindIndex(db'.reservations, ReservationKey, k) == FindIndex(db.reservations, ReservationKey, k) {
      FindIndexSameKeys(db'.reservations, db.reservations, ReservationKey, k);
    }
  }

  /** Once accepted, a reservation is no longer pending: both accept and
      reject refuse it as already managed. */
  lemma AcceptedIsManaged(db: Db, caller: Option<int>, rid: Option<int>, now: int)
    requires RC.AcceptGuard(db, caller, rid, now).Ok?
    ensures var db' := Accepted(db, RC.AcceptGuard(db, caller, rid, now).value);
      && RC.ManageGuard(db', caller, rid) == Err(BadRequest(RC.ALREADY_MANAGED))
      && RC.AcceptGuard(db', caller, rid, now) == Err(BadRequest(RC.ALREADY_MANAGED))
  {
    var t := RC.AcceptGuard(db, caller, rid, now).value;
    var db' := Accepted(db, t);
    SameLookups(db, db');
    assert FindIndex(db'.reservations, ReservationKey, rid.value) == Some(t.ri);
    assert FindIndex(db'.trips, TripKey, db'.reservations[t.ri].trip_id) == Some(t.ti);
    assert db'.trips[t.ti].user_id == caller.value;
    assert db'.reservations[t.ri].status == Confirmed;
    assert RC.ManageGuard(db', caller, rid) == Err(BadRequest(RC.ALREADY_MANAGED));
  }

  /** A reservation is managed once: after it has been accepted, accepting
      it again is refused as already managed, and so is rejecting it. */
  method AcceptThenManageAgain(s: Store, caller: Option<int>, rid: Option<int>, now: int)
    returns (first: Result<string>, again: Result<string>, reject: Result<string>)
    requires s.Valid()
    modifies s
    ensures s.Valid()
    ensures first.Ok? ==> again == Err(BadRequest(RC.ALREADY_MANAGED))
    ensures first.Ok? ==> reject == Err(BadRequest(RC.ALREADY_MANAGED))
  {
    ghost var db0 := s.State();
    first := s.AcceptReservation(caller, rid, now);
    ghost var db1 := s.State();
    if first.Ok? {
      AcceptedIsManaged(db0, caller, rid, now);
      assert db1 == Accepted(db0, RC.AcceptGuard(db0, caller, rid, now).value);
    }
    again := s.AcceptReservation(caller, rid, now);
    assert s.State() == db1;
    reject := s.RejectReservation(caller, rid);
  }

  /** A passenger rates a trip once: after a rating has been recorded, the
      same request is refused as already rated. */
  method RateTwice(s: Store, caller: Option<int>, rid: Option<int>, rating: Option<int>,
                   comment: Option<string>, now: int)
    returns (first: Result<string>, second: Result<string>)
    requires s.Valid()
    modifies s
    ensures s.Valid()
    ensures first.Ok? ==> second == Err(BadRequest(RC.ALREADY_RATED))
  {
    ghost var db0 := s.State();
    first := s.RateReservation(caller, rid, rating, comment, now);
    if first.Ok? {
      var c := RC.RateGuard(db0, caller, rid, rating, comment, now).value;
      assert c in s.califications;
      assert HasCalification(s.califications, c.trip_id, c.user_author_id);
    }
    second := s.RateReservation(caller, rid, rating, comment, now);
  }

  /** Two pending reservations `rid` and `other` of one trip of `caller`'s
      that has one seat left, which `rid` may take. */
  ghost predicate OneSeatTwoRequests(db: Db, caller: Option<int>, rid: Option<int>, other: Option<int>, now: int) {
    && RC.AcceptGuard(db, caller, rid, now).Ok?
    && RC.ManageGuard(db, caller, other).Ok?
    && rid != other
    && RC.ManageGuard(db, caller, other).value.ti == RC.AcceptGuard(db, caller, rid, now).value.ti
    && db.trips[RC.AcceptGuard(db, caller, rid, now).value.ti].available_seats == 1
  }

  /** Accepting the reservation at `t` leaves the verdict of accept's and
      reject's shared checks on any other reservation id unchanged: only
      that reservation's status and its trip's seats move, and the checks
      read the other reservation's status and the trip's driver. */
  lemma OtherVerdictUnchanged(db: Db, caller: Option<int>, other: Option<int>, t: RC.Target)
    requires t.ri < |db.reservations| && t.ti < |db.trips|
    requires other.Some? ==> FindIndex(db.reservations, ReservationKey, other.value) != Some(t.ri)
    ensures RC.ManageGuard(Accepted(db, t), caller, other) == RC.ManageGuard(db, caller, other)
  {
    var db' := Accepted(db, t);
    SameLookups(db, db');
    if Authenticated(caller) && other.Some? {
      match FindIndex(db.reservations, ReservationKey, other.value)
      case None =>
      case Some(ri) =>
        assert db'.reservations[ri] == db.reservations[ri];
        match FindIndex(db.trips, TripKey, db.reservations[ri].trip_id)
        case None =>
        case Some(ti) =>
          assert db'.trips[ti].user_id == db.trips[ti].user_id;
    }
  }

  /** Once `rid` is accepted, the guard refuses `other` for lack of seats. */
  lemma LastSeatTaken(db: Db, caller: Option<int>, rid: Option<int>, other: Option<int>, now: int)
    requires OneSeatTwoRequests(db, caller, rid, other, now)
    ensures RC.AcceptGuard(Accepted(db, RC.AcceptGuard(db, caller, rid, now).value), caller, other, now)
            == Err(BadRequest(RC.NO_SEATS))
  {
    var t := RC.AcceptGuard(db, caller, rid, now).value;
    var u := RC.ManageGuard(db, caller, other).value;
    assert u.ri != t.ri;
    OtherVerdictUnchanged(db, caller, other, t);
    var db' := Accepted(db, t);
    assert db'.trips[u.ti] == TakeSeat(db.trips[t.ti]);
  }

  /** The last seat: when accepting one reservation takes the last seat of
      its trip, accepting another pending reservation of that trip is
      refused for lack of seats. */
  method LastSeat(s: Store, caller: Option<int>, rid: Option<int>, other: Option<int>, now: int)
    returns (first: Result<string>, second: Result<string>)
    requires s.Valid()
    modifies s
    ensures s.Valid()
    ensures OneSeatTwoRequests(old(s.State()), caller, rid, other, now) ==> first.Ok?
    ensures OneSeatTwoRequests(old(s.State()), caller, rid, other, now) ==> second == Err(BadRequest(RC.NO_SEATS))
  {
    ghost var db0 := s.State();
    first := s.AcceptReservation(caller, rid, now);
    if OneSeatTwoRequests(db0, caller, rid, other, now) {
      LastSeatTaken(db0, caller, rid, other, now);
      assert s.State() == Accepted(db0, RC.AcceptGuard(db0, caller, rid, now).value);
    }
    second := s.AcceptReservation(caller, other, now);
  }
}
