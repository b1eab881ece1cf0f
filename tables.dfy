/** The entity store: one table per entity, each a sequence of records in
    insertion order, looked up by primary key. `Valid` collects what the
    schemas and the controllers together keep true of every stored row. */
module Tables {
  import opened Outcomes
  import opened Seqs
  import opened Models

  datatype Db = Db(
    users: seq<User>,
    trips: seq<Trip>,
    reservations: seq<Reservation>,
    califications: seq<Calification>,
    messages: seq<Message>)

  // The primary-key columns.
  function UserKey(u: User): int { u.id }
  function TripKey(t: Trip): int { t.id }
  function ReservationKey(r: Reservation): int { r.id }
  function CalificationKey(c: Calification): int { c.id }
  function MessageKey(m: Message): int { m.id }

  /** `User.findByPk(id)`. */
  function FindUser(db: Db, id: int): (r: Option<User>)
    ensures r.Some? ==> r.value in db.users && r.value.id == id
    ensures r.None? <==> forall u :: u in db.users ==> u.id != id
  {
    match FindIndex(db.users, UserKey, id)
    case Some(i) => Some(db.users[i])
    case None => None
  }

  /** `Trip.findByPk(id)`. */
  function FindTrip(db: Db, id: int): (r: Option<Trip>)
    ensures r.Some? ==> r.value in db.trips && r.value.id == id
    ensures r.None? <==> forall t :: t in db.trips ==> t.id != id
  {
    match FindIndex(db.trips, TripKey, id)
    case Some(i) => Some(db.trips[i])
    case None => None
  }

  /** `Reservation.findByPk(id)`. */
  function FindReservation(db: Db, id: int): (r: Option<Reservation>)
    ensures r.Some? ==> r.value in db.reservations && r.value.id == id
    ensures r.None? <==> forall x :: x in db.reservations ==> x.id != id
  {
    match FindIndex(db.reservations, ReservationKey, id)
    case Some(i) => Some(db.reservations[i])
    case None => None
  }

  /** The `driver` association of a trip: the user its `user_id` names. */
  function Driver(db: Db, t: Trip): (r: Option<User>)
    ensures r.Some? ==> r.value in db.users && r.value.id == t.user_id
    ensures r.None? <==> forall u :: u in db.users ==> u.id != t.user_id
  {
    FindUser(db, t.user_id)
  }

  /** The driver as the API attaches it: without the password, and absent
      when the user row is gone. */
  function PublicDriver(db: Db, t: Trip): Option<PublicUser> {
    match Driver(db, t) case Some(u) => Some(WithoutPassword(u)) case None => None
  }

  /** The short form of user `id`, absent when there is no such user. */
  function RefOf(db: Db, id: int): (r: Option<UserRef>)
    ensures r.Some? ==> exists u :: u in db.users && u.id == id && r.value == UserRef(u.id, u.name, u.email)
    ensures r.None? <==> forall u :: u in db.users ==> u.id != id
  {
    match FindUser(db, id) case Some(u) => Some(UserRef(u.id, u.name, u.email)) case None => None
  }

  /** The duplicate-rating lookup: a calification of `tripId` by `author`. */
  predicate HasCalification(cs: seq<Calification>, tripId: int, author: int) {
    exists c :: c in cs && c.trip_id == tripId && c.user_author_id == author
  }

  /** `findOne` on califications by trip and author: a stored calification
      of that pair, absent exactly when the pair has none. */
  function FindCalification(cs: seq<Calification>, tripId: int, author: int): (r: Option<Calification>)
    ensures r.Some? ==> r.value in cs && r.value.trip_id == tripId && r.value.user_author_id == author
    ensures r.None? <==> !HasCalification(cs, tripId, author)
  {
    if cs == [] then None
    else if cs[0].trip_id == tripId && cs[0].user_author_id == author then Some(cs[0])
    else
      var rest := FindCalification(cs[1..], tripId, author);
      assert forall c :: c in cs ==> c == cs[0] || c in cs[1..];
      rest
  }

  /** At most one calification per (trip, author). */
  ghost predicate OneCalificationPerTripAndAuthor(cs: seq<Calification>) {
    forall i, j :: 0 <= i < j < |cs| ==>
      cs[i].trip_id != cs[j].trip_id || cs[i].user_author_id != cs[j].user_author_id
  }

  /** What every stored row satisfies: unique primary keys, the seat range
      of every trip, the 1..5 range of every score and rating, one
      calification per (trip, author), and non-empty message content. */
  ghost predicate Valid(db: Db) {
    && UniqueKeys(db.users, UserKey)
    && UniqueKeys(db.trips, TripKey)
    && UniqueKeys(db.reservations, ReservationKey)
    && UniqueKeys(db.califications, CalificationKey)
    && UniqueKeys(db.messages, MessageKey)
    && (forall t :: t in db.trips ==> SeatsInRange(t))
    && (forall r :: r in db.reservations ==> RatingInRange(r))
    && (forall c :: c in db.califications ==> ValidScore(c.score))
    && OneCalificationPerTripAndAuthor(db.califications)
    && (forall m :: m in db.messages ==> m.content != [])
  }

  /** Adding a calification whose (trip, author) pair is new keeps the
      one-per-pair rule. */
  lemma AppendNewPair(cs: seq<Calification>, c: Calification)
    requires OneCalificationPerTripAndAuthor(cs)
    requires !HasCalification(cs, c.trip_id, c.user_author_id)
    ensures OneCalificationPerTripAndAuthor(cs + [c])
  {
    var t := cs + [c];
    forall i, j | 0 <= i < j < |t|
      ensures t[i].trip_id != t[j].trip_id || t[i].user_author_id != t[j].user_author_id
    {
      assert t[i] == cs[i];
      if j < |cs| {
        assert t[j] == cs[j];
      } else {
        assert cs[i] in cs;
      }
    }
  }
}
