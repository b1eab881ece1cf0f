/** The persisted entities: users, trips, reservations, califications
    (post-trip ratings) and messages. Relations are id fields; the `Db`
    module resolves them. Every field the schemas declare `allowNull: false`
    is a plain field here; the nullable ones are `Option`s. */
module Models {
  import opened Outcomes

  // ---------------------------------------------------------------- trips

  /** The trip status column, ENUM("published", "full", "canceled", "completed"). */
  datatype TripStatus = Published | Full | Canceled | Completed

  /** Trips are created `published` unless told otherwise. */
  const DEFAULT_TRIP_STATUS: TripStatus := Published

  function TripStatusName(st: TripStatus): string {
    match st
    case Published => "published"
    case Full => "full"
    case Canceled => "canceled"
    case Completed => "completed"
  }

  /** Reads an enum literal; only the four declared names are accepted. */
  function ParseTripStatus(name: string): (r: Option<TripStatus>)
    ensures r.Some? ==> TripStatusName(r.value) == name
    ensures r.None? <==> forall st: TripStatus :: TripStatusName(st) != name
  {
    if name == "published" then Some(Published)
    else if name == "full" then Some(Full)
    else if name == "canceled" then Some(TripStatus.Canceled)
    else if name == "completed" then Some(TripStatus.Completed)
    else None
  }

  /** A published trip. `user_id` is its driver; times are milliseconds. */
  datatype Trip = Trip(
    id: int,
    user_id: int,
    origin: string,
    destination: string,
    departure_time: int,
    price_per_seat: int,
    total_seats: int,
    available_seats: int,
    status: TripStatus)

  /** The seat invariant: a positive capacity and `0 <= available <= total`. */
  predicate SeatsInRange(t: Trip) {
    0 < t.total_seats && 0 <= t.available_seats <= t.total_seats
  }

  /** "Full exactly when no seat is left". */
  predicate FullExactlyWhenEmpty(t: Trip) {
    t.status == Full <==> t.available_seats == 0
  }

  // --------------------------------------------------------- reservations

  /** ENUM("pending", "confirmed", "rejected", "canceled", "not_attended", "completed"). */
  datatype ReservationStatus = Pending | Confirmed | Rejected | Canceled | NotAttended | Completed

  /** Reservations are created `pending`. */
  const DEFAULT_RESERVATION_STATUS: ReservationStatus := Pending

  function ReservationStatusName(st: ReservationStatus): string {
    match st
    case Pending => "pending"
    case Confirmed => "confirmed"
    case Rejected => "rejected"
    case Canceled => "canceled"
    case NotAttended => "not_attended"
    case Completed => "completed"
  }

  function ParseReservationStatus(name: string): (r: Option<ReservationStatus>)
    ensures r.Some? ==> ReservationStatusName(r.value) == name
    ensures r.None? <==> forall st: ReservationStatus :: ReservationStatusName(st) != name
  {
    if name == "pending" then Some(Pending)
    else if name == "confirmed" then Some(Confirmed)
    else if name == "rejected" then Some(Rejected)
    else if name == "canceled" then Some(ReservationStatus.Canceled)
    else if name == "not_attended" then Some(NotAttended)
    else if name == "completed" then Some(ReservationStatus.Completed)
    else None
  }

  /** A passenger's request for a seat on a trip. `rating` and `comment`
      are legacy columns; ratings now live in califications. */
  datatype Reservation = Reservation(
    id: int,
    trip_id: int,
    user_id: int,
    status: ReservationStatus,
    rating: Option<int>,
    comment: Option<string>,
    createdAt: int)

  /** The 1..5 range the schemas validate scores against. */
  predicate ValidScore(n: int) {
    1 <= n <= 5
  }

  /** `rating` may be null; when present it is a valid score. */
  predicate RatingInRange(r: Reservation) {
    r.rating.Some? ==> ValidScore(r.rating.value)
  }

  // --------------------------------------------------------- califications

  /** A rating of `user_receiver_id` (the driver) by `user_author_id` (a
      passenger) for one trip. */
  datatype Calification = Calification(
    id: int,
    trip_id: int,
    user_author_id: int,
    user_receiver_id: int,
    score: int,
    comment: Option<string>,
    createdAt: int)

  // -------------------------------------------------------------- messages

  /** A trip-scoped message from one user to another. */
  datatype Message = Message(
    id: int,
    trip_id: int,
    user_sender_id: int,
    user_receiver_id: int,
    content: string,
    read: bool,
    createdAt: int)

  /** Messages are stored unread. */
  const DEFAULT_READ: bool := false

  // ----------------------------------------------------------------- users

  /** A registered user; `password` holds the bcrypt hash. */
  datatype User = User(
    id: int,
    name: string,
    email: string,
    password: string,
    profile_picture: Option<string>)

  /** A user as the API shows it: every column but the password hash. */
  datatype PublicUser = PublicUser(id: int, name: string, email: string, profile_picture: Option<string>)

  /** The `id`, `name` and `email` of a user, as attached to reservations
      and messages. */
  datatype UserRef = UserRef(id: int, name: string, email: string)

  function WithoutPassword(u: User): PublicUser {
    PublicUser(u.id, u.name, u.email, u.profile_picture)
  }

  /** The public view hides the password and nothing else: two users look
      the same exactly when they differ at most in their password. */
  lemma WithoutPasswordHidesOnlyPassword(u: User, v: User)
    ensures WithoutPassword(u) == WithoutPassword(v) <==> u == v.(password := u.password)
  {
  }
}
