# Carpooling backend: reservation workflow, trips, ratings and messages

A Dafny model of the core of a carpooling REST backend: drivers publish trips,
passengers reserve seats, drivers accept or reject reservations, passengers
rate trips that have taken place, and users exchange trip-scoped messages.

The persistent state is one store of five tables (users, trips, reservations,
califications, messages), each a sequence of records in insertion order, with
integer ids and id fields for relations (`Tables.Db`). `Tables.Valid` collects
what every stored row satisfies and what every write keeps:
- the ids are unique;
- every trip has `0 < total_seats` and `0 <= available_seats <= total_seats`;
- scores and ratings lie in 1..5;
- there is at most one calification per (trip, author);
- message content is non-empty.

Each handler becomes:
- a guard function: the fail-fast chain of checks, in the handler's order and
  with the handler's messages, returning `Result` (`Unauthorized`,
  `BadRequest`, `Forbidden`, `NotFound`, `ServerError`, or `Ok`);
- a query function (or a method, where the handler builds its answer step by
  step) for the read-only handlers;
- a method of `Workflow.Store` for the handlers that write. It stores nothing
  when the guard refuses, performs exactly its update when the guard passes,
  and keeps `Valid()`.

Inputs are modelled as follows:
- The authenticated caller is an `Option<int>`; `None` and `0` are refused,
  as `!userId` refuses them.
- A path id is an `Option<int>`, with `None` standing for `NaN`.
- Body numbers are `Option<int>` and follow JavaScript truthiness.
- Absent strings are "".
- The current time `now` is an integer parameter in milliseconds.

Modules:
- `Outcomes`: Option, Result, authentication.
- `Seqs`: filter, lookup by key, next id, stable sort.
- `Text`: JavaScript `trim`, ASCII `ILIKE '%…%'`.
- `Models`: the schemas.
- `Tables`: the store and its invariant.
- `ReservationController`, `TripController`, `UserController` and
  `MessageController`: the handlers.
- `Workflow`: the store class and sequences of requests.

## Model

| member | source | states |
|---|---|---|
| Models.ParseTripStatus | src/models/Trip.ts:21-25 | a status literal is accepted exactly when it names one of the four enum values `published`, `full`, `canceled`, `completed` |
| Models.ParseReservationStatus | src/models/Reservation.ts:28-39 | a status literal is accepted exactly when it names one of the six enum values |
| Models.WithoutPasswordHidesOnlyPassword | src/controllers/userController.ts:21-24 | two users have the same public view exactly when they differ at most in their password: the projection drops the password and nothing else |
| Tables.FindTrip | src/controllers/messageController.ts:35-42 | `findByPk`: a trip with the requested id if one is stored, and none exactly when no stored trip has that id |
| Tables.FindReservation | src/controllers/reservationController.ts:106-116 | the same for reservations |
| Tables.FindUser | src/controllers/userController.ts:15-19 | the same for users |
| Tables.RefOf | src/controllers/messageController.ts:59-70 | the `attributes: ["id", "name", "email"]` join: the id, name and email of the stored user with that id, absent exactly when there is none |
| Tables.Driver | src/models/Trip.ts:30 | a trip's driver is the stored user whose id is the trip's `user_id`, and absent exactly when no stored user has that id |
| Tables.FindCalification | src/controllers/reservationController.ts:474-479 | the duplicate-rating `findOne`: a stored calification of the (trip, author) pair, absent exactly when that pair has none |
| Tables.AppendNewPair | src/controllers/reservationController.ts:472-500 | appending a calification whose (trip, author) pair has none yet keeps "one calification per (trip, author)" |
| Seqs.FindIndex | src/controllers/reservationController.ts:106-108 | the first position holding the key, or none exactly when no position holds it |
| Seqs.FindUnique | src/models/Reservation.ts:10-14 | with unique primary keys the lookup finds the one row holding the id |
| Seqs.NextId | src/models/Trip.ts:9 | a fresh autoincrement id lies above every stored id |
| Seqs.AppendFresh | src/models/Calification.ts:11 | inserting a row under the fresh id keeps the ids unique |
| Seqs.SortBy | src/controllers/tripController.ts:142 | `ORDER BY … ASC` and JavaScript's `sort`: a permutation of the rows in ascending key order |
| Seqs.InsertBySorted | src/controllers/tripController.ts:142 | inserting a row into rows sorted by the key keeps them sorted |
| Seqs.InsertByMultiset | src/controllers/tripController.ts:142 | inserting a row adds exactly that row |
| Seqs.Filter | src/controllers/tripController.ts:140-149 | `WHERE`: exactly the rows satisfying the condition, each as many times as the table holds it, and no other row |
| Seqs.FilterExt | src/controllers/messageController.ts:45-57 | conditions true of the same rows select the same rows |
| Seqs.DistinctKeysPermutation | src/controllers/reservationController.ts:371-375 | sorting keeps "no two driver entries share an id" |
| Text.Trim | src/controllers/messageController.ts:108 | `trim()`: the middle slice of the input, with only white space dropped at either end, no white space left at either end, and empty exactly when the input is all white space |
| Text.TrimIdempotent | src/controllers/messageController.ts:138 | trimming twice equals trimming once |
| Text.ContainsIff | src/controllers/tripController.ts:108-110 | the left-to-right substring scan succeeds exactly when the pattern occurs at some position |
| Text.ILikeContainsIff | src/controllers/tripController.ts:108-114 | `ILIKE '%p%'` holds exactly when the lower-cased pattern occurs in the lower-cased value; the empty pattern matches everything |
| ReservationController.ManageGuard | src/controllers/reservationController.ts:93-144 | the checks common to accept and reject, in order: caller, numeric id, reservation found, trip found, caller drives the trip, reservation pending, each failure with its status and message, and success exactly when all pass; under unique ids it passes exactly when the caller drives the trip of a pending reservation with that id |
| ReservationController.AcceptGuard | src/controllers/reservationController.ts:146-161 | accept's checks: the common ones, then departure after `now`, then a free seat; it passes exactly when the reservation is pending on a future trip of the caller's with a free seat, and every pass is also a pass of the reject checks |
| ReservationController.RateGuard | src/controllers/reservationController.ts:400-500 | rate's checks in order (caller, numeric id, rating in 1..5 before any lookup, reservation, trip, the caller is the passenger, the trip has departed, no earlier rating of the trip by the passenger), each failure with its status and message, success exactly when all pass, and the calification it builds: author is the passenger, receiver is the driver, score is the rating, id fresh |
| ReservationController.ListReservationsForTrip | src/controllers/reservationController.ts:14-65 | the checks in order (caller, numeric id, trip found, caller drives the trip) with their messages, success exactly when all pass, so only the trip's driver may list; the answer holds each of the trip's reservations exactly once (as a multiset it equals the joined rows of the trip), each with its passenger's id, name and email, oldest first |
| ReservationController.ViewOf | src/controllers/reservationController.ts:57-63 | a listed reservation keeps its row and carries the id, name and email of the stored user whose id is its `user_id`, absent exactly when no stored user has that id |
| ReservationController.TripReservationList | src/controllers/reservationController.ts:55-65 | the driver's answer: every row is a joined reservation of the trip, every reservation of the trip is there, each exactly once, oldest first |
| ReservationController.TripReservationMembers | src/controllers/reservationController.ts:55-65 | ordering the joined rows keeps exactly the views of the trip's reservations |
| ReservationController.TripReservationOrdered | src/controllers/reservationController.ts:64 | the ordered rows are oldest first |
| ReservationController.Views | src/controllers/reservationController.ts:55-63 | each listed reservation, in order and one for one, carries its passenger's id, name and email when that user exists (an outer join) |
| ReservationController.Join | src/controllers/reservationController.ts:297-313 | the reservation-trip inner join: a booking is there exactly when its reservation is, its trip is that reservation's stored trip and its driver that trip's password-free driver |
| ReservationController.JoinCount | src/controllers/reservationController.ts:292-313 | the join gives one row per reservation whose trip exists: each such booking occurs as often as its reservation, and no other booking occurs |
| ReservationController.PassengerRowsCount | src/controllers/reservationController.ts:292-315 | the passenger query gives one row for each of the caller's confirmed reservations on a stored trip departing at or after `now`, and no other row |
| ReservationController.PassengerEntries | src/controllers/reservationController.ts:345-350 | the passenger `.map`: the i-th entry is built from the i-th passenger row, with as many entries as rows and nothing else |
| ReservationController.FirstPerTripDistinct | src/controllers/reservationController.ts:352-368 | the de-duplicated driver entries have pairwise distinct trip ids |
| ReservationController.FirstPerTripCovers | src/controllers/reservationController.ts:352-368 | every driver row's trip has a driver entry |
| ReservationController.FirstPerTripFirst | src/controllers/reservationController.ts:358-365 | every driver entry is built from the first row of its trip |
| ReservationController.DedupeByTrip | src/controllers/reservationController.ts:354-368 | the `driverTripMap` loop computes exactly the first-occurrence-per-trip list |
| ReservationController.PassengerFacts | src/controllers/reservationController.ts:292-315 | passenger entries are exactly the caller's confirmed reservations on trips departing at or after `now` |
| ReservationController.DriverFacts | src/controllers/reservationController.ts:318-341 | driver entries come from confirmed reservations on the caller's trips departing at or after `now`; every such trip has one, and no trip has two |
| ReservationController.ListMyUpcomingTrips | src/controllers/reservationController.ts:277-375 | the answer is a permutation of the passenger entries followed by the de-duplicated driver entries; it is sorted by departure, contains no past trip, contains every qualifying passenger reservation and driver trip, and no trip appears twice as a driver entry |
| ReservationController.UpcomingPassengers | src/controllers/reservationController.ts:292-315 | the passenger entries of the upcoming list are exactly the caller's confirmed reservations on trips departing at or after `now` |
| ReservationController.UpcomingDrivers | src/controllers/reservationController.ts:318-368 | each driver entry of the upcoming list comes from a confirmed reservation on a trip of the caller's departing at or after `now`, and every such trip has an entry |
| ReservationController.UpcomingDriversDistinct | src/controllers/reservationController.ts:352-375 | no trip appears twice as a driver entry of the upcoming list |
| ReservationController.DriverIdsDistinct | src/controllers/reservationController.ts:371-375 | merging with the passenger entries and sorting keeps the driver entries' ids distinct |
| TripController.NewTrip | src/controllers/tripController.ts:15-81 | createTrip's checks in order (caller, required fields truthy, capacity positive, available seats within 0..total after defaulting to total, readable departure; then a status outside the enum is a server error), each with its message; success exactly when all pass, and then the row has the caller as driver, the body's values, the defaulted seats, the defaulted status and a fresh id, and satisfies the seat invariant |
| TripController.MatchesWhereIff | src/controllers/tripController.ts:106-137 | the assembled `where` selects a trip exactly when the given place names occur in it ignoring ASCII case, its status is the requested one (`published` when none is given), and it departs within the requested day |
| TripController.PatternMatchIff | src/controllers/tripController.ts:108-114 | a place-name condition is in the `where` exactly when the name is given, and then holds exactly when the name occurs in the trip's ignoring ASCII case |
| TripController.StatusMatchIff | src/controllers/tripController.ts:116-120 | the status condition asks for the given name, or `published` when none is given |
| TripController.SelectionIff | src/controllers/tripController.ts:106-140 | the query with the assembled `where` returns exactly the stored trips the search asks for |
| TripController.SortedListings | src/controllers/tripController.ts:140-149 | ordering the listings by departure keeps exactly the listings of the selected trips, earliest first |
| TripController.Listings | src/controllers/tripController.ts:143-148 | one listing per trip, in order: the i-th listing is the i-th trip with its driver without the password (an outer join) |
| TripController.ListTrips | src/controllers/tripController.ts:97-163 | an invalid date is a bad request; a status outside the enum is a server error; otherwise the answer holds each selected trip exactly once (as a multiset it equals the listings of the selection), earliest departure first |
| UserController.GetUserById | src/controllers/userController.ts:7-24 | a non-numeric id is a bad request, a missing user is not found; otherwise the answer is the stored user with that id, minus the password |
| UserController.UserLookupUnique | src/controllers/userController.ts:15 | with unique ids, the user found is the only one holding the id |
| UserController.ViewOf | src/controllers/userController.ts:41-48 | a rating keeps its row and carries the id and name of the stored author and the origin, destination and departure time of the stored trip, each absent exactly when no stored row has that id |
| UserController.ViewsCount | src/controllers/userController.ts:39-49 | each view occurs as often as its calification does, and no other view occurs |
| UserController.ViewsPermutation | src/controllers/userController.ts:39-49 | reordering the ratings reorders their views, keeping each as often as before |
| UserController.Views | src/controllers/userController.ts:41-48 | each rating carries its author's id and name and its trip's origin, destination and departure time |
| UserController.SumScoresBounds | src/controllers/userController.ts:54 | scores in 1..5 add up to between one and five times their number |
| UserController.AverageInRange | src/controllers/userController.ts:52-56 | the average of a non-empty list of valid scores lies in [1, 5] |
| UserController.SumScoresPermutation | src/controllers/userController.ts:49-55 | reordering the ratings does not change their sum, so ordering before averaging does not change the average |
| UserController.SumScoresSplit | src/controllers/userController.ts:54 | the sum of a concatenation is the sum of the sums |
| UserController.NewestFirstOrder | src/controllers/userController.ts:49-56 | ordering ratings newest first is a permutation, is in descending `createdAt` order and leaves the average unchanged |
| UserController.NewestFirstFacts | src/controllers/userController.ts:39-56 | the ordered ratings are exactly those received, newest first, with the same average |
| UserController.GetUserRatings | src/controllers/userController.ts:31-65 | a non-numeric id is the only error; the answer holds the view of each of the receiver's califications exactly once (as a multiset it equals the views of the received rows), newest first; `total` is their number; `average` is their mean (0 when there are none), and lies in [1, 5] on a valid store |
| MessageController.Views | src/controllers/messageController.ts:59-70 | each message carries its sender's and receiver's id, name and email |
| MessageController.ViewOf | src/controllers/messageController.ts:59-70 | a listed message keeps its row and carries the id, name and email of the stored sender and receiver, each absent exactly when no stored user has that id |
| MessageController.ConversationFacts | src/controllers/messageController.ts:44-58 | a conversation holds exactly the views of the trip's messages between the two users in either direction, each message once (as a multiset it equals the views of the selected rows), oldest first |
| MessageController.ConversationSymmetric | src/controllers/messageController.ts:47-56 | the conversation of (a, b) equals the conversation of (b, a) |
| MessageController.ListMessagesForTripAndUser | src/controllers/messageController.ts:12-75 | the checks in order (caller, numeric ids, trip exists) with their messages; success exactly when they pass, and then the answer holds each of the trip's messages between the caller and the other user exactly once, with both users joined, oldest first |
| MessageController.NewMessage | src/controllers/messageController.ts:91-140 | the checks in order (caller, truthy trip and receiver ids, content not blank, trip exists, receiver exists) with their messages; success exactly when they pass, and then the message goes from the caller to the receiver with the trimmed, non-empty content, unread, stamped `now`, with a fresh id |
| MessageController.SentMessageListed | src/controllers/messageController.ts:134-140 | once a sent message is stored, both participants find it when they list their conversation |
| Workflow.TakeSeat | src/controllers/reservationController.ts:168-171 | accepting takes exactly one seat and changes nothing but the seat count and the status; the status changes only to `full`, and only when the last seat goes |
| Workflow.TakeSeatInvariants | src/controllers/reservationController.ts:168-171 | taking a free seat keeps `0 <= available <= total`, marks the trip full when the last seat goes, and keeps "full exactly when no seat is left" |
| Workflow.Store.AcceptReservation | src/controllers/reservationController.ts:163-177 | on refusal nothing changes; on success the reservation becomes confirmed and the trip loses exactly one seat and turns full at 0, keeping its status otherwise; nothing else changes and the store invariant holds |
| Workflow.Store.RejectReservation | src/controllers/reservationController.ts:253-260 | on refusal nothing changes; on success only the reservation's status changes, to rejected; the trip is untouched |
| Workflow.Store.RateReservation | src/controllers/reservationController.ts:494-505 | on refusal nothing changes; on success exactly the guard's calification is appended, and the one-per-(trip, author) rule still holds |
| Workflow.Store.CreateTrip | src/controllers/tripController.ts:72-86 | on refusal nothing changes; on success exactly the new trip is appended, and the seat invariant holds |
| Workflow.Store.SendMessage | src/controllers/messageController.ts:134-140 | on refusal nothing changes; on success exactly the new message is appended |
| Workflow.SameLookups | src/controllers/reservationController.ts:106-108 | updates that keep every primary key do not change what the lookups find |
| Workflow.AcceptedValid | src/controllers/reservationController.ts:163-172 | accepting a reservation on a trip with a free seat keeps the store invariant: unique ids, the seat range, every score and rating in range |
| Workflow.AcceptedIsManaged | src/controllers/reservationController.ts:138-144 | after acceptance, both the accept and the reject checks refuse the same reservation as already managed |
| Workflow.OtherVerdictUnchanged | src/controllers/reservationController.ts:93-144 | accepting one reservation leaves the verdict of accept's and reject's shared checks (error or target) unchanged for every other reservation id |
| Workflow.AcceptThenManageAgain | src/controllers/reservationController.ts:138-144 | after a successful accept, a second accept and a reject of the same reservation are both refused as already managed |
| Workflow.RateTwice | src/controllers/reservationController.ts:472-487 | after a successful rating the same request is refused as already rated |
| Workflow.LastSeatTaken | src/controllers/reservationController.ts:155-172 | once the last seat of a trip is taken, the accept checks refuse another pending reservation of that trip for lack of seats |
| Workflow.LastSeat | src/controllers/reservationController.ts:155-172 | the same as a sequence of two accept requests on the store |

## Left out

- HTTP and Express plumbing (status codes, JSON envelopes, routes, server start-up): an outcome is a `Result` carrying the response message.
- Authentication: JWT verification and bcrypt hashing are library calls; the caller is an input.
- Uploads, seeding and the database configuration are I/O.
- Concurrency: each handler is one atomic step. Accept's two saves and rate's read-then-create check are not interleaved with other requests.
- Internal errors: the `catch` branches (500 responses from a failing database) are not modelled. The exceptions are the two enum failures stated above: a status outside the enum in createTrip and listTrips.
- JavaScript date handling: `new Date` parsing is an input (`Departure`, `DateQuery`). The day window starts at the given local midnight and ends 86 399 999 ms later, so a day lengthened or shortened by a daylight-saving change is not modelled.
- `ILIKE`: case folding covers ASCII letters only, and `%` or `_` inside the user's text are matched literally rather than as wildcards.
- Autoincrement: a new id is one more than the largest stored id, which is fresh like the database sequence; the exact values the sequence hands out are not modelled.
- `UserController.Average`: a `real` quotient, not a JavaScript floating-point number, so rounding is not modelled.
- Non-integer or non-numeric values are not modelled: numbers are `Option<int>`. This covers body values (a fractional rating, a string seat count) and path ids: a fractional id such as `1.5` passes the `Number.isNaN` test and reaches the lookup, which the model cannot express.
- createTrip's `status` is the raw string. The check for non-empty `origin`/`destination` stands for JavaScript truthiness of strings.
- Ties in database ordering: equal sort keys are kept in table order, though the database promises no order among them.
- The handlers `reserveTrip`, `listMyTrips` and `listMyPastTrips` are named by the routes but not defined in the controllers, so they are not modelled; consequently no operation here creates reservations.
- Foreign keys: relations are id fields. The store invariant does not require that each referenced trip or user exists; the guards check existence where the handlers do.
- User timestamps and the remaining user columns are not modelled.
- acceptReservation does not look at the trip's status (a cancelled trip with seats still accepts), and the model keeps that behaviour. createTrip may store a `full` trip with free seats, so "full exactly when no seat is left" is not a store invariant. It is proved preserved by accept (`Workflow.Store.AcceptReservation`).
- rateReservation does not check the reservation's status, and sendMessage does not check that the users belong to the trip. The model keeps both, as the handlers do.
