/** Trip-scoped conversations between two users. */
module MessageController {
  import opened Outcomes
  import opened Seqs
  import opened Text
  import opened Models
  import opened Tables

  const INVALID_PARAMS := "Parámetros de ruta inválidos"
  const TRIP_NOT_FOUND := "Viaje no encontrado"
  const REQUIRED_FIELDS := "tripId, receiverId y content son requeridos"
  const RECEIVER_NOT_FOUND := "Usuario receptor no encontrado"

  /** `m` belongs to trip `trip` and goes from `a` to `b` or from `b` to `a`. */
  predicate InConversation(m: Message, trip: int, a: int, b: int) {
    m.trip_id == trip
    && ((m.user_sender_id == a && m.user_receiver_id == b) || (m.user_sender_id == b && m.user_receiver_id == a))
  }

  /** One message as the API returns it; both joins are outer joins. */
  datatype MessageView = MessageView(message: Message, sender: Option<UserRef>, receiver: Option<UserRef>)

  /** A message's view carries the id, name and email of the stored sender
      and receiver, each absent exactly when no stored user has that id. */
  function ViewOf(db: Db, m: Message): (r: MessageView)
    ensures r.message == m
    ensures r.sender.Some? ==> exists u :: u in db.users && u.id == m.user_sender_id
                                           && r.sender.value == UserRef(u.id, u.name, u.email)
    ensures r.sender.None? <==> forall u :: u in db.users ==> u.id != m.user_sender_id
    ensures r.receiver.Some? ==> exists u :: u in db.users && u.id == m.user_receiver_id
                                             && r.receiver.value == UserRef(u.id, u.name, u.email)
    ensures r.receiver.None? <==> forall u :: u in db.users ==> u.id != m.user_receiver_id
  {
    MessageView(m, RefOf(db, m.user_sender_id), RefOf(db, m.user_receiver_id))
  }

  function Views(db: Db, ms: seq<Message>): (r: seq<MessageView>)
    ensures |r| == |ms|
    ensures forall i :: 0 <= i < |ms| ==> r[i] == ViewOf(db, ms[i])
    ensures forall v :: v in r <==> v.message in ms && v == ViewOf(db, v.message)
  {
    if ms == [] then []
    else
      assert ms == [ms[0]] + ms[1..];
      [ViewOf(db, ms[0])] + Views(db, ms[1..])
  }

  function ViewCreatedAt(v: MessageView): int { v.message.createdAt }

  /** `findAll` with the conversation's `where`: its messages in table order. */
  function ConversationRows(db: Db, trip: int, a: int, b: int): seq<Message> {
    Filter(db.messages, (m: Message) => InConversation(m, trip, a, b))
  }

  /** The messages of one conversation joined with both users, oldest
      first (the join comes before the ordering). */
  function Conversation(db: Db, trip: int, a: int, b: int): seq<MessageView> {
    SortBy(Views(db, ConversationRows(db, trip, a, b)), ViewCreatedAt)
  }

  /** A conversation holds each message exchanged between the two users on
      the trip once, joined with both users, oldest first. */
  lemma ConversationFacts(db: Db, trip: int, a: int, b: int)
    ensures var c := Conversation(db, trip, a, b);
      && (forall v :: v in c <==>
            (v.message in db.messages && InConversation(v.message, trip, a, b) && v == ViewOf(db, v.message)))
      && (forall i, j :: 0 <= i < j < |c| ==> c[i].message.createdAt <= c[j].message.createdAt)
      && multiset(c) == multiset(Views(db, ConversationRows(db, trip, a, b)))
  {
    ConversationMembers(db, trip, a, b);
    ConversationOrdered(db, trip, a, b);
  }

  lemma ConversationMembers(db: Db, trip: int, a: int, b: int)
    ensures forall v :: v in Conversation(db, trip, a, b) <==>
              (v.message in db.messages && InConversation(v.message, trip, a, b) && v == ViewOf(db, v.message))
  {
    var rows := ConversationRows(db, trip, a, b);
    assert forall m :: m in rows <==> m in db.messages && InConversation(m, trip, a, b);
    SameElements(Views(db, rows), Conversation(db, trip, a, b));
  }

  lemma ConversationOrdered(db: Db, trip: int, a: int, b: int)
    ensures var c := Conversation(db, trip, a, b);
      forall i, j :: 0 <= i < j < |c| ==> c[i].message.createdAt <= c[j].message.createdAt
  {
    var c := Conversation(db, trip, a, b);
    assert forall i, j :: 0 <= i < j < |c| ==> ViewCreatedAt(c[i]) <= ViewCreatedAt(c[j]);
  }

  /** Both participants see the same conversation. */
  lemma ConversationSymmetric(db: Db, trip: int, a: int, b: int)
    ensures Conversation(db, trip, a, b) == Conversation(db, trip, b, a)
  {
    FilterExt(db.messages, (m: Message) => InConversation(m, trip, a, b),
              (m: Message) => InConversation(m, trip, b, a));
  }

  /** listMessagesForTripAndUser: the caller's conversation with
      `otherUserId` on an existing trip. */
  function ListMessagesForTripAndUser(db: Db, caller: Option<int>, tripId: Option<int>,
                                      otherUserId: Option<int>): (r: Result<seq<MessageView>>)
    ensures !Authenticated(caller) ==> r == Err(Unauthorized)
    ensures Authenticated(caller) && (tripId.None? || otherUserId.None?) ==> r == Err(BadRequest(INVALID_PARAMS))
    ensures Authenticated(caller) && tripId.Some? && otherUserId.Some? && FindTrip(db, tripId.value).None?
            ==> r == Err(NotFound(TRIP_NOT_FOUND))
    ensures r.Ok? <==> Authenticated(caller) && tripId.Some? && otherUserId.Some?
                       && exists t :: t in db.trips && t.id == tripId.value
    ensures r.Ok? ==> forall v :: v in r.value ==>
              v.message in db.messages && InConversation(v.message, tripId.value, caller.value, otherUserId.value)
              && v == ViewOf(db, v.message)
    ensures r.Ok? ==> forall m ::
              (m in db.messages && InConversation(m, tripId.value, caller.value, otherUserId.value))
              ==> ViewOf(db, m) in r.value
    ensures r.Ok? ==> forall i, j :: 0 <= i < j < |r.value| ==>
              r.value[i].message.createdAt <= r.value[j].message.createdAt
    ensures r.Ok? ==> multiset(r.value)
                      == multiset(Views(db, ConversationRows(db, tripId.value, caller.value, otherUserId.value)))
  {
    if !Authenticated(caller) then Err(Unauthorized)
    else if tripId.None? || otherUserId.None? then Err(BadRequest(INVALID_PARAMS))
    else match FindTrip(db, tripId.value)
      case None => Err(NotFound(TRIP_NOT_FOUND))
      case Some(_) =>
        ConversationFacts(db, tripId.value, caller.value, otherUserId.value);
        Ok(Conversation(db, tripId.value, caller.value, otherUserId.value))
  }

  /** The request body of sendMessage; `content` is "" when absent. */
  datatype MessageBody = MessageBody(tripId: Option<int>, receiverId: Option<int>, content: string)

  /** sendMessage's checks, in their order, and the row `Message.create`
      inserts: the trimmed content, unread, stamped `now`. The sender need
      not belong to the trip. */
  function NewMessage(db: Db, caller: Option<int>, b: MessageBody, now: int): (r: Result<Message>)
    ensures !Authenticated(caller) ==> r == Err(Unauthorized)
    ensures Authenticated(caller) && (!Truthy(b.tripId) || !Truthy(b.receiverId) || AllSpace(b.content))
            ==> r == Err(BadRequest(REQUIRED_FIELDS))
    ensures Authenticated(caller) && Truthy(b.tripId) && Truthy(b.receiverId) && !AllSpace(b.content)
            && FindTrip(db, b.tripId.value).None?
            ==> r == Err(NotFound(TRIP_NOT_FOUND))
    ensures Authenticated(caller) && Truthy(b.tripId) && Truthy(b.receiverId) && !AllSpace(b.content)
            && FindTrip(db, b.tripId.value).Some? && FindUser(db, b.receiverId.value).None?
            ==> r == Err(NotFound(RECEIVER_NOT_FOUND))
    ensures r.Ok? <==> Authenticated(caller) && Truthy(b.tripId) && Truthy(b.receiverId) && !AllSpace(b.content)
                       && (exists t :: t in db.trips && t.id == b.tripId.value)
                       && (exists u :: u in db.users && u.id == b.receiverId.value)
    ensures r.Ok? ==> && r.value.trip_id == b.tripId.value
                      && r.value.user_sender_id == caller.value
                      && r.value.user_receiver_id == b.receiverId.value
                      && r.value.read == DEFAULT_READ
                      && r.value.createdAt == now
                      && (forall m :: m in db.messages ==> m.id != r.value.id)
    ensures r.Ok? ==> r.value.content == Trim(b.content) && r.value.content != []
  {
    var content := Trim(b.content);
    if !Authenticated(caller) then Err(Unauthorized)
    else if !Truthy(b.tripId) || !Truthy(b.receiverId) || content == [] then Err(BadRequest(REQUIRED_FIELDS))
    else if FindTrip(db, b.tripId.value).None? then Err(NotFound(TRIP_NOT_FOUND))
    else if FindUser(db, b.receiverId.value).None? then Err(NotFound(RECEIVER_NOT_FOUND))
    else
      Ok(Message(NextId(db.messages, MessageKey), b.tripId.value, caller.value, b.receiverId.value,
                 content, DEFAULT_READ, now))
  }

  /** A message just sent shows up in the conversation as both of its
      participants list it. */
  lemma SentMessageListed(db: Db, caller: Option<int>, b: MessageBody, now: int)
    requires Authenticated(caller) && Truthy(b.tripId) && Truthy(b.receiverId) && !AllSpace(b.content)
    requires FindTrip(db, b.tripId.value).Some? && FindUser(db, b.receiverId.value).Some?
    ensures var m := NewMessage(db, caller, b, now).value;
      var db' := db.(messages := db.messages + [m]);
      && ListMessagesForTripAndUser(db', caller, b.tripId, b.receiverId).Ok?
      && ViewOf(db', m) in ListMessagesForTripAndUser(db', caller, b.tripId, b.receiverId).value
      && ListMessagesForTripAndUser(db', b.receiverId, b.tripId, caller).Ok?
      && ViewOf(db', m) in ListMessagesForTripAndUser(db', b.receiverId, b.tripId, caller).value
  {
    var m := NewMessage(db, caller, b, now).value;
    var db' := db.(messages := db.messages + [m]);
    assert m in db'.messages;
    assert FindTrip(db', b.tripId.value) == FindTrip(db, b.tripId.value);
  }
}
