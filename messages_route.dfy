/**
 * `/api/messages`: opening a conversation (GET) returns it oldest first and
 * then marks the messages the other user sent to the caller as read; sending
 * (POST) stores a message and notifies its receiver.
 */
module MessagesRoute {
  import opened Basics
  import opened Domain
  import opened Db

  /** A message of the conversation between `a` and `b`, in either direction. */
  predicate Between(m: Message, a: Id, b: Id) {
    (m.senderId == a && m.receiverId == b) || (m.senderId == b && m.receiverId == a)
  }

  /** The `findMany` of GET: the two users' messages, oldest first. */
  function Conversation(ms: seq<Message>, callerId: Id, userId: Id): (r: seq<Message>)
    ensures forall m :: m in r <==> m in ms && Between(m, callerId, userId)
    ensures forall m :: multiset(r)[m] == if Between(m, callerId, userId) then multiset(ms)[m] else 0
    ensures forall i, j :: 0 <= i < j < |r| ==> r[i].createdAt <= r[j].createdAt
  {
    RowOrdersArePreorders();
    Select(ms, m => Between(m, callerId, userId), OldestMessageFirst)
  }

  /** GET /api/messages?userId=... ("" when the parameter is absent). */
  method OpenConversation(db: Store, session: Option<Session>, userId: Id) returns (r: Result<seq<Message>>)
    requires db.Valid()
    modifies db`messages
    ensures db.Valid()
    ensures session.None? ==> r == Err(Unauthorized)
    ensures session.Some? && userId == "" ==> r == Err(BadRequest)
    ensures r.Err? ==> unchanged(db)
    ensures session.Some? && userId != "" ==>
      && r == Ok(Conversation(old(db.messages), session.value.id, userId))
      && db.messages == MarkRead(old(db.messages), userId, session.value.id)
  {
    if session.None? {
      return Err(Unauthorized);
    }
    var caller := session.value;
    if userId == "" {
      return Err(BadRequest);
    }
    var messages := Conversation(db.messages, caller.id, userId);
    db.MarkMessagesRead(userId, caller.id);
    return Ok(messages);
  }

  /** Opening the same conversation again writes nothing new. */
  lemma {:induction false} MarkReadIdempotent(ms: seq<Message>, senderId: Id, receiverId: Id)
    ensures MarkRead(MarkRead(ms, senderId, receiverId), senderId, receiverId) == MarkRead(ms, senderId, receiverId)
  {
    var once := MarkRead(ms, senderId, receiverId);
    var twice := MarkRead(once, senderId, receiverId);
    forall i | 0 <= i < |ms| ensures twice[i] == once[i] {
      assert !UnreadFromTo(once[i], senderId, receiverId);
    }
  }

  /**
   * Opening a conversation with `userId` only flips flags from unread to
   * read, and only on what `userId` sent to the caller: the caller's own
   * messages (to anyone but themself) and every other conversation keep
   * their rows.
   */
  lemma MarkReadScope(ms: seq<Message>, userId: Id, callerId: Id, i: nat)
    requires i < |ms|
    ensures MarkRead(ms, userId, callerId)[i].read == (ms[i].read || (ms[i].senderId == userId && ms[i].receiverId == callerId))
    ensures ms[i].senderId != userId || ms[i].receiverId != callerId ==> MarkRead(ms, userId, callerId)[i] == ms[i]
    ensures MarkRead(ms, userId, callerId)[i].(read := ms[i].read) == ms[i]
  {
  }

  /**
   * The list GET returns is read before the flags are written: every
   * message the call marks as read is in the returned list, still unread.
   */
  lemma ReturnedBeforeMarking(ms: seq<Message>, callerId: Id, userId: Id, m: Message)
    requires m in ms && UnreadFromTo(m, userId, callerId)
    ensures m in Conversation(ms, callerId, userId) && !m.read
  {
  }

  function MessageText(senderName: string): string {
    "Nuevo mensaje de " + senderName
  }

  /** POST /api/messages with body `{ receiverId, content }`. */
  method SendMessage(
    db: Store, session: Option<Session>, receiverId: Id, content: string,
    messageId: Id, notificationId: Id, now: Time)
    returns (r: Result<Message>)
    requires db.Valid()
    requires Unused(db.messages, MessageKey, messageId)
    requires Unused(db.notifications, NotificationKey, notificationId)
    modifies db`messages, db`notifications
    ensures db.Valid()
    ensures session.None? ==> r == Err(Unauthorized)
    ensures session.Some? && (receiverId == "" || content == "") ==> r == Err(BadRequest)
    ensures session.Some? && receiverId != "" && content != "" ==>
      (r == Err(NotFound) <==> Unused(db.users, UserKey, receiverId))
    ensures r.Err? ==> unchanged(db)
    ensures r.Ok? ==>
      && session.Some?
      && r.value == Message(messageId, session.value.id, receiverId, content, false, now)
      && db.messages == old(db.messages) + [r.value]
      && db.notifications == old(db.notifications) +
           [Notification(notificationId, receiverId, MessageText(session.value.name), MessageReceived, None, false, now)]
  {
    if session.None? {
      return Err(Unauthorized);
    }
    var caller := session.value;
    if receiverId == "" || content == "" {
      return Err(BadRequest);
    }
    if Unused(db.users, UserKey, receiverId) {
      return Err(NotFound);
    }
    var message := Message(messageId, caller.id, receiverId, content, false, now);
    db.CreateMessage(message);
    db.CreateNotification(
      Notification(notificationId, receiverId, MessageText(caller.name), MessageReceived, None, false, now));
    return Ok(message);
  }
}
