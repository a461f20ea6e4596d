/**
 * `/api/notifications`: the caller's notifications, optionally narrowed by
 * their read flag (GET), and setting the read flag of one notification the
 * caller owns (PATCH).
 */
module NotificationsRoute {
  import opened Basics
  import opened Domain
  import opened Db

  /**
   * The `read` filter of GET: the query parameter `"true"` selects read
   * notifications, any other value selects unread ones, and no parameter
   * selects both.
   */
  predicate ReadFilter(read: Option<string>, n: Notification) {
    read.Some? ==> n.read == (read.value == "true")
  }

  /**
   * Without the parameter every notification passes; with any value other
   * than `"true"` exactly the notifications `"true"` rejects pass.
   */
  lemma ReadFilterSplits(n: Notification, value: string)
    ensures ReadFilter(None, n)
    ensures value != "true" ==> (ReadFilter(Some(value), n) <==> !ReadFilter(Some("true"), n))
  {
  }

  /** GET /api/notifications?read=... */
  function ListNotifications(ns: seq<Notification>, session: Option<Session>, read: Option<string>)
    : (r: Result<seq<Notification>>)
    ensures session.None? <==> r == Err(Unauthorized)
    ensures r.Ok? || r == Err(Unauthorized)
    ensures session.Some? ==> forall n :: n in r.value <==>
      && n in ns
      && n.userId == session.value.id
      && (read == Some("true") ==> n.read)
      && (read.Some? && read != Some("true") ==> !n.read)
    ensures r.Ok? ==> forall n :: (multiset(r.value)[n] ==
      if n.userId == session.value.id && ReadFilter(read, n) then multiset(ns)[n] else 0)
    ensures r.Ok? ==> forall i, j :: 0 <= i < j < |r.value| ==> r.value[i].createdAt >= r.value[j].createdAt
  {
    match session
    case None => Err(Unauthorized)
    case Some(caller) =>
      RowOrdersArePreorders();
      Ok(Select(ns, (n: Notification) => n.userId == caller.id && ReadFilter(read, n), NewestNotificationFirst))
  }

  /** The caller owns a notification with this id (`findUnique` on id and userId). */
  predicate Owns(ns: seq<Notification>, id: Id, callerId: Id) {
    exists i :: 0 <= i < |ns| && ns[i].id == id && ns[i].userId == callerId
  }

  /**
   * PATCH /api/notifications with body `{ id, read }`; `read` is None when
   * the body has no such field.
   */
  method PatchNotification(db: Store, session: Option<Session>, id: Id, read: Option<bool>)
    returns (r: Result<Notification>)
    requires db.Valid()
    modifies db`notifications
    ensures db.Valid()
    ensures session.None? ==> r == Err(Unauthorized)
    ensures session.Some? && (id == "" || read.None?) ==> r == Err(BadRequest)
    ensures session.Some? && id != "" && read.Some? ==>
      (r == Err(NotFound) <==> !Owns(old(db.notifications), id, session.value.id))
    ensures r.Err? ==> unchanged(db)
    ensures r.Ok? ==>
      && session.Some? && read.Some?
      && db.notifications == WithRead(old(db.notifications), id, read.value)
      && exists i :: 0 <= i < |old(db.notifications)|
           && old(db.notifications)[i].id == id && old(db.notifications)[i].userId == session.value.id
           && r.value == old(db.notifications)[i].(read := read.value)
           && db.notifications[i] == r.value
  {
    if session.None? {
      return Err(Unauthorized);
    }
    var caller := session.value;
    if id == "" || read.None? {
      return Err(BadRequest);
    }
    var found := Find(db.notifications, (n: Notification) => n.id == id && n.userId == caller.id);
    if found.None? {
      return Err(NotFound);
    }
    ghost var k :| 0 <= k < |db.notifications| && db.notifications[k] == found.value;
    db.UpdateNotificationRead(id, read.value);
    // the answer is the row as `update` returns it, with the new flag
    return Ok(found.value.(read := read.value));
  }

  /** Applying the same PATCH twice leaves the table as applying it once. */
  lemma WithReadIdempotent(ns: seq<Notification>, id: Id, read: bool)
    ensures WithRead(WithRead(ns, id, read), id, read) == WithRead(ns, id, read)
  {
    var once := WithRead(ns, id, read);
    var twice := WithRead(once, id, read);
    forall i | 0 <= i < |ns| ensures twice[i] == once[i] {
      assert once[i].id == ns[i].id;
    }
  }

  /**
   * With distinct ids, the PATCH leaves exactly the target notification with
   * the requested flag and every other notification as it was.
   */
  lemma PatchOnlyTarget(ns: seq<Notification>, id: Id, read: bool, i: nat)
    requires i < |ns| && ns[i].id == id
    ensures WithRead(ns, id, read)[i].read == read
    ensures WithRead(ns, id, read)[i].(read := ns[i].read) == ns[i]
  {
  }
}
