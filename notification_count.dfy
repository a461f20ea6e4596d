/** `/api/notifications/count`: how many of the caller's notifications are unread. */
module NotificationCount {
  import opened Basics
  import opened Domain

  /** The `where` of the count: addressed to the caller and not yet read. */
  function UnreadFor(callerId: Id): Notification -> bool {
    (n: Notification) => n.userId == callerId && !n.read
  }

  function OwnedBy(callerId: Id): Notification -> bool {
    (n: Notification) => n.userId == callerId
  }

  /** GET /api/notifications/count. */
  function UnreadCount(ns: seq<Notification>, session: Option<Session>): (r: Result<nat>)
    ensures session.None? <==> r == Err(Unauthorized)
    ensures r.Ok? || r == Err(Unauthorized)
    ensures r.Ok? ==> r.value == |set i | 0 <= i < |ns| && ns[i].userId == session.value.id && !ns[i].read|
  {
    match session
    case None => Err(Unauthorized)
    case Some(caller) =>
      FilterCount(ns, UnreadFor(caller.id));
      assert Positions(ns, UnreadFor(caller.id))
          == set i | 0 <= i < |ns| && ns[i].userId == caller.id && !ns[i].read;
      Ok(|Filter(ns, UnreadFor(caller.id))|)
  }

  /** The count never exceeds how many notifications the caller has. */
  lemma CountBounded(ns: seq<Notification>, caller: Session)
    ensures UnreadCount(ns, Some(caller)).value <= |Filter(ns, OwnedBy(caller.id))|
  {
    FilterMonotone(ns, UnreadFor(caller.id), OwnedBy(caller.id));
  }

  /**
   * Other users' notifications never contribute: adding a notification
   * addressed to someone else, before or after the rest, leaves the count as
   * it was.
   */
  lemma OthersDoNotCount(ns: seq<Notification>, caller: Session, n: Notification)
    requires n.userId != caller.id
    ensures UnreadCount(ns + [n], Some(caller)) == UnreadCount(ns, Some(caller))
    ensures UnreadCount([n] + ns, Some(caller)) == UnreadCount(ns, Some(caller))
  {
    var p := UnreadFor(caller.id);
    FilterAppend(ns, [n], p);
    FilterAppend([n], ns, p);
    assert Filter([n], p) == [];
  }

  /** What is counted is exactly the caller's unread notifications. */
  lemma CountsUnreadOwned(ns: seq<Notification>, caller: Session, n: Notification)
    ensures n in Filter(ns, UnreadFor(caller.id)) <==> n in ns && n.userId == caller.id && !n.read
  {
    FilterMembership(ns, UnreadFor(caller.id), n);
  }
}
