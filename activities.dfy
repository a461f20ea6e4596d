/**
 * `/api/activities/recent`: the activity feed, read from the notifications
 * table, newest ten first.
 */
module Activities {
  import opened Basics
  import opened Domain

  const RECENT_ACTIVITIES: nat := 10

  /** `tasks.map(task => task.id)` over the leader's own tasks. */
  function OwnTaskIds(tasks: seq<Task>, leaderId: Id): (r: seq<Id>)
    ensures forall id :: id in r <==> exists t :: t in tasks && t.leaderId == leaderId && t.id == id
  {
    var own := Filter(tasks, (t: Task) => t.leaderId == leaderId);
    var r := seq(|own|, i requires 0 <= i < |own| => own[i].id);
    forall id ensures id in r <==> exists t :: t in tasks && t.leaderId == leaderId && t.id == id {
      if id in r {
        var i :| 0 <= i < |r| && r[i] == id;
        FilterMembership(tasks, (t: Task) => t.leaderId == leaderId, own[i]);
      }
      if t :| t in tasks && t.leaderId == leaderId && t.id == id {
        FilterMembership(tasks, (t: Task) => t.leaderId == leaderId, t);
        var i :| 0 <= i < |own| && own[i] == t;
        assert r[i] == id;
      }
    }
    r
  }

  /**
   * A leader sees notifications addressed to them or about one of their
   * tasks (a notification without relatedId matches no task); anyone else
   * sees only their own.
   */
  predicate Activity(caller: Session, ownIds: seq<Id>, n: Notification) {
    if caller.role == LEADER then n.userId == caller.id || (n.relatedId.Some? && n.relatedId.value in ownIds)
    else n.userId == caller.id
  }

  function ActivityOf(caller: Session, ownIds: seq<Id>): Notification -> bool {
    (n: Notification) => Activity(caller, ownIds, n)
  }

  /** GET /api/activities/recent. */
  function RecentActivities(tasks: seq<Task>, ns: seq<Notification>, session: Option<Session>)
    : (r: Result<seq<Notification>>)
    ensures session.None? <==> r == Err(Unauthorized)
    ensures r.Ok? || r == Err(Unauthorized)
    ensures r.Ok? ==> |r.value| <= RECENT_ACTIVITIES
    ensures r.Ok? ==> var feed := |Filter(ns, ActivityOf(session.value, OwnTaskIds(tasks, session.value.id)))|;
      |r.value| == if feed < RECENT_ACTIVITIES then feed else RECENT_ACTIVITIES
    ensures r.Ok? ==> forall n :: (multiset(r.value)[n] <=
      if Activity(session.value, OwnTaskIds(tasks, session.value.id), n) then multiset(ns)[n] else 0)
    ensures r.Ok? && session.value.role == LEADER ==> forall n :: n in r.value ==>
      n in ns && (n.userId == session.value.id ||
        (n.relatedId.Some? && exists t :: t in tasks && t.leaderId == session.value.id && t.id == n.relatedId.value))
    ensures r.Ok? && session.value.role != LEADER ==> forall n :: n in r.value ==> n in ns && n.userId == session.value.id
    ensures r.Ok? ==> forall i, j :: 0 <= i < j < |r.value| ==> r.value[i].createdAt >= r.value[j].createdAt
    ensures r.Ok? ==> forall n :: n in ns && Activity(session.value, OwnTaskIds(tasks, session.value.id), n) && n !in r.value ==>
      |r.value| == RECENT_ACTIVITIES && forall x :: x in r.value ==> x.createdAt >= n.createdAt
  {
    match session
    case None => Err(Unauthorized)
    case Some(caller) =>
      RowOrdersArePreorders();
      var ids := OwnTaskIds(tasks, caller.id);
      var r := Top(ns, ActivityOf(caller, ids), NewestNotificationFirst, RECENT_ACTIVITIES);
      Ok(r)
  }
}
