/** `/api/tasks/recent`: the caller's five newest tasks. */
module RecentTasks {
  import opened Basics
  import opened Domain

  const RECENT_TASKS: nat := 5

  /** GET /api/tasks/recent. */
  function RecentTasks(tasks: seq<Task>, session: Option<Session>): (r: Result<seq<Task>>)
    ensures session.None? <==> r == Err(Unauthorized)
    ensures r.Ok? || r == Err(Unauthorized)
    ensures r.Ok? ==> |r.value| <= RECENT_TASKS
    ensures r.Ok? ==> var scoped := |Filter(tasks, ScopeOf(session.value))|;
      |r.value| == if scoped < RECENT_TASKS then scoped else RECENT_TASKS
    ensures r.Ok? ==> forall t :: multiset(r.value)[t] <= if InScope(session.value, t) then multiset(tasks)[t] else 0
    ensures r.Ok? ==> forall t :: t in r.value ==> t in tasks && InScope(session.value, t)
    ensures r.Ok? ==> forall i, j :: 0 <= i < j < |r.value| ==> r.value[i].createdAt >= r.value[j].createdAt
    ensures r.Ok? ==> forall t :: t in tasks && InScope(session.value, t) && t !in r.value ==>
      |r.value| == RECENT_TASKS && forall x :: x in r.value ==> x.createdAt >= t.createdAt
  {
    match session
    case None => Err(Unauthorized)
    case Some(caller) =>
      TaskOrdersArePreorders();
      var r := Top(tasks, ScopeOf(caller), NewestCreatedFirst, RECENT_TASKS);
      Ok(r)
  }
}
