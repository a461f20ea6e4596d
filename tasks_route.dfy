/**
 * `/api/tasks`: the role-scoped task list (GET) and task creation by a
 * leader, which assigns the task to a worker and notifies that worker (POST).
 */
module TasksRoute {
  import opened Basics
  import opened Domain
  import opened Db

  /** The rows GET selects: the caller's scope, narrowed to `status` when one is given. */
  predicate Listed(caller: Session, status: Option<Status>, t: Task) {
    InScope(caller, t) && (status.Some? ==> t.status == status.value)
  }

  /** GET /api/tasks?status=... */
  function ListTasks(tasks: seq<Task>, session: Option<Session>, status: Option<Status>): (r: Result<seq<Task>>)
    ensures session.None? <==> r == Err(Unauthorized)
    ensures r.Ok? || r == Err(Unauthorized)
    ensures session.Some? && session.value.role == LEADER ==>
      forall t :: t in r.value <==>
        t in tasks && t.leaderId == session.value.id && (status.Some? ==> t.status == status.value)
    ensures session.Some? && session.value.role != LEADER ==>
      forall t :: t in r.value <==>
        t in tasks && t.workerId == session.value.id && (status.Some? ==> t.status == status.value)
    ensures r.Ok? ==> forall t :: multiset(r.value)[t] == if Listed(session.value, status, t) then multiset(tasks)[t] else 0
    ensures r.Ok? ==> forall i, j :: 0 <= i < j < |r.value| ==> r.value[i].createdAt >= r.value[j].createdAt
  {
    match session
    case None => Err(Unauthorized)
    case Some(caller) =>
      TaskOrdersArePreorders();
      Ok(Select(tasks, t => Listed(caller, status, t), NewestCreatedFirst))
  }

  /** The JSON body of POST /api/tasks; "" and None stand for absent or empty fields. */
  datatype NewTask = NewTask(title: string, description: string, deadline: Option<Time>, workerId: Id)

  predicate MissingField(body: NewTask) {
    body.title == "" || body.description == "" || body.deadline.None? || body.workerId == ""
  }

  function AssignedText(title: string): string {
    "Se te ha asignado una nueva tarea: " + title
  }

  /**
   * POST /api/tasks. A `workerId` that names no user makes the insert fail
   * its foreign key, which the route's catch turns into a 500.
   */
  method CreateTask(db: Store, session: Option<Session>, body: NewTask, taskId: Id, notificationId: Id, now: Time)
    returns (r: Result<Task>)
    requires db.Valid()
    requires Unused(db.tasks, TaskKey, taskId) && Unused(db.notifications, NotificationKey, notificationId)
    modifies db`tasks, db`notifications
    ensures db.Valid()
    ensures session.None? ==> r == Err(Unauthorized)
    ensures session.Some? && session.value.role != LEADER ==> r == Err(Forbidden)
    ensures session.Some? && session.value.role == LEADER && MissingField(body) ==> r == Err(BadRequest)
    ensures session.Some? && session.value.role == LEADER && !MissingField(body) ==>
      (r == Err(ServerError) <==> Unused(db.users, UserKey, body.workerId))
    ensures r.Err? ==> db.tasks == old(db.tasks) && db.notifications == old(db.notifications)
    ensures r.Ok? ==>
      && session.Some?
      && r.value == Task(taskId, body.title, body.description, body.deadline.value, Pending,
                         session.value.id, body.workerId, now, now)
      && db.tasks == old(db.tasks) + [r.value]
      && db.notifications == old(db.notifications) +
           [Notification(notificationId, body.workerId, AssignedText(body.title), TaskAssigned, Some(taskId), false, now)]
  {
    if session.None? {
      return Err(Unauthorized);
    }
    var caller := session.value;
    if caller.role != LEADER {
      return Err(Forbidden);
    }
    if MissingField(body) {
      return Err(BadRequest);
    }
    if Unused(db.users, UserKey, body.workerId) {
      return Err(ServerError);
    }
    var task := Task(taskId, body.title, body.description, body.deadline.value, Pending,
                     caller.id, body.workerId, now, now);
    db.CreateTask(task);
    db.CreateNotification(
      Notification(notificationId, body.workerId, AssignedText(body.title), TaskAssigned, Some(taskId), false, now));
    return Ok(task);
  }
}
