/**
 * `POST /api/comments`: a party to a task comments on it, and the other
 * party is notified. The task row itself is not written.
 */
module CommentsRoute {
  import opened Basics
  import opened Domain
  import opened Db

  /** `findUnique({ where: { id: taskId, OR: [{ leaderId }, { workerId }] } })` */
  function PartyTask(tasks: seq<Task>, taskId: Id, callerId: Id): (r: Option<Task>)
    ensures r.Some? ==> r.value in tasks && r.value.id == taskId
    ensures r.Some? ==> r.value.leaderId == callerId || r.value.workerId == callerId
    ensures r.None? <==>
      forall t :: t in tasks ==> !(t.id == taskId && (t.leaderId == callerId || t.workerId == callerId))
  {
    Find(tasks, (t: Task) => t.id == taskId && (t.leaderId == callerId || t.workerId == callerId))
  }

  /** Who is notified of a comment: the task's other party relative to the author. */
  function Recipient(callerId: Id, task: Task): (r: Id)
    ensures r == task.leaderId || r == task.workerId
    ensures callerId == task.leaderId ==> r == task.workerId
    ensures callerId == task.workerId && task.leaderId != task.workerId ==> r == task.leaderId
    ensures (callerId == task.leaderId || callerId == task.workerId) && task.leaderId != task.workerId ==>
      r != callerId
  {
    if callerId == task.leaderId then task.workerId else task.leaderId
  }

  function CommentText(title: string): string {
    "Nuevo comentario en la tarea \"" + title + "\""
  }

  method PostComment(
    db: Store, session: Option<Session>, taskId: Id, content: string,
    commentId: Id, notificationId: Id, now: Time)
    returns (r: Result<TaskComment>)
    requires db.Valid()
    requires Unused(db.comments, CommentKey, commentId)
    requires Unused(db.notifications, NotificationKey, notificationId)
    modifies db`comments, db`notifications
    ensures db.Valid()
    ensures session.None? ==> r == Err(Unauthorized)
    ensures session.Some? && (taskId == "" || content == "") ==> r == Err(BadRequest)
    ensures session.Some? && taskId != "" && content != "" ==>
      (r == Err(NotFound) <==> PartyTask(db.tasks, taskId, session.value.id).None?)
    ensures r.Err? ==> unchanged(db)
    ensures r.Ok? ==>
      && session.Some?
      && var task := PartyTask(db.tasks, taskId, session.value.id);
      && task.Some?
      && r.value == TaskComment(commentId, taskId, session.value.id, content, now)
      && db.comments == old(db.comments) + [r.value]
      && db.notifications == old(db.notifications) +
           [Notification(notificationId, Recipient(session.value.id, task.value), CommentText(task.value.title),
                         CommentAdded, Some(taskId), false, now)]
  {
    if session.None? {
      return Err(Unauthorized);
    }
    var caller := session.value;
    if taskId == "" || content == "" {
      return Err(BadRequest);
    }
    var task := PartyTask(db.tasks, taskId, caller.id);
    if task.None? {
      return Err(NotFound);
    }
    var comment := TaskComment(commentId, taskId, caller.id, content, now);
    db.CreateComment(comment);
    var notifyUserId := Recipient(caller.id, task.value);
    db.CreateNotification(
      Notification(notificationId, notifyUserId, CommentText(task.value.title), CommentAdded, Some(taskId), false, now));
    return Ok(comment);
  }
}
