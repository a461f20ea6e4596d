/**
 * `POST /api/evidence`: the assigned worker uploads a completion proof. The
 * route inserts the evidence, forces the task to `completed` and notifies
 * the task's leader. It does not look at the task's current status.
 */
module EvidenceRoute {
  import opened Basics
  import opened Domain
  import opened Db

  /** `findUnique({ where: { id: taskId, workerId: callerId } })` */
  function AssignedTask(tasks: seq<Task>, taskId: Id, callerId: Id): (r: Option<Task>)
    ensures r.Some? ==> r.value in tasks && r.value.id == taskId && r.value.workerId == callerId
    ensures r.None? <==> forall t :: t in tasks ==> !(t.id == taskId && t.workerId == callerId)
  {
    Find(tasks, (t: Task) => t.id == taskId && t.workerId == callerId)
  }

  function EvidenceText(title: string): string {
    "Se ha subido un comprobante para la tarea \"" + title + "\""
  }

  /**
   * The upload form carries `taskId`, `description` and a file; only the
   * file's presence matters here, and `fileUrl` is the URL the route builds
   * from the clock and the file name.
   */
  method UploadEvidence(
    db: Store, session: Option<Session>, taskId: Id, description: string, hasFile: bool,
    fileUrl: string, evidenceId: Id, notificationId: Id, now: Time)
    returns (r: Result<Evidence>)
    requires db.Valid()
    requires Unused(db.evidence, EvidenceKey, evidenceId)
    requires Unused(db.notifications, NotificationKey, notificationId)
    modifies db`evidence, db`tasks, db`notifications
    ensures db.Valid()
    ensures session.None? ==> r == Err(Unauthorized)
    ensures session.Some? && (taskId == "" || !hasFile) ==> r == Err(BadRequest)
    ensures session.Some? && taskId != "" && hasFile ==>
      (r == Err(NotFound) <==> AssignedTask(old(db.tasks), taskId, session.value.id).None?)
    ensures r.Err? ==> unchanged(db)
    ensures r.Ok? ==>
      && session.Some?
      && var task := AssignedTask(old(db.tasks), taskId, session.value.id);
      && task.Some?
      && r.value == Evidence(evidenceId, taskId, fileUrl, description, now)
      && db.evidence == old(db.evidence) + [r.value]
      && db.tasks == WithStatus(old(db.tasks), taskId, Completed, now)
      && db.notifications == old(db.notifications) +
           [Notification(notificationId, task.value.leaderId, EvidenceText(task.value.title),
                         EvidenceUploaded, Some(taskId), false, now)]
  {
    if session.None? {
      return Err(Unauthorized);
    }
    var caller := session.value;
    if taskId == "" || !hasFile {
      return Err(BadRequest);
    }
    var task := AssignedTask(db.tasks, taskId, caller.id);
    if task.None? {
      return Err(NotFound);
    }
    var evidence := Evidence(evidenceId, taskId, fileUrl, description, now);
    db.CreateEvidence(evidence);
    db.UpdateTaskStatus(taskId, Completed, now);
    db.CreateNotification(
      Notification(notificationId, task.value.leaderId, EvidenceText(task.value.title),
                   EvidenceUploaded, Some(taskId), false, now));
    return Ok(evidence);
  }
}
