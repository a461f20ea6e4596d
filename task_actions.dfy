/**
 * The task-detail action panel: who may change a task's status or delete
 * it, which statuses the picker offers, and the request the panel issues.
 */
module TaskActions {
  import opened Basics
  import opened Domain

  /** Every leader may change the status; a worker only on their own task until it is completed. */
  predicate CanChangeStatus(role: Role, userId: Id, task: Task) {
    role == LEADER || (role == WORKER && userId == task.workerId && task.status != Completed)
  }

  /** Only the leader who owns the task may delete it. */
  predicate CanDelete(role: Role, userId: Id, task: Task) {
    role == LEADER && userId == task.leaderId
  }

  /** The statuses the picker lists, in display order. */
  function StatusOptions(role: Role): (r: seq<Status>)
    ensures Pending in r && InProgress in r && Completed in r
    ensures Rejected in r <==> role == LEADER
    ensures forall i, j :: 0 <= i < j < |r| ==> r[i] != r[j]
    ensures |r| == if role == LEADER then 4 else 3
    ensures r[..3] == [Pending, InProgress, Completed]
  {
    if role == LEADER then [Pending, InProgress, Completed, Rejected]
    else [Pending, InProgress, Completed]
  }

  /** A worker's options are a strict subset of a leader's, missing exactly `rejected`. */
  lemma WorkerOptionsStrictSubset(role: Role)
    requires role != LEADER
    ensures forall s :: s in StatusOptions(role) ==> s in StatusOptions(LEADER)
    ensures Rejected in StatusOptions(LEADER) && Rejected !in StatusOptions(role)
    ensures |StatusOptions(role)| + 1 == |StatusOptions(LEADER)|
  {
  }

  /** A leader may change the status of any task, including another leader's; deleting needs ownership. */
  lemma LeaderPowers(userId: Id, task: Task)
    ensures CanChangeStatus(LEADER, userId, task)
    ensures CanDelete(LEADER, userId, task) <==> task.leaderId == userId
  {
  }

  /**
   * A worker may change the status of their own task only while it is not
   * completed, and may never delete; a role other than leader and worker
   * may do neither.
   */
  lemma WorkerPowers(role: Role, userId: Id, task: Task)
    requires role != LEADER
    ensures CanChangeStatus(role, userId, task) <==> role == WORKER && userId == task.workerId && task.status != Completed
    ensures !CanDelete(role, userId, task)
  {
  }

  /** Whoever may delete a task may also change its status. */
  lemma DeleteImpliesChange(role: Role, userId: Id, task: Task)
    requires CanDelete(role, userId, task)
    ensures CanChangeStatus(role, userId, task)
  {
  }

  class TaskActions {
    const taskStatus: Status
    var newStatus: Status
    var isUpdating: bool
    var isDeleting: bool
    var showDeleteDialog: bool

    /** The picker starts at the task's current status. */
    constructor (taskStatus: Status)
      ensures this.taskStatus == taskStatus && newStatus == taskStatus
      ensures !isUpdating && !isDeleting && !showDeleteDialog
    {
      this.taskStatus := taskStatus;
      newStatus := taskStatus;
      isUpdating, isDeleting, showDeleteDialog := false, false, false;
    }

    method SelectStatus(s: Status)
      modifies this`newStatus
      ensures newStatus == s
    {
      newStatus := s;
    }

    /**
     * `updateTaskStatus` up to the request: nothing happens when the chosen
     * status is the current one; otherwise the panel is busy and the new
     * status is sent.
     */
    method UpdateTaskStatus() returns (sent: Option<Status>)
      modifies this`isUpdating
      ensures newStatus == taskStatus ==> sent.None? && isUpdating == old(isUpdating)
      ensures newStatus != taskStatus ==> sent == Some(newStatus) && isUpdating
    {
      if newStatus == taskStatus {
        return None;
      }
      isUpdating := true;
      return Some(newStatus);
    }

    method FinishUpdate()
      modifies this`isUpdating
      ensures !isUpdating
    {
      isUpdating := false;
    }

    /** `deleteTask` up to the request. */
    method DeleteTask()
      modifies this`isDeleting
      ensures isDeleting
    {
      isDeleting := true;
    }

    /** Whatever the answer, the panel stops deleting and closes the dialog. */
    method FinishDelete()
      modifies this`isDeleting, this`showDeleteDialog
      ensures !isDeleting && !showDeleteDialog
    {
      isDeleting := false;
      showDeleteDialog := false;
    }
  }

  /** Re-selecting the current status and pressing update sends nothing. */
  method ReselectSendsNothing(status: Status) returns (sent: Option<Status>)
    ensures sent.None?
  {
    var panel := new TaskActions(status);
    panel.SelectStatus(status);
    sent := panel.UpdateTaskStatus();
  }
}
