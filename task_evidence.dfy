/**
 * The evidence panel of a task: who is offered the upload form, and the
 * request it sends.
 */
module TaskEvidence {
  import opened Basics
  import opened Domain
  import EvidenceRoute
  import TaskActions

  /** Only the assigned worker, and only while the task is pending or in progress. */
  predicate CanUploadEvidence(role: Role, userId: Id, workerId: Id, status: Status) {
    role == WORKER && userId == workerId && (status == Pending || status == InProgress)
  }

  /**
   * Whoever the panel offers the form to passes the endpoint's ownership
   * check; the endpoint alone would also take evidence for a completed or
   * rejected task, which the panel never offers.
   */
  lemma PanelImpliesEndpointAccepts(tasks: seq<Task>, t: Task, role: Role, userId: Id)
    requires t in tasks && CanUploadEvidence(role, userId, t.workerId, t.status)
    ensures EvidenceRoute.AssignedTask(tasks, t.id, userId).Some?
  {
  }

  /**
   * The upload form is offered to no leader, and only to someone the action
   * panel also lets change the task's status.
   */
  lemma UploaderMayChangeStatus(role: Role, userId: Id, t: Task)
    ensures !CanUploadEvidence(LEADER, userId, t.workerId, t.status)
    ensures CanUploadEvidence(role, userId, t.workerId, t.status) ==> TaskActions.CanChangeStatus(role, userId, t)
  {
  }

  lemma EndpointLooserThanPanel(tasks: seq<Task>, t: Task)
    requires t in tasks && (t.status == Completed || t.status == Rejected)
    ensures EvidenceRoute.AssignedTask(tasks, t.id, t.workerId).Some?
    ensures !CanUploadEvidence(WORKER, t.workerId, t.workerId, t.status)
  {
  }

  /** A file picked in the browser; only its name is visible to the model. */
  datatype File = File(name: string)

  datatype Upload = Upload(taskId: Id, file: File, description: string)

  class EvidenceForm {
    const taskId: Id
    var file: Option<File>
    var description: string
    var isUploading: bool

    constructor (taskId: Id)
      ensures this.taskId == taskId && file.None? && description == "" && !isUploading
    {
      this.taskId := taskId;
      file, description, isUploading := None, "", false;
    }

    /** `handleFileChange`: the first picked file is kept; picking nothing keeps the previous one. */
    method SelectFile(picked: seq<File>)
      modifies this`file
      ensures picked != [] ==> file == Some(picked[0])
      ensures picked == [] ==> file == old(file)
    {
      if picked != [] {
        file := Some(picked[0]);
      }
    }

    /** `uploadEvidence` up to the request: without a file nothing is sent. */
    method UploadEvidence() returns (sent: Option<Upload>)
      modifies this`isUploading
      ensures file.None? ==> sent.None? && isUploading == old(isUploading)
      ensures file.Some? ==> sent == Some(Upload(taskId, file.value, description)) && isUploading
    {
      if file.None? {
        return None;
      }
      isUploading := true;
      return Some(Upload(taskId, file.value, description));
    }

    /** After a successful upload the file and the description are cleared; the form is idle either way. */
    method FinishUpload(ok: bool)
      modifies this`file, this`description, this`isUploading
      ensures !isUploading
      ensures ok ==> file.None? && description == ""
      ensures !ok ==> file == old(file) && description == old(description)
    {
      if ok {
        file := None;
        description := "";
      }
      isUploading := false;
    }
  }
}
