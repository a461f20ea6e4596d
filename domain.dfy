/**
 * The entities of the Railis schema, the caller's session, the HTTP error
 * taxonomy shared by every endpoint, and the role-scoping rule that every
 * task query repeats.
 */
module Domain {
  import opened Basics

  /** Row identifiers are opaque strings (Prisma cuids). */
  type Id = string
  /** Timestamps are integer milliseconds since the Unix epoch. */
  type Time = int
  /** Roles are stored as free text; only "leader" and "worker" have meaning. */
  type Role = string

  const LEADER: Role := "leader"
  const WORKER: Role := "worker"

  /** 1000 * 60 * 60 * 24 */
  const DAY_MS: int := 86_400_000

  datatype Status = Pending | InProgress | Completed | Rejected

  datatype NotificationType =
    | TaskAssigned
    | TaskCompleted
    | MessageReceived
    | EvidenceUploaded
    | CommentAdded

  /** The string the database and the client use for each notification type. */
  function TypeName(t: NotificationType): string {
    match t
    case TaskAssigned => "task_assigned"
    case TaskCompleted => "task_completed"
    case MessageReceived => "message_received"
    case EvidenceUploaded => "evidence_uploaded"
    case CommentAdded => "comment_added"
  }

  lemma TypeNameInjective(t: NotificationType, u: NotificationType)
    ensures TypeName(t) == TypeName(u) ==> t == u
  {
  }

  datatype User = User(id: Id, name: string, email: string, password: string, role: Role, createdAt: Time)

  datatype Task = Task(
    id: Id,
    title: string,
    description: string,
    deadline: Time,
    status: Status,
    leaderId: Id,
    workerId: Id,
    createdAt: Time,
    updatedAt: Time)

  datatype Evidence = Evidence(id: Id, taskId: Id, fileUrl: string, description: string, createdAt: Time)

  datatype TaskComment = TaskComment(id: Id, taskId: Id, userId: Id, content: string, createdAt: Time)

  datatype Message = Message(id: Id, senderId: Id, receiverId: Id, content: string, read: bool, createdAt: Time)

  /** `kind` is the schema's `type` column (a reserved word in Dafny). */
  datatype Notification = Notification(
    id: Id,
    userId: Id,
    message: string,
    kind: NotificationType,
    relatedId: Option<Id>,
    read: bool,
    createdAt: Time)

  /** What next-auth's session carries for the signed-in user. */
  datatype Session = Session(id: Id, name: string, email: string, role: Role)

  /** The error responses of the API routes. */
  datatype Error =
    | Unauthorized        // 401: no session
    | Forbidden           // 403: wrong role
    | BadRequest          // 400: missing or invalid input
    | NotFound            // 404: row missing or caller not a party to it
    | ServiceUnavailable  // 503: database connection refused
    | ServerError         // 500: any other exception caught at the route boundary

  function Code(e: Error): (code: int)
    ensures 400 <= code < 600
  {
    match e
    case Unauthorized => 401
    case Forbidden => 403
    case BadRequest => 400
    case NotFound => 404
    case ServiceUnavailable => 503
    case ServerError => 500
  }

  datatype Result<+T> = Ok(value: T) | Err(error: Error)

  /**
   * The role-scoping rule repeated by the task list, recent tasks, stats,
   * dashboard and tasks page: a leader sees the tasks they created, every
   * other role the tasks assigned to them.
   */
  predicate InScope(caller: Session, t: Task) {
    if caller.role == LEADER then t.leaderId == caller.id else t.workerId == caller.id
  }

  /** The scoping rule as a filter. */
  function ScopeOf(caller: Session): Task -> bool {
    (t: Task) => InScope(caller, t)
  }

  /**
   * A task is in the scope of the leader who created it and of the worker it
   * is assigned to; a caller who is not a leader sees no task assigned to
   * someone else.
   */
  lemma ScopeOfParticipants(caller: Session, t: Task)
    ensures InScope(Session(t.leaderId, caller.name, caller.email, LEADER), t)
    ensures caller.role != LEADER ==> InScope(caller.(id := t.workerId), t)
    ensures caller.role != LEADER && InScope(caller, t) ==> caller.id == t.workerId
    ensures caller.role == LEADER && InScope(caller, t) ==> caller.id == t.leaderId
  {
  }

  // Orderings used by the queries (each a total preorder on its rows).

  predicate NewestCreatedFirst(a: Task, b: Task) { a.createdAt >= b.createdAt }
  predicate LatestUpdatedFirst(a: Task, b: Task) { a.updatedAt >= b.updatedAt }
  predicate EarliestDeadlineFirst(a: Task, b: Task) { a.deadline <= b.deadline }
  predicate NewestNotificationFirst(a: Notification, b: Notification) { a.createdAt >= b.createdAt }
  predicate OldestMessageFirst(a: Message, b: Message) { a.createdAt <= b.createdAt }

  lemma TaskOrdersArePreorders()
    ensures TotalPreorder(NewestCreatedFirst)
    ensures TotalPreorder(LatestUpdatedFirst)
    ensures TotalPreorder(EarliestDeadlineFirst)
  {
  }

  lemma RowOrdersArePreorders()
    ensures TotalPreorder(NewestNotificationFirst)
    ensures TotalPreorder(OldestMessageFirst)
  {
  }
}
