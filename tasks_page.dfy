/**
 * The tasks page: the caller's pending, in-progress and completed tasks as
 * three lists.
 */
module TasksPage {
  import opened Basics
  import opened Domain

  datatype TaskBoard = TaskBoard(pending: seq<Task>, inProgress: seq<Task>, completed: seq<Task>)

  /** The order of a column: deadline first for open work, latest update first for completed work. */
  function ColumnOrder(status: Status): (Task, Task) -> bool {
    if status == Completed then LatestUpdatedFirst else EarliestDeadlineFirst
  }

  /** One of the page's queries: the caller's tasks with this status. */
  function Column(tasks: seq<Task>, caller: Session, status: Status): (r: seq<Task>)
    ensures forall t :: t in r <==> t in tasks && InScope(caller, t) && t.status == status
    ensures forall t :: multiset(r)[t] == if InScope(caller, t) && t.status == status then multiset(tasks)[t] else 0
    ensures SortedBy(r, ColumnOrder(status))
  {
    TaskOrdersArePreorders();
    Select(tasks, (t: Task) => InScope(caller, t) && t.status == status, ColumnOrder(status))
  }

  /**
   * The page's queries; None when there is no session, where reading the
   * caller's id fails and the page errors.
   */
  function TasksPage(tasks: seq<Task>, session: Option<Session>): (r: Option<TaskBoard>)
    ensures r.None? <==> session.None?
    ensures r.Some? ==>
      && r.value.pending == Column(tasks, session.value, Pending)
      && r.value.inProgress == Column(tasks, session.value, InProgress)
      && r.value.completed == Column(tasks, session.value, Completed)
  {
    match session
    case None => None
    case Some(caller) =>
      Some(TaskBoard(Column(tasks, caller, Pending), Column(tasks, caller, InProgress), Column(tasks, caller, Completed)))
  }

  /**
   * The three lists share no task, and a rejected task is in none of them;
   * every in-scope task that is not rejected is in exactly one.
   */
  lemma BoardPartitionsOpenWork(tasks: seq<Task>, caller: Session, t: Task)
    requires t in tasks && InScope(caller, t)
    ensures var b := TasksPage(tasks, Some(caller)).value;
      && (t.status == Rejected <==> t !in b.pending && t !in b.inProgress && t !in b.completed)
      && !(t in b.pending && t in b.inProgress)
      && !(t in b.pending && t in b.completed)
      && !(t in b.inProgress && t in b.completed)
  {
  }
}
