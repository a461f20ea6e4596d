/**
 * The dashboard page: how many of the caller's tasks are pending, in
 * progress and completed, and the five most recently updated tasks the
 * caller takes part in.
 */
module Dashboard {
  import opened Basics
  import opened Domain

  const RECENT_ACTIVITY: nat := 5

  /**
   * The scope of the counts. Without a session the id is undefined, and a
   * filter on an undefined value is dropped by the query, so every task is
   * counted.
   */
  function CountScope(session: Option<Session>): Task -> bool {
    match session
    case None => (t: Task) => true
    case Some(caller) => (t: Task) => InScope(caller, t)
  }

  /** The scope of recent activity: either side of the task, whatever the role. */
  function ActivityScope(session: Option<Session>): Task -> bool {
    match session
    case None => (t: Task) => true
    case Some(caller) => (t: Task) => t.leaderId == caller.id || t.workerId == caller.id
  }

  function StatusIs(s: Status): Task -> bool {
    (t: Task) => t.status == s
  }

  function Advanced(): Task -> bool {
    (t: Task) => t.status == InProgress || t.status == Completed
  }

  datatype DashboardData = DashboardData(
    pendingCount: nat, inProgressCount: nat, completedCount: nat, recentActivities: seq<Task>)

  /** The five tasks the caller takes part in that were updated last. */
  function RecentActivity(tasks: seq<Task>, session: Option<Session>): (r: seq<Task>)
    ensures |r| <= RECENT_ACTIVITY
    ensures var involved := |Filter(tasks, ActivityScope(session))|;
      |r| == if involved < RECENT_ACTIVITY then involved else RECENT_ACTIVITY
    ensures forall t :: multiset(r)[t] <= if ActivityScope(session)(t) then multiset(tasks)[t] else 0
    ensures forall t :: t in r ==> t in tasks && ActivityScope(session)(t)
    ensures forall i, j :: 0 <= i < j < |r| ==> r[i].updatedAt >= r[j].updatedAt
    ensures forall t :: t in tasks && ActivityScope(session)(t) && t !in r ==>
      |r| == RECENT_ACTIVITY && forall x :: x in r ==> x.updatedAt >= t.updatedAt
  {
    TaskOrdersArePreorders();
    Top(tasks, ActivityScope(session), LatestUpdatedFirst, RECENT_ACTIVITY)
  }

  function DashboardPage(tasks: seq<Task>, session: Option<Session>): (r: DashboardData)
    ensures var scoped := Filter(tasks, CountScope(session));
      && r.pendingCount == |Filter(scoped, StatusIs(Pending))|
      && r.inProgressCount == |Filter(scoped, StatusIs(InProgress))|
      && r.completedCount == |Filter(scoped, StatusIs(Completed))|
      && r.pendingCount + r.inProgressCount + r.completedCount <= |scoped|
    ensures r.recentActivities == RecentActivity(tasks, session)
  {
    var scoped := Filter(tasks, CountScope(session));
    FilterUnion(scoped, StatusIs(InProgress), StatusIs(Completed), Advanced());
    FilterDisjoint(scoped, StatusIs(Pending), Advanced());
    DashboardData(
      |Filter(scoped, StatusIs(Pending))|,
      |Filter(scoped, StatusIs(InProgress))|,
      |Filter(scoped, StatusIs(Completed))|,
      RecentActivity(tasks, session))
  }

  /** Adding a rejected task changes none of the three counts. */
  lemma RejectedNotCounted(tasks: seq<Task>, session: Option<Session>, t: Task)
    requires t.status == Rejected
    ensures DashboardPage(tasks + [t], session).pendingCount == DashboardPage(tasks, session).pendingCount
    ensures DashboardPage(tasks + [t], session).inProgressCount == DashboardPage(tasks, session).inProgressCount
    ensures DashboardPage(tasks + [t], session).completedCount == DashboardPage(tasks, session).completedCount
  {
    var scope := CountScope(session);
    var scoped := Filter(tasks, scope);
    FilterAppend(tasks, [t], scope);
    var extra := Filter([t], scope);
    assert [t][1..] == [];
    assert extra == [t] || extra == [];
    FilterNone(extra, StatusIs(Pending));
    FilterNone(extra, StatusIs(InProgress));
    FilterNone(extra, StatusIs(Completed));
    FilterAppend(scoped, extra, StatusIs(Pending));
    FilterAppend(scoped, extra, StatusIs(InProgress));
    FilterAppend(scoped, extra, StatusIs(Completed));
  }
}
