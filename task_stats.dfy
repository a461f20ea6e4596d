/**
 * `/api/tasks/stats`: counts and rates over the caller's tasks, and the
 * completion-time arithmetic the reports page shares with it.
 */
module TaskStats {
  import opened Basics
  import opened Domain
  import opened Calendar

  // ---------------------------------------------------------------------
  // completion time
  // ---------------------------------------------------------------------

  /** Whole days from creation to the last update, rounded up (a partial day counts). */
  function CompletionDays(t: Task): (r: int)
    ensures r >= 0
    ensures (r - 1) * DAY_MS < Abs(t.updatedAt - t.createdAt) <= r * DAY_MS
  {
    CeilDiv(Abs(t.updatedAt - t.createdAt), DAY_MS)
  }

  /** The `reduce` that adds up the completion days. */
  function TotalDays(ts: seq<Task>): (r: int)
    ensures r >= 0
  {
    if ts == [] then 0 else TotalDays(ts[..|ts| - 1]) + CompletionDays(ts[|ts| - 1])
  }

  /** Rounded mean completion days (halves round up), 0 for no tasks. */
  function AvgCompletionTime(completed: seq<Task>): (r: int)
    ensures r >= 0
    ensures completed == [] ==> r == 0
    ensures completed != [] ==>
      r * (2 * |completed|) <= 2 * TotalDays(completed) + |completed| < (r + 1) * (2 * |completed|)
  {
    if |completed| > 0 then
      RoundDivBounds(TotalDays(completed), |completed|, 0, TotalDays(completed));
      RoundDiv(TotalDays(completed), |completed|)
    else 0
  }

  lemma {:induction false} TotalDaysBounds(ts: seq<Task>, lo: int, hi: int)
    requires forall i :: 0 <= i < |ts| ==> lo <= CompletionDays(ts[i]) <= hi
    ensures |ts| * lo <= TotalDays(ts) <= |ts| * hi
    decreases |ts|
  {
    if ts != [] {
      var init, last := ts[..|ts| - 1], ts[|ts| - 1];
      assert forall i :: 0 <= i < |init| ==> init[i] == ts[i];
      TotalDaysBounds(init, lo, hi);
      var n := |init|;
      assert TotalDays(ts) == TotalDays(init) + CompletionDays(last);
      assert lo <= CompletionDays(last) <= hi;
      MulSucc(n, lo);
      MulSucc(n, hi);
    }
  }

  lemma MulSucc(n: int, x: int)
    ensures (n + 1) * x == n * x + x
  {
  }

  /** The mean lies between the fewest and the most days any completed task took. */
  lemma AvgWithin(completed: seq<Task>, lo: int, hi: int)
    requires completed != []
    requires forall i :: 0 <= i < |completed| ==> lo <= CompletionDays(completed[i]) <= hi
    ensures lo <= AvgCompletionTime(completed) <= hi
  {
    TotalDaysBounds(completed, lo, hi);
    RoundDivBounds(TotalDays(completed), |completed|, lo, hi);
  }

  /** A task finished one millisecond after creation took one day; one finished 72 hours later took three. */
  lemma CeilingDays(t: Task)
    ensures t.updatedAt == t.createdAt + 1 ==> CompletionDays(t) == 1
    ensures t.updatedAt == t.createdAt + 3 * DAY_MS ==> CompletionDays(t) == 3
    ensures t.updatedAt == t.createdAt ==> CompletionDays(t) == 0
  {
  }

  // ---------------------------------------------------------------------
  // the statistics
  // ---------------------------------------------------------------------

  datatype Stats = Stats(
    totalTasks: nat,
    completedTasks: nat,
    pendingTasks: nat,
    tasksThisMonth: nat,
    completionRate: int,
    avgCompletionTime: int,
    completedOnTime: int,
    overallEfficiency: int)

  function IsCompleted(): Task -> bool {
    (t: Task) => t.status == Completed
  }

  /** Pending or in progress: rejected tasks are neither done nor open. */
  function IsOpen(): Task -> bool {
    (t: Task) => t.status == Pending || t.status == InProgress
  }

  function CreatedSince(start: Time): Task -> bool {
    (t: Task) => t.createdAt >= start
  }

  function OnTime(): Task -> bool {
    (t: Task) => t.updatedAt <= t.deadline
  }

  /** The figures over an already scoped task list, with `monthStart` the first instant of this month. */
  function Figures(tasks: seq<Task>, monthStart: Time): (r: Stats)
    ensures r.totalTasks == |tasks|
    ensures r.completedTasks == |Filter(tasks, IsCompleted())|
    ensures r.pendingTasks == |Filter(tasks, IsOpen())|
    ensures r.tasksThisMonth == |Filter(tasks, CreatedSince(monthStart))|
    ensures r.completionRate == Percent(r.completedTasks, r.totalTasks)
    ensures r.avgCompletionTime == AvgCompletionTime(Filter(tasks, IsCompleted()))
    ensures r.completedOnTime == Percent(|Filter(Filter(tasks, IsCompleted()), OnTime())|, r.completedTasks)
    ensures r.overallEfficiency == RoundDiv(r.completionRate + r.completedOnTime, 2)
    ensures r.completedTasks + r.pendingTasks <= r.totalTasks
    ensures r.tasksThisMonth <= r.totalTasks
    ensures 0 <= r.completionRate <= 100
    ensures r.totalTasks == 0 ==> r.completionRate == 0
    ensures r.totalTasks > 0 && r.completedTasks == r.totalTasks ==> r.completionRate == 100
    ensures r.avgCompletionTime >= 0
    ensures 0 <= r.completedOnTime <= 100
    ensures r.completedTasks == 0 ==> r.avgCompletionTime == 0 && r.completedOnTime == 0
    ensures 0 <= r.overallEfficiency <= 100
  {
    var completed := Filter(tasks, IsCompleted());
    var pending := Filter(tasks, IsOpen());
    var thisMonth := Filter(tasks, CreatedSince(monthStart));
    FilterDisjoint(tasks, IsCompleted(), IsOpen());
    var completionRate := Percent(|completed|, |tasks|);
    var onTime := Filter(completed, OnTime());
    var completedOnTime := Percent(|onTime|, |completed|);
    RoundDivBounds(completionRate + completedOnTime, 2, 0, 100);
    Stats(
      |tasks|, |completed|, |pending|, |thisMonth|,
      completionRate, AvgCompletionTime(completed), completedOnTime,
      RoundDiv(completionRate + completedOnTime, 2))
  }

  /** GET /api/tasks/stats, with `today` the clock's current month. */
  function GetStats(tasks: seq<Task>, session: Option<Session>, today: YearMonth): (r: Result<Stats>)
    requires ValidMonth(today)
    ensures session.None? <==> r == Err(Unauthorized)
    ensures r.Ok? || r == Err(Unauthorized)
    ensures r.Ok? ==> r.value == Figures(Filter(tasks, ScopeOf(session.value)), MonthStart(today))
  {
    match session
    case None => Err(Unauthorized)
    case Some(caller) => Ok(Figures(Filter(tasks, ScopeOf(caller)), MonthStart(today)))
  }
}
