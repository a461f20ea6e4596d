/**
 * The reports page: per-worker figures for the calling leader and a chart
 * of tasks completed and created in each of the last six calendar months.
 */
module Reports {
  import opened Basics
  import opened Domain
  import opened Calendar
  import opened TaskStats

  // ---------------------------------------------------------------------
  // per-worker figures
  // ---------------------------------------------------------------------

  /** One row of the worker-performance table. */
  datatype WorkerStats = WorkerStats(
    id: Id, name: string, email: string,
    totalTasks: nat, completedTasks: nat,
    completionRate: int, onTimeRate: int, avgCompletionTime: int)

  /** Tasks the leader assigned to the worker. */
  function Assigned(leaderId: Id, workerId: Id): Task -> bool {
    (t: Task) => t.leaderId == leaderId && t.workerId == workerId
  }

  function AssignedDone(leaderId: Id, workerId: Id): Task -> bool {
    (t: Task) => t.leaderId == leaderId && t.workerId == workerId && t.status == Completed
  }

  /**
   * The page's "on time": completed, last updated no later than now, and
   * with a deadline that has not passed yet.
   */
  function AssignedDoneOnTime(leaderId: Id, workerId: Id, now: Time): Task -> bool {
    (t: Task) => t.leaderId == leaderId && t.workerId == workerId && t.status == Completed
                 && t.updatedAt <= now && t.deadline >= now
  }

  /** The figures of one worker, from the tasks the calling leader gave them. */
  function WorkerFigures(tasks: seq<Task>, leaderId: Id, worker: User, now: Time): (r: WorkerStats)
    ensures r.id == worker.id && r.name == worker.name && r.email == worker.email
    ensures r.totalTasks == |Filter(tasks, Assigned(leaderId, worker.id))|
    ensures r.completedTasks == |Filter(tasks, AssignedDone(leaderId, worker.id))|
    ensures r.completedTasks <= r.totalTasks
    ensures 0 <= r.completionRate <= 100 && (r.totalTasks == 0 ==> r.completionRate == 0)
    ensures 0 <= r.onTimeRate <= 100 && (r.completedTasks == 0 ==> r.onTimeRate == 0)
    ensures r.avgCompletionTime >= 0 && (r.completedTasks == 0 ==> r.avgCompletionTime == 0)
    ensures r.completionRate == Percent(r.completedTasks, r.totalTasks)
    ensures r.onTimeRate == Percent(|Filter(tasks, AssignedDoneOnTime(leaderId, worker.id, now))|, r.completedTasks)
    ensures r.avgCompletionTime == AvgCompletionTime(Filter(tasks, AssignedDone(leaderId, worker.id)))
  {
    var total := |Filter(tasks, Assigned(leaderId, worker.id))|;
    var done := Filter(tasks, AssignedDone(leaderId, worker.id));
    var onTime := |Filter(tasks, AssignedDoneOnTime(leaderId, worker.id, now))|;
    FilterMonotone(tasks, AssignedDone(leaderId, worker.id), Assigned(leaderId, worker.id));
    FilterMonotone(tasks, AssignedDoneOnTime(leaderId, worker.id, now), AssignedDone(leaderId, worker.id));
    WorkerStats(
      worker.id, worker.name, worker.email, total, |done|,
      Percent(|done|, total), Percent(onTime, |done|), AvgCompletionTime(done))
  }

  function IsWorker(): User -> bool {
    (u: User) => u.role == WORKER
  }

  /** A row for every user whose role is worker, in the order the users were read. */
  function WorkerTable(users: seq<User>, tasks: seq<Task>, leaderId: Id, now: Time): (r: seq<WorkerStats>)
    ensures |r| == |Filter(users, IsWorker())|
    ensures forall i :: 0 <= i < |r| ==>
      r[i] == WorkerFigures(tasks, leaderId, Filter(users, IsWorker())[i], now)
  {
    var workers := Filter(users, IsWorker());
    seq(|workers|, i requires 0 <= i < |workers| => WorkerFigures(tasks, leaderId, workers[i], now))
  }

  // ---------------------------------------------------------------------
  // the six months
  // ---------------------------------------------------------------------

  /** The months `new Date(year, month - i, 1)` for i = 5 down to 0. */
  function Months(today: YearMonth): (r: seq<YearMonth>)
    ensures |r| == 6
    ensures forall k :: 0 <= k < 6 ==> ValidMonth(r[k])
  {
    var r := seq(6, k requires 0 <= k < 6 => Normalize(today.year, today.month - (5 - k)));
    assert forall k :: 0 <= k < 6 ==> r[k] == Normalize(today.year, today.month - (5 - k));
    r
  }

  /** The loop that `unshift`s one month per step, the current one first. */
  method MonthList(today: YearMonth) returns (months: seq<YearMonth>)
    ensures months == Months(today)
  {
    months := [];
    for i := 0 to 6
      invariant |months| == i
      invariant forall k :: 0 <= k < i ==> months[k] == Normalize(today.year, today.month - (i - 1 - k))
    {
      months := [Normalize(today.year, today.month - i)] + months;
    }
    assert forall k :: 0 <= k < 6 ==> months[k] == Months(today)[k];
  }

  /** Six consecutive months, oldest first, ending with the current one. */
  lemma MonthsConsecutive(today: YearMonth)
    requires ValidMonth(today)
    ensures Months(today)[5] == today
    ensures forall k :: 0 <= k < 5 ==> Next(Months(today)[k]) == Months(today)[k + 1]
  {
    var ms := Months(today);
    assert ms[5] == Normalize(today.year, today.month - 0);
    assert today.month / 12 == 0 && today.month % 12 == today.month;
    forall k | 0 <= k < 5 ensures Next(ms[k]) == ms[k + 1] {
      NextOfNormalize(today.year, today.month - (4 - k));
      assert today.month - (4 - k) - 1 == today.month - (5 - k);
    }
  }

  /** Shown in February 2024 (month 1, months counting from 0), the chart reaches back into 2023. */
  lemma MonthsRollOver()
    ensures Months(YearMonth(2024, 1)) == [
      YearMonth(2023, 8), YearMonth(2023, 9), YearMonth(2023, 10),
      YearMonth(2023, 11), YearMonth(2024, 0), YearMonth(2024, 1)]
  {
    var ms := Months(YearMonth(2024, 1));
    assert ms[0] == Normalize(2024, -4) == YearMonth(2023, 8);
    assert ms[1] == Normalize(2024, -3) == YearMonth(2023, 9);
    assert ms[2] == Normalize(2024, -2) == YearMonth(2023, 10);
    assert ms[3] == Normalize(2024, -1) == YearMonth(2023, 11);
    assert ms[4] == Normalize(2024, 0) == YearMonth(2024, 0);
    assert ms[5] == Normalize(2024, 1) == YearMonth(2024, 1);
  }

  // ---------------------------------------------------------------------
  // month buckets
  // ---------------------------------------------------------------------

  datatype MonthBucket = MonthBucket(month: YearMonth, completed: nat, total: nat)

  function OwnedBy(leaderId: Id): Task -> bool {
    (t: Task) => t.leaderId == leaderId
  }

  function OwnedDone(leaderId: Id): Task -> bool {
    (t: Task) => t.leaderId == leaderId && t.status == Completed
  }

  function CreatedAt(): Task -> int {
    (t: Task) => t.createdAt
  }

  function UpdatedAt(): Task -> int {
    (t: Task) => t.updatedAt
  }

  /** An instant of calendar month `ym`: from its first instant up to, not including, the next month's. */
  predicate InMonth(ym: YearMonth, t: Time)
    requires ValidMonth(ym)
  {
    MonthStart(ym) <= t < MonthStart(Next(ym))
  }

  /**
   * The range the page queries: `gte` the first day at 00:00 and `lte`
   * `new Date(year, month + 1, 0)`, which is the last day at 00:00.
   */
  predicate InMonthAsWritten(ym: YearMonth, t: Time)
    requires ValidMonth(ym)
  {
    MonthStart(ym) <= t <= MonthStart(Next(ym)) - DAY_MS
  }

  /** The bucket of the page as written. */
  function BucketAsWritten(tasks: seq<Task>, leaderId: Id, ym: YearMonth): (r: MonthBucket)
    requires ValidMonth(ym)
    ensures r.month == ym
    ensures r.total == |Filter(tasks, Window(OwnedBy(leaderId), CreatedAt(), MonthStart(ym), MonthStart(Next(ym)) - DAY_MS + 1))|
    ensures r.completed == |Filter(tasks, Window(OwnedDone(leaderId), UpdatedAt(), MonthStart(ym), MonthStart(Next(ym)) - DAY_MS + 1))|
    ensures forall t :: t in tasks && t.leaderId == leaderId && InMonthAsWritten(ym, t.createdAt) ==> r.total > 0
  {
    var lo := MonthStart(ym);
    var hi := MonthStart(Next(ym)) - DAY_MS + 1;
    forall t | t in tasks && t.leaderId == leaderId && InMonthAsWritten(ym, t.createdAt)
      ensures |Filter(tasks, Window(OwnedBy(leaderId), CreatedAt(), lo, hi))| > 0
    {
      FilterMembership(tasks, Window(OwnedBy(leaderId), CreatedAt(), lo, hi), t);
    }
    MonthBucket(ym,
      |Filter(tasks, Window(OwnedDone(leaderId), UpdatedAt(), lo, hi))|,
      |Filter(tasks, Window(OwnedBy(leaderId), CreatedAt(), lo, hi))|)
  }

  /** A bucket covering the whole calendar month. */
  function Bucket(tasks: seq<Task>, leaderId: Id, ym: YearMonth): (r: MonthBucket)
    requires ValidMonth(ym)
    ensures r.month == ym
    ensures r.total == |Filter(tasks, Window(OwnedBy(leaderId), CreatedAt(), MonthStart(ym), MonthStart(Next(ym))))|
    ensures r.completed == |Filter(tasks, Window(OwnedDone(leaderId), UpdatedAt(), MonthStart(ym), MonthStart(Next(ym))))|
  {
    var lo := MonthStart(ym);
    var hi := MonthStart(Next(ym));
    MonthBucket(ym,
      |Filter(tasks, Window(OwnedDone(leaderId), UpdatedAt(), lo, hi))|,
      |Filter(tasks, Window(OwnedBy(leaderId), CreatedAt(), lo, hi))|)
  }

  function ChartAsWritten(tasks: seq<Task>, leaderId: Id, today: YearMonth): (r: seq<MonthBucket>)
    ensures |r| == 6
    ensures forall k :: 0 <= k < 6 ==> r[k].month == Months(today)[k]
    ensures forall k :: 0 <= k < 6 ==> r[k] == BucketAsWritten(tasks, leaderId, Months(today)[k])
  {
    var ms := Months(today);
    seq(6, k requires 0 <= k < 6 => BucketAsWritten(tasks, leaderId, ms[k]))
  }

  function Chart(tasks: seq<Task>, leaderId: Id, today: YearMonth): (r: seq<MonthBucket>)
    ensures |r| == 6
    ensures forall k :: 0 <= k < 6 ==> r[k].month == Months(today)[k]
    ensures forall k :: 0 <= k < 6 ==> r[k] == Bucket(tasks, leaderId, Months(today)[k])
  {
    var ms := Months(today);
    seq(6, k requires 0 <= k < 6 => Bucket(tasks, leaderId, ms[k]))
  }

  /**
   * As written, a task a leader created at noon on the last day of January
   * 2024 is counted in no bucket of the chart shown in February 2024,
   * although January is one of its months.
   */
  lemma LastDayMissedAsWritten(leaderId: Id)
    ensures var t := Task("t", "", "", 0, Pending, leaderId, "w", 1_706_702_400_000, 1_706_702_400_000);
      && InMonth(YearMonth(2024, 0), t.createdAt)
      && YearMonth(2024, 0) in Months(YearMonth(2024, 1))
      && forall k :: 0 <= k < 6 ==> ChartAsWritten([t], leaderId, YearMonth(2024, 1))[k].total == 0
  {
    var t := Task("t", "", "", 0, Pending, leaderId, "w", 1_706_702_400_000, 1_706_702_400_000);
    var ms := Months(YearMonth(2024, 1));
    MonthsRollOver();
    forall k | 0 <= k < 6 ensures ChartAsWritten([t], leaderId, YearMonth(2024, 1))[k].total == 0 {
      var lo := MonthStart(ms[k]);
      var hi := MonthStart(Next(ms[k])) - DAY_MS + 1;
      assert !Window(OwnedBy(leaderId), CreatedAt(), lo, hi)(t);
      assert Filter([t], Window(OwnedBy(leaderId), CreatedAt(), lo, hi)) == [];
    }
  }

  /** Later months start later: the months' windows follow one another without overlap. */
  lemma {:induction false} StartsIncrease(today: YearMonth, j: nat, k: nat)
    requires ValidMonth(today) && j < k < 6
    ensures MonthStart(Next(Months(today)[j])) <= MonthStart(Months(today)[k])
    decreases k - j
  {
    MonthsConsecutive(today);
    var ms := Months(today);
    if j + 1 < k {
      StartsIncrease(today, j + 1, k);
      MonthStartAdvances(ms[j + 1]);
    }
  }

  /**
   * Every instant from the first of the oldest month up to the end of the
   * current month falls in exactly one bucket.
   */
  lemma EachInstantInOneMonth(today: YearMonth, t: Time)
    requires ValidMonth(today)
    requires MonthStart(Months(today)[0]) <= t < MonthStart(Next(today))
    ensures exists k :: 0 <= k < 6 && InMonth(Months(today)[k], t)
    ensures forall j, k :: 0 <= j < 6 && 0 <= k < 6 && InMonth(Months(today)[j], t) && InMonth(Months(today)[k], t) ==> j == k
  {
    var ms := Months(today);
    MonthsConsecutive(today);
    if t < MonthStart(ms[1]) {
      assert InMonth(ms[0], t);
    } else if t < MonthStart(ms[2]) {
      assert InMonth(ms[1], t);
    } else if t < MonthStart(ms[3]) {
      assert InMonth(ms[2], t);
    } else if t < MonthStart(ms[4]) {
      assert InMonth(ms[3], t);
    } else if t < MonthStart(ms[5]) {
      assert InMonth(ms[4], t);
    } else {
      assert InMonth(ms[5], t);
    }
    forall j, k | 0 <= j < 6 && 0 <= k < 6 && InMonth(ms[j], t) && InMonth(ms[k], t) ensures j == k {
      if j < k {
        StartsIncrease(today, j, k);
      } else if k < j {
        StartsIncrease(today, k, j);
      }
    }
  }

  /** The first `n` boundaries of the six windows, oldest first. */
  function Edge(today: YearMonth, n: nat): Time
    requires ValidMonth(today) && n <= 6
  {
    if n == 0 then MonthStart(Months(today)[0]) else MonthStart(Next(Months(today)[n - 1]))
  }

  function TotalSum(buckets: seq<MonthBucket>): nat {
    if buckets == [] then 0 else TotalSum(buckets[..|buckets| - 1]) + buckets[|buckets| - 1].total
  }

  function CompletedSum(buckets: seq<MonthBucket>): nat {
    if buckets == [] then 0 else CompletedSum(buckets[..|buckets| - 1]) + buckets[|buckets| - 1].completed
  }

  lemma {:induction false} ChartPrefix(tasks: seq<Task>, leaderId: Id, today: YearMonth, n: nat)
    requires ValidMonth(today) && n <= 6
    ensures Edge(today, 0) <= Edge(today, n)
    ensures TotalSum(Chart(tasks, leaderId, today)[..n])
         == |Filter(tasks, Window(OwnedBy(leaderId), CreatedAt(), Edge(today, 0), Edge(today, n)))|
    ensures CompletedSum(Chart(tasks, leaderId, today)[..n])
         == |Filter(tasks, Window(OwnedDone(leaderId), UpdatedAt(), Edge(today, 0), Edge(today, n)))|
  {
    var chart := Chart(tasks, leaderId, today);
    var ms := Months(today);
    MonthsConsecutive(today);
    if n == 0 {
      assert chart[..0] == [];
      FilterNone(tasks, Window(OwnedBy(leaderId), CreatedAt(), Edge(today, 0), Edge(today, 0)));
      FilterNone(tasks, Window(OwnedDone(leaderId), UpdatedAt(), Edge(today, 0), Edge(today, 0)));
    } else {
      ChartPrefix(tasks, leaderId, today, n - 1);
      assert chart[..n][..n - 1] == chart[..n - 1];
      MonthStartAdvances(ms[n - 1]);
      assert Edge(today, n - 1) == MonthStart(ms[n - 1]);
      WindowSplit(tasks, OwnedBy(leaderId), CreatedAt(), Edge(today, 0), Edge(today, n - 1), Edge(today, n));
      WindowSplit(tasks, OwnedDone(leaderId), UpdatedAt(), Edge(today, 0), Edge(today, n - 1), Edge(today, n));
    }
  }

  /**
   * With whole-month windows, the chart counts every task the leader
   * created (completed) in the six months exactly once: the bucket totals
   * add up to the count over the whole span.
   */
  lemma ChartCountsEachTaskOnce(tasks: seq<Task>, leaderId: Id, today: YearMonth)
    requires ValidMonth(today)
    ensures TotalSum(Chart(tasks, leaderId, today))
         == |Filter(tasks, Window(OwnedBy(leaderId), CreatedAt(), MonthStart(Months(today)[0]), MonthStart(Next(today))))|
    ensures CompletedSum(Chart(tasks, leaderId, today))
         == |Filter(tasks, Window(OwnedDone(leaderId), UpdatedAt(), MonthStart(Months(today)[0]), MonthStart(Next(today))))|
  {
    ChartPrefix(tasks, leaderId, today, 6);
    MonthsConsecutive(today);
    assert Chart(tasks, leaderId, today)[..6] == Chart(tasks, leaderId, today);
  }

  // ---------------------------------------------------------------------
  // the page
  // ---------------------------------------------------------------------

  datatype Report = Report(workers: seq<WorkerStats>, chart: seq<MonthBucket>)

  /**
   * The reports page; None is the redirect to the dashboard for a caller
   * who is not a signed-in leader. `now` is the clock, `today` its month.
   */
  function ReportsPage(users: seq<User>, tasks: seq<Task>, session: Option<Session>, now: Time, today: YearMonth)
    : (r: Option<Report>)
    requires ValidMonth(today) && MonthStart(today) <= now < MonthStart(Next(today))
    ensures r.None? <==> session.None? || session.value.role != LEADER
    ensures r.Some? ==>
      && r.value.workers == WorkerTable(users, tasks, session.value.id, now)
      && r.value.chart == Chart(tasks, session.value.id, today)
  {
    if session.None? || session.value.role != LEADER then None
    else Some(Report(WorkerTable(users, tasks, session.value.id, now), Chart(tasks, session.value.id, today)))
  }
}
