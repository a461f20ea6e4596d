/**
 * The worker-performance table of the reports page: the rows are the
 * workers ranked by completion rate, highest first; with no workers the
 * component shows an empty-state message instead of a table.
 */
module WorkerPerformance {
  import opened Basics
  import opened Reports

  /** The comparator `b.completionRate - a.completionRate`, read as "a may precede b". */
  predicate ByRateDesc(a: WorkerStats, b: WorkerStats) {
    a.completionRate >= b.completionRate
  }

  lemma ByRateDescIsPreorder()
    ensures TotalPreorder(ByRateDesc)
  {
  }

  /**
   * `[...workers].sort(...)`: the copy is ranked, the input is a value and
   * keeps its order.
   */
  function SortedWorkers(workers: seq<WorkerStats>): (r: seq<WorkerStats>)
    ensures multiset(r) == multiset(workers)
    ensures forall i, j :: 0 <= i < j < |r| ==> r[i].completionRate >= r[j].completionRate
    ensures |r| > 0 ==> forall w :: w in workers ==> w.completionRate <= r[0].completionRate
  {
    ByRateDescIsPreorder();
    var r := SortBy(workers, ByRateDesc);
    assert forall w :: w in workers ==> w in multiset(r);
    r
  }

  /** What the component renders. */
  datatype PerformanceView = EmptyState | Table(rows: seq<WorkerStats>)

  function WorkerPerformance(workers: seq<WorkerStats>): (v: PerformanceView)
    ensures v.EmptyState? <==> |workers| == 0
    ensures v.Table? ==> multiset(v.rows) == multiset(workers)
    ensures v.Table? ==> forall i, j :: 0 <= i < j < |v.rows| ==> v.rows[i].completionRate >= v.rows[j].completionRate
  {
    if |workers| == 0 then EmptyState else Table(SortedWorkers(workers))
  }

  /** Strictly ranked by rate. */
  predicate StrictlyRanked(s: seq<WorkerStats>) {
    forall i, j :: 0 <= i < j < |s| ==> s[i].completionRate > s[j].completionRate
  }

  /** Ranked by rate, ties allowed. */
  predicate Ranked(s: seq<WorkerStats>) {
    forall i, j :: 0 <= i < j < |s| ==> s[i].completionRate >= s[j].completionRate
  }

  lemma TailMultiset(s: seq<WorkerStats>)
    requires |s| > 0
    ensures multiset(s[1..]) == multiset(s) - multiset{s[0]}
  {
    assert s == [s[0]] + s[1..];
  }

  /** Two rankings of the same rows start with the same row when the first has no ties. */
  lemma HeadsAgree(a: seq<WorkerStats>, b: seq<WorkerStats>)
    requires |a| > 0 && |b| > 0
    requires multiset(a) == multiset(b)
    requires StrictlyRanked(a) && Ranked(b)
    ensures a[0] == b[0]
  {
    assert a[0] in multiset(b);
    assert b[0] in multiset(a);
    var i :| 0 <= i < |b| && b[i] == a[0];
    var k :| 0 <= k < |a| && a[k] == b[0];
    assert b[0].completionRate >= a[0].completionRate;
    assert k == 0;
  }

  /** Ranking a list that is already ranked by distinct rates gives it back unchanged. */
  lemma {:induction false} RankingIsUnique(a: seq<WorkerStats>, b: seq<WorkerStats>)
    requires multiset(a) == multiset(b)
    requires StrictlyRanked(a) && Ranked(b)
    ensures a == b
    decreases |a|
  {
    assert |a| == |multiset(a)| == |multiset(b)| == |b|;
    if |a| > 0 {
      HeadsAgree(a, b);
      TailMultiset(a);
      TailMultiset(b);
      RankingIsUnique(a[1..], b[1..]);
      assert a == [a[0]] + a[1..] && b == [b[0]] + b[1..];
    }
  }

  /** With pairwise different rates the ranking is fully determined by the rates. */
  lemma DistinctRatesFixRanking(workers: seq<WorkerStats>, ranked: seq<WorkerStats>)
    requires multiset(ranked) == multiset(workers)
    requires StrictlyRanked(ranked)
    ensures SortedWorkers(workers) == ranked
  {
    RankingIsUnique(ranked, SortedWorkers(workers));
  }
}
