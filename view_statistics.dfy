/** The statistics view of a hiring cycle: per-step counts and pass rate, the
    ranking of the finalists of the last step by average mark, and which rows
    of that ranking may be hired. */
module ViewStatistics {

  import opened Common
  import opened HiringData

  /** What `StepStatistics` shows for one step. */
  datatype StepCounts = StepCounts(passedCount: nat, failedCount: nat, totalCount: nat, passRate: real)

  /** `(passed / total) * 100`, or 0 when nothing has been decided. */
  function PassRate(passed: nat, failed: nat): (rate: real)
    ensures 0.0 <= rate <= 100.0
    ensures passed + failed == 0 ==> rate == 0.0
    ensures passed + failed > 0 ==> rate * (passed + failed) as real == passed as real * 100.0
    ensures rate == 100.0 <==> passed > 0 && failed == 0
    ensures rate == 0.0 <==> passed == 0
  {
    var total := passed + failed;
    if total > 0 then
      var q := passed as real / total as real;
      assert q * total as real == passed as real;
      assert q <= 1.0;
      q * 100.0
    else 0.0
  }

  /** `StepStatistics`: the shown total counts only decided applications. */
  function StepStatistics(step: Step): (c: StepCounts)
    ensures c.passedCount == |ListOr(step.passedApplications)|
    ensures c.failedCount == |ListOr(step.failedApplications)|
    ensures c.totalCount == c.passedCount + c.failedCount
    ensures 0.0 <= c.passRate <= 100.0
    ensures c.totalCount == 0 ==> c.passRate == 0.0
    ensures c.totalCount > 0 ==> c.passRate * c.totalCount as real == c.passedCount as real * 100.0
  {
    var passed := |ListOr(step.passedApplications)|;
    var failed := |ListOr(step.failedApplications)|;
    StepCounts(passed, failed, passed + failed, PassRate(passed, failed))
  }

  /** Ongoing applications never change the shown statistics. */
  lemma OngoingNotCounted(step: Step, more: seq<Entry>)
    ensures StepStatistics(step.(applications := Some(ListOr(step.applications) + more)))
         == StepStatistics(step)
  {
  }

  function Sum(xs: seq<int>): int
    decreases |xs|
  {
    if xs == [] then 0 else xs[0] + Sum(xs[1..])
  }

  /** `sum(marks) / marks.length`, or 0 when the marks are missing or empty. */
  function AverageMarks(marks: Option<seq<int>>): (avg: real)
    ensures ListOr(marks) == [] ==> avg == 0.0
    ensures ListOr(marks) != [] ==> avg * |ListOr(marks)| as real == Sum(ListOr(marks)) as real
  {
    var m := ListOr(marks);
    if |m| > 0 then Sum(m) as real / |m| as real else 0.0
  }

  /** Sum of marks lying in [lo, hi] lies in [lo * n, hi * n]. */
  lemma {:induction false} SumBounds(xs: seq<int>, lo: int, hi: int)
    requires forall i :: 0 <= i < |xs| ==> lo <= xs[i] <= hi
    ensures lo * |xs| <= Sum(xs) <= hi * |xs|
    decreases |xs|
  {
    if xs != [] {
      SumBounds(xs[1..], lo, hi);
      assert lo * |xs| == lo + lo * |xs[1..]|;
      assert hi * |xs| == hi + hi * |xs[1..]|;
    }
  }

  /** An average lies between the smallest and largest possible mark. */
  lemma AverageWithinBounds(marks: seq<int>, lo: int, hi: int)
    requires marks != []
    requires forall i :: 0 <= i < |marks| ==> lo <= marks[i] <= hi
    ensures lo as real <= AverageMarks(Some(marks)) <= hi as real
  {
    SumBounds(marks, lo, hi);
    var n := |marks|;
    MulAsReal(lo, n);
    MulAsReal(hi, n);
    QuotientBounds(Sum(marks) as real, n as real, lo as real, hi as real);
  }

  lemma MulAsReal(a: int, b: int)
    ensures (a * b) as real == a as real * b as real
  {
  }

  lemma QuotientBounds(total: real, n: real, lo: real, hi: real)
    requires n > 0.0 && lo * n <= total <= hi * n
    ensures lo <= total / n <= hi
  {
    var q := total / n;
    assert q * n == total;
  }

  /** `{ ...app, average_marks }` */
  datatype RankedApplication = RankedApplication(app: Application, averageMarks: real)

  function WithAverage(app: Application): (r: RankedApplication)
    ensures r.app == app
    ensures app.cumulativeMarks.Some? && app.cumulativeMarks.value != []
      ==> r.averageMarks * |app.cumulativeMarks.value| as real == Sum(app.cumulativeMarks.value) as real
  {
    RankedApplication(app, AverageMarks(app.cumulativeMarks))
  }

  function WithAverages(apps: seq<Application>): (r: seq<RankedApplication>)
    ensures |r| == |apps|
    ensures forall i :: 0 <= i < |apps| ==> r[i] == WithAverage(apps[i])
  {
    seq(|apps|, i requires 0 <= i < |apps| => WithAverage(apps[i]))
  }

  /** Highest average first. */
  ghost predicate RankedByAverage(s: seq<RankedApplication>) {
    forall i, j :: 0 <= i < j < |s| ==> s[i].averageMarks >= s[j].averageMarks
  }

  method Swap(a: array<RankedApplication>, i: int, j: int)
    requires 0 <= i < j < a.Length
    modifies a
    ensures a[i] == old(a[j]) && a[j] == old(a[i])
    ensures forall m :: 0 <= m < a.Length && m != i && m != j ==> a[m] == old(a[m])
    ensures multiset(a[..]) == multiset(old(a[..]))
  {
    a[i], a[j] := a[j], a[i];
  }

  /** `.sort((a, b) => b.average_marks - a.average_marks)`, in place. */
  method SortByAverage(a: array<RankedApplication>)
    modifies a
    ensures RankedByAverage(a[..])
    ensures multiset(a[..]) == multiset(old(a[..]))
  {
    var i := 0;
    while i < a.Length
      invariant 0 <= i <= a.Length
      invariant forall k, l :: 0 <= k < l < i ==> a[k].averageMarks >= a[l].averageMarks
      invariant multiset(a[..]) == multiset(old(a[..]))
    {
      var j := i;
      while j > 0 && a[j - 1].averageMarks < a[j].averageMarks
        invariant 0 <= j <= i
        invariant forall k, l :: 0 <= k < l <= i && k != j && l != j ==> a[k].averageMarks >= a[l].averageMarks
        invariant forall l :: j < l <= i ==> a[j].averageMarks > a[l].averageMarks
        invariant multiset(a[..]) == multiset(old(a[..]))
      {
        Swap(a, j - 1, j);
        j := j - 1;
      }
      i := i + 1;
    }
  }

  /** `job?.open_positions || 0` */
  function OpenPositions(job: Option<Job>): int {
    if job.Some? && job.value.openPositions.Some? then job.value.openPositions.value else 0
  }

  /** `Math.min(openPositions, totalApplications)`, floored at zero for counting. */
  function HireSlots(job: Option<Job>, ranked: nat): (k: nat)
    ensures k <= ranked
    ensures k <= OpenPositions(job) || k == 0
    ensures k == ranked || k == OpenPositions(job) || (k == 0 && OpenPositions(job) < 0)
  {
    var open := OpenPositions(job);
    if open <= 0 then 0 else if open < ranked then open else ranked
  }

  /** `canHire`: the row at `rowIndex` of a ranking of `ranked` finalists gets a Hire button. */
  function CanHire(rowIndex: int, job: Option<Job>, ranked: nat): bool {
    var open := OpenPositions(job);
    rowIndex < (if open < ranked then open else ranked)
  }

  /** The hire-eligible rows are exactly the first `HireSlots` rows. */
  lemma HireEligibleIsPrefix(job: Option<Job>, ranked: nat, rowIndex: nat)
    requires rowIndex < ranked
    ensures CanHire(rowIndex, job, ranked) <==> rowIndex < HireSlots(job, ranked)
  {
  }

  /** The Hire column of a ranking of `ranked` rows: the eligible rows are
      exactly the first `HireSlots` rows. */
  function HireColumn(job: Option<Job>, ranked: nat): (flags: seq<bool>)
    ensures |flags| == ranked
    ensures forall i :: 0 <= i < ranked ==> (flags[i] <==> i < HireSlots(job, ranked))
  {
    seq(ranked, i requires 0 <= i < ranked => CanHire(i, job, ranked))
  }

  /** The passed list of the last step in sequence order, or nothing when the
      steps query gave no rows (reading `stepsData[stepsData.length - 1]` then throws). */
  function FinalPassed(stepsData: Option<seq<Step>>): Option<seq<Id>> {
    if stepsData.Some? && |stepsData.value| > 0 then
      Some(ListOr(stepsData.value[|stepsData.value| - 1].passedApplications))
    else None
  }

  /** `fetchData` gets past every throwing point and reaches `setSteps`. */
  predicate StatisticsLoaded(stepsData: Option<seq<Step>>, appsData: QueryResult<Application>) {
    FinalPassed(stepsData).Some? && !(|FinalPassed(stepsData).value| > 0 && appsData.QueryError?)
  }

  /** `fetchData` reaches `setApplications`. */
  predicate RankingLoaded(stepsData: Option<seq<Step>>, appsData: QueryResult<Application>) {
    FinalPassed(stepsData).Some? && |FinalPassed(stepsData).value| > 0 && appsData.Rows?
  }

  /** The component's state. */
  class StatisticsView {
    var steps: seq<Step>
    var applications: seq<RankedApplication>
    var job: Option<Job>
    var isLoading: bool

    constructor ()
      ensures steps == [] && applications == [] && job == None && isLoading
    {
      steps, applications, job, isLoading := [], [], None, true;
    }

    /** `fetchData`, given what the three queries return. `appsData` is the
        result of asking for the rows whose id is on the final step's passed
        list; it is consulted only when that list is non-empty. */
    method FetchData(stepsData: Option<seq<Step>>, jobData: Option<Job>, appsData: QueryResult<Application>)
      modifies this
      ensures !isLoading
      ensures StatisticsLoaded(stepsData, appsData) ==> steps == stepsData.value && job == jobData
      ensures !StatisticsLoaded(stepsData, appsData) ==> steps == old(steps) && job == old(job)
      ensures RankingLoaded(stepsData, appsData) ==>
        RankedByAverage(applications) && multiset(applications) == multiset(WithAverages(appsData.rows))
      ensures !RankingLoaded(stepsData, appsData) ==> applications == old(applications)
    {
      if stepsData.None? || |stepsData.value| == 0 {
        isLoading := false;
        return;
      }
      var finalStep := stepsData.value[|stepsData.value| - 1];
      var passedApplications := ListOr(finalStep.passedApplications);
      if |passedApplications| > 0 {
        if appsData.QueryError? {
          isLoading := false;
          return;
        }
        if appsData.Rows? {
          var rows := appsData.rows;
          var ranked := new RankedApplication[|rows|](i requires 0 <= i < |rows| => WithAverage(rows[i]));
          assert ranked[..] == WithAverages(rows);
          SortByAverage(ranked);
          applications := ranked[..];
        }
      }
      steps := stepsData.value;
      job := jobData;
      isLoading := false;
    }
  }
}
