/** frontend/src/pages/ManagerDashboard.jsx: the per-employee workload badge
    (`getWorkloadStatus`), the fallback for a failed workload fetch, and the
    team statistics cards (`teamStats`). */
module ManagerDashboard {
  import opened Wrappers

  /** The workload object the page expects for each employee. */
  datatype WorkloadSummary = WorkloadSummary(total: Option<int>, pending: Option<int>,
                                             inProgress: Option<int>, completed: Option<int>)

  /** An employee row: the user fields shown plus the attached workload (absent when never set). */
  datatype TeamMember = TeamMember(id: nat, fullName: string, email: string,
                                   workload: Option<WorkloadSummary>)

  /** The outcome of one `GET /tasks/workload/:id` request. */
  datatype WorkloadFetch = Fetched(summary: WorkloadSummary) | FetchFailed

  /** The badge: a label and its colour classes. */
  datatype Badge = Badge(text: string, color: string)

  /** `workload?.total || 0`. */
  function TotalOf(w: Option<WorkloadSummary>): (n: int)
    ensures w.None? || w.value.total.None? ==> n == 0
    ensures w.Some? && w.value.total.Some? ==> n == w.value.total.value
  {
    match w
    case None => 0
    case Some(s) => match s.total
      case None => 0
      case Some(t) => t
  }

  /** The catch branch of the per-employee fetch: every count 0. */
  const FallbackWorkload := WorkloadSummary(Some(0), Some(0), Some(0), Some(0))

  /** Attaching the fetched workload (or the fallback) to an employee. */
  function WithWorkload(emp: TeamMember, fetch: WorkloadFetch): (r: TeamMember)
    ensures r.id == emp.id && r.fullName == emp.fullName && r.email == emp.email
    ensures fetch.FetchFailed? ==> TotalOf(r.workload) == 0
    ensures fetch.Fetched? ==> r.workload == Some(fetch.summary)
  {
    match fetch
    case Fetched(s) => emp.(workload := Some(s))
    case FetchFailed => emp.(workload := Some(FallbackWorkload))
  }

  /** `getWorkloadStatus`. */
  function WorkloadStatus(w: Option<WorkloadSummary>): Badge
  {
    var total := TotalOf(w);
    if total == 0 then Badge("No tasks", "bg-gray-100 text-gray-800")
    else if total <= 3 then Badge("Light", "bg-green-100 text-green-800")
    else if total <= 6 then Badge("Moderate", "bg-yellow-100 text-yellow-800")
    else Badge("Heavy", "bg-red-100 text-red-800")
  }

  /** The four bands by total (a missing total reads as 0); a negative total falls in 'Light'. */
  lemma WorkloadStatusBands(w: Option<WorkloadSummary>)
    ensures WorkloadStatus(w).text == "No tasks" <==> TotalOf(w) == 0
    ensures WorkloadStatus(w).text == "Light" <==> TotalOf(w) != 0 && TotalOf(w) <= 3
    ensures WorkloadStatus(w).text == "Moderate" <==> 4 <= TotalOf(w) <= 6
    ensures WorkloadStatus(w).text == "Heavy" <==> TotalOf(w) > 6
  {
  }

  /** Order of the labels, for monotonicity. */
  function LabelRank(text: string): nat
  {
    if text == "No tasks" then 0
    else if text == "Light" then 1
    else if text == "Moderate" then 2
    else 3
  }

  /** For non-negative totals the label never drops as the total grows. */
  lemma LabelMonotone(w1: Option<WorkloadSummary>, w2: Option<WorkloadSummary>)
    requires 0 <= TotalOf(w1) <= TotalOf(w2)
    ensures LabelRank(WorkloadStatus(w1).text) <= LabelRank(WorkloadStatus(w2).text)
  {
  }

  /** An employee whose workload request failed is shown as 'No tasks'. */
  lemma FailedFetchShowsNoTasks(emp: TeamMember)
    ensures WorkloadStatus(WithWorkload(emp, FetchFailed).workload).text == "No tasks"
  {
  }

  datatype TeamStats = TeamStats(totalEmployees: nat, totalTasks: int, averageWorkload: int, heavyWorkload: nat)

  /** `employees.reduce((sum, emp) => sum + (emp.workload?.total || 0), 0)`. */
  function TotalTasks(emps: seq<TeamMember>): int
  {
    if emps == [] then 0 else TotalOf(emps[0].workload) + TotalTasks(emps[1..])
  }

  /** `employees.filter(emp => (emp.workload?.total || 0) > 6).length`. */
  function HeavyCount(emps: seq<TeamMember>): (n: nat)
    ensures n <= |emps|
  {
    if emps == [] then 0
    else (if TotalOf(emps[0].workload) > 6 then 1 else 0) + HeavyCount(emps[1..])
  }

  /** `Math.round(sum / n)` for n > 0 with integers: floor(sum / n + 1/2). */
  function RoundedAverage(sum: int, n: nat): (avg: int)
    requires n > 0
    // avg is the integer nearest to sum / n, halves rounded up
    ensures 2 * n * avg <= 2 * sum + n < 2 * n * avg + 2 * n
  {
    (2 * sum + n) / (2 * n)
  }

  /** `teamStats`. */
  function ComputeTeamStats(emps: seq<TeamMember>): (r: TeamStats)
    ensures r.totalEmployees == |emps| && r.heavyWorkload <= |emps|
    ensures emps == [] ==> r == TeamStats(0, 0, 0, 0)
  {
    TeamStats(|emps|, TotalTasks(emps),
              if |emps| > 0 then RoundedAverage(TotalTasks(emps), |emps|) else 0,
              HeavyCount(emps))
  }

  /** How many employees carry a given badge label. */
  function CountLabel(emps: seq<TeamMember>, text: string): nat
  {
    if emps == [] then 0
    else (if WorkloadStatus(emps[0].workload).text == text then 1 else 0) + CountLabel(emps[1..], text)
  }

  /** The 'Heavy Workload' card counts exactly the employees whose badge reads 'Heavy'. */
  lemma {:induction false} HeavyCardMatchesBadges(emps: seq<TeamMember>)
    ensures ComputeTeamStats(emps).heavyWorkload == CountLabel(emps, "Heavy")
  {
    if emps != [] {
      HeavyCardMatchesBadges(emps[1..]);
      WorkloadStatusBands(emps[0].workload);
    }
  }

  /** When every total is non-negative, so is the team total, and it bounds each member's total. */
  lemma {:induction false} TotalTasksBounds(emps: seq<TeamMember>, i: nat)
    requires forall k :: 0 <= k < |emps| ==> TotalOf(emps[k].workload) >= 0
    requires i < |emps|
    ensures 0 <= TotalOf(emps[i].workload) <= TotalTasks(emps)
  {
    if i > 0 {
      TotalTasksBounds(emps[1..], i - 1);
    } else if |emps| > 1 {
      TotalTasksBounds(emps[1..], 0);
    }
  }
}
