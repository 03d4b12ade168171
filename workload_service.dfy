/** backend/services/workloadService.js: the weighted score of an employee's
    Pending and In Progress tasks and its Low/Medium/High band. */
module WorkloadService {
  import opened Wrappers
  import opened TaskModel

  /** The level `getWorkload` reports. */
  datatype Level = Low | Medium | High

  datatype Workload = Workload(score: nat, level: Level)

  /** `priorityWeights`. */
  function Weight(p: Priority): (w: nat)
    ensures 1 <= w <= 3
    ensures w == 3 <==> p == TaskModel.High
  {
    match p
    case High => 3
    case Medium => 2
    case Low => 1
  }

  /** The `findAll` filter: assigned to `u` with status in ('Pending', 'In Progress'). */
  predicate Counted(t: Task, u: nat)
  {
    t.assignedTo == u && (t.status == Pending || t.status == InProgress)
  }

  /** The tasks `getWorkload` fetches, in store order. */
  function CountedTasks(rows: seq<Task>, u: nat): (r: seq<Task>)
    ensures |r| <= |rows|
    ensures forall t :: t in r <==> t in rows && Counted(t, u)
  {
    if rows == [] then []
    else (if Counted(rows[0], u) then [rows[0]] else []) + CountedTasks(rows[1..], u)
  }

  /** `tasks.reduce((sum, task) => sum + priorityWeights[task.priority], 0)`. */
  function WeightSum(ts: seq<Task>): (n: nat)
    ensures |ts| <= n <= 3 * |ts|
  {
    if ts == [] then 0 else Weight(ts[0].priority) + WeightSum(ts[1..])
  }

  function Score(rows: seq<Task>, u: nat): nat
  {
    WeightSum(CountedTasks(rows, u))
  }

  /** The if-chain: below 5 Low, below 10 Medium, otherwise High. */
  function LevelOf(score: int): (l: Level)
    ensures l == Level.Low <==> score < 5
    ensures l == Level.Medium <==> 5 <= score < 10
    ensures l == Level.High <==> 10 <= score
  {
    if score < 5 then Level.Low
    else if score < 10 then Level.Medium
    else Level.High
  }

  /** `getWorkload(userId)`. */
  function GetWorkload(rows: seq<Task>, u: nat): (w: Workload)
    ensures |CountedTasks(rows, u)| <= w.score <= 3 * |CountedTasks(rows, u)|
    ensures w.level == LevelOf(w.score)
  {
    var score := Score(rows, u);
    Workload(score, LevelOf(score))
  }

  /** Rank of a level, for stating monotonicity. */
  function LevelRank(l: Level): nat
  {
    match l
    case Low => 0
    case Medium => 1
    case High => 2
  }

  lemma LevelMonotone(a: int, b: int)
    requires a <= b
    ensures LevelRank(LevelOf(a)) <= LevelRank(LevelOf(b))
  {
  }

  /** The boundaries belong to the upper band. */
  lemma LevelBoundaries()
    ensures LevelOf(4) == Level.Low && LevelOf(5) == Level.Medium && LevelOf(9) == Level.Medium && LevelOf(10) == Level.High
  {
  }

  /** What one row adds to the score of `u`. */
  function Contribution(t: Task, u: nat): nat
  {
    if Counted(t, u) then Weight(t.priority) else 0
  }

  /** The score is the sum, over the whole store, of each row's contribution. */
  function ContributionSum(rows: seq<Task>, u: nat): nat
  {
    if rows == [] then 0 else Contribution(rows[0], u) + ContributionSum(rows[1..], u)
  }

  lemma {:induction false} ScoreIsContributionSum(rows: seq<Task>, u: nat)
    ensures Score(rows, u) == ContributionSum(rows, u)
  {
    if rows != [] {
      ScoreIsContributionSum(rows[1..], u);
      var c := CountedTasks(rows, u);
      if Counted(rows[0], u) {
        assert c[0] == rows[0] && c[1..] == CountedTasks(rows[1..], u);
      } else {
        assert c == CountedTasks(rows[1..], u);
      }
    }
  }

  lemma {:induction false} ContributionSumUpdate(rows: seq<Task>, k: nat, t: Task, u: nat)
    requires k < |rows|
    ensures ContributionSum(rows[k := t], u) == ContributionSum(rows, u) - Contribution(rows[k], u) + Contribution(t, u)
  {
    if k > 0 {
      assert rows[k := t][1..] == rows[1..][k - 1 := t];
      ContributionSumUpdate(rows[1..], k - 1, t, u);
    }
  }

  /** Replacing one row changes the score by exactly the difference of the two
      rows' contributions; in particular rows that are not counted (another
      assignee, or Completed/Overdue) never move it. */
  lemma ScoreUpdate(rows: seq<Task>, k: nat, t: Task, u: nat)
    requires k < |rows|
    ensures Score(rows[k := t], u) == Score(rows, u) - Contribution(rows[k], u) + Contribution(t, u)
  {
    ScoreIsContributionSum(rows, u);
    ScoreIsContributionSum(rows[k := t], u);
    ContributionSumUpdate(rows, k, t, u);
  }

  /** Changing a task between Completed and Overdue leaves the score as it was. */
  lemma InactiveTasksDoNotCount(rows: seq<Task>, k: nat, s: Status, u: nat)
    requires k < |rows|
    requires rows[k].status == Completed || rows[k].status == Overdue
    requires s == Completed || s == Overdue
    ensures Score(rows[k := rows[k].(status := s)], u) == Score(rows, u)
  {
    ScoreUpdate(rows, k, rows[k].(status := s), u);
  }

  lemma {:induction false} AppendInactiveKeepsScore(rows: seq<Task>, t: Task, u: nat)
    requires !Counted(t, u)
    ensures Score(rows + [t], u) == Score(rows, u)
  {
    ScoreIsContributionSum(rows, u);
    ScoreIsContributionSum(rows + [t], u);
    ContributionSumAppend(rows, t, u);
  }

  /** A task just created by createTask starts Pending, so it adds its full
      weight to its assignee's score and leaves every other user's score alone. */
  lemma NewTaskAddsItsWeight(rows: seq<Task>, id: nat, title: string, description: Option<string>,
                             priority: Priority, deadline: int, assignedTo: nat, assignedBy: nat, u: nat)
    ensures var t := NewTask(id, title, description, priority, deadline, assignedTo, assignedBy);
            Score(rows + [t], u) == Score(rows, u) + (if u == assignedTo then Weight(priority) else 0)
  {
    var t := NewTask(id, title, description, priority, deadline, assignedTo, assignedBy);
    ScoreIsContributionSum(rows, u);
    ScoreIsContributionSum(rows + [t], u);
    ContributionSumAppend(rows, t, u);
  }

  lemma {:induction false} ContributionSumAppend(rows: seq<Task>, t: Task, u: nat)
    ensures ContributionSum(rows + [t], u) == ContributionSum(rows, u) + Contribution(t, u)
  {
    if rows != [] {
      assert (rows + [t])[1..] == rows[1..] + [t];
      ContributionSumAppend(rows[1..], t, u);
    }
  }

  /** Completing one of `u`'s High tasks that was In Progress lowers the score by exactly 3. */
  lemma CompletingHighTaskLowersScoreByThree(rows: seq<Task>, k: nat, u: nat)
    requires k < |rows|
    requires rows[k].assignedTo == u && rows[k].priority == TaskModel.High && rows[k].status == InProgress
    ensures Score(rows[k := rows[k].(status := Completed)], u) == Score(rows, u) - 3
    ensures Score(rows, u) >= 3
  {
    ScoreUpdate(rows, k, rows[k].(status := Completed), u);
    ScoreIsContributionSum(rows, u);
    ContributionAtMostSum(rows, k, u);
  }

  lemma {:induction false} ContributionAtMostSum(rows: seq<Task>, k: nat, u: nat)
    requires k < |rows|
    ensures Contribution(rows[k], u) <= ContributionSum(rows, u)
  {
    if k > 0 {
      ContributionAtMostSum(rows[1..], k - 1, u);
    }
  }

  /** With nothing to count the score is 0 and the level Low. */
  lemma {:induction false} NoCountedTasksIsLow(rows: seq<Task>, u: nat)
    requires forall k :: 0 <= k < |rows| ==> !Counted(rows[k], u)
    ensures GetWorkload(rows, u) == Workload(0, Level.Low)
  {
    if rows != [] {
      assert !Counted(rows[0], u);
      assert CountedTasks(rows, u) == CountedTasks(rows[1..], u);
      NoCountedTasksIsLow(rows[1..], u);
    }
  }

  /** High/Pending, Medium/In Progress and Low/Completed give 3 + 2 + 0 = 5, which is Medium. */
  lemma BoundaryScenario(u: nat)
    ensures var rows := [Task(1, "a", None, TaskModel.High, Pending, 0, u, 9),
                         Task(2, "b", None, TaskModel.Medium, InProgress, 0, u, 9),
                         Task(3, "c", None, TaskModel.Low, Completed, 0, u, 9)];
            GetWorkload(rows, u) == Workload(5, Level.Medium)
  {
    var rows := [Task(1, "a", None, TaskModel.High, Pending, 0, u, 9),
                 Task(2, "b", None, TaskModel.Medium, InProgress, 0, u, 9),
                 Task(3, "c", None, TaskModel.Low, Completed, 0, u, 9)];
    assert rows[1..][1..][1..] == [];
    assert CountedTasks(rows[2..], u) == [];
    assert CountedTasks(rows[1..], u) == [rows[1]];
    assert CountedTasks(rows, u) == [rows[0], rows[1]];
    assert WeightSum([rows[1]]) == 2;
  }
}
