/** frontend/src/pages/EmployeeDashboard.jsx: the task counts (`taskStats`),
    the list update after a status change (`updateStatus`), the status
    selector, and the colour and label lookups. */
module EmployeeDashboard {
  import opened Wrappers
  import TaskModel

  /** A task as the page receives it: statuses and priorities are JSON strings. */
  datatype UiTask = UiTask(id: int, title: string, description: Option<string>,
                           priority: Option<string>, status: string)

  /** Lower-casing of ASCII letters (the case mapping of `toLowerCase` for
      the alphabet the compared literals use). */
  function Lower(c: char): char
  {
    if 'A' <= c <= 'Z' then (c as int + 32) as char else c
  }

  function ToLower(s: string): (r: string)
    ensures |r| == |s| && forall k :: 0 <= k < |s| ==> r[k] == Lower(s[k])
  {
    if s == [] then [] else [Lower(s[0])] + ToLower(s[1..])
  }

  lemma ToLowerIdempotent(s: string)
    ensures ToLower(ToLower(s)) == ToLower(s)
  {
    assert forall k :: 0 <= k < |s| ==> Lower(Lower(s[k])) == Lower(s[k]);
  }

  /** `tasks.filter(t => t.status.toLowerCase() === target).length`. */
  function CountStatus(tasks: seq<UiTask>, target: string): (n: nat)
    ensures n <= |tasks|
  {
    if tasks == [] then 0
    else (if ToLower(tasks[0].status) == target then 1 else 0) + CountStatus(tasks[1..], target)
  }

  /** Tasks whose status is none of the three counted ones (for example Overdue). */
  function CountOther(tasks: seq<UiTask>): (n: nat)
    ensures n <= |tasks|
  {
    if tasks == [] then 0
    else (if ToLower(tasks[0].status) !in {"pending", "in progress", "completed"} then 1 else 0) + CountOther(tasks[1..])
  }

  datatype TaskStats = TaskStats(total: nat, pending: nat, inProgress: nat, completed: nat)

  /** The three status counts and the tasks of any other status add up to the list length. */
  lemma {:induction false} StatsPartitionTotal(tasks: seq<UiTask>)
    ensures CountStatus(tasks, "pending") + CountStatus(tasks, "in progress") + CountStatus(tasks, "completed")
            + CountOther(tasks) == |tasks|
  {
    if tasks != [] {
      StatsPartitionTotal(tasks[1..]);
    }
  }

  /** `taskStats`: no task is counted in two cards, so the three cards
      together never exceed the total. */
  function ComputeTaskStats(tasks: seq<UiTask>): (r: TaskStats)
    ensures r.total == |tasks|
    ensures r.pending + r.inProgress + r.completed <= r.total
    ensures r.total - (r.pending + r.inProgress + r.completed) == CountOther(tasks)
  {
    StatsPartitionTotal(tasks);
    TaskStats(|tasks|, CountStatus(tasks, "pending"), CountStatus(tasks, "in progress"), CountStatus(tasks, "completed"))
  }

  /** Counting ignores letter case. */
  lemma {:induction false} CountStatusIgnoresCase(tasks: seq<UiTask>, target: string, k: nat, s: string)
    requires k < |tasks| && ToLower(s) == ToLower(tasks[k].status)
    ensures CountStatus(tasks[k := tasks[k].(status := s)], target) == CountStatus(tasks, target)
  {
    if k > 0 {
      assert tasks[k := tasks[k].(status := s)][1..] == tasks[1..][k - 1 := tasks[k].(status := s)];
      CountStatusIgnoresCase(tasks[1..], target, k - 1, s);
    }
  }

  /** `tasks.map(t => t.id === id ? updated : t)`. */
  function ReplaceById(tasks: seq<UiTask>, id: int, updated: UiTask): (r: seq<UiTask>)
    ensures |r| == |tasks|
    ensures forall k :: 0 <= k < |tasks| && tasks[k].id == id ==> r[k] == updated
    ensures forall k :: 0 <= k < |tasks| && tasks[k].id != id ==> r[k] == tasks[k]
  {
    if tasks == [] then []
    else [if tasks[0].id == id then updated else tasks[0]] + ReplaceById(tasks[1..], id, updated)
  }

  /** `updateStatus` on the page's list: the server's answer replaces the
      matching task on success; a failed request leaves the list alone. */
  function ApplyStatusUpdate(tasks: seq<UiTask>, id: int, response: Option<UiTask>): (r: seq<UiTask>)
    ensures |r| == |tasks|
    ensures forall k :: 0 <= k < |tasks| && tasks[k].id == id && response.Some? ==> r[k] == response.value
    ensures forall k :: 0 <= k < |tasks| && (tasks[k].id != id || response.None?) ==> r[k] == tasks[k]
  {
    match response
    case None => tasks
    case Some(updated) => ReplaceById(tasks, id, updated)
  }

  /** Replacing a task that is not in the list changes nothing. */
  lemma ReplaceMissingIdIsIdentity(tasks: seq<UiTask>, id: int, updated: UiTask)
    requires forall k :: 0 <= k < |tasks| ==> tasks[k].id != id
    ensures ReplaceById(tasks, id, updated) == tasks
  {
  }

  /** The values the status selector offers. */
  const StatusOptions: seq<string> := ["Pending", "In Progress", "Completed"]

  /** Every option is a status the backend stores, and none of them is Overdue. */
  lemma SelectorNeverRequestsOverdue()
    ensures forall o :: o in StatusOptions ==>
              TaskModel.ParseStatus(o).Some? && TaskModel.ParseStatus(o).value != TaskModel.Overdue
    ensures TaskModel.StatusName(TaskModel.Overdue) !in StatusOptions
  {
  }

  const Gray := "bg-gray-100 text-gray-800"

  /** `getStatusColor`: switch on the lower-cased status; anything else is gray. */
  function StatusColor(status: string): string
  {
    var s := ToLower(status);
    if s == "completed" then "bg-green-100 text-green-800"
    else if s == "in progress" then "bg-blue-100 text-blue-800"
    else if s == "pending" then "bg-yellow-100 text-yellow-800"
    else Gray
  }

  lemma StatusColorIgnoresCase(status: string)
    ensures StatusColor(ToLower(status)) == StatusColor(status)
  {
    ToLowerIdempotent(status);
  }

  /** Any status outside the three cases of the switch is shown in gray. */
  lemma StatusColorFallback(status: string)
    requires ToLower(status) !in {"completed", "in progress", "pending"}
    ensures StatusColor(status) == Gray
  {
  }

  /** An Overdue task (the one status the switch has no case for) is shown in gray. */
  lemma OverdueIsGray()
    ensures StatusColor(TaskModel.StatusName(TaskModel.Overdue)) == Gray
  {
    var s := ToLower("Overdue");
    assert s[0] == 'o';
  }

  /** `getPriorityColor(priority)`, with `priority?.toLowerCase()`. */
  function PriorityColor(priority: Option<string>): string
  {
    match priority
    case None => "text-gray-600"
    case Some(p) =>
      var s := ToLower(p);
      if s == "high" then "text-red-600"
      else if s == "medium" then "text-orange-600"
      else if s == "low" then "text-green-600"
      else "text-gray-600"
  }

  lemma PriorityColorIgnoresCase(p: string)
    ensures PriorityColor(Some(ToLower(p))) == PriorityColor(Some(p))
  {
    ToLowerIdempotent(p);
  }

  /** A missing priority, or one outside the three cases of the switch, is shown in gray. */
  lemma PriorityColorFallback(priority: Option<string>)
    requires priority.None? || ToLower(priority.value) !in {"high", "medium", "low"}
    ensures PriorityColor(priority) == "text-gray-600"
  {
  }

  /** `task.priority || 'Medium'`. */
  function PriorityLabel(priority: Option<string>): (r: string)
    ensures r != ""
    ensures r == "Medium" <==> priority in {None, Some(""), Some("Medium")}
    ensures priority.Some? && priority.value != "" ==> r == priority.value
  {
    match priority
    case None => "Medium"
    case Some(p) => if p == "" then "Medium" else p
  }
}
