/** backend/controllers/taskController.js over an in-memory Tasks table:
    createTask (the admission gate), getMyTasks (the list with its overdue
    sweep) and updateTaskStatus (owner-checked, unvalidated overwrite). */
module TaskController {
  import opened Wrappers
  import opened Api
  import opened TaskModel
  import opened UserModel

  /** The cap on an employee's active tasks that createTask enforces. */
  const MaxActive: nat := 5

  // ---------------------------------------------------------------------
  // Store queries

  /** `Task.count({ where: { assignedTo: u, status NOT IN (Completed, Overdue) } })`. */
  function ActiveCount(rows: seq<Task>, u: nat): (n: nat)
    ensures n <= |rows|
    ensures n == 0 <== forall k :: 0 <= k < |rows| ==> !(rows[k].assignedTo == u && IsActive(rows[k]))
  {
    if rows == [] then 0
    else (if rows[0].assignedTo == u && IsActive(rows[0]) then 1 else 0) + ActiveCount(rows[1..], u)
  }

  /** 1 when the row counts for `u` in ActiveCount, else 0. */
  function ActiveUnit(t: Task, u: nat): nat
  {
    if t.assignedTo == u && IsActive(t) then 1 else 0
  }

  lemma {:induction false} ActiveCountAppend(rows: seq<Task>, t: Task, u: nat)
    ensures ActiveCount(rows + [t], u) == ActiveCount(rows, u) + ActiveUnit(t, u)
  {
    if rows != [] {
      assert (rows + [t])[1..] == rows[1..] + [t];
      ActiveCountAppend(rows[1..], t, u);
    }
  }

  /** Replacing one row changes the count by exactly what that row contributed. */
  lemma {:induction false} ActiveCountUpdate(rows: seq<Task>, k: nat, t: Task, u: nat)
    requires k < |rows|
    ensures ActiveCount(rows[k := t], u) == ActiveCount(rows, u) - ActiveUnit(rows[k], u) + ActiveUnit(t, u)
  {
    if k > 0 {
      assert rows[k := t][1..] == rows[1..][k - 1 := t];
      ActiveCountUpdate(rows[1..], k - 1, t, u);
    }
  }

  /** `Task.findAll({ where: { assignedTo: u } })`, in store order. */
  function Mine(rows: seq<Task>, u: nat): (r: seq<Task>)
    ensures |r| <= |rows|
  {
    if rows == [] then []
    else (if rows[0].assignedTo == u then [rows[0]] else []) + Mine(rows[1..], u)
  }

  /** The list holds exactly the stored tasks assigned to `u`. */
  lemma {:induction false} MineMembers(rows: seq<Task>, u: nat)
    ensures forall t :: t in Mine(rows, u) <==> t in rows && t.assignedTo == u
  {
    if rows != [] {
      MineMembers(rows[1..], u);
      assert rows == [rows[0]] + rows[1..];
    }
  }

  /** `Task.findByPk(id)` as a position in the store. */
  function IndexOfId(rows: seq<Task>, id: nat): (r: Option<nat>)
    ensures r.Some? ==> r.value < |rows| && rows[r.value].id == id
    ensures r.None? <==> forall k :: 0 <= k < |rows| ==> rows[k].id != id
  {
    if rows == [] then None
    else if rows[0].id == id then Some(0)
    else match IndexOfId(rows[1..], id)
      case None => None
      case Some(k) => Some(k + 1)
  }

  /** The task with this id exists and is assigned to `u`. */
  predicate OwnsTask(rows: seq<Task>, id: nat, u: nat)
  {
    var k := IndexOfId(rows, id);
    k.Some? && rows[k.value].assignedTo == u
  }

  /** The assignee check of createTask: the user exists, is an employee, and
      its managerId is the caller (a null managerId never matches). */
  predicate IsEmployeeOf(found: Option<User>, managerId: nat)
  {
    found.Some? && found.value.role == Employee && found.value.managerId == Some(managerId)
  }

  // ---------------------------------------------------------------------
  // The overdue sweep of getMyTasks

  /** The condition the sweep tests: deadline strictly before now and status
      neither Completed nor Overdue. */
  predicate IsLate(t: Task, now: int)
  {
    t.deadline < now && IsActive(t)
  }

  /** One iteration of the sweep on one of the caller's tasks. */
  function SweepTask(t: Task, now: int): (r: Task)
    ensures r == t.(status := r.status)
    ensures !IsLate(r, now)
    ensures r != t ==> IsLate(t, now) && r.status == Overdue
  {
    if IsLate(t, now) then t.(status := Overdue) else t
  }

  /** The whole store after the sweep for caller `u` at instant `now`. */
  function SweepFor(rows: seq<Task>, u: nat, now: int): (r: seq<Task>)
    ensures |r| == |rows|
  {
    if rows == [] then []
    else [SweepRow(rows[0], u, now)] + SweepFor(rows[1..], u, now)
  }

  /** What the loop body of getMyTasks does to one row. */
  function SweepRow(t: Task, u: nat, now: int): Task
  {
    if t.assignedTo == u then SweepTask(t, now) else t
  }

  /** What the sweep does to the store, row by row. */
  lemma {:induction false} SweepForSpec(rows: seq<Task>, u: nat, now: int)
    ensures var r := SweepFor(rows, u, now);
            // only the status field changes
            (forall k :: 0 <= k < |rows| ==> r[k] == rows[k].(status := r[k].status)) &&
            // and only on the caller's late tasks, which become Overdue
            (forall k :: 0 <= k < |rows| && r[k] != rows[k] ==>
               rows[k].assignedTo == u && IsLate(rows[k], now) && r[k].status == Overdue) &&
            // afterwards none of the caller's tasks is late
            (forall k :: 0 <= k < |rows| && rows[k].assignedTo == u ==> !IsLate(r[k], now))
  {
    if rows != [] {
      SweepForSpec(rows[1..], u, now);
      var r := SweepFor(rows, u, now);
      assert forall k :: 1 <= k < |rows| ==> r[k] == SweepFor(rows[1..], u, now)[k - 1] && rows[k] == rows[1..][k - 1];
    }
  }

  /** Running the sweep again at the same instant changes nothing. */
  lemma {:induction false} SweepIdempotent(rows: seq<Task>, u: nat, now: int)
    ensures SweepFor(SweepFor(rows, u, now), u, now) == SweepFor(rows, u, now)
  {
    var once := SweepFor(rows, u, now);
    var twice := SweepFor(once, u, now);
    SweepForSpec(rows, u, now);
    SweepForSpec(once, u, now);
    assert forall k :: 0 <= k < |rows| ==> twice[k] == once[k];
  }

  /** The list getMyTasks returns holds every task of the caller, in order,
      each as the sweep left it. */
  lemma {:induction false} MineAfterSweep(rows: seq<Task>, u: nat, now: int)
    ensures var before := Mine(rows, u);
            var after := Mine(SweepFor(rows, u, now), u);
            |after| == |before| &&
            forall i :: 0 <= i < |before| ==> after[i] == SweepTask(before[i], now)
  {
    if rows != [] {
      var s := SweepFor(rows, u, now);
      assert s[1..] == SweepFor(rows[1..], u, now);
      assert s[0].assignedTo == rows[0].assignedTo;
      MineAfterSweep(rows[1..], u, now);
    }
  }

  /** No task in the list getMyTasks returns is Pending or In Progress with a passed deadline. */
  lemma NoLateTaskReturned(rows: seq<Task>, u: nat, now: int)
    ensures forall t :: t in Mine(SweepFor(rows, u, now), u) ==>
              !(t.deadline < now && (t.status == Pending || t.status == InProgress))
  {
    var s := SweepFor(rows, u, now);
    SweepForSpec(rows, u, now);
    MineMembers(s, u);
    forall t | t in Mine(s, u)
      ensures !(t.deadline < now && (t.status == Pending || t.status == InProgress))
    {
      var k :| 0 <= k < |s| && s[k] == t;
      assert rows[k].assignedTo == u;
    }
  }

  // ---------------------------------------------------------------------
  // The store and the three handlers

  /** The primary key: ids are distinct, from 1, and below the next id to hand out. */
  ghost predicate TaskIdsBelow(rows: seq<Task>, next: nat)
  {
    1 <= next &&
    (forall i :: 0 <= i < |rows| ==> 1 <= rows[i].id < next) &&
    (forall i, j :: 0 <= i < j < |rows| ==> rows[i].id != rows[j].id)
  }

  class TaskStore {
    var rows: seq<Task>
    var nextId: nat

    ghost predicate Valid()
      reads this
    {
      TaskIdsBelow(rows, nextId)
    }

    constructor ()
      ensures Valid() && rows == [] && nextId == 1
    {
      rows := [];
      nextId := 1;
    }

    /** createTask: role gate, assignee gate, capacity gate, then one insert. */
    method CreateTask(caller: Caller, users: seq<User>, title: string, description: Option<string>,
                      priority: Priority, deadline: int, assignedTo: nat)
      returns (r: Result<Task, ApiError>)
      requires Valid()
      modifies this
      ensures Valid()
      ensures caller.role != Manager ==> r == Err(AccessDenied)
      ensures caller.role == Manager && !IsEmployeeOf(FindUser(users, assignedTo), caller.id) ==>
                r == Err(InvalidEmployee)
      ensures (caller.role == Manager && IsEmployeeOf(FindUser(users, assignedTo), caller.id) &&
               ActiveCount(old(rows), assignedTo) >= MaxActive) ==> r == Err(MaxActiveTasks)
      ensures r.Ok? <==> caller.role == Manager && IsEmployeeOf(FindUser(users, assignedTo), caller.id) &&
                          ActiveCount(old(rows), assignedTo) < MaxActive
      ensures r.Err? ==> rows == old(rows) && nextId == old(nextId)
      ensures r.Ok? ==> r.value == NewTask(old(nextId), title, description, priority, deadline, assignedTo, caller.id)
      ensures r.Ok? ==> rows == old(rows) + [r.value] && nextId == old(nextId) + 1
      ensures r.Ok? ==> ActiveCount(rows, assignedTo) == ActiveCount(old(rows), assignedTo) + 1
    {
      if caller.role != Manager {
        return Err(AccessDenied);
      }
      var employee := FindUser(users, assignedTo);
      if !IsEmployeeOf(employee, caller.id) {
        return Err(InvalidEmployee);
      }
      var activeTasks := ActiveCount(rows, assignedTo);
      if activeTasks >= MaxActive {
        return Err(MaxActiveTasks);
      }
      var task := NewTask(nextId, title, description, priority, deadline, assignedTo, caller.id);
      ActiveCountAppend(rows, task, assignedTo);
      rows := rows + [task];
      nextId := nextId + 1;
      r := Ok(task);
    }

    /** getMyTasks: employees only; lists the caller's tasks and, on the way,
        marks each late one Overdue in the store. */
    method GetMyTasks(caller: Caller, now: int) returns (r: Result<seq<Task>, ApiError>)
      requires Valid()
      modifies this
      ensures Valid() && nextId == old(nextId)
      ensures caller.role != Employee ==> r == Err(AccessDenied) && rows == old(rows)
      ensures caller.role == Employee ==>
                rows == SweepFor(old(rows), caller.id, now) && r == Ok(Mine(rows, caller.id))
    {
      if caller.role != Employee {
        return Err(AccessDenied);
      }
      var swept, tasks := SweepAndCollect(rows, caller.id, now);
      SweepKeepsIds(rows, caller.id, now, nextId);
      rows := swept;
      r := Ok(tasks);
    }

    /** updateTaskStatus: employees only; 404 unless the task exists and is the
        caller's; then the status is overwritten with whatever was sent. */
    method UpdateTaskStatus(caller: Caller, id: nat, status: Status) returns (r: Result<Task, ApiError>)
      requires Valid()
      modifies this
      ensures Valid() && nextId == old(nextId)
      ensures caller.role != Employee ==> r == Err(AccessDenied)
      ensures caller.role == Employee && !OwnsTask(old(rows), id, caller.id) ==> r == Err(TaskNotFound)
      ensures r.Err? ==> rows == old(rows)
      ensures r.Ok? <==> caller.role == Employee && OwnsTask(old(rows), id, caller.id)
      ensures r.Ok? ==> var k := IndexOfId(old(rows), id).value;
                        r.value == old(rows)[k].(status := status) && rows == old(rows)[k := r.value]
    {
      if caller.role != Employee {
        return Err(AccessDenied);
      }
      var found := IndexOfId(rows, id);
      if found.None? || rows[found.value].assignedTo != caller.id {
        return Err(TaskNotFound);
      }
      var task := rows[found.value].(status := status);
      rows := rows[found.value := task];
      r := Ok(task);
    }
  }

  /** The loop of getMyTasks: walks the rows in order, marks each late task
      of the caller Overdue, and collects the caller's tasks as they are
      after that step. */
  method SweepAndCollect(rows: seq<Task>, u: nat, now: int) returns (swept: seq<Task>, mine: seq<Task>)
    ensures swept == SweepFor(rows, u, now)
    ensures mine == Mine(swept, u)
  {
    swept := rows;
    mine := [];
    var i := 0;
    assert rows[..0] == [] && rows[0..] == rows;
    while i < |swept|
      invariant 0 <= i <= |rows| == |swept|
      invariant swept == SweepFor(rows[..i], u, now) + rows[i..]
      invariant mine == Mine(SweepFor(rows[..i], u, now), u)
    {
      SweepStep(rows, i, u, now);
      var task := swept[i];
      if task.assignedTo == u {
        if task.deadline < now && task.status != Completed && task.status != Overdue {
          task := task.(status := Overdue);
          swept := swept[i := task];
        }
        mine := mine + [task];
      }
      i := i + 1;
    }
    assert rows[..i] == rows;
  }

  /** One step of that loop, on the prefix already swept. */
  lemma SweepStep(rows: seq<Task>, i: nat, u: nat, now: int)
    requires i < |rows|
    ensures var before := SweepFor(rows[..i], u, now) + rows[i..];
            var after := SweepFor(rows[..i + 1], u, now) + rows[i + 1..];
            before[i] == rows[i] &&
            before[i := SweepRow(rows[i], u, now)] == after &&
            (SweepRow(rows[i], u, now) == rows[i] ==> before == after)
    ensures Mine(SweepFor(rows[..i + 1], u, now), u) ==
            Mine(SweepFor(rows[..i], u, now), u) + (if rows[i].assignedTo == u then [SweepRow(rows[i], u, now)] else [])
  {
    assert rows[..i + 1] == rows[..i] + [rows[i]];
    SweepForAppend(rows[..i], rows[i], u, now);
    MineAppend(SweepFor(rows[..i], u, now), SweepRow(rows[i], u, now), u);
    assert rows[i..] == [rows[i]] + rows[i + 1..];
  }

  lemma {:induction false} SweepForAppend(rows: seq<Task>, t: Task, u: nat, now: int)
    ensures SweepFor(rows + [t], u, now) == SweepFor(rows, u, now) + [SweepRow(t, u, now)]
  {
    if rows != [] {
      assert (rows + [t])[1..] == rows[1..] + [t];
      SweepForAppend(rows[1..], t, u, now);
    }
  }

  lemma {:induction false} MineAppend(rows: seq<Task>, t: Task, u: nat)
    ensures Mine(rows + [t], u) == Mine(rows, u) + (if t.assignedTo == u then [t] else [])
  {
    if rows != [] {
      assert (rows + [t])[1..] == rows[1..] + [t];
      MineAppend(rows[1..], t, u);
    }
  }

  /** The sweep touches no id, so the primary key stays valid. */
  lemma SweepKeepsIds(rows: seq<Task>, u: nat, now: int, next: nat)
    requires TaskIdsBelow(rows, next)
    ensures TaskIdsBelow(SweepFor(rows, u, now), next)
  {
    var s := SweepFor(rows, u, now);
    SweepForSpec(rows, u, now);
    assert forall k :: 0 <= k < |rows| ==> s[k].id == rows[k].id;
  }

}
