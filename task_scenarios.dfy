/** Call sequences on the task store that show what the handlers of
    backend/controllers/taskController.js allow and refuse. */
module TaskScenarios {
  import opened Wrappers
  import opened Api
  import opened TaskModel
  import opened UserModel
  import opened TaskController

  /** Manager 1 with employees 2 and 3; manager 4 with no employees. */
  function Team(): seq<User>
  {
    [User(1, "M", "m@x.io", "h", Manager, None),
     User(2, "E", "e@x.io", "h", Employee, Some(1)),
     User(3, "F", "f@x.io", "h", Employee, Some(1)),
     User(4, "N", "n@x.io", "h", Manager, None)]
  }

  /** A store in which manager 1 has assigned five tasks to employee 2. */
  method FiveTasksForEmployee2() returns (store: TaskStore)
    ensures fresh(store) && store.Valid()
    ensures |store.rows| == 5 && ActiveCount(store.rows, 2) == MaxActive
    ensures store.rows[0].id == 1 && store.rows[0].assignedTo == 2 && store.rows[0].status == Pending
  {
    store := new TaskStore();
    var users := Team();
    var boss := Caller(1, Manager);
    assert FindUser(users, 2) == Some(users[1]);
    var r := store.CreateTask(boss, users, "t1", None, High, 100, 2);
    assert store.rows[0].id == 1;
    r := store.CreateTask(boss, users, "t2", None, Low, 100, 2);
    r := store.CreateTask(boss, users, "t3", None, Low, 100, 2);
    r := store.CreateTask(boss, users, "t4", None, Medium, 100, 2);
    r := store.CreateTask(boss, users, "t5", None, Medium, 100, 2);
    assert r.Ok?;
  }

  /** The sixth active task for one employee is refused; the first five are admitted. */
  method CapAtFive() returns (sixth: Result<Task, ApiError>, active: nat)
    ensures sixth == Err(MaxActiveTasks) && active == MaxActive
  {
    var store := FiveTasksForEmployee2();
    sixth := store.CreateTask(Caller(1, Manager), Team(), "t6", None, Low, 100, 2);
    active := ActiveCount(store.rows, 2);
  }

  /** Another manager, or a caller that is not a manager, cannot assign to employee 2. */
  method WrongCallersRefused() returns (other: Result<Task, ApiError>, employee: Result<Task, ApiError>)
    ensures other == Err(InvalidEmployee) && employee == Err(AccessDenied)
  {
    var store := new TaskStore();
    other := store.CreateTask(Caller(4, Manager), Team(), "t", None, High, 100, 2);
    employee := store.CreateTask(Caller(2, Employee), Team(), "t", None, High, 100, 2);
  }

  /** The cap is checked only on creation: completing a task frees a slot,
      and reopening it afterwards leaves six active tasks. */
  method ReopeningExceedsCap() returns (active: nat)
    ensures active == MaxActive + 1
  {
    var store := FiveTasksForEmployee2();
    var worker := Caller(2, Employee);
    ghost var full := store.rows;
    var u := store.UpdateTaskStatus(worker, 1, Completed);
    assert u.Ok? && store.rows[0].status == Completed;
    ActiveCountUpdate(full, 0, store.rows[0], 2);
    var r := store.CreateTask(Caller(1, Manager), Team(), "t6", None, Low, 100, 2);
    assert r.Ok?;
    ghost var before := store.rows;
    assert store.rows[0].id == 1 && store.rows[0].assignedTo == 2;
    u := store.UpdateTaskStatus(worker, 1, Pending);
    assert u.Ok?;
    ActiveCountUpdate(before, 0, store.rows[0], 2);
    active := ActiveCount(store.rows, 2);
  }

  /** A late Pending task becomes Overdue when its assignee lists tasks, stays
      Overdue on the next listing, and can still be set back to Pending. */
  method OverdueIsNotTerminal() returns (afterList: Status, afterSecondList: Status, afterUpdate: Status)
    ensures afterList == Overdue && afterSecondList == Overdue && afterUpdate == Pending
  {
    var store := new TaskStore();
    var t := store.CreateTask(Caller(1, Manager), Team(), "t", None, High, 10, 2);
    assert t.Ok?;
    var l := store.GetMyTasks(Caller(2, Employee), 20);
    afterList := store.rows[0].status;
    l := store.GetMyTasks(Caller(2, Employee), 20);
    afterSecondList := store.rows[0].status;
    assert |store.rows| == 1 && store.rows[0].id == t.value.id && store.rows[0].assignedTo == 2;
    var u := store.UpdateTaskStatus(Caller(2, Employee), t.value.id, Pending);
    assert u.Ok?;
    afterUpdate := store.rows[0].status;
  }

  /** Employee 3 updating employee 2's task gets "not found", not "access denied". */
  method NonOwnerGetsNotFound() returns (r: Result<Task, ApiError>)
    ensures r == Err(TaskNotFound)
  {
    var store := new TaskStore();
    assert FindUser(Team(), 2) == Some(Team()[1]);
    var t := store.CreateTask(Caller(1, Manager), Team(), "t", None, High, 10, 2);
    assert t.Ok? && store.rows == [t.value];
    r := store.UpdateTaskStatus(Caller(3, Employee), t.value.id, Completed);
  }

  /** Listing twice at the same instant: the second listing changes nothing
      and returns what the first returned. */
  method ListingTwice(store: TaskStore, caller: Caller, now: int) returns (first: seq<Task>, second: seq<Task>)
    requires store.Valid() && caller.role == Employee
    modifies store
    ensures first == second
    ensures store.rows == SweepFor(old(store.rows), caller.id, now)
  {
    var r1 := store.GetMyTasks(caller, now);
    var r2 := store.GetMyTasks(caller, now);
    SweepIdempotent(old(store.rows), caller.id, now);
    first, second := r1.value, r2.value;
  }
}
