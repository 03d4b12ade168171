/** The Task record of backend/models/Task.js: its enums, the default status
    and which columns may be null. */
module TaskModel {
  import opened Wrappers

  /** ENUM('High', 'Medium', 'Low'), NOT NULL. */
  datatype Priority = High | Medium | Low

  /** ENUM('Pending', 'In Progress', 'Completed', 'Overdue'), default 'Pending'. */
  datatype Status = Pending | InProgress | Completed | Overdue

  /** The value the column holds for each status. */
  function StatusName(s: Status): string
  {
    match s
    case Pending => "Pending"
    case InProgress => "In Progress"
    case Completed => "Completed"
    case Overdue => "Overdue"
  }

  /** What the ENUM column accepts: exactly the four literals, spelled as
      declared; anything else is refused by the database. */
  function ParseStatus(s: string): (r: Option<Status>)
    ensures r.Some? ==> StatusName(r.value) == s
  {
    if s == "Pending" then Some(Pending)
    else if s == "In Progress" then Some(InProgress)
    else if s == "Completed" then Some(Completed)
    else if s == "Overdue" then Some(Overdue)
    else None
  }

  lemma StatusNameRoundTrip(s: Status)
    ensures ParseStatus(StatusName(s)) == Some(s)
  {
  }

  /** The column stores "In Progress" with its space; the run-together spelling is refused. */
  lemma InProgressNeedsTheSpace()
    ensures ParseStatus("In Progress") == Some(InProgress)
    ensures ParseStatus("InProgress") == None
  {
  }

  function PriorityName(p: Priority): string
  {
    match p
    case High => "High"
    case Medium => "Medium"
    case Low => "Low"
  }

  function ParsePriority(s: string): (r: Option<Priority>)
    ensures r.Some? ==> PriorityName(r.value) == s
  {
    if s == "High" then Some(High)
    else if s == "Medium" then Some(Medium)
    else if s == "Low" then Some(Low)
    else None
  }

  lemma PriorityNameRoundTrip(p: Priority)
    ensures ParsePriority(PriorityName(p)) == Some(p)
  {
  }

  /** One row of the Tasks table. The NOT NULL columns (title, priority,
      deadline, assignedTo, assignedBy) are plain fields; the nullable
      description is an Option. Deadlines are integer instants. */
  datatype Task = Task(
    id: nat,
    title: string,
    description: Option<string>,
    priority: Priority,
    status: Status,
    deadline: int,
    assignedTo: nat,
    assignedBy: nat)

  /** A task counts against the cap while its status is not Completed or Overdue. */
  predicate IsActive(t: Task)
  {
    t.status != Completed && t.status != Overdue
  }

  /** The row `Task.create` inserts when no status is given: the default applies. */
  function NewTask(id: nat, title: string, description: Option<string>, priority: Priority,
                   deadline: int, assignedTo: nat, assignedBy: nat): (t: Task)
    ensures t.status == Pending && IsActive(t)
    ensures t.id == id && t.title == title && t.description == description
    ensures t.priority == priority && t.deadline == deadline
    ensures t.assignedTo == assignedTo && t.assignedBy == assignedBy
  {
    Task(id, title, description, priority, Pending, deadline, assignedTo, assignedBy)
  }
}
