# Employee Workload Management: task assignment and workload rules in Dafny

This project models the business core of the Employee Workload Management
System. The system has three tiers of users (admin, manager, employee).
Managers assign tasks to their own employees. Employees list their tasks and
update the status of each one. A workload score is computed from each
employee's open tasks.

What the model covers:

- **Task engine** (`task_controller.dfy`, module `TaskController`). A `TaskStore`
  class holds the Tasks table as a sequence of rows. It has three handlers:
  - `CreateTask` checks four things in order: the caller is a manager; the
    assignee is one of the caller's employees; the assignee has fewer than 5
    active tasks; and only then is one row inserted.
  - `GetMyTasks` is for employees only. Its loop (`SweepAndCollect`) marks
    every late task of the caller as Overdue and collects all the caller's
    tasks. The store is then replaced by the swept rows.
  - `UpdateTaskStatus` is for employees only and checks ownership. It then
    overwrites the status with whatever value was sent.
  - Each handler's postcondition ties the new store to a specification
    function of the old one (`SweepFor`, `ActiveCount`, `IndexOfId`). The
    lemmas prove what the source promises about those functions.
- **Call sequences** (`task_scenarios.dfy`). These show what the handlers
  allow and refuse when called one after another. Examples: the cap of five
  active tasks; the cap being exceeded by reopening a completed task; an
  Overdue task being set back to Pending; a non-owner getting 404.
- **Workload scoring** (`workload_service.dfy`). Only Pending and In Progress
  tasks count. They are weighted High=3, Medium=2, Low=1 and summed. The sum
  is banded Low (< 5), Medium (5 to 9) or High (≥ 10).
- **User creation** (`user_controller.dfy`). `CreationCheck` is the decision
  table of `createUser`. `UserStore.CreateUser` runs that table and then does
  the single insert, under the unique-email constraint and the `managerId`
  foreign key. `GetAllUsers` is admin-only.
- **Schema** (`task_model.dfy`, `user_model.dfy`). Priority, Status and Role
  are datatypes, so only enum values can be stored. `ParseStatus` and
  `ParseRole` accept exactly what the database enum columns accept. The
  status value is spelled "In Progress", with a space. `description` and
  `managerId` are nullable and are `Option`s. The NOT NULL columns are plain
  fields. So is `status`, although its column allows NULL (see "Left out").
  New tasks start as Pending.
- **Frontend pure logic**:
  - `login.dfy`: form validation (the unanchored email pattern
    `\S+@\S+\.\S+` and the password rules), clearing a field's error on
    change, and the submit gate.
  - `manager_dashboard.dfy`: workload badges, team statistics, and the
    fallback used when a workload fetch fails.
  - `employee_dashboard.dfy`: task counts, replacing one task by id after an
    update, the status selector, and the colour lookups.
  - `admin_dashboard.dfy`: removing a deleted user from the list, and the
    role counts.

Time is an integer instant: `now` is a parameter and deadlines are integers.
The authenticated caller is an `Api.Caller(id, role)` value given as input.
The user directory that `createTask` consults is a `seq<User>` parameter.

The Overdue status is sometimes described as terminal. The code does not
treat it that way: `updateTaskStatus` accepts any status, including moving an
Overdue or Completed task back to Pending. The model follows the code
(`TaskScenarios.OverdueIsNotTerminal`). The cap of five is likewise checked
only when a task is created, so it is not an invariant of the store
(`TaskScenarios.ReopeningExceedsCap`).

## Model

| member | source | states |
|---|---|---|
| `Api.StatusCode` | backend/controllers/taskController.js:8-57 | none (definition): 403 for the role guards (also userController.js:9, 12), 400 for the assignee, cap and manager checks (also userController.js:17), 404 for a missing task, 500 for a store failure |
| `Api.Message` | backend/controllers/taskController.js:8-57 | none (definition): the `message` literal sent with each error (also userController.js:9-17) |
| `TaskModel.ParseStatus` | backend/models/Task.js:22-25 | a string the status column accepts names the status it parses to |
| `TaskModel.StatusNameRoundTrip` | backend/models/Task.js:22-25 | every status's stored literal parses back to that status |
| `TaskModel.InProgressNeedsTheSpace` | backend/models/Task.js:23 | "In Progress" is a status; "InProgress" is refused |
| `TaskModel.ParsePriority` | backend/models/Task.js:18-21 | a string the priority column accepts names the priority it parses to |
| `TaskModel.PriorityNameRoundTrip` | backend/models/Task.js:18-21 | every priority's literal parses back to that priority |
| `UserModel.ParseRole` | backend/models/User.js:23-26 | a string the role column accepts names the role it parses to |
| `UserModel.RoleNameRoundTrip` | backend/models/User.js:23-26 | every role's literal parses back to that role |
| `UserModel.EmailTaken` | backend/models/User.js:14-18 | true exactly when some stored user already has the email |
| `UserModel.AppendKeepsEmailsUnique` | backend/models/User.js:14-18 | inserting a user whose email is not taken keeps emails unique |
| `UserModel.FindUser` | backend/controllers/taskController.js:11 | the lookup returns a stored user with that id, and returns none exactly when no stored user has that id |
| `TaskController.ActiveCount` | backend/controllers/taskController.js:16-18 | the count of the user's tasks not Completed or Overdue is at most the store size, and is 0 when the user has no such task |
| `TaskController.ActiveCountAppend` | backend/controllers/taskController.js:21 | inserting a row raises the assignee's active count by one exactly when that row is active and theirs |
| `TaskController.ActiveCountUpdate` | backend/controllers/taskController.js:59 | rewriting one row changes the active count by exactly the difference of the old and new rows' contributions |
| `TaskController.Mine` | backend/controllers/taskController.js:32 | the list is never longer than the store; what it holds is stated by `MineMembers` |
| `TaskController.MineMembers` | backend/controllers/taskController.js:32 | the list holds exactly the stored tasks assigned to the user |
| `TaskController.IndexOfId` | backend/controllers/taskController.js:56 | finds a row with the id, or reports none exactly when no row has it |
| `TaskController.IsEmployeeOf` | backend/controllers/taskController.js:12 | none (definition): the assignee exists, is an employee, and its managerId is the caller |
| `TaskController.SweepTask` | backend/controllers/taskController.js:37-38 | the sweep changes only the status, leaves no late active task, and changes a task only if it was late and active, making it Overdue |
| `TaskController.SweepFor` | backend/controllers/taskController.js:36-41 | the sweep keeps the number of rows; what it does to each row is stated by `SweepForSpec` |
| `TaskController.SweepForSpec` | backend/controllers/taskController.js:36-41 | only status fields change, and only on the caller's late active tasks, which become Overdue; none of the caller's tasks is late and active afterwards |
| `TaskController.SweepIdempotent` | backend/controllers/taskController.js:37 | sweeping twice at the same instant equals sweeping once |
| `TaskController.MineAfterSweep` | backend/controllers/taskController.js:32-43 | the returned list has one entry per task of the caller, in store order, each being that task after the sweep |
| `TaskController.NoLateTaskReturned` | backend/controllers/taskController.js:35-43 | no returned task is Pending or In Progress with a deadline before now |
| `TaskController.SweepAndCollect` | backend/controllers/taskController.js:36-41 | the loop leaves the rows exactly as the sweep specifies and collects exactly the caller's tasks, in order, as they are after the sweep |
| `TaskController.SweepKeepsIds` | backend/controllers/taskController.js:38-39 | the sweep keeps the primary key valid |
| `TaskController.TaskStore.CreateTask` | backend/controllers/taskController.js:4-26 | non-manager gets 403; an assignee that is missing, not an employee or not under the caller gets 400; ≥5 active tasks gets 400; on every error the store is unchanged; otherwise exactly one Pending row with assignedBy = caller is appended, and the assignee's active count rises by one |
| `TaskController.TaskStore.GetMyTasks` | backend/controllers/taskController.js:28-47 | non-employee gets 403 and the store is unchanged; otherwise the store becomes the swept store and the result is every task of the caller in it |
| `TaskController.TaskStore.UpdateTaskStatus` | backend/controllers/taskController.js:49-65 | non-employee gets 403; a missing or non-owned task gets 404 and the store is unchanged; otherwise exactly that row's status is set to the given value, whatever it is, and nothing else changes |
| `TaskScenarios.CapAtFive` | backend/controllers/taskController.js:16-19 | five tasks are admitted for one employee, and the sixth is refused with "max active tasks" |
| `TaskScenarios.WrongCallersRefused` | backend/controllers/taskController.js:8-14 | another manager gets 400 for someone else's employee; an employee caller gets 403 |
| `TaskScenarios.ReopeningExceedsCap` | backend/controllers/taskController.js:59 | complete one of five tasks, create a sixth, then reopen the completed one: six tasks are active |
| `TaskScenarios.OverdueIsNotTerminal` | backend/controllers/taskController.js:37-39 | a late Pending task becomes Overdue on listing, stays Overdue on the next listing, and the employee can set it back to Pending |
| `TaskScenarios.NonOwnerGetsNotFound` | backend/controllers/taskController.js:57 | an employee updating another employee's task gets "Task not found" (404), not "Access denied" |
| `TaskScenarios.ListingTwice` | backend/controllers/taskController.js:36-43 | a second listing at the same instant returns what the first returned, and the store is the once-swept store |
| `WorkloadService.Weight` | backend/services/workloadService.js:4-8 | each weight is between 1 and 3, and it is 3 exactly for High |
| `WorkloadService.CountedTasks` | backend/services/workloadService.js:10-15 | the counted tasks are exactly the user's Pending and In Progress tasks |
| `WorkloadService.WeightSum` | backend/services/workloadService.js:18 | the weighted sum lies between the number of tasks and three times that number |
| `WorkloadService.Score` | backend/services/workloadService.js:10-18 | none (definition): the weight sum of the counted tasks; `ScoreIsContributionSum` and `ScoreUpdate` state its properties |
| `WorkloadService.LevelOf` | backend/services/workloadService.js:20-23 | Low exactly below 5, Medium exactly from 5 to 9, High exactly from 10 |
| `WorkloadService.GetWorkload` | backend/services/workloadService.js:10-26 | the score lies between 1× and 3× the number of counted tasks; the level is the band of the score |
| `WorkloadService.LevelMonotone` | backend/services/workloadService.js:20-23 | a higher score never gets a lower level |
| `WorkloadService.LevelBoundaries` | backend/services/workloadService.js:20-23 | 4 is Low, 5 and 9 are Medium, 10 is High |
| `WorkloadService.NewTaskAddsItsWeight` | backend/models/Task.js:22-25 | a task just created (status Pending by default) raises its assignee's score by exactly its priority's weight, and leaves every other user's score unchanged |
| `WorkloadService.ScoreIsContributionSum` | backend/services/workloadService.js:10-18 | the score equals the sum, over all rows, of the weight of each counted row |
| `WorkloadService.ScoreUpdate` | backend/services/workloadService.js:10-18 | rewriting one row changes the score by exactly the difference of the two rows' contributions |
| `WorkloadService.InactiveTasksDoNotCount` | backend/services/workloadService.js:13-14 | switching a task between Completed and Overdue leaves the score unchanged |
| `WorkloadService.AppendInactiveKeepsScore` | backend/services/workloadService.js:13-14 | adding a task that is not counted (another assignee, or Completed/Overdue) leaves the score unchanged |
| `WorkloadService.CompletingHighTaskLowersScoreByThree` | backend/services/workloadService.js:4-18 | completing one of the user's In Progress High tasks lowers the score by exactly 3 |
| `WorkloadService.NoCountedTasksIsLow` | backend/services/workloadService.js:18-21 | with no counted tasks the result is score 0, level Low |
| `WorkloadService.BoundaryScenario` | backend/services/workloadService.js:18-23 | High/Pending + Medium/In Progress + Low/Completed gives score 5 and level Medium |
| `UserController.CreationCheck` | backend/controllers/userController.js:9-18 | a pass implies: the creator is not an employee; a manager creator creates only an employee with managerId = itself; an admin's employee with a truthy managerId names an existing manager |
| `UserController.EmployeeCreatorDenied` | backend/controllers/userController.js:9 | an employee creator always gets 403 |
| `UserController.ManagerCreatorRule` | backend/controllers/userController.js:11-13 | a manager passes exactly when it requests an employee whose managerId is its own id; otherwise it gets 403 |
| `UserController.AdminInvalidManager` | backend/controllers/userController.js:15-18 | an admin creating an employee under an id that is not a manager's gets 400 |
| `UserController.LookupOnlyForAdminsEmployees` | backend/controllers/userController.js:15 | outside "admin creates an employee with a truthy managerId" the decision does not depend on the store, and an admin always passes there |
| `UserController.GetAllUsersRevealsNothingToOthers` | backend/controllers/userController.js:37-45 | a caller who is not an admin gets 403, and the answer is the same whatever users are stored |
| `UserController.UserStore.CreateUser` | backend/controllers/userController.js:4-26 | a refused check returns its error; a taken email, or a managerId that names no stored user and is not the new row's own id, fails the insert (500); on any error the store is unchanged; otherwise exactly one user with the requested role and managerId is appended; emails stay unique; if every employee's manager resolved before and the creator is a stored user, they still do |
| `Login.EmailTestIsTheRegex` | frontend/src/pages/Login.jsx:30 | the computed email test accepts exactly the strings containing a match of `\S+@\S+\.\S+` |
| `Login.EmailError` | frontend/src/pages/Login.jsx:28-32 | an empty email gives "Email is required" without the format check; a non-empty email has no error exactly when it matches, else "Please enter a valid email" |
| `Login.PasswordError` | frontend/src/pages/Login.jsx:34-38 | an empty password gives "Password is required"; 1 to 5 characters gives the minimum-length message; no error exactly from 6 characters |
| `Login.FormErrors` | frontend/src/pages/Login.jsx:25-39 | the error object has an email key exactly when the email fails and a password key exactly when the password fails, each holding that field's message, and no other key |
| `Login.ValidIffBothFieldsPass` | frontend/src/pages/Login.jsx:40-41 | the form is valid exactly when the email is present and well formed and the password has at least 6 characters |
| `Login.ClearFieldError` | frontend/src/pages/Login.jsx:51-57 | the set of error keys is unchanged; the changed field's error, if present, becomes empty; every other error stays |
| `Login.LoginForm.ValidateForm` | frontend/src/pages/Login.jsx:25-42 | the errors become the error object of the current fields, and the result is true exactly when it is empty |
| `Login.LoginForm.HandleChange` | frontend/src/pages/Login.jsx:44-58 | only the named field is written, and the errors are updated as `ClearFieldError` says |
| `Login.LoginForm.HandleSubmit` | frontend/src/pages/Login.jsx:60-65 | the fields are unchanged, the errors become the error object of the current fields, and the login request is sent exactly when validation passes |
| `ManagerDashboard.WithWorkload` | frontend/src/pages/ManagerDashboard.jsx:28-44 | a failed fetch attaches a workload whose total is 0; a successful one attaches the fetched workload; the user fields are kept |
| `ManagerDashboard.WorkloadStatus` | frontend/src/pages/ManagerDashboard.jsx:55-61 | none (definition); its bands are stated by `WorkloadStatusBands` |
| `ManagerDashboard.WorkloadStatusBands` | frontend/src/pages/ManagerDashboard.jsx:55-61 | "No tasks" exactly at total 0; "Light" exactly for non-zero totals ≤ 3 (negatives included); "Moderate" exactly at 4 to 6; "Heavy" exactly above 6 |
| `ManagerDashboard.LabelMonotone` | frontend/src/pages/ManagerDashboard.jsx:57-60 | for non-negative totals a larger total never gets a lower label |
| `ManagerDashboard.FailedFetchShowsNoTasks` | frontend/src/pages/ManagerDashboard.jsx:36-41 | an employee whose workload fetch failed is shown as "No tasks" |
| `ManagerDashboard.HeavyCount` | frontend/src/pages/ManagerDashboard.jsx:155 | the heavy count is at most the team size |
| `ManagerDashboard.RoundedAverage` | frontend/src/pages/ManagerDashboard.jsx:152-154 | the average is the integer nearest to sum / n, with halves rounded up |
| `ManagerDashboard.ComputeTeamStats` | frontend/src/pages/ManagerDashboard.jsx:149-156 | team size is the number of employees; heavy count is at most that; an empty team gives all zeros |
| `ManagerDashboard.HeavyCardMatchesBadges` | frontend/src/pages/ManagerDashboard.jsx:155 | the heavy-workload card equals the number of employees whose badge reads "Heavy" |
| `ManagerDashboard.TotalTasks` | frontend/src/pages/ManagerDashboard.jsx:151 | none (definition); bounded by `TotalTasksBounds` |
| `ManagerDashboard.TotalTasksBounds` | frontend/src/pages/ManagerDashboard.jsx:151 | with non-negative totals, each employee's total is at most the team total |
| `EmployeeDashboard.ToLower` | frontend/src/pages/EmployeeDashboard.jsx:50 | lower-casing keeps the length and lower-cases each character |
| `EmployeeDashboard.CountStatus` | frontend/src/pages/EmployeeDashboard.jsx:135-137 | a status count is at most the number of tasks |
| `EmployeeDashboard.ComputeTaskStats` | frontend/src/pages/EmployeeDashboard.jsx:133-138 | the total card is the number of tasks; the three status cards together never exceed it, and fall short of it by exactly the number of tasks with another status |
| `EmployeeDashboard.StatsPartitionTotal` | frontend/src/pages/EmployeeDashboard.jsx:135-137 | the pending, in-progress and completed counts plus the tasks of any other status (such as Overdue) equal the list length |
| `EmployeeDashboard.CountStatusIgnoresCase` | frontend/src/pages/EmployeeDashboard.jsx:135-137 | changing the letter case of a task's status leaves every count unchanged |
| `EmployeeDashboard.ReplaceById` | frontend/src/pages/EmployeeDashboard.jsx:39 | length and order are kept; each task with the id is replaced by the server's answer; every other task is unchanged |
| `EmployeeDashboard.ApplyStatusUpdate` | frontend/src/pages/EmployeeDashboard.jsx:37-43 | the length is kept; after a successful update each task with the id is the server's answer; every other task, and every task after a failed update, is unchanged |
| `EmployeeDashboard.ReplaceMissingIdIsIdentity` | frontend/src/pages/EmployeeDashboard.jsx:39 | replacing an id that is not in the list changes nothing |
| `EmployeeDashboard.SelectorNeverRequestsOverdue` | frontend/src/pages/EmployeeDashboard.jsx:119-128 | every option is a status the backend stores, none of them is Overdue, and "Overdue" is not among them |
| `EmployeeDashboard.StatusColor` | frontend/src/pages/EmployeeDashboard.jsx:49-60 | none (definition); see `StatusColorIgnoresCase`, `StatusColorFallback` and `OverdueIsGray` |
| `EmployeeDashboard.StatusColorFallback` | frontend/src/pages/EmployeeDashboard.jsx:57-58 | every status that is not completed, in progress or pending in any letter case is shown in gray |
| `EmployeeDashboard.StatusColorIgnoresCase` | frontend/src/pages/EmployeeDashboard.jsx:49-60 | the status colour depends only on the lower-cased status |
| `EmployeeDashboard.OverdueIsGray` | frontend/src/pages/EmployeeDashboard.jsx:49-60 | an Overdue task, for which the switch has no case, gets the gray fallback |
| `EmployeeDashboard.PriorityColor` | frontend/src/pages/EmployeeDashboard.jsx:62-73 | none (definition); see `PriorityColorIgnoresCase` and `PriorityColorFallback` |
| `EmployeeDashboard.PriorityColorFallback` | frontend/src/pages/EmployeeDashboard.jsx:63-71 | a missing priority, or one that is not high, medium or low in any letter case, is shown in gray |
| `EmployeeDashboard.PriorityColorIgnoresCase` | frontend/src/pages/EmployeeDashboard.jsx:62-73 | the priority colour depends only on the lower-cased priority |
| `EmployeeDashboard.PriorityLabel` | frontend/src/pages/EmployeeDashboard.jsx:93 | the label is never empty; it reads "Medium" exactly when the priority is missing, empty or "Medium"; a non-empty priority is shown as itself |
| `AdminDashboard.RemoveById` | frontend/src/pages/AdminDashboard.jsx:44 | the remaining users are exactly the listed users whose id differs from the deleted one |
| `AdminDashboard.RemoveByIdKeepsOrder` | frontend/src/pages/AdminDashboard.jsx:44 | the remaining users keep their original order, and only the users with the deleted id are dropped |
| `AdminDashboard.HandleDeleteUser` | frontend/src/pages/AdminDashboard.jsx:36-53 | the request is sent exactly when the confirmation is accepted; only a successful delete changes the list, and it leaves no user with that id |
| `AdminDashboard.RoleCount` | frontend/src/pages/AdminDashboard.jsx:155 | a role count is at most Total Users |
| `AdminDashboard.RoleCardsWithinTotal` | frontend/src/pages/AdminDashboard.jsx:143-172 | Managers + Employees never exceed Total Users |

## Left out

- Persistence (Sequelize). `findByPk`, `findAll`, `count`, `create` and `save` are replaced by operations and functions over in-memory sequences.
- Columns the core never reads: the createdAt/updatedAt timestamps.
- A store failure part-way through the overdue sweep would leave earlier rows saved and send 500. This is not modelled: each save in the model succeeds.
- The store errors modelled are the unique-email violation and the `managerId` foreign key (backend/models/index.js:12-13) on user insert, both sent as 500. Their message text is not modelled.
- Values outside the enums (a misspelt status or priority, a null title, priority or deadline) are refused by Sequelize's own validation or by the database, and answered 500. The model does not represent them: its types only hold valid values.
- `TaskController.TaskStore.UpdateTaskStatus`: the status column allows NULL (backend/models/Task.js:22-25 has no `allowNull: false`), and the handler stores `req.body.status` unchecked. So a request with a null status is stored and answered 200. The model cannot hold a null status. Such a row would then be treated two ways. SQL's NULL logic leaves it out of the cap count and the workload query. The sweep's `!==` tests would let it through, so a late task with a null status becomes Overdue.
- `UserController.UserStore.CreateUser`: a failed insert leaves `nextId` unchanged. A real auto-increment column usually uses up the id when the database rejects an insert. So after a failed insert, the exact id the model assigns, and the `managerId == next` self-reference case of `ManagerKeyHolds`, can differ from the database. The model still guarantees that ids are fresh and distinct.
- `TaskController.TaskStore.CreateTask`: the foreign keys `assignedTo` and `assignedBy` are not checked separately. The assignee is the stored employee that was found. `assignedBy` is the caller, who is that employee's managerId, and that column's own foreign key makes it a stored user.
- JavaScript type coercion is left out, such as a string id compared with `!==` to a numeric one. Ids are natural numbers. A `managerId` counts as truthy when it is present and not 0.
- The HTTP and Express wiring, the authentication middleware, and the routes. The caller's `{id, role}` is an input and is trusted.
- Password hashing with bcrypt is a foreign call. `CreateUser` receives the hash as a parameter.
- `getMe`, JWT decoding, navigation and toasts in the login page.
- `backend/controllers/workloadController.js`, `backend/migrations/create-task.js` and the associations in `backend/models/index.js`. Only the foreign-key fields are kept.
- The backend has neither of two endpoints the frontend calls, `/tasks/workload/:id` and `DELETE /users/:id`. `GET /users?managerId=me` does exist (backend/routes/userRoutes.js:12). It is served by `getAllUsers`, which is admin-only and ignores `managerId`, so a manager's request is refused with 403. The dashboards take the results of those calls as inputs and do not reconcile them with the backend.
- Rendering, React state and effects, the layout and sidebar, and the alert and toast services.
- `TaskController.TaskStore.GetMyTasks`: the source saves each late task as it goes. The model sweeps a local copy and writes the store once. The final state is the same, because no other call interleaves with the loop.
- Concurrency. Two concurrent `createTask` calls for the same employee can both pass the capacity check. Each call is modelled as atomic.
- Dates are integer instants. `Math.round` is modelled exactly on integers: floor(sum / n + 1/2).
- `EmployeeDashboard.ToLower`: lower-cases ASCII letters only. The Unicode case mappings of `toLowerCase` for other characters are not modelled.
- `Login.PasswordError`: length is counted in Dafny characters (code points). JavaScript's `length` counts UTF-16 code units, so a password containing characters outside the Basic Multilingual Plane can pass in JavaScript and fail here.
- `ManagerDashboard.TotalOf`: the total is an integer or missing. Other falsy JavaScript values (NaN, '') are not represented.
