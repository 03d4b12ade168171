/** What the HTTP layer hands the controllers (the authenticated caller) and
    the error responses the controllers send back. */
module Api {
  import opened UserModel

  /** The `{id, role}` pair the authentication middleware puts on `req.user`. */
  datatype Caller = Caller(id: nat, role: Role)

  /** Every non-success response the modelled controllers send. */
  datatype ApiError =
    | AccessDenied              // role check failed
    | ManagersOnlyOwnEmployees  // a manager tried to create something other than its own employee
    | InvalidEmployee           // assignee missing, not an employee, or under another manager
    | MaxActiveTasks            // the assignee already has the maximum of active tasks
    | InvalidManager            // an admin named a manager that does not exist or is not a manager
    | TaskNotFound              // task missing or not assigned to the caller
    | StoreFailure              // the store refused the insert (caught and sent as 500)

  /** The HTTP status code sent with each error. */
  function StatusCode(e: ApiError): int
  {
    match e
    case AccessDenied => 403
    case ManagersOnlyOwnEmployees => 403
    case InvalidEmployee => 400
    case MaxActiveTasks => 400
    case InvalidManager => 400
    case TaskNotFound => 404
    case StoreFailure => 500
  }

  /** The `message` field of the JSON body; the store's own message for a
      StoreFailure is not modelled. */
  function Message(e: ApiError): string
  {
    match e
    case AccessDenied => "Access denied"
    case ManagersOnlyOwnEmployees => "Managers can only create employees under themselves"
    case InvalidEmployee => "Invalid employee or not under you"
    case MaxActiveTasks => "Max active tasks reached"
    case InvalidManager => "Invalid manager"
    case TaskNotFound => "Task not found"
    case StoreFailure => ""
  }
}
