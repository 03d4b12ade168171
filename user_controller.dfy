/** backend/controllers/userController.js: who may create which user
    (createUser) and who may list them (getAllUsers), over an in-memory
    Users table. */
module UserController {
  import opened Wrappers
  import opened Api
  import opened UserModel

  /** JavaScript truthiness of a numeric `managerId`: present and not 0. */
  predicate Truthy(managerId: Option<nat>)
  {
    managerId.Some? && managerId.value != 0
  }

  /** `User.findByPk(m)` finds a user whose role is manager. */
  predicate IsManagerRef(users: seq<User>, m: nat)
  {
    var found := FindUser(users, m);
    found.Some? && found.value.role == Manager
  }

  /** The guards of createUser, in order; None means the insert is attempted. */
  function CreationCheck(creator: Caller, role: Role, managerId: Option<nat>, users: seq<User>): (r: Option<ApiError>)
    // only admins and managers ever get through
    ensures r.None? ==> creator.role != Employee
    // a manager only creates employees under itself
    ensures r.None? && creator.role == Manager ==> role == Employee && managerId == Some(creator.id)
    // an admin's employee with a (truthy) manager id names an existing manager
    ensures r.None? && creator.role == Admin && role == Employee && Truthy(managerId) ==>
              IsManagerRef(users, managerId.value)
    ensures r.Some? ==> r.value in {AccessDenied, ManagersOnlyOwnEmployees, InvalidManager}
  {
    if creator.role == Employee then Some(AccessDenied)
    else if creator.role == Manager && (role != Employee || managerId != Some(creator.id)) then
      Some(ManagersOnlyOwnEmployees)
    else if creator.role == Admin && role == Employee && Truthy(managerId) && !IsManagerRef(users, managerId.value) then
      Some(InvalidManager)
    else None
  }

  lemma EmployeeCreatorDenied(id: nat, role: Role, managerId: Option<nat>, users: seq<User>)
    ensures CreationCheck(Caller(id, Employee), role, managerId, users) == Some(AccessDenied)
  {
  }

  /** A manager succeeds exactly when it asks for an employee under itself. */
  lemma ManagerCreatorRule(id: nat, role: Role, managerId: Option<nat>, users: seq<User>)
    ensures CreationCheck(Caller(id, Manager), role, managerId, users) ==
            if role == Employee && managerId == Some(id) then None else Some(ManagersOnlyOwnEmployees)
  {
  }

  /** An admin naming a manager id that is not a manager's gets 400. */
  lemma AdminInvalidManager(id: nat, m: nat, users: seq<User>)
    requires m != 0 && !IsManagerRef(users, m)
    ensures CreationCheck(Caller(id, Admin), Employee, Some(m), users) == Some(InvalidManager)
  {
  }

  /** The store is consulted only for an admin creating an employee with a
      truthy managerId; in every other case the decision does not depend on it. */
  lemma LookupOnlyForAdminsEmployees(creator: Caller, role: Role, managerId: Option<nat>,
                                     users1: seq<User>, users2: seq<User>)
    requires !(creator.role == Admin && role == Employee && Truthy(managerId))
    ensures CreationCheck(creator, role, managerId, users1) == CreationCheck(creator, role, managerId, users2)
    ensures creator.role == Admin ==> CreationCheck(creator, role, managerId, users1) == None
  {
  }

  /** Every employee whose managerId is truthy names an existing manager. */
  ghost predicate ManagersResolve(users: seq<User>)
  {
    forall i :: 0 <= i < |users| && users[i].role == Employee && Truthy(users[i].managerId) ==>
      IsManagerRef(users, users[i].managerId.value)
  }

  /** The caller named by the token is a stored user with that role. */
  predicate CallerInStore(creator: Caller, users: seq<User>)
  {
    var found := FindUser(users, creator.id);
    found.Some? && found.value.role == creator.role
  }

  /** `getAllUsers`: admins get every user, anyone else 403. */
  function GetAllUsers(caller: Caller, users: seq<User>): (r: Result<seq<User>, ApiError>)
    ensures r.Ok? <==> caller.role == Admin
    ensures r.Ok? ==> r.value == users
    ensures r.Err? ==> r.error == AccessDenied
  {
    if caller.role != Admin then Err(AccessDenied) else Ok(users)
  }

  /** A caller who is not an admin learns nothing about the store: the
      answer is the same 403 whatever the stored users are. */
  lemma GetAllUsersRevealsNothingToOthers(caller: Caller, users1: seq<User>, users2: seq<User>)
    requires caller.role != Admin
    ensures GetAllUsers(caller, users1) == GetAllUsers(caller, users2) == Err(AccessDenied)
  {
  }

  /** The foreign key `managerId` references `Users.id`: a null managerId is
      always accepted; otherwise it must name a stored user or the row being
      inserted, which gets the id `next`. */
  predicate ManagerKeyHolds(users: seq<User>, next: nat, managerId: Option<nat>)
  {
    managerId.None? || FindUser(users, managerId.value).Some? || managerId.value == next
  }

  /** A lookup that succeeds before a new user (with a fresh id) is appended still succeeds after. */
  lemma ManagerRefAppend(users: seq<User>, next: nat, u: User, m: nat)
    requires IdsBelow(users, next) && u.id == next
    requires IsManagerRef(users, m)
    ensures IsManagerRef(users + [u], m)
  {
    FindUserAppend(users, u, m);
  }

  class UserStore {
    var users: seq<User>
    var nextId: nat

    ghost predicate Valid()
      reads this
    {
      EmailsUnique(users) && IdsBelow(users, nextId)
    }

    constructor ()
      ensures Valid() && users == [] && nextId == 1
    {
      users := [];
      nextId := 1;
    }

    /** createUser. `passwordHash` is what bcrypt produced from the password;
        an email already in use, or a managerId that references no user,
        makes the insert fail (500). */
    method CreateUser(creator: Caller, fullName: string, email: string, passwordHash: string,
                      role: Role, managerId: Option<nat>)
      returns (r: Result<User, ApiError>)
      requires Valid()
      modifies this
      ensures Valid()
      ensures CreationCheck(creator, role, managerId, old(users)).Some? ==>
                r == Err(CreationCheck(creator, role, managerId, old(users)).value)
      ensures CreationCheck(creator, role, managerId, old(users)).None? &&
              (EmailTaken(old(users), email) || !ManagerKeyHolds(old(users), old(nextId), managerId)) ==>
                r == Err(StoreFailure)
      ensures r.Ok? <==> CreationCheck(creator, role, managerId, old(users)).None? && !EmailTaken(old(users), email) &&
                         ManagerKeyHolds(old(users), old(nextId), managerId)
      ensures r.Err? ==> users == old(users) && nextId == old(nextId)
      ensures r.Ok? ==> r.value == User(old(nextId), fullName, email, passwordHash, role, managerId)
      ensures r.Ok? ==> users == old(users) + [r.value] && nextId == old(nextId) + 1
      ensures ManagersResolve(old(users)) && CallerInStore(creator, old(users)) ==> ManagersResolve(users)
    {
      var check := CreationCheck(creator, role, managerId, users);
      if check.Some? {
        return Err(check.value);
      }
      if EmailTaken(users, email) || !ManagerKeyHolds(users, nextId, managerId) {
        return Err(StoreFailure);
      }
      var user := User(nextId, fullName, email, passwordHash, role, managerId);
      AppendKeepsEmailsUnique(users, user);
      ghost var before := users;
      users := users + [user];
      nextId := nextId + 1;
      r := Ok(user);
      if ManagersResolve(before) && CallerInStore(creator, before) {
        forall i | 0 <= i < |users| && users[i].role == Employee && Truthy(users[i].managerId)
          ensures IsManagerRef(users, users[i].managerId.value)
        {
          var m := users[i].managerId.value;
          if i < |before| {
            ManagerRefAppend(before, user.id, user, m);
          } else if creator.role == Manager {
            ManagerRefAppend(before, user.id, user, creator.id);
          } else {
            ManagerRefAppend(before, user.id, user, m);
          }
        }
      }
    }
  }
}
