/** The User record of backend/models/User.js, the unique-email constraint,
    and the by-id lookup (`User.findByPk`) the controllers use. */
module UserModel {
  import opened Wrappers

  /** ENUM('admin', 'manager', 'employee'), NOT NULL. */
  datatype Role = Admin | Manager | Employee

  function RoleName(r: Role): string
  {
    match r
    case Admin => "admin"
    case Manager => "manager"
    case Employee => "employee"
  }

  function ParseRole(s: string): (r: Option<Role>)
    ensures r.Some? ==> RoleName(r.value) == s
  {
    if s == "admin" then Some(Admin)
    else if s == "manager" then Some(Manager)
    else if s == "employee" then Some(Employee)
    else None
  }

  lemma RoleNameRoundTrip(r: Role)
    ensures ParseRole(RoleName(r)) == Some(r)
  {
  }

  /** One row of the Users table: fullName, email, passwordHash and role are
      NOT NULL; managerId is nullable. */
  datatype User = User(
    id: nat,
    fullName: string,
    email: string,
    passwordHash: string,
    role: Role,
    managerId: Option<nat>)

  /** The UNIQUE constraint on email. */
  ghost predicate EmailsUnique(users: seq<User>)
  {
    forall i, j :: 0 <= i < j < |users| ==> users[i].email != users[j].email
  }

  /** The primary key: ids are distinct and were handed out below `next`, from 1. */
  ghost predicate IdsBelow(users: seq<User>, next: nat)
  {
    1 <= next &&
    (forall i :: 0 <= i < |users| ==> 1 <= users[i].id < next) &&
    (forall i, j :: 0 <= i < j < |users| ==> users[i].id != users[j].id)
  }

  /** True when some stored user already has this email. */
  function EmailTaken(users: seq<User>, email: string): (b: bool)
    ensures b <==> exists i :: 0 <= i < |users| && users[i].email == email
  {
    if users == [] then false
    else users[0].email == email || EmailTaken(users[1..], email)
  }

  /** `User.findByPk(id)`: the user with that id, or None. */
  function FindUser(users: seq<User>, id: nat): (r: Option<User>)
    ensures r.Some? ==> r.value in users && r.value.id == id
    ensures r.None? <==> forall i :: 0 <= i < |users| ==> users[i].id != id
  {
    if users == [] then None
    else if users[0].id == id then Some(users[0])
    else FindUser(users[1..], id)
  }

  /** Appending a user whose email is new keeps emails unique. */
  lemma {:induction false} AppendKeepsEmailsUnique(users: seq<User>, u: User)
    requires EmailsUnique(users)
    requires !EmailTaken(users, u.email)
    ensures EmailsUnique(users + [u])
  {
    var s := users + [u];
    forall i, j | 0 <= i < j < |s|
      ensures s[i].email != s[j].email
    {
      if j == |users| {
        assert s[i] == users[i];
      } else {
        assert s[i] == users[i] && s[j] == users[j];
      }
    }
  }

  /** Lookup in a store that grew by one user with a new id sees the old users unchanged. */
  lemma {:induction false} FindUserAppend(users: seq<User>, u: User, id: nat)
    requires id != u.id
    ensures FindUser(users + [u], id) == FindUser(users, id)
  {
    if users != [] {
      assert (users + [u])[1..] == users[1..] + [u];
      FindUserAppend(users[1..], u, id);
    }
  }
}
