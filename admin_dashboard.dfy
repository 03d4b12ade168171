/** frontend/src/pages/AdminDashboard.jsx: removing a deleted user from the
    list (`handleDeleteUser`) and the role count cards. */
module AdminDashboard {

  /** A user as the page receives it; the role is the JSON string. */
  datatype ListedUser = ListedUser(id: int, fullName: string, email: string, role: string)

  /** `users.filter(u => u.id !== id)`. */
  function RemoveById(users: seq<ListedUser>, id: int): (r: seq<ListedUser>)
    ensures |r| <= |users|
    ensures forall u :: u in r <==> u in users && u.id != id
  {
    if users == [] then []
    else (if users[0].id != id then [users[0]] else []) + RemoveById(users[1..], id)
  }

  /** `a` is `b` with some elements dropped and the rest in their order. */
  predicate IsSubsequence(a: seq<ListedUser>, b: seq<ListedUser>)
    decreases |b|
  {
    if a == [] then true
    else if b == [] then false
    else (a[0] == b[0] && IsSubsequence(a[1..], b[1..])) || IsSubsequence(a, b[1..])
  }

  /** How many listed users carry this id. */
  function CountId(users: seq<ListedUser>, id: int): (n: nat)
    ensures n <= |users|
  {
    if users == [] then 0 else (if users[0].id == id then 1 else 0) + CountId(users[1..], id)
  }

  /** The survivors keep their original order, and exactly the users with the
      deleted id are gone. */
  lemma {:induction false} RemoveByIdKeepsOrder(users: seq<ListedUser>, id: int)
    ensures IsSubsequence(RemoveById(users, id), users)
    ensures |RemoveById(users, id)| == |users| - CountId(users, id)
  {
    if users != [] {
      RemoveByIdKeepsOrder(users[1..], id);
      var rest := RemoveById(users[1..], id);
      if users[0].id != id {
        assert RemoveById(users, id) == [users[0]] + rest;
        assert ([users[0]] + rest)[1..] == rest;
      } else {
        assert RemoveById(users, id) == rest;
        if rest != [] {
          assert IsSubsequence(rest, users[1..]);
        }
      }
    }
  }

  /** What `handleDeleteUser` did: whether the DELETE request was sent, and the list afterwards. */
  datatype DeleteOutcome = DeleteOutcome(requested: bool, users: seq<ListedUser>)

  /** `handleDeleteUser(user)`: nothing happens unless the confirmation dialog
      is accepted; then the list loses that user only if the request succeeds. */
  function HandleDeleteUser(users: seq<ListedUser>, user: ListedUser, confirmed: bool, deleteSucceeded: bool)
    : (r: DeleteOutcome)
    ensures r.requested == confirmed
    ensures !(confirmed && deleteSucceeded) ==> r.users == users
    ensures confirmed && deleteSucceeded ==>
              r.users == RemoveById(users, user.id) && forall u :: u in r.users ==> u.id != user.id
  {
    if !confirmed then DeleteOutcome(false, users)
    else if deleteSucceeded then DeleteOutcome(true, RemoveById(users, user.id))
    else DeleteOutcome(true, users)
  }

  /** `users.filter(u => u.role === role).length`. */
  function RoleCount(users: seq<ListedUser>, role: string): (n: nat)
    ensures n <= |users|
  {
    if users == [] then 0 else (if users[0].role == role then 1 else 0) + RoleCount(users[1..], role)
  }

  /** The Managers and Employees cards never add up to more than Total Users. */
  lemma {:induction false} RoleCardsWithinTotal(users: seq<ListedUser>)
    ensures RoleCount(users, "manager") + RoleCount(users, "employee") <= |users|
  {
    if users != [] {
      RoleCardsWithinTotal(users[1..]);
    }
  }
}
