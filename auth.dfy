/** The role gate every route runs first: from the user id carried by the
    session (if any) and the role or roles a route admits, either send the
    caller to log in, refuse with 403, propagate the lookup failure, or hand
    back the caller's user record. */
module Auth {
  import opened Common
  import opened Models
  import opened UserController

  /** What a route admits: one role, or a list of roles. */
  datatype RoleRequirement = OneRole(role: string) | AnyOf(roles: seq<string>)

  /** The outcome of the gate. */
  datatype Gate =
    | Unauthenticated        // redirect to /login
    | Forbidden              // 403 "Unauthorized"
    | Failed(error: Error)   // the user lookup threw
    | Granted(user: User)

  /** A single role is read as the one-element list holding it. */
  function AdmittedRoles(req: RoleRequirement): (roles: seq<string>)
    ensures req.OneRole? ==> roles == [req.role]
    ensures req.AnyOf? ==> roles == req.roles
  {
    match req
    case OneRole(role) => [role]
    case AnyOf(roles) => roles
  }

  /** Whether the session carries a user id (a missing or empty id does not). */
  predicate SignedIn(userId: Option<Id>) {
    userId.Some? && userId.value != ""
  }

  function RequireUserRole(users: map<Id, User>, userId: Option<Id>, req: RoleRequirement): (g: Gate)
    ensures g.Unauthenticated? <==> !SignedIn(userId)
    ensures g.Failed? <==> SignedIn(userId) && userId.value !in users
    ensures g.Failed? ==> g.error == UserNotFound
    ensures g.Granted? <==>
              SignedIn(userId) && userId.value in users && RoleName(users[userId.value].role) in AdmittedRoles(req)
    ensures g.Granted? ==> g.user == users[userId.value]
    ensures g.Forbidden? <==>
              SignedIn(userId) && userId.value in users && RoleName(users[userId.value].role) !in AdmittedRoles(req)
  {
    if !SignedIn(userId) then Unauthenticated
    else
      match GetUserById(users, userId.value)
      case Err(e) => Failed(e)
      case Ok(user) =>
        if RoleName(user.role) in AdmittedRoles(req) then Granted(user) else Forbidden
  }

  /** Signed out, the gate answers without looking at the users table. */
  lemma SignedOutNeedsNoLookup(users: map<Id, User>, others: map<Id, User>, userId: Option<Id>, req: RoleRequirement)
    requires !SignedIn(userId)
    ensures RequireUserRole(users, userId, req) == RequireUserRole(others, userId, req) == Unauthenticated
  {
  }

  /** Requiring one role is the same as requiring the list of just that role. */
  lemma OneRoleIsSingletonList(users: map<Id, User>, userId: Option<Id>, role: string)
    ensures RequireUserRole(users, userId, OneRole(role)) == RequireUserRole(users, userId, AnyOf([role]))
  {
  }

  /** Only membership in the admitted list matters: reordering or repeating
      its roles leaves the outcome as it was. */
  lemma OnlyMembershipMatters(users: map<Id, User>, userId: Option<Id>, a: seq<string>, b: seq<string>)
    requires forall role :: role in a <==> role in b
    ensures RequireUserRole(users, userId, AnyOf(a)) == RequireUserRole(users, userId, AnyOf(b))
  {
  }

  /** Admitting more roles never turns a granted caller away. */
  lemma GrantIsMonotone(users: map<Id, User>, userId: Option<Id>, a: seq<string>, b: seq<string>)
    requires forall role :: role in a ==> role in b
    requires RequireUserRole(users, userId, AnyOf(a)).Granted?
    ensures RequireUserRole(users, userId, AnyOf(b)) == RequireUserRole(users, userId, AnyOf(a))
  {
  }

  /** A signed-in user whose role is one of the three is let through by a
      route admitting all three, so such a route only ever turns away the
      signed-out and the unknown. */
  lemma AllRolesAdmitsEveryUser(users: map<Id, User>, userId: Option<Id>)
    requires SignedIn(userId) && userId.value in users
    ensures RequireUserRole(users, userId, AnyOf(["MENTEE", "MENTOR", "ADMIN"])) == Granted(users[userId.value])
  {
    var role := users[userId.value].role;
    assert RoleName(role) in ["MENTEE", "MENTOR", "ADMIN"] by {
      match role
      case Admin =>
      case Mentor =>
      case Mentee =>
    }
  }
}
