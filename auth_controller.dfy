/** The auth controller: log in with email and password, and register a
    new user. The password hash is a parameter `hash` standing for bcrypt's
    hash; bcrypt's `compare(password, stored)` holds when `hash(password)`
    is the stored value. */
module AuthController {
  import opened Common
  import opened Models
  import opened Storage
  import opened Auth

  /** `createUserSession(userId, location)`: a redirect to `location`
      whose session cookie carries `userId`. */
  datatype Redirect = Redirect(location: string, userId: Id)

  /** Whether `password` matches a stored hash. */
  predicate Matches(hash: string -> string, password: string, stored: string) {
    hash(password) == stored
  }

  /** Looks the email up and compares the password with the stored hash. */
  ghost function Login(users: map<Id, User>, hash: string -> string, email: string, password: string): (r: Result<Redirect>)
    ensures r.Err? ==> r.error == InvalidCredentials
    ensures !EmailTaken(users, email) ==> r.Err?
    ensures r.Ok? ==> r.value.location == "/dashboard"
    ensures r.Ok? ==> exists id :: id in users && users[id].email == email &&
                                   Matches(hash, password, users[id].password) && r.value.userId == users[id].id
    ensures KeyedUsers(users) && UniqueEmails(users) ==>
              forall id :: id in users && users[id].email == email ==>
                r == if Matches(hash, password, users[id].password) then Ok(Redirect("/dashboard", id))
                     else Err(InvalidCredentials)
  {
    match FindOneByEmail(users, email)
    case None => Err(InvalidCredentials)
    case Some(user) =>
      if !Matches(hash, password, user.password) then Err(InvalidCredentials)
      else Ok(Redirect("/dashboard", user.id))
  }

  /** Logging in with the password a user registered with succeeds and
      binds the session to that user. */
  lemma LoginAfterRegister(users: map<Id, User>, hash: string -> string, id: Id, email: string, password: string, role: Role)
    requires KeyedUsers(users) && UniqueEmails(users)
    requires id !in users && !EmailTaken(users, email)
    requires email != "" && hash(password) != ""
    ensures Login(users[id := NewUser(id, email, hash(password), role)], hash, email, password) == Ok(Redirect("/dashboard", id))
  {
    var after := users[id := NewUser(id, email, hash(password), role)];
    assert KeyedUsers(after);
    assert UniqueEmails(after);
    assert id in after && after[id].email == email;
  }

  /** The registration check: email and password present, role one of three. */
  function CheckRegistration(email: string, password: string, role: string): (r: Result<Role>)
    ensures r.Ok? <==> email != "" && password != "" && ParseRole(role).Some?
    ensures r.Ok? ==> RoleName(r.value) == role
    ensures r.Err? ==> r.error == InvalidInput
  {
    match ParseRole(role)
    case None => Err(InvalidInput)
    case Some(parsed) => if email == "" || password == "" then Err(InvalidInput) else Ok(parsed)
  }

  method Register(db: Store, hash: string -> string, email: string, password: string, role: string)
    returns (r: Result<Redirect>)
    requires db.Valid()
    modifies db`users, db`issued
    ensures db.Valid()
    ensures r.Ok? <==>
              CheckRegistration(email, password, role).Ok? && hash(password) != "" && !EmailTaken(old(db.users), email)
    ensures CheckRegistration(email, password, role).Err? ==> r == Err(InvalidInput)
    ensures CheckRegistration(email, password, role).Ok? && hash(password) == "" ==> r == Err(ValidationFailed)
    ensures CheckRegistration(email, password, role).Ok? && hash(password) != "" && EmailTaken(old(db.users), email) ==>
              r == Err(DuplicateEmail)
    ensures r.Err? ==> db.users == old(db.users)
    ensures r.Ok? ==> r.value.location == "/profile/edit" && r.value.userId != "" && r.value.userId !in old(db.users)
    ensures r.Ok? ==>
              db.users == old(db.users)[r.value.userId := NewUser(r.value.userId, email, hash(password), ParseRole(role).value)]
    ensures r.Ok? ==> Login(db.users, hash, email, password) == Ok(Redirect("/dashboard", r.value.userId))
    ensures r.Ok? ==> RequireUserRole(db.users, Some(r.value.userId), AnyOf(["MENTEE", "MENTOR", "ADMIN"])) ==
                      Granted(db.users[r.value.userId])
  {
    var checked := CheckRegistration(email, password, role);
    if checked.Err? {
      return Err(checked.error);
    }
    var hashed := hash(password);
    if hashed == "" {
      return Err(ValidationFailed);
    }
    if EmailTaken(db.users, email) {
      return Err(DuplicateEmail);
    }
    var id := db.FreshId();
    var user := NewUser(id, email, hashed, checked.value);
    InsertUserKeepsTable(db.users, user);
    LoginAfterRegister(db.users, hash, id, email, password, checked.value);
    db.users := db.users[id := user];
    AllRolesAdmitsEveryUser(db.users, Some(id));
    r := Ok(Redirect("/profile/edit", id));
  }
}
