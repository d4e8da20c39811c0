/** The user controller: lookups by id and by email, the listing of all
    users, and the two in-place updates (profile fields, role). */
module UserController {
  import opened Common
  import opened Models
  import opened Storage

  /** `findById(id)`, throwing "User not found" on a miss. */
  function GetUserById(users: map<Id, User>, id: Id): (r: Result<User>)
    ensures r.Ok? <==> id in users
    ensures r.Ok? ==> r.value == users[id]
    ensures r.Err? ==> r.error == UserNotFound
  {
    if id in users then Ok(users[id]) else Err(UserNotFound)
  }

  /** `findOne({ email })`, throwing "User not found" on a miss. */
  ghost function GetUserByEmail(users: map<Id, User>, email: string): (r: Result<User>)
    ensures r.Ok? <==> exists id :: id in users && users[id].email == email
    ensures r.Ok? ==> r.value in users.Values && r.value.email == email
    ensures r.Err? ==> r.error == UserNotFound
    ensures KeyedUsers(users) && UniqueEmails(users) ==>
              forall id :: id in users && users[id].email == email ==> r == Ok(users[id])
  {
    match FindOneByEmail(users, email)
    case Some(u) => Ok(u)
    case None => Err(UserNotFound)
  }

  /** `find()`: every stored user. */
  function GetAllUsers(users: map<Id, User>): (r: set<User>)
    ensures forall id :: id in users ==> users[id] in r
    ensures forall u :: u in r ==> exists id :: id in users && users[id] == u
  {
    users.Values
  }

  // ------------------------------------------------------------ profile

  /** The profile fields a caller supplies; an absent field is left alone
      by `$set`. */
  datatype ProfileUpdate = ProfileUpdate(
    name: Option<string>,
    bio: Option<string>,
    skills: Option<seq<string>>,
    goals: Option<seq<string>>)

  /** The profile check: a name must be given and be at least 2 long. */
  function CheckProfile(data: ProfileUpdate): (r: Result<ProfileUpdate>)
    ensures r.Ok? <==> data.name.Some? && |data.name.value| >= 2
    ensures r.Ok? ==> r.value == data
    ensures r.Err? ==> r.error == NameTooShort
  {
    if data.name.None? || |data.name.value| < 2 then Err(NameTooShort)
    else Ok(data)
  }

  /** A user with the supplied profile fields overwritten. */
  function WithProfile(u: User, data: ProfileUpdate): (v: User)
    ensures v.id == u.id && v.email == u.email && v.password == u.password && v.role == u.role
    ensures v.name == (if data.name.Some? then data.name else u.name)
    ensures v.bio == (if data.bio.Some? then data.bio else u.bio)
    ensures v.skills == data.skills.GetOr(u.skills)
    ensures v.goals == data.goals.GetOr(u.goals)
  {
    u.(name := if data.name.Some? then data.name else u.name,
       bio := if data.bio.Some? then data.bio else u.bio,
       skills := data.skills.GetOr(u.skills),
       goals := data.goals.GetOr(u.goals))
  }

  /** `findByIdAndUpdate(id, { $set: data })` on the users table. */
  function SetProfile(users: map<Id, User>, id: Id, data: ProfileUpdate): (r: map<Id, User>)
    ensures r.Keys == users.Keys
    ensures id in users ==> r[id] == WithProfile(users[id], data)
    ensures forall other :: other in users && other != id ==> r[other] == users[other]
  {
    if id in users then users[id := WithProfile(users[id], data)] else users
  }

  /** Profile edits touch no credential and no role, so the users table
      stays valid. */
  lemma SetProfileKeepsValid(users: map<Id, User>, id: Id, data: ProfileUpdate)
    requires KeyedUsers(users) && UniqueEmails(users)
    ensures KeyedUsers(SetProfile(users, id, data)) && UniqueEmails(SetProfile(users, id, data))
    ensures forall k :: k in users ==> SetProfile(users, id, data)[k].email == users[k].email
  {
  }

  method UpdateUserProfile(db: Store, id: Id, data: ProfileUpdate) returns (r: Result<Option<User>>)
    requires db.Valid()
    modifies db`users
    ensures db.Valid()
    ensures r.Err? <==> CheckProfile(data).Err?
    ensures r.Err? ==> r.error == NameTooShort && db.users == old(db.users)
    ensures r.Ok? ==> db.users == SetProfile(old(db.users), id, data)
    ensures r.Ok? ==> (r.value.Some? <==> id in old(db.users))
    ensures r.Ok? && r.value.Some? ==> r.value.value == db.users[id]
  {
    var checked := CheckProfile(data);
    if checked.Err? {
      return Err(checked.error);
    }
    SetProfileKeepsValid(db.users, id, data);
    db.users := SetProfile(db.users, id, data);
    if id in db.users {
      r := Ok(Some(db.users[id]));
    } else {
      r := Ok(None);
    }
  }

  // --------------------------------------------------------------- role

  /** `findByIdAndUpdate(id, { $set: { role } })` on the users table. */
  function SetRole(users: map<Id, User>, id: Id, role: Role): (r: map<Id, User>)
    ensures r.Keys == users.Keys
    ensures id in users ==> r[id] == users[id].(role := role)
    ensures forall other :: other in users && other != id ==> r[other] == users[other]
  {
    if id in users then users[id := users[id].(role := role)] else users
  }

  /** Setting the same role twice is the same as setting it once. */
  lemma SetRoleIdempotent(users: map<Id, User>, id: Id, role: Role)
    ensures SetRole(SetRole(users, id, role), id, role) == SetRole(users, id, role)
  {
  }

  method UpdateUserRole(db: Store, id: Id, role: string) returns (r: Result<Option<User>>)
    requires db.Valid()
    modifies db`users
    ensures db.Valid()
    ensures r.Err? <==> ParseRole(role).None?
    ensures r.Err? ==> r.error == InvalidRole && db.users == old(db.users)
    ensures r.Ok? ==> db.users == SetRole(old(db.users), id, ParseRole(role).value)
    ensures r.Ok? ==> (r.value.Some? <==> id in old(db.users))
    ensures r.Ok? && r.value.Some? ==> r.value.value == db.users[id] && RoleName(r.value.value.role) == role
  {
    var parsed := ParseRole(role);
    if parsed.None? {
      return Err(InvalidRole);
    }
    db.users := SetRole(db.users, id, parsed.value);
    if id in db.users {
      r := Ok(Some(db.users[id]));
    } else {
      r := Ok(None);
    }
  }
}
