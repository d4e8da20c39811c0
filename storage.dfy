/** The document store: one table per collection, each a map from id to
    document, and the id source that `create` draws fresh ids from.
    `Valid` is what the schemas and the unique index keep true of the
    collections. */
module Storage {
  import opened Common
  import opened Models

  /** The id handed out for the n-th created document; ids of different
      lengths are different, so a longer id than any in use is fresh. */
  function NewId(n: nat): (id: Id)
    ensures |id| == n + 1
  {
    if n == 0 then "0" else NewId(n - 1) + "0"
  }

  /** Every id in `ids` was handed out before the counter reached `bound`. */
  ghost predicate IssuedBelow(ids: set<Id>, bound: nat) {
    forall id :: id in ids ==> |id| <= bound
  }

  /** Each document is stored under its own id. */
  ghost predicate KeyedUsers(t: map<Id, User>) {
    forall id :: id in t ==> t[id].id == id && UserConforms(t[id])
  }

  /** No two users share an email (the unique index). */
  ghost predicate UniqueEmails(t: map<Id, User>) {
    forall i, j :: i in t && j in t && t[i].email == t[j].email ==> i == j
  }

  ghost predicate KeyedRequests(t: map<Id, MentorshipRequest>) {
    forall id :: id in t ==> t[id].id == id && RequestConforms(t[id])
  }

  ghost predicate KeyedSessions(t: map<Id, Session>) {
    forall id :: id in t ==> t[id].id == id && SessionConforms(t[id])
  }

  ghost predicate KeyedAvailability(t: map<Id, Availability>) {
    forall id :: id in t ==> t[id].id == id && AvailabilityConforms(t[id])
  }

  /** Whether some user already has this email. */
  predicate EmailTaken(users: map<Id, User>, email: string) {
    exists id | id in users :: users[id].email == email
  }

  /** `findOne({ email })`: some user with that email, if there is one;
      with unique emails, the only one. */
  ghost function FindOneByEmail(users: map<Id, User>, email: string): (r: Option<User>)
    ensures r.Some? <==> EmailTaken(users, email)
    ensures r.Some? ==> r.value in users.Values && r.value.email == email
    ensures r.Some? && KeyedUsers(users) && UniqueEmails(users) ==>
              forall id :: id in users && users[id].email == email ==> r.value == users[id]
  {
    if EmailTaken(users, email) then
      var id :| id in users && users[id].email == email;
      Some(users[id])
    else
      None
  }

  /** Adding a conforming user under a fresh id, with an email nobody has,
      keeps the users table keyed and its emails unique. */
  lemma InsertUserKeepsTable(users: map<Id, User>, u: User)
    requires KeyedUsers(users) && UniqueEmails(users)
    requires u.id !in users && UserConforms(u) && !EmailTaken(users, u.email)
    ensures KeyedUsers(users[u.id := u]) && UniqueEmails(users[u.id := u])
  {
    var after := users[u.id := u];
    assert forall k :: k in users ==> users[k].email != u.email;
    forall i, j | i in after && j in after && after[i].email == after[j].email
      ensures i == j
    {
      if i != u.id && j != u.id {
        assert users[i].email == users[j].email;
      }
    }
  }

  class Store {
    var users: map<Id, User>
    var requests: map<Id, MentorshipRequest>
    var sessions: map<Id, Session>
    var availability: map<Id, Availability>
    var issued: nat

    /** The store invariant: what the schemas, the unique email index and
        the controllers' own checks keep true of the collections. No
        document is stored under the empty id, as no ObjectId is empty. */
    ghost predicate Valid()
      reads this
      ensures Valid() ==> forall i, j :: i in users && j in users && users[i].email == users[j].email ==> i == j
      ensures Valid() ==> forall id :: id in requests ==> requests[id].menteeId != "" && requests[id].mentorId != ""
      ensures Valid() ==> forall id :: id in sessions ==> sessions[id].mentorId != "" && sessions[id].menteeId != ""
      ensures Valid() ==> forall id :: id in sessions && sessions[id].feedback.Some? ==>
                            1 <= sessions[id].feedback.value.rating <= 5
      ensures Valid() ==> forall id :: id in availability ==> availability[id].mentorId != ""
      ensures Valid() ==> "" !in users && "" !in requests && "" !in sessions && "" !in availability
    {
      && "" !in users && "" !in requests && "" !in sessions && "" !in availability
      && IssuedBelow(users.Keys, issued)
      && IssuedBelow(requests.Keys, issued)
      && IssuedBelow(sessions.Keys, issued)
      && IssuedBelow(availability.Keys, issued)
      && KeyedUsers(users) && UniqueEmails(users)
      && KeyedRequests(requests)
      && KeyedSessions(sessions)
      && KeyedAvailability(availability)
    }

    /** An empty database. */
    constructor ()
      ensures Valid()
      ensures users == map[] && requests == map[] && sessions == map[] && availability == map[]
    {
      users, requests, sessions, availability := map[], map[], map[], map[];
      issued := 0;
    }

    /** Draws an id that no document of any collection carries. */
    method FreshId() returns (id: Id)
      requires Valid()
      modifies this`issued
      ensures Valid()
      ensures id != ""
      ensures id !in users && id !in requests && id !in sessions && id !in availability
      ensures issued == old(issued) + 1 && |id| == issued
    {
      id := NewId(issued);
      issued := issued + 1;
    }
  }
}
