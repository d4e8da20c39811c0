# Mentor/mentee platform: store, role gate and controllers

A Dafny model of the decision logic of a mentor/mentee web application.
Users register and log in, edit their profiles, and have one of three roles:
ADMIN, MENTOR or MENTEE. A mentee searches mentors by skill and sends a
mentorship request, which starts PENDING and which a mentor sets to ACCEPTED
or REJECTED. Mentors declare weekly availability. Mentees book sessions with
mentors and leave a 1–5 rating as feedback. Admins change roles and list
matches and sessions.

The model has these parts:

- `Common` (`common.dfy`): ids, `Option`/`Result`, one `Error` per message the
  controllers throw, and `Filter`, the equality query that every `find` runs.
- `Models` (`models.dfy`): the four document shapes of `app/models/user.ts`.
  It has the role and status enumerations with their spellings, the status
  default, the rating bounds, and the required fields as conformance
  predicates.
- `Storage` (`storage.dfy`): the document store. The class `Store` holds one
  table per collection, each a `map` from id to document, plus the counter
  that fresh ids come from. `Store.Valid` is the store invariant: every
  document sits under its own, non-empty id, no two users share an email (the unique
  index), and the required paths are non-empty (the schemas' `required`).
  It also says every feedback rating lies in 1..5. The schema's `min`/`max`
  do not keep that bound, because Mongoose does not run validators on
  `findByIdAndUpdate`, the only write of feedback. The rating check in
  `submitSessionFeedback` keeps it. Every state-changing controller
  operation preserves `Valid`.
- `Auth` (`auth.dfy`): the role gate `requireUserRole`.
- `AuthController`, `UserController`, `MentorshipController`,
  `SessionController`: one module per controller file. Reads are functions
  over the tables. Writes are methods that take the `Store`, modify only the
  table they write, and state the new table exactly. Most are stated through
  a pure update function (`SetRole`, `SetStatus`, `SetFeedback`, ...), and
  lemmas about those functions give idempotence, overwriting, and the
  request lifecycle over any sequence of decisions.

The model keeps the behaviour of the controllers where it is looser than the
user interface suggests. The accept/reject buttons appear only for PENDING
requests (app/routes/requests.tsx:45), and the feedback form appears only for
sessions without feedback (app/routes/sessions.tsx:71). The controllers
enforce neither:

- A decision is applied whatever the request's current status.
- Feedback can be submitted again and replaces the earlier feedback.
- Booking checks only that the mentor has some availability record.
- A session's start is not required to come before its end.

## Model

| member | source | states |
|---|---|---|
| `Models.ParseRole` | app/models/user.ts:46 | a role string is accepted exactly when it is ADMIN, MENTOR or MENTEE, and the role read back spells that string |
| `Models.ParseRoleName` | app/models/user.ts:8 | every role reads back as itself, so a stored role is always exactly one of the three |
| `Models.ParseDecision` | app/controllers/mentorshipController.ts:25 | only ACCEPTED and REJECTED are decisions; a decision never yields PENDING |
| `Models.NewUser` | app/models/user.ts:43-51 | a created user has no name or bio and empty skills and goals; it conforms exactly when email and password hash are non-empty |
| `Models.NewRequest` | app/models/user.ts:53-58 | a created request carries the two ids and the creation time and has status PENDING; it conforms exactly when both ids are non-empty |
| `Storage.FindOneByEmail` | app/controllers/authController.ts:8 | finds a user exactly when some user has the email; with unique emails it is that user |
| `Storage.InsertUserKeepsTable` | app/models/user.ts:44 | inserting a user whose email is not taken keeps emails unique |
| `Storage.Store.FreshId` | app/models/user.ts:5 | a new id is non-empty and carried by no document of any collection |
| `UserController.GetUserById` | app/controllers/userController.ts:5-9 | returns the record with that id, or fails with UserNotFound exactly when there is none |
| `UserController.GetUserByEmail` | app/controllers/userController.ts:11-15 | succeeds exactly when some user has the email, with a user of that email, otherwise UserNotFound; with unique emails it is that user |
| `UserController.GetAllUsers` | app/controllers/userController.ts:24-26 | the result holds every stored user and nothing else |
| `UserController.CheckProfile` | app/controllers/userController.ts:18-20 | a profile passes exactly when a name of at least 2 characters is given, otherwise NameTooShort |
| `UserController.WithProfile` | app/controllers/userController.ts:21 | supplied profile fields are overwritten, absent ones kept; id, email, password and role never change |
| `UserController.SetProfile` | app/controllers/userController.ts:21 | only the target user changes, and an unknown id changes nothing |
| `UserController.SetProfileKeepsValid` | app/controllers/userController.ts:21 | a profile update keeps the users table keyed and its emails unique |
| `UserController.UpdateUserProfile` | app/controllers/userController.ts:17-22 | fails with NameTooShort and leaves the table alone on a bad name; otherwise applies the profile to the target and returns it, or returns nothing for an unknown id |
| `UserController.SetRole` | app/controllers/userController.ts:32 | only the role of the target user changes; other users are untouched |
| `UserController.SetRoleIdempotent` | app/controllers/userController.ts:32 | setting the same role twice is setting it once |
| `UserController.UpdateUserRole` | app/controllers/userController.ts:28-33 | fails with InvalidRole exactly when the role is not one of the three, changing nothing; otherwise sets the role and returns the updated user (nothing for an unknown id) |
| `Auth.AdmittedRoles` | app/utils/auth.server.ts:11 | a single role is read as the one-element list holding it |
| `Auth.RequireUserRole` | app/utils/auth.server.ts:6-14 | Unauthenticated exactly when the session has no (or an empty) user id; UserNotFound exactly when the id has no user; Granted with exactly the stored record exactly when the user's role is admitted; Forbidden otherwise |
| `Auth.SignedOutNeedsNoLookup` | app/utils/auth.server.ts:7-8 | signed out, the outcome is Unauthenticated whatever the users table holds |
| `Auth.OneRoleIsSingletonList` | app/utils/auth.server.ts:11 | requiring one role behaves exactly like the list of just that role |
| `Auth.OnlyMembershipMatters` | app/utils/auth.server.ts:12 | lists with the same members, reordered or repeated, give the same outcome |
| `Auth.GrantIsMonotone` | app/utils/auth.server.ts:12 | admitting more roles never turns away a caller who was granted access |
| `Auth.AllRolesAdmitsEveryUser` | app/utils/auth.server.ts:12 | a route admitting all three roles grants every signed-in, known user |
| `AuthController.Login` | app/controllers/authController.ts:7-13 | fails only with InvalidCredentials, and always when no user has the email; a success redirects to /dashboard bound to a user with that email whose stored hash matches; with unique emails it succeeds exactly when that user's hash matches |
| `AuthController.LoginAfterRegister` | app/controllers/authController.ts:7-12 | after a user is inserted as register inserts it, logging in with the same email and password succeeds for that user |
| `AuthController.CheckRegistration` | app/controllers/authController.ts:16-18 | passes exactly when email and password are non-empty and the role is one of the three, otherwise InvalidInput |
| `AuthController.Register` | app/controllers/authController.ts:15-22 | InvalidInput, then schema failure for an empty hash, then DuplicateEmail for a taken email, each adding no user; otherwise adds exactly one user under a fresh id with the email, hash(password) and role, and redirects to /profile/edit bound to it under a non-empty id, so the gate of that page (which admits all three roles) grants the new user, and logging in with the same email and password succeeds for that user |
| `MentorshipController.CreateMentorshipRequest` | app/controllers/mentorshipController.ts:5-10 | fails with IdsRequired exactly when an id is empty, creating nothing; otherwise adds exactly one PENDING request with the two ids under a fresh id |
| `MentorshipController.GetMentorsBySkills` | app/controllers/mentorshipController.ts:12-14 | exactly the users with role MENTOR who share a skill with the argument |
| `MentorshipController.NoSkillsNoMentors` | app/controllers/mentorshipController.ts:13 | an empty skill list finds no mentor |
| `MentorshipController.GetMentorshipRequestsByMentee` | app/controllers/mentorshipController.ts:16-18 | exactly the requests whose menteeId equals the argument |
| `MentorshipController.GetMentorshipRequestsByMentor` | app/controllers/mentorshipController.ts:20-22 | exactly the requests whose mentorId equals the argument |
| `MentorshipController.GetAllMentorshipMatches` | app/controllers/mentorshipController.ts:31-33 | exactly the requests with status ACCEPTED |
| `MentorshipController.NewRequestListed` | app/controllers/mentorshipController.ts:9 | a new request joins its mentee's and its mentor's listings and leaves the matches as they were |
| `MentorshipController.SetStatus` | app/controllers/mentorshipController.ts:28 | only the status of the target request changes, and an unknown id changes nothing |
| `MentorshipController.Decide` | app/controllers/mentorshipController.ts:24-29 | an unreadable status leaves the table unchanged; a decision sets the status whatever it was |
| `MentorshipController.UpdateMentorshipRequest` | app/controllers/mentorshipController.ts:24-29 | fails with InvalidStatus exactly when the status is not ACCEPTED or REJECTED (PENDING included), changing nothing; otherwise sets the status and returns the updated request (nothing for an unknown id) |
| `MentorshipController.DecideIdempotent` | app/controllers/mentorshipController.ts:28 | repeating a decision leaves the table as the first call left it |
| `MentorshipController.DecisionDecidesMatch` | app/controllers/mentorshipController.ts:32 | after a decision the request is a match exactly when the decision was ACCEPTED |
| `MentorshipController.LastVerdict` | app/controllers/mentorshipController.ts:25-28 | the last status a sequence of decisions set on a request is never PENDING |
| `MentorshipController.ReplayStatus` | app/controllers/mentorshipController.ts:28 | after any sequence of decisions, the same requests exist and each keeps everything but its status, which the last readable decision on it set (ACCEPTED→REJECTED included) |
| `MentorshipController.DecidedNeverPending` | app/controllers/mentorshipController.ts:25-28 | a request that is ACCEPTED or REJECTED never returns to PENDING |
| `MentorshipController.PendingUntilDecided` | app/controllers/mentorshipController.ts:28 | a PENDING request stays PENDING exactly as long as no readable decision has named it |
| `SessionController.CheckBooking` | app/controllers/sessionController.ts:7-9 | a booking passes exactly when both ids are non-empty and both times valid, otherwise InvalidInput |
| `SessionController.CreateSession` | app/controllers/sessionController.ts:6-16 | InvalidInput, then NoAvailability when no availability record has the mentor id, each creating nothing; otherwise adds exactly one session with the given mentor, mentee and times and no feedback (start < end unchecked) |
| `SessionController.GetSessionsByMentor` | app/controllers/sessionController.ts:18-20 | exactly the sessions whose mentorId equals the argument |
| `SessionController.GetSessionsByMentee` | app/controllers/sessionController.ts:22-24 | exactly the sessions whose menteeId equals the argument |
| `SessionController.GetAllSessions` | app/controllers/sessionController.ts:33-35 | every stored session and nothing else |
| `SessionController.NewSessionListed` | app/controllers/sessionController.ts:15 | a new session joins its mentor's and its mentee's listings |
| `SessionController.CheckRating` | app/controllers/sessionController.ts:27-29 | a rating passes exactly when it is a number in 1..5, otherwise InvalidRating |
| `SessionController.SetFeedback` | app/controllers/sessionController.ts:30 | only the feedback of the target session changes |
| `SessionController.FeedbackOverwrites` | app/controllers/sessionController.ts:30 | a second feedback replaces the first as if the first had never been given |
| `SessionController.SubmitSessionFeedback` | app/controllers/sessionController.ts:26-31 | fails with InvalidRating exactly when the rating is not a number in 1..5, leaving every session unchanged; otherwise replaces the target's feedback (keeping every stored rating in 1..5) and returns it (nothing for an unknown id) |
| `SessionController.CreateAvailability` | app/controllers/sessionController.ts:37-42 | FieldsRequired when day, start or end is empty, a schema failure for an empty mentor id, each adding nothing; otherwise adds exactly one record with the given fields under a fresh id |
| `SessionController.GetAvailabilityByMentor` | app/controllers/sessionController.ts:44-46 | exactly the availability records whose mentorId equals the argument |
| `SessionController.BookableIffListed` | app/controllers/sessionController.ts:11-14 | the booking guard holds exactly when the mentor's availability listing is non-empty |
| `SessionController.SlotMakesMentorBookable` | app/controllers/sessionController.ts:11-14 | once a mentor has a slot, the availability guard of createSession holds for that mentor (so, by CreateSession's contract, every booking that passes the input check succeeds) |
| `SessionController.HasAvailability` | app/controllers/sessionController.ts:11-12 | `findOne({ mentorId })` on the availability table finds a record |
| `Common.Filter` | app/controllers/sessionController.ts:19 | the `find(filter)` every listing runs: exactly the documents the filter accepts, unchanged and under their own ids |
| `Models.UserConforms` | app/models/user.ts:44-45 | a user document has a non-empty email and password |
| `Models.RequestConforms` | app/models/user.ts:54-55 | a request has non-empty menteeId and mentorId |
| `Models.SessionConforms` | app/models/user.ts:61-66 | a session has non-empty mentorId and menteeId, and any feedback has a rating in 1..5 |
| `Models.AvailabilityConforms` | app/models/user.ts:72-75 | an availability record has non-empty mentorId, dayOfWeek, startTime and endTime |
| `Storage.Store.Valid` | app/models/user.ts:43-76 | the store invariant: no document sits under the empty id, documents keyed by their ids, no two users share an email, requests, sessions and availability records carry non-empty ids, every stored rating lies in 1..5 |
| `Storage.Store.constructor` | app/models/user.ts:78-81 | an empty database: four empty collections, satisfying the store invariant |

## Left out

- Route handlers, React views, the sidebar and the root layout are not part of
  this model. This includes the UI-only restrictions: accept/reject buttons
  appear only for PENDING requests, and the feedback form only for sessions
  without feedback. The controllers do not enforce these, so the model does
  not either. The per-route role requirements are not modelled; the gate is
  modelled once, for any requirement.
- The cookie session store is not modelled: the gate receives the session's
  user id as an optional value. The MongoDB connection is not modelled
  either.
- `index.tsx` repeats the `app/` files and is not modelled separately.
- bcrypt is the parameter `hash`. `compare(password, stored)` is modelled as
  `hash(password) == stored`; salting and the cost factor are not modelled.
  The schema requires a non-empty password, so an empty hash fails as a
  schema validation error.
- Dates and `parseInt` are modelled as `Option<int>`. `None` stands for an
  invalid date or NaN. Ratings are integers because the only caller parses
  them with `parseInt`. The creation clock (`Date.now`) is the parameter
  `now`.
- Ids come from a counter in the store. A malformed id, which Mongoose would
  reject with a cast error, behaves like an id with no document.
- UserController.UpdateUserProfile: `data` is typed `Partial<User>`, but the
  model accepts only the four profile fields (name, bio, skills, goals).
  Those are the only fields its caller passes, so `$set` with email,
  password or role is not modelled.
- Query results are maps from id to document (for the `find()` listings, sets
  of documents). The order in which MongoDB returns documents is not
  modelled.
- Storage.FindOneByEmail: when several users share an email, `findOne`
  returns the first in natural order. The model returns an unspecified one
  of them. The unique index means this cannot happen in a valid store.
- `getMentorsBySkills` uses `UserModel`, which its file never imports. The
  model gives the query its evident meaning.
- String lengths count characters, not UTF-16 code units.
- All calls are sequential; `async`/`await` adds no interleaving here.
- The views offer a decision only on PENDING requests and feedback only on
  sessions without it. The controllers allow both again, and the model
  follows the controllers (`FeedbackOverwrites`, `ReplayStatus`).
