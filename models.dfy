/** The four document shapes and their schema constraints: the role and
    status enumerations, the status default, the rating bounds of a
    session's feedback, the required fields and the list defaults. */
module Models {
  import opened Common

  // ---------------------------------------------------------------- roles

  datatype Role = Admin | Mentor | Mentee

  /** The spelling of a role in documents, forms and role requirements. */
  function RoleName(role: Role): string {
    match role
    case Admin => "ADMIN"
    case Mentor => "MENTOR"
    case Mentee => "MENTEE"
  }

  /** Reads a role spelled as a string; only the three enumerated spellings
      are roles. */
  function ParseRole(s: string): (r: Option<Role>)
    ensures r.Some? <==> s == "ADMIN" || s == "MENTOR" || s == "MENTEE"
    ensures r.Some? ==> RoleName(r.value) == s
  {
    if s == "ADMIN" then Some(Admin)
    else if s == "MENTOR" then Some(Mentor)
    else if s == "MENTEE" then Some(Mentee)
    else None
  }

  /** Every role reads back as itself, so the role enumeration and its
      spelling are in one-to-one correspondence. */
  lemma ParseRoleName(role: Role)
    ensures ParseRole(RoleName(role)) == Some(role)
  {
    match role
    case Admin =>
    case Mentor =>
      assert RoleName(role) != "ADMIN";
    case Mentee =>
      assert RoleName(role) != "ADMIN" && RoleName(role) != "MENTOR";
  }

  // ------------------------------------------------------ request status

  datatype RequestStatus = Pending | Accepted | Rejected

  function StatusName(status: RequestStatus): string {
    match status
    case Pending => "PENDING"
    case Accepted => "ACCEPTED"
    case Rejected => "REJECTED"
  }

  /** Reads the status a mentor's decision asks for: only ACCEPTED and
      REJECTED are decisions, so PENDING can never be set by one. */
  function ParseDecision(s: string): (r: Option<RequestStatus>)
    ensures r.Some? <==> s == "ACCEPTED" || s == "REJECTED"
    ensures r.Some? ==> r.value != Pending && StatusName(r.value) == s
  {
    if s == "ACCEPTED" then Some(Accepted)
    else if s == "REJECTED" then Some(Rejected)
    else None
  }

  // ------------------------------------------------------------ documents

  /** A user; `password` holds the stored password hash, never the
      password itself. `name` and `bio` are optional paths. */
  datatype User = User(
    id: Id,
    email: string,
    password: string,
    role: Role,
    name: Option<string>,
    bio: Option<string>,
    skills: seq<string>,
    goals: seq<string>)

  datatype MentorshipRequest = MentorshipRequest(
    id: Id,
    menteeId: Id,
    mentorId: Id,
    status: RequestStatus,
    createdAt: int)

  datatype Feedback = Feedback(rating: int, comment: string)

  /** A booked session; times are instants in milliseconds. */
  datatype Session = Session(
    id: Id,
    mentorId: Id,
    menteeId: Id,
    startTime: int,
    endTime: int,
    feedback: Option<Feedback>)

  datatype Availability = Availability(
    id: Id,
    mentorId: Id,
    dayOfWeek: string,
    startTime: string,
    endTime: string)

  // ------------------------------------------------- schema constraints

  /** email and password are required (a required string path rejects ""). */
  predicate UserConforms(u: User) {
    u.email != "" && u.password != ""
  }

  predicate RequestConforms(r: MentorshipRequest) {
    r.menteeId != "" && r.mentorId != ""
  }

  /** The rating bounds of the feedback sub-document. */
  predicate RatingInRange(rating: int) {
    1 <= rating <= 5
  }

  predicate SessionConforms(s: Session) {
    && s.mentorId != "" && s.menteeId != ""
    && (s.feedback.Some? ==> RatingInRange(s.feedback.value.rating))
  }

  predicate AvailabilityConforms(a: Availability) {
    a.mentorId != "" && a.dayOfWeek != "" && a.startTime != "" && a.endTime != ""
  }

  /** The document `UserModel.create` builds from the three fields it is
      given: no name or bio, and skills and goals at their default, empty. */
  function NewUser(id: Id, email: string, passwordHash: string, role: Role): (u: User)
    ensures u.id == id && u.email == email && u.password == passwordHash && u.role == role
    ensures u.name.None? && u.bio.None? && u.skills == [] && u.goals == []
    ensures UserConforms(u) <==> email != "" && passwordHash != ""
  {
    User(id, email, passwordHash, role, None, None, [], [])
  }

  /** The document `MentorshipRequestModel.create` builds from the two ids:
      the status takes its default, PENDING. */
  function NewRequest(id: Id, menteeId: Id, mentorId: Id, now: int): (r: MentorshipRequest)
    ensures r.id == id && r.menteeId == menteeId && r.mentorId == mentorId && r.createdAt == now
    ensures r.status == Pending
    ensures RequestConforms(r) <==> menteeId != "" && mentorId != ""
  {
    MentorshipRequest(id, menteeId, mentorId, Pending, now)
  }
}
