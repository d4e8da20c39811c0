/** The mentorship controller: a mentee asks a mentor for mentorship, the
    request starts PENDING, and a mentor later sets it to ACCEPTED or
    REJECTED; plus the mentor search and the request listings. */
module MentorshipController {
  import opened Common
  import opened Models
  import opened Storage

  method CreateMentorshipRequest(db: Store, menteeId: Id, mentorId: Id, now: int)
    returns (r: Result<MentorshipRequest>)
    requires db.Valid()
    modifies db`requests, db`issued
    ensures db.Valid()
    ensures r.Err? <==> menteeId == "" || mentorId == ""
    ensures r.Err? ==> r.error == IdsRequired && db.requests == old(db.requests)
    ensures r.Ok? ==> r.value.id !in old(db.requests)
    ensures r.Ok? ==> r.value == NewRequest(r.value.id, menteeId, mentorId, now)
    ensures r.Ok? ==> db.requests == old(db.requests)[r.value.id := r.value]
  {
    if menteeId == "" || mentorId == "" {
      return Err(IdsRequired);
    }
    var id := db.FreshId();
    var request := NewRequest(id, menteeId, mentorId, now);
    db.requests := db.requests[id := request];
    r := Ok(request);
  }

  // ------------------------------------------------------------ queries

  /** Whether two skill lists have a skill in common. */
  predicate SharesSkill(have: seq<string>, wanted: seq<string>) {
    exists s :: s in wanted && s in have
  }

  /** `find({ role: 'MENTOR', skills: { $in: skills } })`. */
  function GetMentorsBySkills(users: map<Id, User>, skills: seq<string>): (r: map<Id, User>)
    ensures forall id :: id in r <==>
              id in users && users[id].role == Mentor && exists s :: s in skills && s in users[id].skills
    ensures forall id :: id in r ==> r[id] == users[id]
  {
    Filter(users, (u: User) => u.role == Mentor && SharesSkill(u.skills, skills))
  }

  /** Searching for no skill finds no mentor. */
  lemma NoSkillsNoMentors(users: map<Id, User>)
    ensures GetMentorsBySkills(users, []) == map[]
  {
    var found := GetMentorsBySkills(users, []);
    assert found.Keys == {};
  }

  function GetMentorshipRequestsByMentee(requests: map<Id, MentorshipRequest>, menteeId: Id): (r: map<Id, MentorshipRequest>)
    ensures forall id :: id in r <==> id in requests && requests[id].menteeId == menteeId
    ensures forall id :: id in r ==> r[id] == requests[id]
  {
    Filter(requests, (q: MentorshipRequest) => q.menteeId == menteeId)
  }

  function GetMentorshipRequestsByMentor(requests: map<Id, MentorshipRequest>, mentorId: Id): (r: map<Id, MentorshipRequest>)
    ensures forall id :: id in r <==> id in requests && requests[id].mentorId == mentorId
    ensures forall id :: id in r ==> r[id] == requests[id]
  {
    Filter(requests, (q: MentorshipRequest) => q.mentorId == mentorId)
  }

  /** The matches: every request with status ACCEPTED. */
  function GetAllMentorshipMatches(requests: map<Id, MentorshipRequest>): (r: map<Id, MentorshipRequest>)
    ensures forall id :: id in r <==> id in requests && requests[id].status == Accepted
    ensures forall id :: id in r ==> r[id] == requests[id]
  {
    Filter(requests, (q: MentorshipRequest) => q.status == Accepted)
  }

  /** A new request is listed for its mentee and for its mentor at once, and
      is not a match until a mentor accepts it. */
  lemma NewRequestListed(requests: map<Id, MentorshipRequest>, request: MentorshipRequest)
    requires request.id !in requests && request.status == Pending
    ensures GetMentorshipRequestsByMentee(requests[request.id := request], request.menteeId) ==
            GetMentorshipRequestsByMentee(requests, request.menteeId)[request.id := request]
    ensures GetMentorshipRequestsByMentor(requests[request.id := request], request.mentorId) ==
            GetMentorshipRequestsByMentor(requests, request.mentorId)[request.id := request]
    ensures GetAllMentorshipMatches(requests[request.id := request]) == GetAllMentorshipMatches(requests)
  {
    FilterAfterInsert(requests, (q: MentorshipRequest) => q.menteeId == request.menteeId, request.id, request);
    FilterAfterInsert(requests, (q: MentorshipRequest) => q.mentorId == request.mentorId, request.id, request);
    FilterAfterInsert(requests, (q: MentorshipRequest) => q.status == Accepted, request.id, request);
  }

  // ----------------------------------------------------------- decisions

  /** `findByIdAndUpdate(id, { $set: { status } })` on the requests table. */
  function SetStatus(requests: map<Id, MentorshipRequest>, id: Id, status: RequestStatus): (r: map<Id, MentorshipRequest>)
    ensures r.Keys == requests.Keys
    ensures id in requests ==> r[id] == requests[id].(status := status)
    ensures forall other :: other in requests && other != id ==> r[other] == requests[other]
  {
    if id in requests then requests[id := requests[id].(status := status)] else requests
  }

  /** A mentor's decision on one request, as the form posts it. */
  datatype Decision = Decision(id: Id, status: string)

  /** The requests table after one call of the update: an unreadable status
      changes nothing; otherwise the status is set whatever it was before. */
  function Decide(requests: map<Id, MentorshipRequest>, d: Decision): (r: map<Id, MentorshipRequest>)
    ensures ParseDecision(d.status).None? ==> r == requests
    ensures ParseDecision(d.status).Some? ==> r == SetStatus(requests, d.id, ParseDecision(d.status).value)
  {
    match ParseDecision(d.status)
    case None => requests
    case Some(status) => SetStatus(requests, d.id, status)
  }

  method UpdateMentorshipRequest(db: Store, id: Id, status: string) returns (r: Result<Option<MentorshipRequest>>)
    requires db.Valid()
    modifies db`requests
    ensures db.Valid()
    ensures r.Err? <==> ParseDecision(status).None?
    ensures r.Err? ==> r.error == InvalidStatus
    ensures db.requests == Decide(old(db.requests), Decision(id, status))
    ensures r.Ok? ==> (r.value.Some? <==> id in old(db.requests))
    ensures r.Ok? && r.value.Some? ==> r.value.value == db.requests[id] && StatusName(r.value.value.status) == status
  {
    var parsed := ParseDecision(status);
    if parsed.None? {
      return Err(InvalidStatus);
    }
    db.requests := SetStatus(db.requests, id, parsed.value);
    if id in db.requests {
      r := Ok(Some(db.requests[id]));
    } else {
      r := Ok(None);
    }
  }

  /** Repeating a decision leaves the table as the first call left it. */
  lemma DecideIdempotent(requests: map<Id, MentorshipRequest>, d: Decision)
    ensures Decide(Decide(requests, d), d) == Decide(requests, d)
  {
  }

  /** An accepted request is a match; a rejected one is not. */
  lemma DecisionDecidesMatch(requests: map<Id, MentorshipRequest>, d: Decision)
    requires d.id in requests && ParseDecision(d.status).Some?
    ensures d.id in GetAllMentorshipMatches(Decide(requests, d)) <==> d.status == "ACCEPTED"
  {
  }

  // ---------------------------------------------------------- lifecycle

  /** The requests table after a sequence of decisions, applied in order. */
  ghost function Replay(requests: map<Id, MentorshipRequest>, ds: seq<Decision>): map<Id, MentorshipRequest>
    decreases |ds|
  {
    if ds == [] then requests
    else Decide(Replay(requests, ds[..|ds| - 1]), ds[|ds| - 1])
  }

  /** The status set by the last readable decision on `id`, if any. */
  ghost function LastVerdict(ds: seq<Decision>, id: Id): (v: Option<RequestStatus>)
    ensures v.Some? ==> v.value != Pending
    decreases |ds|
  {
    if ds == [] then None
    else if ds[|ds| - 1].id == id && ParseDecision(ds[|ds| - 1].status).Some? then
      ParseDecision(ds[|ds| - 1].status)
    else LastVerdict(ds[..|ds| - 1], id)
  }

  /** After any sequence of decisions a request keeps everything but its
      status, and its status is the one the last readable decision on it
      set, or what it was if there was none: no decision looks at the
      current status. */
  lemma {:induction false} ReplayStatus(requests: map<Id, MentorshipRequest>, ds: seq<Decision>, id: Id)
    ensures Replay(requests, ds).Keys == requests.Keys
    ensures id in requests ==>
              Replay(requests, ds)[id] == requests[id].(status := LastVerdict(ds, id).GetOr(requests[id].status))
    decreases |ds|
  {
    if ds != [] {
      ReplayStatus(requests, ds[..|ds| - 1], id);
    }
  }

  /** Once decided, a request never goes back to PENDING. */
  lemma {:induction false} DecidedNeverPending(requests: map<Id, MentorshipRequest>, ds: seq<Decision>, id: Id)
    requires id in requests && requests[id].status != Pending
    ensures id in Replay(requests, ds) && Replay(requests, ds)[id].status != Pending
  {
    ReplayStatus(requests, ds, id);
  }

  /** A PENDING request stays PENDING exactly as long as no readable
      decision has named it. */
  lemma {:induction false} PendingUntilDecided(requests: map<Id, MentorshipRequest>, ds: seq<Decision>, id: Id)
    requires id in requests && requests[id].status == Pending
    ensures id in Replay(requests, ds)
    ensures Replay(requests, ds)[id].status == Pending <==> LastVerdict(ds, id).None?
  {
    ReplayStatus(requests, ds, id);
  }
}
