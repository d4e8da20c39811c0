/** The session controller: book a session with a mentor, leave feedback
    on it, list sessions, and declare and list a mentor's availability.
    Times arrive parsed: `None` stands for an invalid date (NaN time) and
    for a rating that did not parse as a number. */
module SessionController {
  import opened Common
  import opened Models
  import opened Storage

  /** `findOne({ mentorId })` on the availability table found something. */
  predicate HasAvailability(availability: map<Id, Availability>, mentorId: Id) {
    exists id | id in availability :: availability[id].mentorId == mentorId
  }

  /** The booking check on its own: both ids present, both times valid. */
  function CheckBooking(mentorId: Id, menteeId: Id, startTime: Option<int>, endTime: Option<int>): (r: Result<(int, int)>)
    ensures r.Ok? <==> mentorId != "" && menteeId != "" && startTime.Some? && endTime.Some?
    ensures r.Ok? ==> r.value == (startTime.value, endTime.value)
    ensures r.Err? ==> r.error == InvalidInput
  {
    if mentorId == "" || menteeId == "" || startTime.None? || endTime.None? then Err(InvalidInput)
    else Ok((startTime.value, endTime.value))
  }

  /** Books a session. Only the existence of some availability record for
      the mentor is checked, not that the times fall inside it, and the
      start is not required to come before the end. */
  method CreateSession(db: Store, mentorId: Id, menteeId: Id, startTime: Option<int>, endTime: Option<int>)
    returns (r: Result<Session>)
    requires db.Valid()
    modifies db`sessions, db`issued
    ensures db.Valid()
    ensures CheckBooking(mentorId, menteeId, startTime, endTime).Err? ==> r == Err(InvalidInput)
    ensures CheckBooking(mentorId, menteeId, startTime, endTime).Ok? && !HasAvailability(db.availability, mentorId) ==>
              r == Err(NoAvailability)
    ensures r.Ok? <==>
              CheckBooking(mentorId, menteeId, startTime, endTime).Ok? && HasAvailability(db.availability, mentorId)
    ensures r.Err? ==> db.sessions == old(db.sessions)
    ensures r.Ok? ==> r.value.id !in old(db.sessions)
    ensures r.Ok? ==> r.value == Session(r.value.id, mentorId, menteeId, startTime.value, endTime.value, None)
    ensures r.Ok? ==> db.sessions == old(db.sessions)[r.value.id := r.value]
  {
    var checked := CheckBooking(mentorId, menteeId, startTime, endTime);
    if checked.Err? {
      return Err(checked.error);
    }
    if !HasAvailability(db.availability, mentorId) {
      return Err(NoAvailability);
    }
    var id := db.FreshId();
    var session := Session(id, mentorId, menteeId, checked.value.0, checked.value.1, None);
    db.sessions := db.sessions[id := session];
    r := Ok(session);
  }

  function GetSessionsByMentor(sessions: map<Id, Session>, mentorId: Id): (r: map<Id, Session>)
    ensures forall id :: id in r <==> id in sessions && sessions[id].mentorId == mentorId
    ensures forall id :: id in r ==> r[id] == sessions[id]
  {
    Filter(sessions, (s: Session) => s.mentorId == mentorId)
  }

  function GetSessionsByMentee(sessions: map<Id, Session>, menteeId: Id): (r: map<Id, Session>)
    ensures forall id :: id in r <==> id in sessions && sessions[id].menteeId == menteeId
    ensures forall id :: id in r ==> r[id] == sessions[id]
  {
    Filter(sessions, (s: Session) => s.menteeId == menteeId)
  }

  /** `find()`: every stored session. */
  function GetAllSessions(sessions: map<Id, Session>): (r: set<Session>)
    ensures forall id :: id in sessions ==> sessions[id] in r
    ensures forall s :: s in r ==> exists id :: id in sessions && sessions[id] == s
  {
    sessions.Values
  }

  /** A new session shows up in its mentor's and its mentee's listings. */
  lemma NewSessionListed(sessions: map<Id, Session>, session: Session)
    requires session.id !in sessions
    ensures GetSessionsByMentor(sessions[session.id := session], session.mentorId) ==
            GetSessionsByMentor(sessions, session.mentorId)[session.id := session]
    ensures GetSessionsByMentee(sessions[session.id := session], session.menteeId) ==
            GetSessionsByMentee(sessions, session.menteeId)[session.id := session]
  {
    FilterAfterInsert(sessions, (s: Session) => s.mentorId == session.mentorId, session.id, session);
    FilterAfterInsert(sessions, (s: Session) => s.menteeId == session.menteeId, session.id, session);
  }

  // ----------------------------------------------------------- feedback

  /** The rating check: a number in 1..5. */
  function CheckRating(rating: Option<int>): (r: Result<int>)
    ensures r.Ok? <==> rating.Some? && RatingInRange(rating.value)
    ensures r.Ok? ==> r.value == rating.value
    ensures r.Err? ==> r.error == InvalidRating
  {
    if rating.None? || rating.value < 1 || rating.value > 5 then Err(InvalidRating) else Ok(rating.value)
  }

  /** `findByIdAndUpdate(id, { $set: { feedback } })` on the sessions table. */
  function SetFeedback(sessions: map<Id, Session>, id: Id, feedback: Feedback): (r: map<Id, Session>)
    ensures r.Keys == sessions.Keys
    ensures id in sessions ==> r[id] == sessions[id].(feedback := Some(feedback))
    ensures forall other :: other in sessions && other != id ==> r[other] == sessions[other]
  {
    if id in sessions then sessions[id := sessions[id].(feedback := Some(feedback))] else sessions
  }

  /** Feedback is not written once only: a second submission replaces the
      first, as if the first had never been made. */
  lemma FeedbackOverwrites(sessions: map<Id, Session>, id: Id, first: Feedback, second: Feedback)
    ensures SetFeedback(SetFeedback(sessions, id, first), id, second) == SetFeedback(sessions, id, second)
  {
  }

  method SubmitSessionFeedback(db: Store, id: Id, rating: Option<int>, comment: string)
    returns (r: Result<Option<Session>>)
    requires db.Valid()
    modifies db`sessions
    ensures db.Valid()
    ensures r.Err? <==> CheckRating(rating).Err?
    ensures r.Err? ==> r.error == InvalidRating && db.sessions == old(db.sessions)
    ensures r.Ok? ==> db.sessions == SetFeedback(old(db.sessions), id, Feedback(rating.value, comment))
    ensures r.Ok? ==> (r.value.Some? <==> id in old(db.sessions))
    ensures r.Ok? && r.value.Some? ==> r.value.value == db.sessions[id]
  {
    var checked := CheckRating(rating);
    if checked.Err? {
      return Err(checked.error);
    }
    db.sessions := SetFeedback(db.sessions, id, Feedback(checked.value, comment));
    if id in db.sessions {
      r := Ok(Some(db.sessions[id]));
    } else {
      r := Ok(None);
    }
  }

  // ------------------------------------------------------- availability

  /** Declares a weekly slot. The controller checks the three slot fields;
      the schema then also requires the mentor id. */
  method CreateAvailability(db: Store, mentorId: Id, dayOfWeek: string, startTime: string, endTime: string)
    returns (r: Result<Availability>)
    requires db.Valid()
    modifies db`availability, db`issued
    ensures db.Valid()
    ensures dayOfWeek == "" || startTime == "" || endTime == "" ==> r == Err(FieldsRequired)
    ensures dayOfWeek != "" && startTime != "" && endTime != "" && mentorId == "" ==> r == Err(ValidationFailed)
    ensures r.Ok? <==> mentorId != "" && dayOfWeek != "" && startTime != "" && endTime != ""
    ensures r.Err? ==> db.availability == old(db.availability)
    ensures r.Ok? ==> r.value.id !in old(db.availability)
    ensures r.Ok? ==> r.value == Availability(r.value.id, mentorId, dayOfWeek, startTime, endTime)
    ensures r.Ok? ==> db.availability == old(db.availability)[r.value.id := r.value]
  {
    if dayOfWeek == "" || startTime == "" || endTime == "" {
      return Err(FieldsRequired);
    }
    if mentorId == "" {
      return Err(ValidationFailed);
    }
    var id := db.FreshId();
    var slot := Availability(id, mentorId, dayOfWeek, startTime, endTime);
    db.availability := db.availability[id := slot];
    r := Ok(slot);
  }

  function GetAvailabilityByMentor(availability: map<Id, Availability>, mentorId: Id): (r: map<Id, Availability>)
    ensures forall id :: id in r <==> id in availability && availability[id].mentorId == mentorId
    ensures forall id :: id in r ==> r[id] == availability[id]
  {
    Filter(availability, (a: Availability) => a.mentorId == mentorId)
  }

  /** The booking guard and the availability listing agree: a mentor can be
      booked exactly when their listing is not empty. */
  lemma BookableIffListed(availability: map<Id, Availability>, mentorId: Id)
    ensures HasAvailability(availability, mentorId) <==> GetAvailabilityByMentor(availability, mentorId) != map[]
  {
    var listed := GetAvailabilityByMentor(availability, mentorId);
    if HasAvailability(availability, mentorId) {
      var id :| id in availability && availability[id].mentorId == mentorId;
      assert id in listed;
    } else {
      assert listed.Keys == {};
    }
  }

  /** Once a mentor has declared a slot, the availability guard of
      `CreateSession` holds for that mentor; together with `CreateSession`'s
      contract, every booking with them that passes `CheckBooking` then
      succeeds, whatever its times. */
  lemma SlotMakesMentorBookable(availability: map<Id, Availability>, slot: Availability)
    ensures HasAvailability(availability[slot.id := slot], slot.mentorId)
  {
    assert availability[slot.id := slot][slot.id].mentorId == slot.mentorId;
  }
}
