/** The attendee service: registration for an event, which confirms while there is
    room and waitlists after, and the organizer's status update. */
module Attendees {
  import opened Common
  import opened Store

  /** What `AttendeeRegistrationSerializer` hands the service. */
  datatype Registration = Registration(fullName: string, email: string)

  function ConfirmedIn(eventId: nat): Attendee -> bool {
    (a: Attendee) => a.event == eventId && a.status == Confirmed
  }

  /** `event.attendees.filter(status='confirmed').count()`. */
  function ConfirmedCount(attendees: seq<Attendee>, eventId: nat): nat {
    Count(attendees, ConfirmedIn(eventId))
  }

  /** `_determine_attendee_status`: confirmed while fewer attendees are confirmed than
      the event holds, waitlisted from then on. */
  function DetermineStatus(event: Event, attendees: seq<Attendee>): (r: AttendeeStatus)
    ensures r == Confirmed <==> ConfirmedCount(attendees, event.id) < event.capacity
    ensures r == Waitlisted <==> ConfirmedCount(attendees, event.id) >= event.capacity
  {
    if ConfirmedCount(attendees, event.id) >= event.capacity then Waitlisted else Confirmed
  }

  /** `_is_event_at_capacity`. */
  function IsAtCapacity(event: Event, attendees: seq<Attendee>): (r: bool)
    ensures r <==> ConfirmedCount(attendees, event.id) >= event.capacity
  {
    ConfirmedCount(attendees, event.id) >= event.capacity
  }

  /** An event is at capacity exactly when a new registration would be waitlisted. */
  lemma AtCapacityIffWaitlisted(event: Event, attendees: seq<Attendee>)
    ensures IsAtCapacity(event, attendees) <==> DetermineStatus(event, attendees) == Waitlisted
  {
  }

  /** `_is_attendee_already_registered`: the exact e-mail, case included. */
  predicate AlreadyRegistered(attendees: seq<Attendee>, eventId: nat, email: string) {
    exists a :: a in attendees && a.event == eventId && a.email == email
  }

  const STARTED := "Event has already started or ended."
  const ALREADY_REGISTERED := "Attendee is already registered for this event"

  /** `_validate_event_registration_rules`: an event that started before `now` refuses
      first, then a second registration of the same e-mail. An event starting exactly
      now still takes registrations. */
  function RegistrationRules(event: Event, attendees: seq<Attendee>, email: string, now: int): (r: Option<Err>)
    ensures r == Some(Invalid(STARTED)) <==> event.start < now
    ensures r == Some(Invalid(ALREADY_REGISTERED)) <==> event.start >= now && AlreadyRegistered(attendees, event.id, email)
    ensures r.None? || r.value in {Invalid(STARTED), Invalid(ALREADY_REGISTERED)}
  {
    if event.start < now then Some(Invalid(STARTED))
    else if AlreadyRegistered(attendees, event.id, email) then Some(Invalid(ALREADY_REGISTERED))
    else None
  }

  /** Within each event, no two attendees share an e-mail. */
  predicate EmailsUniquePerEvent(attendees: seq<Attendee>) {
    forall i, j :: 0 <= i < j < |attendees| && attendees[i].event == attendees[j].event ==> attendees[i].email != attendees[j].email
  }

  /** No event has more confirmed attendees than its capacity. */
  predicate WithinCapacity(events: seq<Event>, attendees: seq<Attendee>) {
    forall e :: e in events ==> ConfirmedCount(attendees, e.id) <= e.capacity
  }

  /** No two events share a primary key. */
  predicate EventKeysUnique(events: seq<Event>) {
    forall i, j :: 0 <= i < j < |events| ==> events[i].id != events[j].id
  }

  const NO_SUCH_EVENT := "Event not found"

  /** `register_attendee_for_event`: an unknown event is not found; after the rules
      one attendee is saved with the given name and e-mail and the status capacity
      decides. Registration never overbooks an event and never registers an e-mail
      twice for one event. */
  method RegisterAttendeeForEvent(db: Database, eventId: nat, data: Registration, now: int) returns (r: Result<Attendee>)
    requires db.Valid()
    modifies db`attendees, db`nextId
    ensures db.Valid()
    ensures EventIndex(db.events, eventId).None? ==> r == Fail(NotFound(NO_SUCH_EVENT))
    ensures EventIndex(db.events, eventId).Some? ==>
      var event := db.events[EventIndex(db.events, eventId).value];
      (r.Fail? <==> RegistrationRules(event, old(db.attendees), data.email, now).Some?)
      && (r.Fail? ==> r.err == RegistrationRules(event, old(db.attendees), data.email, now).value)
      && (r.Ok? ==> r.value.status == DetermineStatus(event, old(db.attendees)))
    ensures r.Fail? ==> db.attendees == old(db.attendees)
    ensures r.Ok? ==>
      r.value == Attendee(r.value.id, eventId, data.email, data.fullName, "", r.value.status)
      && old(db.nextId) <= r.value.id && db.attendees == old(db.attendees) + [r.value]
    ensures EmailsUniquePerEvent(old(db.attendees)) ==> EmailsUniquePerEvent(db.attendees)
    ensures EventKeysUnique(db.events) && WithinCapacity(db.events, old(db.attendees)) ==> WithinCapacity(db.events, db.attendees)
  {
    var k := EventIndex(db.events, eventId);
    if k.None? {
      return Fail(NotFound(NO_SUCH_EVENT));
    }
    var event := db.events[k.value];
    var failed := RegistrationRules(event, db.attendees, data.email, now);
    if failed.Some? {
      return Fail(failed.value);
    }
    var status := DetermineStatus(event, db.attendees);
    var id := NewId(db);
    var a := Attendee(id, eventId, data.email, data.fullName, "", status);
    AppendKeepsEmailsUnique(db.attendees, a);
    if EventKeysUnique(db.events) {
      AppendKeepsWithinCapacity(db.events, db.attendees, k.value, a);
    }
    db.AddAttendee(a);
    return Ok(a);
  }

  lemma {:induction false} AppendKeepsEmailsUnique(attendees: seq<Attendee>, x: Attendee)
    requires !AlreadyRegistered(attendees, x.event, x.email)
    ensures EmailsUniquePerEvent(attendees) ==> EmailsUniquePerEvent(attendees + [x])
  {
    var t := attendees + [x];
    assert forall i :: 0 <= i < |attendees| ==> t[i] == attendees[i] && attendees[i] in attendees;
  }

  /** The new attendee is confirmed only while its event has room, so no event goes
      over capacity; the confirmed counts of other events do not move. */
  lemma AppendKeepsWithinCapacity(events: seq<Event>, attendees: seq<Attendee>, k: nat, x: Attendee)
    requires EventKeysUnique(events) && k < |events| && x.event == events[k].id
    requires x.status == DetermineStatus(events[k], attendees)
    ensures WithinCapacity(events, attendees) ==> WithinCapacity(events, attendees + [x])
  {
    forall e | e in events ensures ConfirmedCount(attendees + [x], e.id) == ConfirmedCount(attendees, e.id) + (if ConfirmedIn(e.id)(x) then 1 else 0) {
      CountAppend(attendees, x, ConfirmedIn(e.id));
    }
    forall e | e in events && e.id == x.event ensures e == events[k] {
      var i :| 0 <= i < |events| && events[i] == e;
    }
  }

  /** `valid_statuses` of `update_attendee_status`, parsed. */
  function ParseStatus(s: string): (r: Option<AttendeeStatus>)
    ensures r.Some? ==> AttendeeStatusText(r.value) == s
    ensures r.None? ==> s !in {"confirmed", "rejected", "waitlisted", "pending"}
  {
    if s == "confirmed" then Some(Confirmed)
    else if s == "rejected" then Some(Rejected)
    else if s == "waitlisted" then Some(Waitlisted)
    else if s == "pending" then Some(Pending)
    else None
  }

  /** Every status is accepted under its own name. */
  lemma ParseStatusText(s: AttendeeStatus)
    ensures ParseStatus(AttendeeStatusText(s)) == Some(s)
  {
  }

  const INVALID_STATUS := "Invalid status. Must be one of: ['confirmed', 'rejected', 'waitlisted', 'pending']"
  const NO_SUCH_ATTENDEE := "Attendee not found"

  /** `event.attendees.get(id=...)`. */
  function AttendeeOfEvent(attendees: seq<Attendee>, eventId: nat, id: nat): (r: Option<nat>)
    ensures r.Some? ==> r.value < |attendees| && attendees[r.value].event == eventId && attendees[r.value].id == id
    ensures r.None? <==> forall a :: a in attendees ==> !(a.event == eventId && a.id == id)
  {
    FirstIndex(attendees, (a: Attendee) => a.event == eventId && a.id == id)
  }

  /** `update_attendee_status`: an unknown event, then an attendee outside it, are not
      found; then a status outside the four is refused; otherwise only the status of
      that attendee changes. No capacity check is made. */
  method UpdateAttendeeStatus(db: Database, eventId: nat, attendeeId: nat, status: string) returns (r: Result<Attendee>)
    requires db.Valid()
    modifies db`attendees
    ensures db.Valid()
    ensures EventIndex(db.events, eventId).None? ==> r == Fail(NotFound(NO_SUCH_EVENT))
    ensures (EventIndex(db.events, eventId).Some? && AttendeeOfEvent(old(db.attendees), eventId, attendeeId).None?)
      ==> r == Fail(NotFound(NO_SUCH_ATTENDEE))
    ensures (EventIndex(db.events, eventId).Some? && AttendeeOfEvent(old(db.attendees), eventId, attendeeId).Some?
             && ParseStatus(status).None?) ==> r == Fail(Invalid(INVALID_STATUS))
    ensures r.Ok? <==> (EventIndex(db.events, eventId).Some?
      && AttendeeOfEvent(old(db.attendees), eventId, attendeeId).Some? && ParseStatus(status).Some?)
    ensures r.Fail? ==> db.attendees == old(db.attendees)
    ensures r.Ok? ==>
      var k := AttendeeOfEvent(old(db.attendees), eventId, attendeeId).value;
      r.value == old(db.attendees)[k].(status := ParseStatus(status).value)
      && AttendeeStatusText(r.value.status) == status
      && db.attendees == old(db.attendees)[k := r.value]
  {
    if EventIndex(db.events, eventId).None? {
      return Fail(NotFound(NO_SUCH_EVENT));
    }
    var k := AttendeeOfEvent(db.attendees, eventId, attendeeId);
    if k.None? {
      return Fail(NotFound(NO_SUCH_ATTENDEE));
    }
    var s := ParseStatus(status);
    if s.None? {
      return Fail(Invalid(INVALID_STATUS));
    }
    var a := db.attendees[k.value].(status := s.value);
    db.SetAttendee(k.value, a);
    return Ok(a);
  }

  /** The status update is not held to capacity: in an event of capacity one that
      already has its confirmed attendee, confirming a waitlisted one overbooks it. */
  lemma StatusUpdateCanOverbook(e: Event, a: Attendee, b: Attendee)
    requires e.capacity == 1
    requires a.event == e.id && a.status == Confirmed
    requires b.event == e.id && b.status == Waitlisted
    ensures WithinCapacity([e], [a, b])
    ensures !WithinCapacity([e], [a, b][1 := b.(status := Confirmed)])
  {
    var c := b.(status := Confirmed);
    var p := ConfirmedIn(e.id);
    assert p(a) && !p(b) && p(c);
    CountAppend([], a, p);
    assert [] + [a] == [a];
    CountAppend([a], b, p);
    assert [a] + [b] == [a, b];
    CountAppend([a], c, p);
    assert [a] + [c] == [a, b][1 := c];
    assert ConfirmedCount([a, b], e.id) == 1;
    assert ConfirmedCount([a, b][1 := c], e.id) == 2;
    assert e in [e];
  }
}
