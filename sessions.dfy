/** The session service: create, update and delete the sessions of an event. A new
    session must start within the event, end within it, not overlap a session
    already scheduled, and keep the event under its session cap. */
module Sessions {
  import opened Common
  import opened Store

  const MAX_SESSIONS := 100

  /** How long a session is taken to last, for the overlap check, when it has no end. */
  const DEFAULT_SESSION_LENGTH := HOUR

  /** What `SessionCreateSerializer` hands the service. `speakerId` is the optional
      integer field `speaker_id`. */
  datatype SessionInput = SessionInput(
    title: string, description: string, start: int, end: Option<int>,
    durationSecs: Option<int>, speakerId: Option<int>)

  /** The fields an update provides, each only when given. */
  datatype SessionPatch = SessionPatch(
    title: Option<string>, description: Option<string>, start: Option<int>, end: Option<int>,
    durationSecs: Option<int>, speakerId: Option<int>)

  /** The end of the event: its `end_datetime` when set, else its start plus its
      duration in days and hours. */
  function EventEnd(e: Event): (r: int)
    ensures e.end.Some? ==> r == e.end.value
    ensures e.end.None? ==> r == e.start + e.durationDays * DAY + e.durationSecs
  {
    if e.end.Some? then e.end.value else e.start + e.durationDays * DAY + e.durationSecs
  }

  /** The end the overlap check assumes for a new session. */
  function AssumedEnd(data: SessionInput): int {
    if data.end.Some? then data.end.value else data.start + DEFAULT_SESSION_LENGTH
  }

  function OfEvent(eventId: nat): Session -> bool {
    (s: Session) => s.event == eventId
  }

  /** The filter `start_time__lt=end, end_time__gt=start`: a session without an end
      never matches, since SQL compares a NULL with nothing. */
  predicate Overlaps(s: Session, start: int, end: int) {
    s.start < end && s.end.Some? && s.end.value > start
  }

  predicate OverlapsAny(sessions: seq<Session>, eventId: nat, start: int, end: int) {
    exists s :: s in sessions && s.event == eventId && Overlaps(s, start, end)
  }

  const OUTSIDE_EVENT := "Session must be scheduled within the event duration"
  const ENDS_AFTER_EVENT := "Session end time must be within the event duration"
  const OVERLAP := "Another session is already scheduled at this time"
  const TOO_MANY_SESSIONS := "Event cannot have more than 100 sessions"

  /** `_validate_session_creation_rules`. The checks run in order and the first that
      fails is reported: the start within the event (both ends inclusive), the given
      end within the event, no overlap with the interval up to the assumed end, and
      fewer than 100 sessions so far. */
  function CreationRules(event: Event, sessions: seq<Session>, data: SessionInput): (r: Option<Err>)
    ensures r == Some(Invalid(OUTSIDE_EVENT)) <==> data.start < event.start || data.start > EventEnd(event)
    ensures r == Some(Invalid(ENDS_AFTER_EVENT)) <==>
      event.start <= data.start <= EventEnd(event) && data.end.Some? && data.end.value > EventEnd(event)
    ensures r == Some(Invalid(OVERLAP)) <==>
      event.start <= data.start <= EventEnd(event) && (data.end.None? || data.end.value <= EventEnd(event))
      && OverlapsAny(sessions, event.id, data.start, AssumedEnd(data))
    ensures r == Some(Invalid(TOO_MANY_SESSIONS)) <==>
      event.start <= data.start <= EventEnd(event) && (data.end.None? || data.end.value <= EventEnd(event))
      && !OverlapsAny(sessions, event.id, data.start, AssumedEnd(data))
      && Count(sessions, OfEvent(event.id)) >= MAX_SESSIONS
    ensures r.None? || r.value in {Invalid(OUTSIDE_EVENT), Invalid(ENDS_AFTER_EVENT), Invalid(OVERLAP), Invalid(TOO_MANY_SESSIONS)}
  {
    var eventEnd := EventEnd(event);
    if data.start < event.start || data.start > eventEnd then Some(Invalid(OUTSIDE_EVENT))
    else if data.end.Some? && data.end.value > eventEnd then Some(Invalid(ENDS_AFTER_EVENT))
    else if OverlapsAny(sessions, event.id, data.start, AssumedEnd(data)) then Some(Invalid(OVERLAP))
    else if Count(sessions, OfEvent(event.id)) >= MAX_SESSIONS then Some(Invalid(TOO_MANY_SESSIONS))
    else None
  }

  /** A session ending exactly when the new one starts, or starting exactly when it
      ends, is no overlap: the intervals are half-open. */
  lemma BackToBackAllowed(s: Session, start: int, end: int)
    requires s.end == Some(start) || s.start == end
    ensures !Overlaps(s, start, end)
  {
  }

  /** Two sessions of the same event, both with an end, never share a moment. */
  predicate Disjoint(a: Session, b: Session) {
    a.end.None? || b.end.None? || a.end.value <= b.start || b.end.value <= a.start
  }

  predicate Scheduled(sessions: seq<Session>) {
    forall i, j :: 0 <= i < j < |sessions| && sessions[i].event == sessions[j].event ==> Disjoint(sessions[i], sessions[j])
  }

  /** A session passing the overlap check is disjoint from every session of its event,
      so a timetable without clashes keeps none. */
  lemma {:induction false} AppendKeepsScheduled(sessions: seq<Session>, x: Session)
    requires Scheduled(sessions)
    requires !OverlapsAny(sessions, x.event, x.start, if x.end.Some? then x.end.value else x.start + DEFAULT_SESSION_LENGTH)
    ensures Scheduled(sessions + [x])
  {
    var t := sessions + [x];
    forall i, j | 0 <= i < j < |t| && t[i].event == t[j].event ensures Disjoint(t[i], t[j]) {
      if j == |sessions| {
        assert t[i] in sessions;
        assert t[j] == x;
      } else {
        assert t[i] == sessions[i] && t[j] == sessions[j];
      }
    }
  }

  /** `speaker_id` counts only when it is truthy: an absent or zero id assigns nobody. */
  predicate WantsSpeaker(id: Option<int>) {
    id.Some? && id.value != 0
  }

  /** `event.speakers.get(id=...)`. */
  function SpeakerOfEvent(speakers: seq<Speaker>, eventId: nat, id: int): (r: Option<nat>)
    ensures r.Some? ==> r.value < |speakers| && speakers[r.value].event == eventId && speakers[r.value].id == id
    ensures r.None? <==> forall s :: s in speakers ==> !(s.event == eventId && s.id == id)
  {
    FirstIndex(speakers, (s: Speaker) => s.event == eventId && s.id == id)
  }

  const NO_SUCH_SPEAKER := "Speaker not found for this event"

  /** `create_session`: the rules first, then the speaker lookup; only when both pass is
      one session saved, for the event, with the speaker (if any) and the given fields.
      The timetable stays free of clashes and the event within its cap. */
  method CreateSession(db: Database, event: Event, data: SessionInput) returns (r: Result<Session>)
    requires db.Valid()
    modifies db`sessions, db`nextId
    ensures db.Valid()
    ensures CreationRules(event, old(db.sessions), data).Some? ==> r == Fail(CreationRules(event, old(db.sessions), data).value)
    ensures (CreationRules(event, old(db.sessions), data).None? && WantsSpeaker(data.speakerId)
             && SpeakerOfEvent(old(db.speakers), event.id, data.speakerId.value).None?) ==> r == Fail(Invalid(NO_SUCH_SPEAKER))
    ensures r.Ok? <==> (CreationRules(event, old(db.sessions), data).None?
      && (WantsSpeaker(data.speakerId) ==> SpeakerOfEvent(old(db.speakers), event.id, data.speakerId.value).Some?))
    ensures r.Fail? ==> db.sessions == old(db.sessions)
    ensures r.Ok? ==>
      r.value.event == event.id && r.value.title == data.title && r.value.description == data.description
      && r.value.start == data.start && r.value.end == data.end && r.value.durationSecs == data.durationSecs
      && (WantsSpeaker(data.speakerId) ==> r.value.speaker == Some(data.speakerId.value as nat))
      && (!WantsSpeaker(data.speakerId) ==> r.value.speaker.None?)
      && old(db.nextId) <= r.value.id && db.sessions == old(db.sessions) + [r.value]
    ensures Scheduled(old(db.sessions)) ==> Scheduled(db.sessions)
    ensures Count(old(db.sessions), OfEvent(event.id)) <= MAX_SESSIONS ==> Count(db.sessions, OfEvent(event.id)) <= MAX_SESSIONS
  {
    var failed := CreationRules(event, db.sessions, data);
    if failed.Some? {
      return Fail(failed.value);
    }
    var speaker: Option<nat> := None;
    if WantsSpeaker(data.speakerId) {
      var k := SpeakerOfEvent(db.speakers, event.id, data.speakerId.value);
      if k.None? {
        return Fail(Invalid(NO_SUCH_SPEAKER));
      }
      speaker := Some(db.speakers[k.value].id);
    }
    var id := NewId(db);
    var s := Session(id, event.id, speaker, data.title, data.description, data.start, data.end, data.durationSecs);
    if Scheduled(db.sessions) {
      AppendKeepsScheduled(db.sessions, s);
    }
    CountAppend(db.sessions, s, OfEvent(event.id));
    db.AddSession(s);
    return Ok(s);
  }

  /** `event.sessions.get(id=...)`. */
  function SessionOfEvent(sessions: seq<Session>, eventId: nat, id: nat): (r: Option<nat>)
    ensures r.Some? ==> r.value < |sessions| && sessions[r.value].event == eventId && sessions[r.value].id == id
    ensures r.None? <==> forall s :: s in sessions ==> !(s.event == eventId && s.id == id)
  {
    FirstIndex(sessions, (s: Session) => s.event == eventId && s.id == id)
  }

  /** The `setattr` loop of `update_session`: each provided field replaces the stored
      one, the speaker is replaced only when one was looked up, and the key, the event
      and every field not provided stay as they were. */
  function ApplyPatch(s: Session, p: SessionPatch, speaker: Option<nat>): (r: Session)
    ensures r.id == s.id && r.event == s.event
    ensures r.speaker == (if speaker.Some? then speaker else s.speaker)
    ensures r.title == (if p.title.Some? then p.title.value else s.title)
    ensures r.description == (if p.description.Some? then p.description.value else s.description)
    ensures r.start == (if p.start.Some? then p.start.value else s.start)
    ensures r.end == (if p.end.Some? then p.end else s.end)
    ensures r.durationSecs == (if p.durationSecs.Some? then p.durationSecs else s.durationSecs)
    ensures p == SessionPatch(None, None, None, None, None, None) && speaker.None? ==> r == s
  {
    s.(speaker := if speaker.Some? then speaker else s.speaker,
       title := if p.title.Some? then p.title.value else s.title,
       description := if p.description.Some? then p.description.value else s.description,
       start := if p.start.Some? then p.start.value else s.start,
       end := if p.end.Some? then p.end else s.end,
       durationSecs := if p.durationSecs.Some? then p.durationSecs else s.durationSecs)
  }

  const NO_SUCH_SESSION := "Session not found"

  /** `update_session`: a session outside the event is not found; a truthy speaker id
      must name a speaker of the event; then the patch is applied and saved. None of
      the creation rules is checked again. */
  method UpdateSession(db: Database, event: Event, id: nat, p: SessionPatch) returns (r: Result<Session>)
    requires db.Valid()
    modifies db`sessions
    ensures db.Valid()
    ensures SessionOfEvent(old(db.sessions), event.id, id).None? ==> r == Fail(NotFound(NO_SUCH_SESSION))
    ensures (SessionOfEvent(old(db.sessions), event.id, id).Some? && WantsSpeaker(p.speakerId)
             && SpeakerOfEvent(db.speakers, event.id, p.speakerId.value).None?) ==> r == Fail(Invalid(NO_SUCH_SPEAKER))
    ensures r.Ok? <==> (SessionOfEvent(old(db.sessions), event.id, id).Some?
      && (WantsSpeaker(p.speakerId) ==> SpeakerOfEvent(db.speakers, event.id, p.speakerId.value).Some?))
    ensures r.Fail? ==> db.sessions == old(db.sessions)
    ensures r.Ok? ==>
      var k := SessionOfEvent(old(db.sessions), event.id, id).value;
      r.value == ApplyPatch(old(db.sessions)[k], p, if WantsSpeaker(p.speakerId) then Some(p.speakerId.value as nat) else None)
      && db.sessions == old(db.sessions)[k := r.value]
  {
    var k := SessionOfEvent(db.sessions, event.id, id);
    if k.None? {
      return Fail(NotFound(NO_SUCH_SESSION));
    }
    var speaker: Option<nat> := None;
    if WantsSpeaker(p.speakerId) {
      var j := SpeakerOfEvent(db.speakers, event.id, p.speakerId.value);
      if j.None? {
        return Fail(Invalid(NO_SUCH_SPEAKER));
      }
      speaker := Some(db.speakers[j.value].id);
    }
    var s := ApplyPatch(db.sessions[k.value], p, speaker);
    db.SetSession(k.value, s);
    return Ok(s);
  }

  /** An update is not held to the timetable: moving a session onto another one of the
      same event is saved, leaving a clash. */
  lemma UpdateCanClash()
    ensures var a := Session(1, 7, None, "Keynote", "", 100, Some(200), None);
      var b := Session(2, 7, None, "Panel", "", 300, Some(400), None);
      var moved := ApplyPatch(b, SessionPatch(None, None, Some(150), None, None, None), None);
      Scheduled([a, b]) && !Scheduled([a, moved])
  {
    var a := Session(1, 7, None, "Keynote", "", 100, Some(200), None);
    var b := Session(2, 7, None, "Panel", "", 300, Some(400), None);
    var moved := ApplyPatch(b, SessionPatch(None, None, Some(150), None, None, None), None);
    assert [a, moved][0] == a && [a, moved][1] == moved;
  }

  /** `delete_session`: a session outside the event is not found and nothing is
      deleted; otherwise exactly that row goes. */
  method DeleteSession(db: Database, event: Event, id: nat) returns (r: Option<Err>)
    requires db.Valid()
    modifies db`sessions
    ensures db.Valid()
    ensures r.Some? <==> SessionOfEvent(old(db.sessions), event.id, id).None?
    ensures r.Some? ==> r == Some(NotFound(NO_SUCH_SESSION)) && db.sessions == old(db.sessions)
    ensures r.None? ==> db.sessions == RemoveAt(old(db.sessions), SessionOfEvent(old(db.sessions), event.id, id).value)
  {
    var k := SessionOfEvent(db.sessions, event.id, id);
    if k.None? {
      return Some(NotFound(NO_SUCH_SESSION));
    }
    db.DeleteSession(k.value);
    return None;
  }

  /** Deleting keeps a clash-free timetable clash-free. */
  lemma {:induction false} RemoveKeepsScheduled(sessions: seq<Session>, k: nat)
    requires k < |sessions| && Scheduled(sessions)
    ensures Scheduled(RemoveAt(sessions, k))
  {
    var t := RemoveAt(sessions, k);
    forall i, j | 0 <= i < j < |t| && t[i].event == t[j].event ensures Disjoint(t[i], t[j]) {
      var i' := if i < k then i else i + 1;
      var j' := if j < k then j else j + 1;
      assert t[i] == sessions[i'] && t[j] == sessions[j'];
    }
  }
}
