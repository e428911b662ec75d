/** The field validators of the event, attendee-registration, speaker and session
    serializers, and the cross-field `validate` checks of event and session creation. */
module EventSerializers {
  import opened Common
  import opened Text

  /** The text fields whose validator strips the value and demands a minimum length. */
  datatype TextField = EventName | EventDescription | VenueName | VenueAddress | AttendeeName | SpeakerName | SessionTitle

  function MinLength(f: TextField): nat {
    match f
    case EventName => 3
    case EventDescription => 10
    case VenueName => 2
    case VenueAddress => 5
    case AttendeeName => 2
    case SpeakerName => 2
    case SessionTitle => 3
  }

  function TooShort(f: TextField): string {
    match f
    case EventName => "Event name must be at least 3 characters long."
    case EventDescription => "Event description must be at least 10 characters long."
    case VenueName => "Venue name must be at least 2 characters long."
    case VenueAddress => "Venue address must be at least 5 characters long."
    case AttendeeName => "Full name must be at least 2 characters long."
    case SpeakerName => "Speaker name must be at least 2 characters long."
    case SessionTitle => "Session title must be at least 3 characters long."
  }

  /** `validate_name`, `validate_description`, `validate_venue_name`,
      `validate_venue_address`, `validate_full_name` (attendee and speaker) and
      `validate_title`: a value shorter than the field's minimum once stripped is
      refused; otherwise the stripped value is what is stored. */
  function ValidateText(f: TextField, value: string): (r: Result<string>)
    ensures r.Fail? <==> |Strip(value)| < MinLength(f)
    ensures r.Fail? ==> r == Fail(Invalid(TooShort(f)))
    ensures r.Ok? ==> r.value == Strip(value) && MinLength(f) <= |r.value| <= |value|
    ensures r.Ok? ==> r.value == [] || (!IsPySpace(r.value[0]) && !IsPySpace(r.value[|r.value| - 1]))
  {
    if value == [] || |Strip(value)| < MinLength(f) then Fail(Invalid(TooShort(f)))
    else Ok(Strip(value))
  }

  /** A stored value passes its validator again unchanged. */
  lemma ValidateTextIdempotent(f: TextField, value: string)
    requires ValidateText(f, value).Ok?
    ensures ValidateText(f, ValidateText(f, value).value) == ValidateText(f, value)
  {
    StripIdempotent(value);
  }

  /** Every minimum is at least two characters, so no blank value is ever stored. */
  lemma BlankRefused(f: TextField, value: string)
    requires forall i :: 0 <= i < |value| ==> IsPySpace(value[i])
    ensures ValidateText(f, value).Fail?
  {
    StripSlice(value);
  }

  /** `AttendeeRegistrationSerializer.validate_email`: an empty e-mail is refused and
      any other is stored lower-cased. */
  function ValidateAttendeeEmail(value: string): (r: Result<string>)
    ensures r.Fail? <==> value == []
    ensures r.Fail? ==> r == Fail(Invalid("Email is required."))
    ensures r.Ok? ==> r.value == Lower(value) && |r.value| == |value|
  {
    if value == [] then Fail(Invalid("Email is required.")) else Ok(Lower(value))
  }

  /** Validating a stored e-mail again changes nothing. */
  lemma AttendeeEmailIdempotent(value: string)
    requires ValidateAttendeeEmail(value).Ok?
    ensures ValidateAttendeeEmail(ValidateAttendeeEmail(value).value) == ValidateAttendeeEmail(value)
  {
    LowerIdempotent(value);
  }

  /** The datetime and duration attributes `EventCreateSerializer.validate` reads;
      durations are whole seconds, and an absent duration counts as 0. */
  datatype EventTimes = EventTimes(start: Option<int>, end: Option<int>, durationDays: Option<int>, durationSecs: Option<int>)

  const END_NOT_AFTER_START := "End datetime must be after start datetime"
  const NO_DURATION := "When end_datetime is not provided, you must specify duration_days and/or duration_hours"
  const NO_START := "start_datetime is required"
  const NEGATIVE_DAYS := "Duration days cannot be negative"
  const NEGATIVE_HOURS := "Duration hours cannot be negative"

  /** `EventCreateSerializer.validate`: the attributes pass unchanged exactly when a
      start is given, a given end lies strictly after it, a missing end comes with a
      non-zero duration, and neither duration is negative. The datetime checks come
      before the sign checks, and the first failure is reported. */
  function ValidateEventTimes(a: EventTimes): (r: Result<EventTimes>)
    ensures r.Ok? <==>
      a.start.Some? && (a.end.Some? ==> a.end.value > a.start.value)
      && (a.end.None? ==> OrZero(a.durationDays) != 0 || OrZero(a.durationSecs) != 0)
      && OrZero(a.durationDays) >= 0 && OrZero(a.durationSecs) >= 0
    ensures r.Ok? ==> r.value == a
    ensures a.start.Some? && a.end.Some? && a.end.value <= a.start.value ==> r == Fail(Invalid(END_NOT_AFTER_START))
    ensures a.start.Some? && a.end.None? && OrZero(a.durationDays) == 0 && OrZero(a.durationSecs) == 0
      ==> r == Fail(Invalid(NO_DURATION))
    ensures a.start.None? ==> r == Fail(Invalid(NO_START))
    ensures r.Fail? ==>
      r.err in {Invalid(END_NOT_AFTER_START), Invalid(NO_DURATION), Invalid(NO_START), Invalid(NEGATIVE_DAYS), Invalid(NEGATIVE_HOURS)}
    ensures r == Fail(Invalid(NEGATIVE_HOURS)) ==> OrZero(a.durationDays) >= 0 && OrZero(a.durationSecs) < 0
  {
    if a.start.Some? && a.end.Some? && a.end.value <= a.start.value then Fail(Invalid(END_NOT_AFTER_START))
    else if a.start.Some? && a.end.None? && OrZero(a.durationDays) == 0 && OrZero(a.durationSecs) == 0 then Fail(Invalid(NO_DURATION))
    else if a.start.None? then Fail(Invalid(NO_START))
    else if OrZero(a.durationDays) < 0 then Fail(Invalid(NEGATIVE_DAYS))
    else if OrZero(a.durationSecs) < 0 then Fail(Invalid(NEGATIVE_HOURS))
    else Ok(a)
  }

  /** A negative duration passes no check that comes before the sign checks, so with
      an end given the serializer still refuses it, for its sign. */
  lemma NegativeDaysRefusedEvenWithEnd(start: int, end: int, days: int)
    requires end > start && days < 0
    ensures ValidateEventTimes(EventTimes(Some(start), Some(end), Some(days), None)) == Fail(Invalid(NEGATIVE_DAYS))
  {
  }

  const SESSION_END_NOT_AFTER_START := "End time must be after start time."

  /** `SessionCreateSerializer.validate`, on the start, end and duration: with both times
      given, an end not strictly after the start is refused, and a missing or zero
      duration becomes the length from start to end; otherwise the duration is kept. */
  function ValidateSessionTimes(start: Option<int>, end: Option<int>, duration: Option<int>): (r: Result<Option<int>>)
    ensures r.Fail? <==> start.Some? && end.Some? && end.value <= start.value
    ensures r.Fail? ==> r == Fail(Invalid(SESSION_END_NOT_AFTER_START))
    ensures r.Ok? && start.Some? && end.Some? && (duration.None? || duration == Some(0)) ==>
      r.value == Some(end.value - start.value) && r.value.value > 0
    ensures r.Ok? && !(start.Some? && end.Some? && (duration.None? || duration == Some(0))) ==> r.value == duration
  {
    if start.Some? && end.Some? then
      if end.value <= start.value then Fail(Invalid(SESSION_END_NOT_AFTER_START))
      else if duration.None? || duration == Some(0) then Ok(Some(end.value - start.value))
      else Ok(duration)
    else Ok(duration)
  }

  /** Validating the validated times again changes nothing. */
  lemma SessionTimesIdempotent(start: Option<int>, end: Option<int>, duration: Option<int>)
    requires ValidateSessionTimes(start, end, duration).Ok?
    ensures ValidateSessionTimes(start, end, ValidateSessionTimes(start, end, duration).value) == ValidateSessionTimes(start, end, duration)
  {
  }
}
