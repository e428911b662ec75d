/** The attendee-invitation service: a bulk send, and verify, accept, reject, cancel
    and resend on single invitations, plus the per-event statistics. Invitations move
    through the states pending, accepted, rejected, cancelled and expired. */
module AttendeeInvitations {
  import opened Common
  import opened Text
  import opened Store
  import opened Notifications
  import opened AttendeeInvitationSerializer

  /** `_can_send_invitations` (and `_can_manage_invitations`, which is the same): the
      caller created the event, or the event has a creator whose organization equals
      the caller's. Two absent organizations compare equal. */
  predicate CanManage(event: Event, user: User, users: seq<User>) {
    event.createdBy == Some(user.id)
    || (event.createdBy.Some? && UserIndex(users, event.createdBy.value).Some?
        && users[UserIndex(users, event.createdBy.value).value].organization == user.organization)
  }

  /** Someone who neither created the event nor belongs to any organization may manage
      its invitations when the creator belongs to no organization either. */
  lemma NoOrganizationGrants()
    ensures var creator := User(1, "owner@example.com", "Owner", "", Some("org_owner"), None, true, true, true);
      var stranger := User(2, "someone@example.com", "Someone", "", Some("member"), None, true, false, false);
      var event := Event(3, "Launch", "launch", "A launch party", 0, None, 1, 0, 10, "Hall", "Main Street",
                         "published", true, Some(1));
      CanManage(event, stranger, [creator])
  {
    var creator := User(1, "owner@example.com", "Owner", "", Some("org_owner"), None, true, true, true);
    assert UserIndex([creator], 1) == Some(0);
  }

  /** `_is_already_invited_or_registered`: a pending invitation of the event, or an
      attendee of the event, has the lower-cased e-mail. */
  predicate AlreadyInvitedOrRegistered(invs: seq<AttendeeInvitation>, attendees: seq<Attendee>, eventId: nat, email: string) {
    (exists k :: 0 <= k < |invs| && invs[k].event == eventId && invs[k].email == Lower(email) && invs[k].status == InvPending)
    || (exists k :: 0 <= k < |attendees| && attendees[k].event == eventId && attendees[k].email == Lower(email))
  }

  /** The serializer fields a bulk invitation copies onto every row it creates. */
  datatype InviteExtras = InviteExtras(message: string, isVip: bool, bypassCapacity: bool)

  datatype SendState = SendState(
    invitations: seq<AttendeeInvitation>, nextId: nat, sent: nat, skipped: nat, errors: seq<string>)

  datatype SendSummary = SendSummary(sentCount: nat, skippedCount: nat, totalAttempted: nat, errors: seq<string>)

  /** One pass of the loop of `send_invitations`. A new row is created with the
      lower-cased e-mail and a week to respond; then sending its e-mail raises,
      because `NotificationType` has no `ATTENDEE_INVITED` member, so the e-mail is
      counted as skipped with the error text `sendError` while the row stays. */
  function SendOne(st: SendState, attendees: seq<Attendee>, eventId: nat, inviterId: nat,
                   extras: InviteExtras, sendError: string, now: int, email: string): (r: SendState)
    ensures r.sent == st.sent && r.skipped == st.skipped + 1 && |r.errors| == |st.errors| + 1
    ensures r.errors[..|st.errors|] == st.errors
    ensures AlreadyInvitedOrRegistered(st.invitations, attendees, eventId, email) ==>
      r == st.(skipped := st.skipped + 1, errors := st.errors + [email + ": Already invited or registered"])
    ensures !AlreadyInvitedOrRegistered(st.invitations, attendees, eventId, email) ==>
      r.invitations == st.invitations + [NewInvitation(st.nextId, eventId, inviterId, extras, now, email)]
      && r.nextId == st.nextId + 2
      && r.errors == st.errors + [email + ": " + sendError]
  {
    if AlreadyInvitedOrRegistered(st.invitations, attendees, eventId, email) then
      st.(skipped := st.skipped + 1, errors := st.errors + [email + ": Already invited or registered"])
    else
      st.(invitations := st.invitations + [NewInvitation(st.nextId, eventId, inviterId, extras, now, email)],
          nextId := st.nextId + 2,
          skipped := st.skipped + 1,
          errors := st.errors + [email + ": " + sendError])
  }

  /** The row created for `email`, with primary key `id` and token `id + 1`. */
  function NewInvitation(id: nat, eventId: nat, inviterId: nat, extras: InviteExtras, now: int, email: string): (v: AttendeeInvitation)
    ensures v.status == InvPending && v.email == Lower(email) && v.expiresAt == now + WEEK
    ensures v.event == eventId && v.invitedBy == inviterId && v.respondedAt == None && v.attendee == None
    ensures v.id == id && v.token == id + 1
  {
    AttendeeInvitation(id, eventId, Lower(email), inviterId, id + 1, InvPending, now + WEEK, None, None,
                       "", extras.message, extras.isVip, extras.bypassCapacity)
  }

  /** The loop of `send_invitations` over the first `|emails|` addresses. */
  function SendAll(st: SendState, attendees: seq<Attendee>, eventId: nat, inviterId: nat,
                   extras: InviteExtras, sendError: string, now: int, emails: seq<string>): SendState
  {
    if emails == [] then st
    else SendOne(SendAll(st, attendees, eventId, inviterId, extras, sendError, now, emails[..|emails| - 1]),
                 attendees, eventId, inviterId, extras, sendError, now, emails[|emails| - 1])
  }

  /** Every address is counted once, as sent or skipped, with one error line per skip;
      and since every e-mail attempt raises, none is ever counted as sent. */
  lemma {:induction false} SendAllCounts(st: SendState, attendees: seq<Attendee>, eventId: nat, inviterId: nat,
                                         extras: InviteExtras, sendError: string, now: int, emails: seq<string>)
    ensures var r := SendAll(st, attendees, eventId, inviterId, extras, sendError, now, emails);
      r.sent == st.sent && r.skipped == st.skipped + |emails| && |r.errors| == |st.errors| + |emails|
      && r.errors[..|st.errors|] == st.errors
  {
    if emails != [] {
      var init := emails[..|emails| - 1];
      SendAllCounts(st, attendees, eventId, inviterId, extras, sendError, now, init);
      var m := SendAll(st, attendees, eventId, inviterId, extras, sendError, now, init);
      assert m.errors[..|st.errors|] == st.errors;
      var r := SendOne(m, attendees, eventId, inviterId, extras, sendError, now, emails[|emails| - 1]);
      assert r.errors[..|m.errors|] == m.errors;
      assert r.errors[..|st.errors|] == m.errors[..|st.errors|];
    }
  }

  /** The loop only ever adds rows, each a pending invitation of the event for the
      lower-cased form of one of the addresses, with a week to respond. */
  lemma {:induction false} SendAllCreates(st: SendState, attendees: seq<Attendee>, eventId: nat, inviterId: nat,
                                          extras: InviteExtras, sendError: string, now: int, emails: seq<string>)
    ensures var r := SendAll(st, attendees, eventId, inviterId, extras, sendError, now, emails);
      |st.invitations| <= |r.invitations| && r.invitations[..|st.invitations|] == st.invitations
      && r.nextId == st.nextId + 2 * (|r.invitations| - |st.invitations|)
      && forall k :: |st.invitations| <= k < |r.invitations| ==>
           r.invitations[k].status == InvPending && r.invitations[k].event == eventId
           && r.invitations[k].expiresAt == now + WEEK
           && exists e :: e in emails && r.invitations[k].email == Lower(e)
  {
    if emails != [] {
      var init := emails[..|emails| - 1];
      var last := emails[|emails| - 1];
      SendAllCreates(st, attendees, eventId, inviterId, extras, sendError, now, init);
      var m := SendAll(st, attendees, eventId, inviterId, extras, sendError, now, init);
      var r := SendOne(m, attendees, eventId, inviterId, extras, sendError, now, last);
      assert r.invitations[..|m.invitations|] == m.invitations;
      assert r.invitations[..|st.invitations|] == m.invitations[..|st.invitations|];
      forall k | |st.invitations| <= k < |r.invitations|
        ensures exists e :: e in emails && r.invitations[k].email == Lower(e)
      {
        if k < |m.invitations| {
          var e :| e in init && m.invitations[k].email == Lower(e);
          assert e in emails;
        } else {
          assert r.invitations[k].email == Lower(last);
        }
      }
    }
  }

  /** `send_invitations`. */
  method SendInvitations(db: Database, event: Event, inviter: User, extras: InviteExtras,
                         emails: seq<string>, sendError: string, now: int)
    returns (r: Result<SendSummary>)
    requires db.Valid()
    modifies db`invitations, db`nextId
    ensures db.Valid()
    ensures !old(CanManage(event, inviter, db.users)) ==>
      r == Fail(PermissionDenied("You don't have permission to send invitations for this event."))
      && db.invitations == old(db.invitations) && db.nextId == old(db.nextId)
    ensures old(CanManage(event, inviter, db.users)) ==>
      var st := SendAll(SendState(old(db.invitations), old(db.nextId), 0, 0, []),
                        old(db.attendees), event.id, inviter.id, extras, sendError, now, emails);
      r == Ok(SendSummary(st.sent, st.skipped, |emails|, st.errors))
      && db.invitations == st.invitations && db.nextId == st.nextId
  {
    if !CanManage(event, inviter, db.users) {
      return Fail(PermissionDenied("You don't have permission to send invitations for this event."));
    }
    ghost var st0 := SendState(db.invitations, db.nextId, 0, 0, []);
    var sent, skipped: nat := 0, 0;
    var errors: seq<string> := [];
    var i := 0;
    while i < |emails|
      invariant 0 <= i <= |emails|
      invariant db.Valid()
      invariant SendAll(st0, db.attendees, event.id, inviter.id, extras, sendError, now, emails[..i])
                == SendState(db.invitations, db.nextId, sent, skipped, errors)
    {
      SendAllStep(st0, db.attendees, event.id, inviter.id, extras, sendError, now, emails, i);
      sent, skipped, errors := InviteOne(db, event.id, inviter.id, extras, sendError, now, emails[i], sent, skipped, errors);
      i := i + 1;
    }
    assert emails[..|emails|] == emails;
    return Ok(SendSummary(sent, skipped, |emails|, errors));
  }

  /** One pass of the loop of `send_invitations`, on the tables and the counters. */
  method InviteOne(db: Database, eventId: nat, inviterId: nat, extras: InviteExtras, sendError: string, now: int,
                   email: string, sent: nat, skipped: nat, errors: seq<string>)
    returns (sent': nat, skipped': nat, errors': seq<string>)
    requires db.Valid()
    modifies db`invitations, db`nextId
    ensures db.Valid()
    ensures SendState(db.invitations, db.nextId, sent', skipped', errors')
      == SendOne(SendState(old(db.invitations), old(db.nextId), sent, skipped, errors),
                 db.attendees, eventId, inviterId, extras, sendError, now, email)
  {
    sent' := sent;
    if AlreadyInvitedOrRegistered(db.invitations, db.attendees, eventId, email) {
      skipped' := skipped + 1;
      errors' := errors + [email + ": Already invited or registered"];
    } else {
      var id := NewId(db);
      var token := NewId(db);
      var inv := NewInvitation(id, eventId, inviterId, extras, now, email);
      db.AddInvitation(inv);
      // `_send_invitation_email` raises before anything is sent.
      errors' := errors + [email + ": " + sendError];
      skipped' := skipped + 1;
    }
  }

  lemma SendAllStep(st: SendState, attendees: seq<Attendee>, eventId: nat, inviterId: nat,
                    extras: InviteExtras, sendError: string, now: int, emails: seq<string>, i: nat)
    requires i < |emails|
    ensures SendAll(st, attendees, eventId, inviterId, extras, sendError, now, emails[..i + 1])
      == SendOne(SendAll(st, attendees, eventId, inviterId, extras, sendError, now, emails[..i]),
                 attendees, eventId, inviterId, extras, sendError, now, emails[i])
  {
    assert emails[..i + 1][..i] == emails[..i];
  }

  /** A bulk send never reports an invitation as sent; every address is skipped. */
  lemma BulkSendNeverSends(invs: seq<AttendeeInvitation>, nextId: nat, attendees: seq<Attendee>, eventId: nat,
                           inviterId: nat, extras: InviteExtras, sendError: string, now: int, emails: seq<string>)
    ensures var st := SendAll(SendState(invs, nextId, 0, 0, []), attendees, eventId, inviterId, extras, sendError, now, emails);
      st.sent == 0 && st.skipped == |emails| && |st.errors| == st.skipped
      && st.sent + st.skipped == |emails|
  {
    SendAllCounts(SendState(invs, nextId, 0, 0, []), attendees, eventId, inviterId, extras, sendError, now, emails);
  }

  /** `verify_invitation` on a found invitation: the answer and the row as saved.
      A non-pending invitation fails unchanged; a pending expired one is marked
      expired and fails; only a pending unexpired one is returned, unchanged. */
  function VerifyStep(v: AttendeeInvitation, o: Oracle, now: int): (r: (Result<AttendeeInvitation>, AttendeeInvitation))
    ensures r.0.Ok? <==> v.status == InvPending && !o.invExpired(v, now)
    ensures r.0.Ok? ==> r.0.value == v && r.1 == v
    ensures v.status != InvPending ==>
      r == (Fail(Invalid("Invitation has already been " + StatusText(v.status) + ".")), v)
    ensures v.status == InvPending && o.invExpired(v, now) ==>
      r == (Fail(Invalid("Invitation has expired.")), v.(status := InvExpired))
  {
    if v.status != InvPending then (Fail(Invalid("Invitation has already been " + StatusText(v.status) + ".")), v)
    else if o.invExpired(v, now) then (Fail(Invalid("Invitation has expired.")), v.(status := InvExpired))
    else (Ok(v), v)
  }

  method VerifyInvitation(db: Database, token: nat, o: Oracle, now: int) returns (r: Result<AttendeeInvitation>)
    modifies db`invitations
    ensures old(ByToken(db.invitations, token)).None? ==>
      r == Fail(NotFound("Invitation not found.")) && db.invitations == old(db.invitations)
    ensures old(ByToken(db.invitations, token)).Some? ==>
      var k := old(ByToken(db.invitations, token)).value;
      var step := VerifyStep(old(db.invitations)[k], o, now);
      r == step.0 && db.invitations == old(db.invitations)[k := step.1]
  {
    var k := ByToken(db.invitations, token);
    if k.None? {
      return Fail(NotFound("Invitation not found."));
    }
    var step := VerifyStep(db.invitations[k.value], o, now);
    db.invitations := db.invitations[k.value := step.1];
    r := step.0;
  }

  /** The attendee fields of an acceptance; an `email` in them is dropped. */
  datatype AttendeeData = AttendeeData(fullName: string, phone: string, email: Option<string>)

  /** The status of an attendee created by accepting an invitation: both branches of
      the conditional give confirmed. */
  function AcceptedStatus(v: AttendeeInvitation): AttendeeStatus {
    if v.isVip then Confirmed else Confirmed
  }

  /** An invitation-accepted attendee is confirmed whether or not the invitation is VIP. */
  lemma AcceptedAlwaysConfirmed(v: AttendeeInvitation)
    ensures AcceptedStatus(v) == Confirmed
    ensures AcceptedStatus(v.(isVip := !v.isVip)) == AcceptedStatus(v)
  {
  }

  /** The checks of `accept_invitation` on a found invitation and its event. */
  function AcceptCheck(v: AttendeeInvitation, event: Event, attendees: seq<Attendee>, o: Oracle, now: int): (r: Option<Err>)
    ensures r.None? <==> o.invCanAccept(v, now) && (v.bypassCapacity || !o.eventFull(event, attendees))
    ensures !o.invCanAccept(v, now) ==> r == Some(Invalid("Invitation cannot be accepted."))
    ensures o.invCanAccept(v, now) && !v.bypassCapacity && o.eventFull(event, attendees) ==>
      r == Some(Invalid("Event is at full capacity."))
  {
    if !o.invCanAccept(v, now) then Some(Invalid("Invitation cannot be accepted."))
    else if !v.bypassCapacity && o.eventFull(event, attendees) then Some(Invalid("Event is at full capacity."))
    else None
  }

  /** The invitation as `accept_invitation` saves it. */
  function AcceptStep(v: AttendeeInvitation, attendeeId: nat, now: int): (w: AttendeeInvitation)
    ensures w.status == InvAccepted && w.respondedAt == Some(now) && w.attendee == Some(attendeeId)
    ensures w.(status := v.status, respondedAt := v.respondedAt, attendee := v.attendee) == v
  {
    v.(status := InvAccepted, respondedAt := Some(now), attendee := Some(attendeeId))
  }

  /** `accept_invitation`: on success one confirmed attendee with the invitation's
      e-mail (never the one in the data), the invitation accepted and linked to it,
      and a registration notification. Without an event row the lookup finds nothing. */
  method AcceptInvitation(db: Database, token: nat, data: AttendeeData, o: Oracle, d: Delivery, now: int)
    returns (r: Result<Attendee>)
    requires db.Valid()
    modifies db`invitations, db`attendees, db`notifications, db`templates, db`nextId
    ensures db.Valid()
    ensures r.Fail? ==>
      db.invitations == old(db.invitations) && db.attendees == old(db.attendees)
      && db.notifications == old(db.notifications)
    ensures old(ByToken(db.invitations, token)).None? ==> r == Fail(NotFound("Invitation not found."))
    ensures old(ByToken(db.invitations, token)).Some? ==>
      var k := old(ByToken(db.invitations, token)).value;
      var v := old(db.invitations)[k];
      (old(EventIndex(db.events, v.event)).None? ==> r == Fail(NotFound("Invitation not found.")))
      && (old(EventIndex(db.events, v.event)).Some? ==>
          var event := old(db.events)[old(EventIndex(db.events, v.event)).value];
          var check := AcceptCheck(v, event, old(db.attendees), o, now);
          (check.Some? ==> r == Fail(check.value))
          && (check.None? ==>
              r.Ok? && r.value.id == old(db.nextId)
              && r.value == Attendee(r.value.id, v.event, v.email, data.fullName, data.phone, Confirmed)
              && db.attendees == old(db.attendees) + [r.value]
              && db.invitations == old(db.invitations)[k := AcceptStep(v, r.value.id, now)]
              && |db.notifications| == |old(db.notifications)| + 1
              && db.notifications[..|old(db.notifications)|] == old(db.notifications)
              && db.notifications[|old(db.notifications)|].ntype == AttendeeRegistered
              && db.notifications[|old(db.notifications)|].recipient == v.email))
  {
    var k := ByToken(db.invitations, token);
    if k.None? {
      return Fail(NotFound("Invitation not found."));
    }
    var v := db.invitations[k.value];
    var e := EventIndex(db.events, v.event);
    if e.None? {
      return Fail(NotFound("Invitation not found."));
    }
    var event := db.events[e.value];
    var check := AcceptCheck(v, event, db.attendees, o, now);
    if check.Some? {
      return Fail(check.value);
    }
    var attendee := Admit(db, k.value, data, event, d, now);
    return Ok(attendee);
  }

  /** The writes of a successful acceptance of invitation `k`: a confirmed attendee
      with the invitation's e-mail under a fresh key, the invitation accepted and
      linked to it, and the registration notification to that address. */
  method Admit(db: Database, k: nat, data: AttendeeData, event: Event, d: Delivery, now: int)
    returns (attendee: Attendee)
    requires db.Valid() && k < |db.invitations|
    modifies db`invitations, db`attendees, db`notifications, db`templates, db`nextId
    ensures db.Valid()
    ensures var v := old(db.invitations)[k];
      attendee == Attendee(old(db.nextId), v.event, v.email, data.fullName, data.phone, Confirmed)
      && db.attendees == old(db.attendees) + [attendee]
      && db.invitations == old(db.invitations)[k := AcceptStep(v, attendee.id, now)]
      && |db.notifications| == |old(db.notifications)| + 1
      && db.notifications[..|old(db.notifications)|] == old(db.notifications)
      && db.notifications[|old(db.notifications)|].ntype == AttendeeRegistered
      && db.notifications[|old(db.notifications)|].recipient == v.email
  {
    var v := db.invitations[k];
    var id := NewId(db);
    attendee := Attendee(id, v.event, v.email, data.fullName, data.phone, AcceptedStatus(v));
    db.AddAttendee(attendee);
    db.SetInvitation(k, AcceptStep(v, id, now));
    ghost var before := db.notifications;
    var n := SendRegistration(db, attendee, event, d, now);
    assert db.notifications[..|before|] == before;
  }

  /** `reject_invitation` on a found invitation: only a pending one moves, to rejected
      with the response time; any other fails and stays as it was. */
  function RejectStep(v: AttendeeInvitation, now: int): (r: (Option<Err>, AttendeeInvitation))
    ensures r.0.None? <==> v.status == InvPending
    ensures v.status == InvPending ==> r.1 == v.(status := InvRejected, respondedAt := Some(now))
    ensures v.status != InvPending ==>
      r == (Some(Invalid("Invitation has already been " + StatusText(v.status) + ".")), v)
  {
    if v.status != InvPending then (Some(Invalid("Invitation has already been " + StatusText(v.status) + ".")), v)
    else (None, v.(status := InvRejected, respondedAt := Some(now)))
  }

  method RejectInvitation(db: Database, token: nat, now: int) returns (r: Option<Err>)
    modifies db`invitations
    ensures old(ByToken(db.invitations, token)).None? ==>
      r == Some(NotFound("Invitation not found.")) && db.invitations == old(db.invitations)
    ensures old(ByToken(db.invitations, token)).Some? ==>
      var k := old(ByToken(db.invitations, token)).value;
      var step := RejectStep(old(db.invitations)[k], now);
      r == step.0 && db.invitations == old(db.invitations)[k := step.1]
  {
    var k := ByToken(db.invitations, token);
    if k.None? {
      return Some(NotFound("Invitation not found."));
    }
    var step := RejectStep(db.invitations[k.value], now);
    db.invitations := db.invitations[k.value := step.1];
    r := step.0;
  }

  /** The one invitation that cancel and resend act on: a pending invitation of the
      event with the given id. */
  function PendingOfEvent(invs: seq<AttendeeInvitation>, eventId: nat, id: nat): (r: Option<nat>)
    ensures r.Some? ==>
      r.value < |invs| && invs[r.value].id == id && invs[r.value].event == eventId
      && invs[r.value].status == InvPending
    ensures r.None? ==>
      forall k :: 0 <= k < |invs| ==> !(invs[k].id == id && invs[k].event == eventId && invs[k].status == InvPending)
  {
    FirstIndex(invs, (v: AttendeeInvitation) => v.id == id && v.event == eventId && v.status == InvPending)
  }

  const NOT_PENDING := "Invitation not found or already responded to."

  /** `cancel_invitation`: after the permission check, only a pending invitation of the
      event is found, and it becomes cancelled. */
  method CancelInvitation(db: Database, event: Event, user: User, id: nat) returns (r: Option<Err>)
    modifies db`invitations
    ensures !CanManage(event, user, db.users) ==>
      r == Some(PermissionDenied("You don't have permission to cancel invitations."))
      && db.invitations == old(db.invitations)
    ensures CanManage(event, user, db.users) ==>
      match old(PendingOfEvent(db.invitations, event.id, id))
      case None => r == Some(NotFound(NOT_PENDING)) && db.invitations == old(db.invitations)
      case Some(k) => r == None && db.invitations == old(db.invitations)[k := old(db.invitations)[k].(status := InvCancelled)]
  {
    if !CanManage(event, user, db.users) {
      return Some(PermissionDenied("You don't have permission to cancel invitations."));
    }
    var k := PendingOfEvent(db.invitations, event.id, id);
    if k.None? {
      return Some(NotFound(NOT_PENDING));
    }
    db.invitations := db.invitations[k.value := db.invitations[k.value].(status := InvCancelled)];
    return None;
  }

  /** What `resend_invitation` saves: a new week to respond only if the invitation had
      expired; the token and everything else are kept. */
  function ResendStep(v: AttendeeInvitation, o: Oracle, now: int): (w: AttendeeInvitation)
    ensures w.token == v.token && w.status == v.status
    ensures w == v.(expiresAt := w.expiresAt)
    ensures w.expiresAt == if o.invExpired(v, now) then now + WEEK else v.expiresAt
  {
    if o.invExpired(v, now) then v.(expiresAt := now + WEEK) else v
  }

  /** `resend_invitation`: the new expiry is saved, and then sending the e-mail raises
      (there is no `ATTENDEE_INVITED` type), so the call ends in a server error. */
  method ResendInvitation(db: Database, event: Event, user: User, id: nat, o: Oracle, sendError: string, now: int)
    returns (r: Result<AttendeeInvitation>)
    modifies db`invitations
    ensures r.Fail?
    ensures !CanManage(event, user, db.users) ==>
      r == Fail(PermissionDenied("You don't have permission to resend invitations."))
      && db.invitations == old(db.invitations)
    ensures CanManage(event, user, db.users) ==>
      match old(PendingOfEvent(db.invitations, event.id, id))
      case None => r == Fail(NotFound(NOT_PENDING)) && db.invitations == old(db.invitations)
      case Some(k) =>
        (r == Fail(Crash(sendError))
         && db.invitations == old(db.invitations)[k := ResendStep(old(db.invitations)[k], o, now)])
  {
    if !CanManage(event, user, db.users) {
      return Fail(PermissionDenied("You don't have permission to resend invitations."));
    }
    var k := PendingOfEvent(db.invitations, event.id, id);
    if k.None? {
      return Fail(NotFound(NOT_PENDING));
    }
    db.invitations := db.invitations[k.value := ResendStep(db.invitations[k.value], o, now)];
    return Fail(Crash(sendError));
  }

  /** Verify, reject, cancel and resend never move an invitation that is no longer
      pending, and from pending they only reach the state their name says. */
  lemma StepsKeepTerminalStates(v: AttendeeInvitation, o: Oracle, now: int)
    requires v.status != InvPending
    ensures VerifyStep(v, o, now).1 == v && RejectStep(v, now).1 == v
    ensures PendingOfEvent([v], v.event, v.id).None?
  {
  }

  datatype InvitationStats = InvitationStats(total: nat, pending: nat, accepted: nat, rejected: nat, expired: nat)

  function CountStatus(invs: seq<AttendeeInvitation>, eventId: nat, s: InvitationStatus): nat {
    Count(invs, (v: AttendeeInvitation) => v.event == eventId && v.status == s)
  }

  function CountEvent(invs: seq<AttendeeInvitation>, eventId: nat): nat {
    Count(invs, (v: AttendeeInvitation) => v.event == eventId)
  }

  /** The invitations of an event split exactly by status. */
  lemma {:induction false} StatusesPartition(invs: seq<AttendeeInvitation>, eventId: nat)
    ensures CountEvent(invs, eventId) ==
      CountStatus(invs, eventId, InvPending) + CountStatus(invs, eventId, InvAccepted)
      + CountStatus(invs, eventId, InvRejected) + CountStatus(invs, eventId, InvExpired)
      + CountStatus(invs, eventId, InvCancelled)
  {
    if invs != [] {
      StatusesPartition(invs[1..], eventId);
    }
  }

  /** `get_invitation_stats` (without the response rate). */
  method GetInvitationStats(db: Database, event: Event, user: User) returns (r: Result<InvitationStats>)
    ensures !CanManage(event, user, db.users) ==>
      r == Fail(PermissionDenied("You don't have permission to view invitation stats."))
    ensures CanManage(event, user, db.users) ==> r.Ok?
    ensures r.Ok? ==>
      r.value.total == CountEvent(db.invitations, event.id)
      && r.value.pending == CountStatus(db.invitations, event.id, InvPending)
      && r.value.accepted == CountStatus(db.invitations, event.id, InvAccepted)
      && r.value.rejected == CountStatus(db.invitations, event.id, InvRejected)
      && r.value.expired == CountStatus(db.invitations, event.id, InvExpired)
    ensures r.Ok? ==> r.value.pending + r.value.accepted + r.value.rejected + r.value.expired <= r.value.total
    ensures r.Ok? && r.value.total == 0 ==> r.value == InvitationStats(0, 0, 0, 0, 0)
  {
    if !CanManage(event, user, db.users) {
      return Fail(PermissionDenied("You don't have permission to view invitation stats."));
    }
    var total := CountEvent(db.invitations, event.id);
    StatusesPartition(db.invitations, event.id);
    if total == 0 {
      return Ok(InvitationStats(0, 0, 0, 0, 0));
    }
    return Ok(InvitationStats(total,
      CountStatus(db.invitations, event.id, InvPending), CountStatus(db.invitations, event.id, InvAccepted),
      CountStatus(db.invitations, event.id, InvRejected), CountStatus(db.invitations, event.id, InvExpired)));
  }
}
