/** The notification service: template lookup, rendering with its fallback, the
    record every send leaves behind and the status that record ends in, and the
    event-specific helpers built on it (registration, status update, cancellation
    fan-out, organization invitation). */
module Notifications {
  import opened Common
  import opened Text
  import opened Store

  /** The stored code of a notification type. */
  function TypeCode(t: NotificationType): string {
    match t
    case OrgInvitationSent => "org_invitation_sent"
    case OrgInvitationAccepted => "org_invitation_accepted"
    case OrgInvitationRejected => "org_invitation_rejected"
    case EventCreated => "event_created"
    case EventUpdated => "event_updated"
    case EventCancelled => "event_cancelled"
    case EventPublished => "event_published"
    case AttendeeRegistered => "attendee_registered"
    case AttendeeConfirmed => "attendee_confirmed"
    case AttendeeRejected => "attendee_rejected"
    case AttendeeWaitlisted => "attendee_waitlisted"
    case AttendeePromoted => "attendee_promoted"
    case EventReminder24h => "event_reminder_24h"
    case EventReminder1h => "event_reminder_1h"
  }

  /** The types for which the service writes out an e-mail template. */
  predicate HasBuiltinTemplate(t: NotificationType) {
    t.OrgInvitationSent? || t.EventCreated? || t.EventCancelled? || t.AttendeeRegistered?
    || t.AttendeeConfirmed? || t.AttendeeWaitlisted? || t.EventReminder24h? || t.EventReminder1h?
  }

  function BuiltinSubject(t: NotificationType): string
    requires HasBuiltinTemplate(t)
  {
    match t
    case OrgInvitationSent => "Invitation to join {{ organization_name }}"
    case EventCreated => "New Event Created: {{ event_name }}"
    case EventCancelled => "Event Cancelled: {{ event_name }}"
    case AttendeeRegistered => "Registration Confirmed: {{ event_name }}"
    case AttendeeConfirmed => "Registration Approved: {{ event_name }}"
    case AttendeeWaitlisted => "Added to Waitlist: {{ event_name }}"
    case EventReminder24h => "Reminder: {{ event_name }} tomorrow"
    case EventReminder1h => "Starting Soon: {{ event_name }} in 1 hour"
  }

  datatype TemplateContent = TemplateContent(subject: string, body: Body, title: string, message: string)

  const GENERIC_TEMPLATE: TemplateContent :=
    TemplateContent("Notification", Literal("You have a new notification."),
                    "Notification", "You have a new notification.")

  /** `_get_default_template_content`: the templates are written out for the e-mail
      channel of eight types only; every other (type, channel) pair gets the generic
      one. The written-out templates leave the websocket fields blank. */
  function DefaultTemplate(t: NotificationType, ch: Channel): (r: TemplateContent)
    ensures r != GENERIC_TEMPLATE <==> ch == Email && HasBuiltinTemplate(t)
    ensures ch == Email && HasBuiltinTemplate(t) ==>
      r.body == Builtin(t) && r.title == "" && r.message == ""
  {
    if ch == Email && HasBuiltinTemplate(t) then TemplateContent(BuiltinSubject(t), Builtin(t), "", "")
    else GENERIC_TEMPLATE
  }

  /** `_get_fallback_content`: the subject is the type code with underscores turned
      into spaces and title-cased; the message names the code. */
  function Fallback(t: NotificationType): (string, string) {
    ("Notification: " + Title(ReplaceChar(TypeCode(t), '_', ' ')),
     "You have a new notification of type: " + TypeCode(t))
  }

  /** What the outside world answers, per notification record (by its id): the result
      of rendering the template with Django's engine (`None` when rendering raises) and
      the error the mail backend raises, if any. */
  datatype Delivery = Delivery(
    render: (TemplateRow, nat) -> Option<(string, string)>,
    mailError: nat -> Option<string>)

  /** `_render_content`: the rendered subject (or title) and message on the e-mail and
      websocket channels, the fallback when rendering raises, and nothing at all on
      any other channel (the method falls off its end). */
  function RenderContent(tmpl: TemplateRow, ch: Channel, t: NotificationType, id: nat, d: Delivery): (r: Option<(string, string)>)
    ensures r.None? <==> ch == Sms
    ensures ch != Sms && d.render(tmpl, id).None? ==> r == Some(Fallback(t))
    ensures ch != Sms && d.render(tmpl, id).Some? ==> r == d.render(tmpl, id)
  {
    match ch
    case Sms => None
    case _ =>
      match d.render(tmpl, id)
      case Some(p) => Some(p)
      case None => Some(Fallback(t))
  }

  const FAILED_TO_GENERATE := "Failed to generate"
  /** `str(e)` of the TypeError raised by unpacking `None` into two names. */
  const UNPACK_ERROR := "cannot unpack non-iterable NoneType object"

  /** The record `send_notification` leaves behind, given the template it looked up and
      the id the record gets. */
  function Dispatch(t: NotificationType, ch: Channel, recipient: string, event: Option<nat>,
                    org: Option<nat>, inv: Option<nat>, tmpl: TemplateRow, id: nat,
                    d: Delivery, now: int): (n: Notification)
    ensures n.id == id && n.ntype == t && n.channel == ch && n.recipient == recipient
    ensures n.event == event && n.organization == org && n.invitation == inv
    ensures n.status != Delivered
    ensures n.status == Sent <==> ch == Email && d.mailError(id).None?
    ensures n.status == Sent ==> n.sentAt == Some(now)
    ensures n.status != Sent ==> n.sentAt == None
    ensures ch == Email && d.mailError(id).Some? ==>
      n.status == Failed && n.errorMessage == d.mailError(id).value
    ensures ch == Websocket ==> n.status == NPending
    ensures ch == Sms ==>
      n.status == Failed && n.subject == FAILED_TO_GENERATE && n.message == FAILED_TO_GENERATE
      && n.errorMessage == UNPACK_ERROR
    ensures ch != Sms ==> (n.subject, n.message) == RenderContent(tmpl, ch, t, id, d).value
  {
    match RenderContent(tmpl, ch, t, id, d)
    case None =>
      Notification(id, t, ch, recipient, event, org, inv, FAILED_TO_GENERATE, FAILED_TO_GENERATE,
                   Failed, None, UNPACK_ERROR)
    case Some((subject, message)) =>
      var n0 := Notification(id, t, ch, recipient, event, org, inv, subject, message, NPending, None, "");
      if ch == Email then
        match d.mailError(id)
        case None => n0.(status := Sent, sentAt := Some(now))
        case Some(e) => n0.(status := Failed, errorMessage := e)
      else n0
  }

  function TemplateIndex(rows: seq<TemplateRow>, t: NotificationType, ch: Channel): (r: Option<nat>)
    ensures r.Some? ==> r.value < |rows| && rows[r.value].ntype == t && rows[r.value].channel == ch
    ensures r.None? ==> forall k :: 0 <= k < |rows| ==> !(rows[k].ntype == t && rows[k].channel == ch)
  {
    FirstIndex(rows, (x: TemplateRow) => x.ntype == t && x.channel == ch)
  }

  /** `_get_template`: the stored template for the pair, or a new one holding the
      defaults. */
  method GetTemplate(db: Database, t: NotificationType, ch: Channel) returns (tmpl: TemplateRow)
    requires db.Valid()
    modifies db`templates, db`nextId
    ensures db.Valid()
    ensures TemplateIndex(db.templates, t, ch).Some? && db.templates[TemplateIndex(db.templates, t, ch).value] == tmpl
    ensures old(TemplateIndex(db.templates, t, ch)).Some? ==>
      db.templates == old(db.templates) && db.nextId == old(db.nextId)
      && tmpl == db.templates[old(TemplateIndex(db.templates, t, ch)).value]
    ensures old(TemplateIndex(db.templates, t, ch)).None? ==>
      var c := DefaultTemplate(t, ch);
      tmpl == TemplateRow(old(db.nextId), t, ch, c.subject, c.body, c.title, c.message)
      && db.templates == old(db.templates) + [tmpl] && db.nextId == old(db.nextId) + 1
  {
    var k := TemplateIndex(db.templates, t, ch);
    if k.Some? {
      tmpl := db.templates[k.value];
    } else {
      var id := NewId(db);
      var c := DefaultTemplate(t, ch);
      tmpl := TemplateRow(id, t, ch, c.subject, c.body, c.title, c.message);
      FirstIndexAppend(db.templates, tmpl, (x: TemplateRow) => x.ntype == t && x.channel == ch);
      db.AddTemplate(tmpl);
    }
  }

  /** `send_notification`: always stores exactly one record and returns it, whatever
      fails on the way; its status is as `Dispatch` says. */
  method SendNotification(db: Database, t: NotificationType, ch: Channel, recipient: string,
                          event: Option<nat>, org: Option<nat>, inv: Option<nat>,
                          d: Delivery, now: int) returns (n: Notification)
    requires db.Valid()
    modifies db`templates, db`notifications, db`nextId
    ensures db.Valid()
    ensures old(db.nextId) <= n.id < db.nextId
    ensures db.notifications == old(db.notifications) + [n]
    ensures TemplateIndex(db.templates, t, ch).Some?
    ensures n == Dispatch(t, ch, recipient, event, org, inv,
                          db.templates[TemplateIndex(db.templates, t, ch).value], n.id, d, now)
    ensures old(TemplateIndex(db.templates, t, ch)).Some? ==> db.templates == old(db.templates)
    ensures old(TemplateIndex(db.templates, t, ch)).None? ==>
      |db.templates| == |old(db.templates)| + 1 && db.templates[..|old(db.templates)|] == old(db.templates)
  {
    var tmpl := GetTemplate(db, t, ch);
    n := StoreNotification(db, t, ch, recipient, event, org, inv, tmpl, d, now);
  }

  /** The record `send_notification` saves once it has the template, under a fresh key. */
  method StoreNotification(db: Database, t: NotificationType, ch: Channel, recipient: string,
                           event: Option<nat>, org: Option<nat>, inv: Option<nat>, tmpl: TemplateRow,
                           d: Delivery, now: int) returns (n: Notification)
    requires db.Valid()
    modifies db`notifications, db`nextId
    ensures db.Valid()
    ensures old(db.nextId) <= n.id < db.nextId
    ensures db.notifications == old(db.notifications) + [n]
    ensures n == Dispatch(t, ch, recipient, event, org, inv, tmpl, n.id, d, now)
  {
    var id := NewId(db);
    n := Dispatch(t, ch, recipient, event, org, inv, tmpl, id, d, now);
    db.AddNotification(n);
  }

  /** `send_attendee_registration_notification`: an e-mail of type attendee-registered
      to the attendee, linked to the event. */
  method SendRegistration(db: Database, attendee: Attendee, event: Event, d: Delivery, now: int)
    returns (n: Notification)
    requires db.Valid()
    modifies db`templates, db`notifications, db`nextId
    ensures db.Valid()
    ensures db.notifications == old(db.notifications) + [n] && old(db.nextId) <= n.id
    ensures n.ntype == AttendeeRegistered && n.channel == Email && n.recipient == attendee.email
    ensures n.event == Some(event.id) && n.organization == None && n.invitation == None
    ensures n.status == Sent || n.status == Failed
  {
    n := SendNotification(db, AttendeeRegistered, Email, attendee.email, Some(event.id), None, None, d, now);
  }

  /** The type of the status-update notification for an attendee status, if any. */
  function StatusUpdateType(s: AttendeeStatus): (r: Option<NotificationType>)
    ensures r.None? <==> s == Pending
    ensures s == Confirmed ==> r == Some(AttendeeConfirmed)
    ensures s == Rejected ==> r == Some(AttendeeRejected)
    ensures s == Waitlisted ==> r == Some(AttendeeWaitlisted)
  {
    match s
    case Confirmed => Some(AttendeeConfirmed)
    case Rejected => Some(AttendeeRejected)
    case Waitlisted => Some(AttendeeWaitlisted)
    case Pending => None
  }

  /** `send_attendee_status_update_notification`: nothing is sent for a status the map
      does not know; otherwise one e-mail of the mapped type. */
  method SendStatusUpdate(db: Database, attendee: Attendee, event: Event, d: Delivery, now: int)
    returns (n: Option<Notification>)
    requires db.Valid()
    modifies db`templates, db`notifications, db`nextId
    ensures db.Valid()
    ensures StatusUpdateType(attendee.status).None? ==>
      n == None && db.notifications == old(db.notifications) && db.templates == old(db.templates)
      && db.nextId == old(db.nextId)
    ensures StatusUpdateType(attendee.status).Some? ==>
      n.Some? && db.notifications == old(db.notifications) + [n.value]
      && n.value.ntype == StatusUpdateType(attendee.status).value
      && n.value.recipient == attendee.email && n.value.event == Some(event.id)
  {
    var t := StatusUpdateType(attendee.status);
    if t.None? {
      return None;
    }
    var m := SendNotification(db, t.value, Email, attendee.email, Some(event.id), None, None, d, now);
    return Some(m);
  }

  /** The attendees a cancellation goes to when no set is given: the event's confirmed ones. */
  function ConfirmedOf(attendees: seq<Attendee>, eventId: nat): (r: seq<Attendee>)
    ensures forall a :: a in r <==> a in attendees && a.event == eventId && a.status == Confirmed
  {
    Filter(attendees, (a: Attendee) => a.event == eventId && a.status == Confirmed)
  }

  /** `n` is the cancellation e-mail of event `eventId` to attendee `a`. */
  predicate CancellationTo(n: Notification, a: Attendee, eventId: nat) {
    n.recipient == a.email && n.ntype == EventCancelled && n.channel == Email && n.event == Some(eventId)
  }

  /** One cancellation e-mail to one attendee. */
  method SendCancellationTo(db: Database, a: Attendee, eventId: nat, d: Delivery, now: int)
    returns (n: Notification)
    requires db.Valid()
    modifies db`templates, db`notifications, db`nextId
    ensures db.Valid()
    ensures db.notifications == old(db.notifications) + [n] && CancellationTo(n, a, eventId)
  {
    n := SendNotification(db, EventCancelled, Email, a.email, Some(eventId), None, None, d, now);
  }

  /** The loop of `send_event_cancellation_notification`: one cancellation e-mail per
      attendee of `targets`, in order. */
  method SendCancellations(db: Database, targets: seq<Attendee>, eventId: nat, d: Delivery, now: int)
    returns (ns: seq<Notification>)
    requires db.Valid()
    modifies db`templates, db`notifications, db`nextId
    ensures db.Valid()
    ensures |ns| == |targets| && forall i :: 0 <= i < |ns| ==> CancellationTo(ns[i], targets[i], eventId)
    ensures db.notifications == old(db.notifications) + ns
  {
    ns := [];
    for i := 0 to |targets|
      invariant |ns| == i
      invariant db.Valid()
      invariant db.notifications == old(db.notifications) + ns
      invariant forall k :: 0 <= k < i ==> CancellationTo(ns[k], targets[k], eventId)
    {
      var n := SendCancellationTo(db, targets[i], eventId, d, now);
      ns := ns + [n];
    }
  }

  /** `send_event_cancellation_notification`: one cancellation e-mail per attendee of
      the given set (by default the confirmed attendees), in order. */
  method SendCancellation(db: Database, event: Event, given: Option<seq<Attendee>>, d: Delivery, now: int)
    returns (ns: seq<Notification>)
    requires db.Valid()
    modifies db`templates, db`notifications, db`nextId
    ensures db.Valid()
    ensures var targets := if given.Some? then given.value else old(ConfirmedOf(db.attendees, event.id));
      |ns| == |targets| && forall i :: 0 <= i < |ns| ==> CancellationTo(ns[i], targets[i], event.id)
    ensures db.notifications == old(db.notifications) + ns
  {
    var targets := if given.Some? then given.value else ConfirmedOf(db.attendees, event.id);
    ns := SendCancellations(db, targets, event.id, d, now);
  }

  /** `send_invitation_notification`: one organization-invitation e-mail to the invited
      address, linked to the organization and the invitation. */
  method SendOrgInvitation(db: Database, inv: OrgInvitation, d: Delivery, now: int)
    returns (n: Notification)
    requires db.Valid()
    modifies db`templates, db`notifications, db`nextId
    ensures db.Valid()
    ensures db.notifications == old(db.notifications) + [n] && old(db.nextId) <= n.id
    ensures n.ntype == OrgInvitationSent && n.recipient == inv.email && n.channel == Email
    ensures n.organization == Some(inv.organization) && n.invitation == Some(inv.id)
  {
    n := SendNotification(db, OrgInvitationSent, Email, inv.email, None, Some(inv.organization), Some(inv.id), d, now);
  }
}
