/** The database the Django services read and write, as in-memory tables.
    Every row carries the primary key Django would give it; `nextId` is the
    counter that hands out primary keys and the invitation tokens
    (standing in for `uuid.uuid4`, version 4 UUIDs of RFC 4122 section 4.4). */
module Store {
  import opened Common

  datatype User = User(
    id: nat, email: string, fullName: string, password: string,
    role: Option<string>,          // the name of the linked Role row, if any
    organization: Option<nat>,
    isActive: bool, isStaff: bool, isSuperuser: bool)

  datatype Organization = Organization(id: nat, name: string, slug: string, createdBy: Option<nat>)

  datatype OrgInvitation = OrgInvitation(
    id: nat, organization: nat, email: string, invitedBy: nat, token: nat,
    expiredAt: int, isAccepted: bool, acceptedAt: Option<int>, acceptedBy: Option<nat>)

  /** Durations are whole seconds: `duration_hours` is a float of hours in the source. */
  datatype Event = Event(
    id: nat, name: string, slug: string, description: string,
    start: int, end: Option<int>, durationDays: int, durationSecs: int, capacity: int,
    venueName: string, venueAddress: string, status: string, isPublic: bool,
    createdBy: Option<nat>)

  datatype AttendeeStatus = Confirmed | Rejected | Waitlisted | Pending

  datatype Attendee = Attendee(id: nat, event: nat, email: string, fullName: string, phone: string, status: AttendeeStatus)

  datatype Speaker = Speaker(id: nat, event: nat, fullName: string, title: string, company: string, bio: string)

  datatype Session = Session(
    id: nat, event: nat, speaker: Option<nat>, title: string, description: string,
    start: int, end: Option<int>, durationSecs: Option<int>)

  datatype InvitationStatus = InvPending | InvAccepted | InvRejected | InvExpired | InvCancelled

  datatype AttendeeInvitation = AttendeeInvitation(
    id: nat, event: nat, email: string, invitedBy: nat, token: nat,
    status: InvitationStatus, expiresAt: int, respondedAt: Option<int>, attendee: Option<nat>,
    fullName: string, message: string, isVip: bool, bypassCapacity: bool)

  /** The members of the `NotificationType` choices; there is no `ATTENDEE_INVITED`. */
  datatype NotificationType =
    | OrgInvitationSent | OrgInvitationAccepted | OrgInvitationRejected
    | EventCreated | EventUpdated | EventCancelled | EventPublished
    | AttendeeRegistered | AttendeeConfirmed | AttendeeRejected | AttendeeWaitlisted | AttendeePromoted
    | EventReminder24h | EventReminder1h

  datatype Channel = Email | Websocket | Sms

  datatype NotificationStatus = NPending | Sent | Failed | Delivered

  datatype Notification = Notification(
    id: nat, ntype: NotificationType, channel: Channel, recipient: string,
    event: Option<nat>, organization: Option<nat>, invitation: Option<nat>,
    subject: string, message: string, status: NotificationStatus,
    sentAt: Option<int>, errorMessage: string)

  /** The body of a notification template: literal text, or the multi-line default
      body written out in the service for that notification type. */
  datatype Body = Literal(text: string) | Builtin(of: NotificationType)

  datatype TemplateRow = TemplateRow(
    id: nat, ntype: NotificationType, channel: Channel,
    subject: string, body: Body, title: string, message: string)

  /** Rows of the soft-deleted tables keep `status` (here `active`); `active()` filters on it. */
  datatype VerifyRequest = VerifyRequest(id: nat, email: string, token: string, code: string, expiredAt: int, active: bool)

  datatype PasswordReset = PasswordReset(id: nat, email: string, token: string, expiredAt: int, active: bool)

  function StatusText(s: InvitationStatus): string {
    match s
    case InvPending => "pending"
    case InvAccepted => "accepted"
    case InvRejected => "rejected"
    case InvExpired => "expired"
    case InvCancelled => "cancelled"
  }

  function AttendeeStatusText(s: AttendeeStatus): string {
    match s
    case Confirmed => "confirmed"
    case Rejected => "rejected"
    case Waitlisted => "waitlisted"
    case Pending => "pending"
  }

  /** The predicates of the attendee-invitation and event models whose definitions are
      not part of this model: `AttendeeInvitation.is_expired()` and `can_accept()` (both
      read the clock) and `Event.is_full` (which reads the event's attendees). */
  datatype Oracle = Oracle(
    invExpired: (AttendeeInvitation, int) -> bool,
    invCanAccept: (AttendeeInvitation, int) -> bool,
    eventFull: (Event, seq<Attendee>) -> bool)

  /** The first row satisfying `p`, as `.filter(...).first()` and `.get(...)` find it. */
  function FirstIndex<T>(s: seq<T>, p: T -> bool): (r: Option<nat>)
    ensures r.Some? ==> r.value < |s| && p(s[r.value]) && forall j :: 0 <= j < r.value ==> !p(s[j])
    ensures r.None? ==> forall j :: 0 <= j < |s| ==> !p(s[j])
  {
    if |s| == 0 then None
    else if p(s[0]) then Some(0)
    else match FirstIndex(s[1..], p)
      case None => None
      case Some(k) => Some(k + 1)
  }

  /** `.filter(...)`, keeping the table order. */
  function Filter<T(!new)>(s: seq<T>, p: T -> bool): (r: seq<T>)
    ensures |r| <= |s|
    ensures forall x :: x in r <==> x in s && p(x)
  {
    if |s| == 0 then []
    else if p(s[0]) then [s[0]] + Filter(s[1..], p)
    else Filter(s[1..], p)
  }

  /** Filtering a longer table keeps what the shorter one gave, in order. */
  lemma {:induction false} FilterAppend<T(!new)>(s: seq<T>, x: T, p: T -> bool)
    ensures Filter(s + [x], p) == Filter(s, p) + (if p(x) then [x] else [])
  {
    if |s| > 0 {
      assert (s + [x])[1..] == s[1..] + [x];
      FilterAppend(s[1..], x, p);
    } else {
      assert s + [x] == [x];
    }
  }

  /** Nothing passes, nothing is kept. */
  lemma FilterNone<T(!new)>(s: seq<T>, p: T -> bool)
    requires forall j :: 0 <= j < |s| ==> !p(s[j])
    ensures Filter(s, p) == []
  {
  }

  /** `.exclude(...)`: the rows for which `p` fails, in table order. */
  function FilterOut<T(!new)>(s: seq<T>, p: T -> bool): (r: seq<T>)
    ensures |r| <= |s|
    ensures forall x :: x in r <==> x in s && !p(x)
  {
    if |s| == 0 then []
    else if p(s[0]) then FilterOut(s[1..], p)
    else [s[0]] + FilterOut(s[1..], p)
  }

  /** The keys of the organization invitations satisfying `p`. */
  function IdsWhere(s: seq<OrgInvitation>, p: OrgInvitation -> bool): (r: set<nat>)
    ensures forall v :: v in s && p(v) ==> v.id in r
  {
    set v | v in s && p(v) :: v.id
  }

  /** A notification the `CASCADE` of its `invitation` key deletes with the invitations `ids`. */
  function CascadedBy(ids: set<nat>): Notification -> bool {
    (n: Notification) => n.invitation.Some? && n.invitation.value in ids
  }

  /** `.filter(...).count()`. */
  function Count<T(!new)>(s: seq<T>, p: T -> bool): nat {
    |Filter(s, p)|
  }

  lemma CountAppend<T(!new)>(s: seq<T>, x: T, p: T -> bool)
    ensures Count(s + [x], p) == Count(s, p) + (if p(x) then 1 else 0)
  {
    if |s| > 0 {
      assert (s + [x])[1..] == s[1..] + [x];
      CountAppend(s[1..], x, p);
    } else {
      assert s + [x] == [x];
    }
  }

  /** Filtering never keeps more rows than a weaker filter does. */
  lemma {:induction false} CountMonotone<T(!new)>(s: seq<T>, p: T -> bool, q: T -> bool)
    requires forall x :: p(x) ==> q(x)
    ensures Count(s, p) <= Count(s, q)
  {
    if |s| > 0 { CountMonotone(s[1..], p, q); }
  }

  function EventIndex(events: seq<Event>, id: nat): (r: Option<nat>)
    ensures r.Some? ==> r.value < |events| && events[r.value].id == id
    ensures r.None? ==> forall k :: 0 <= k < |events| ==> events[k].id != id
  {
    FirstIndex(events, (e: Event) => e.id == id)
  }

  function UserIndex(users: seq<User>, id: nat): (r: Option<nat>)
    ensures r.Some? ==> r.value < |users| && users[r.value].id == id
    ensures r.None? ==> forall k :: 0 <= k < |users| ==> users[k].id != id
  {
    FirstIndex(users, (u: User) => u.id == id)
  }

  /** `CustomUser.objects.filter(email=email).first()`: an exact, case-sensitive match. */
  function UserByEmail(users: seq<User>, email: string): (r: Option<nat>)
    ensures r.Some? ==> r.value < |users| && users[r.value].email == email
    ensures r.None? ==> forall k :: 0 <= k < |users| ==> users[k].email != email
  {
    FirstIndex(users, (u: User) => u.email == email)
  }

  function OrganizationIndex(orgs: seq<Organization>, id: nat): (r: Option<nat>)
    ensures r.Some? ==> r.value < |orgs| && orgs[r.value].id == id
    ensures r.None? ==> forall k :: 0 <= k < |orgs| ==> orgs[k].id != id
  {
    FirstIndex(orgs, (o: Organization) => o.id == id)
  }

  /** The message of the `IntegrityError` a unique constraint raises; its exact text
      depends on the database backend. */
  const INTEGRITY_ERROR := "IntegrityError: UNIQUE constraint failed"

  /** The first row of `s` for which `p` holds is the new last one, once no earlier
      row satisfies `p`. */
  lemma {:induction false} FirstIndexAppend<T>(s: seq<T>, x: T, p: T -> bool)
    requires FirstIndex(s, p).None? && p(x)
    ensures FirstIndex(s + [x], p) == Some(|s|)
  {
    if s != [] {
      assert (s + [x])[1..] == s[1..] + [x];
      FirstIndexAppend(s[1..], x, p);
    }
  }

  /** Appending a row keeps the first match of an earlier row. */
  lemma {:induction false} FirstIndexAppendKeeps<T>(s: seq<T>, x: T, p: T -> bool)
    requires FirstIndex(s, p).Some?
    ensures FirstIndex(s + [x], p) == FirstIndex(s, p)
  {
    if !p(s[0]) {
      assert (s + [x])[1..] == s[1..] + [x];
      FirstIndexAppendKeeps(s[1..], x, p);
    }
  }

  /** `s` without the row at position `k`, the others in their order. */
  function RemoveAt<T>(s: seq<T>, k: nat): (r: seq<T>)
    requires k < |s|
    ensures |r| == |s| - 1
    ensures forall i :: 0 <= i < k ==> r[i] == s[i]
    ensures forall i :: k <= i < |r| ==> r[i] == s[i + 1]
  {
    s[..k] + s[k + 1..]
  }

  /** The `SET_NULL` of `Session.speaker`: every session of the deleted speaker `id`
      loses its speaker, and nothing else changes. */
  function DetachSpeaker(sessions: seq<Session>, id: nat): (r: seq<Session>)
    ensures |r| == |sessions|
    ensures forall i :: 0 <= i < |r| ==> r[i] == (if sessions[i].speaker == Some(id) then sessions[i].(speaker := None) else sessions[i])
  {
    if sessions == [] then []
    else [if sessions[0].speaker == Some(id) then sessions[0].(speaker := None) else sessions[0]]
         + DetachSpeaker(sessions[1..], id)
  }

  class Database {
    var users: seq<User>
    var organizations: seq<Organization>
    var orgInvitations: seq<OrgInvitation>
    var events: seq<Event>
    var attendees: seq<Attendee>
    var speakers: seq<Speaker>
    var sessions: seq<Session>
    var invitations: seq<AttendeeInvitation>
    var notifications: seq<Notification>
    var templates: seq<TemplateRow>
    var verifyRequests: seq<VerifyRequest>
    var passwordResets: seq<PasswordReset>
    var nextId: nat

    /** Every key and token handed out so far lies below `nextId`, so the next one is fresh. */
    ghost predicate Valid()
      reads this
    {
      (forall u | u in users :: u.id < nextId)
      && (forall o | o in organizations :: o.id < nextId)
      && (forall v | v in orgInvitations :: v.id < nextId && v.token < nextId)
      && (forall e | e in events :: e.id < nextId)
      && (forall a | a in attendees :: a.id < nextId)
      && (forall s | s in speakers :: s.id < nextId)
      && (forall s | s in sessions :: s.id < nextId)
      && (forall v | v in invitations :: v.id < nextId && v.token < nextId)
      && (forall n | n in notifications :: n.id < nextId)
      && (forall t | t in templates :: t.id < nextId)
      && (forall v | v in verifyRequests :: v.id < nextId)
      && (forall r | r in passwordResets :: r.id < nextId)
    }

    constructor ()
      ensures Valid() && nextId == 1
      ensures users == [] && organizations == [] && orgInvitations == [] && events == []
      ensures attendees == [] && speakers == [] && sessions == [] && invitations == []
      ensures notifications == [] && templates == [] && verifyRequests == [] && passwordResets == []
    {
      users, organizations, orgInvitations, events := [], [], [], [];
      attendees, speakers, sessions, invitations := [], [], [], [];
      notifications, templates, verifyRequests, passwordResets := [], [], [], [];
      nextId := 1;
    }

    /** Inserts a row whose key was handed out already. */
    method AddUser(x: User)
      requires Valid() && x.id < nextId
      modifies this`users
      ensures Valid() && users == old(users) + [x]
    {
      users := users + [x];
    }

    /** Inserts a row whose key was handed out already. */
    method AddOrganization(x: Organization)
      requires Valid() && x.id < nextId
      modifies this`organizations
      ensures Valid() && organizations == old(organizations) + [x]
    {
      organizations := organizations + [x];
    }

    /** Inserts a row whose key was handed out already. */
    method AddOrgInvitation(x: OrgInvitation)
      requires Valid() && x.id < nextId && x.token < nextId
      modifies this`orgInvitations
      ensures Valid() && orgInvitations == old(orgInvitations) + [x]
    {
      orgInvitations := orgInvitations + [x];
    }

    /** Replaces the user table by rows whose keys were handed out already, as a
        rolled back transaction or an update does. */
    method SetUsers(x: seq<User>)
      requires Valid() && forall u | u in x :: u.id < nextId
      modifies this`users
      ensures Valid() && users == x
    {
      users := x;
    }

    /** Overwrites the user at position `k`, keeping its key. */
    method SetUser(k: nat, x: User)
      requires Valid() && k < |users| && x.id == users[k].id
      modifies this`users
      ensures Valid() && users == old(users)[k := x]
    {
      users := users[k := x];
    }

    /** Overwrites the verification request at position `k`, keeping its key. */
    method SetVerifyRequest(k: nat, x: VerifyRequest)
      requires Valid() && k < |verifyRequests| && x.id == verifyRequests[k].id
      modifies this`verifyRequests
      ensures Valid() && verifyRequests == old(verifyRequests)[k := x]
    {
      verifyRequests := verifyRequests[k := x];
    }

    /** Overwrites the password reset request at position `k`, keeping its key. */
    method SetPasswordReset(k: nat, x: PasswordReset)
      requires Valid() && k < |passwordResets| && x.id == passwordResets[k].id
      modifies this`passwordResets
      ensures Valid() && passwordResets == old(passwordResets)[k := x]
    {
      passwordResets := passwordResets[k := x];
    }

    /** Overwrites the organization invitation at position `k`, keeping its key and token. */
    method SetOrgInvitation(k: nat, x: OrgInvitation)
      requires Valid() && k < |orgInvitations| && x.id == orgInvitations[k].id && x.token == orgInvitations[k].token
      modifies this`orgInvitations
      ensures Valid() && orgInvitations == old(orgInvitations)[k := x]
    {
      orgInvitations := orgInvitations[k := x];
    }

    /** Deletes the organization invitations satisfying `p` together with the
        notifications whose `invitation` key points at one of them. */
    method DeleteOrgInvitations(p: OrgInvitation -> bool)
      requires Valid()
      modifies this`orgInvitations, this`notifications
      ensures Valid()
      ensures orgInvitations == FilterOut(old(orgInvitations), p)
      ensures notifications == FilterOut(old(notifications), CascadedBy(IdsWhere(old(orgInvitations), p)))
    {
      notifications := FilterOut(notifications, CascadedBy(IdsWhere(orgInvitations, p)));
      orgInvitations := FilterOut(orgInvitations, p);
    }

    /** Inserts a row whose key was handed out already. */
    method AddEvent(x: Event)
      requires Valid() && x.id < nextId
      modifies this`events
      ensures Valid() && events == old(events) + [x]
    {
      events := events + [x];
    }

    /** Inserts a row whose key was handed out already. */
    method AddAttendee(x: Attendee)
      requires Valid() && x.id < nextId
      modifies this`attendees
      ensures Valid() && attendees == old(attendees) + [x]
    {
      attendees := attendees + [x];
    }

    /** Inserts a row whose key was handed out already. */
    method AddSpeaker(x: Speaker)
      requires Valid() && x.id < nextId
      modifies this`speakers
      ensures Valid() && speakers == old(speakers) + [x]
    {
      speakers := speakers + [x];
    }

    /** Inserts a row whose key was handed out already. */
    method AddSession(x: Session)
      requires Valid() && x.id < nextId
      modifies this`sessions
      ensures Valid() && sessions == old(sessions) + [x]
    {
      sessions := sessions + [x];
    }

    /** Overwrites the session at position `k`, keeping its key. */
    method SetSession(k: nat, x: Session)
      requires Valid() && k < |sessions| && x.id == sessions[k].id
      modifies this`sessions
      ensures Valid() && sessions == old(sessions)[k := x]
    {
      sessions := sessions[k := x];
    }

    /** Deletes the session at position `k`. */
    method DeleteSession(k: nat)
      requires Valid() && k < |sessions|
      modifies this`sessions
      ensures Valid() && sessions == RemoveAt(old(sessions), k)
    {
      sessions := RemoveAt(sessions, k);
    }

    /** Overwrites the speaker at position `k`, keeping its key. */
    method SetSpeaker(k: nat, x: Speaker)
      requires Valid() && k < |speakers| && x.id == speakers[k].id
      modifies this`speakers
      ensures Valid() && speakers == old(speakers)[k := x]
    {
      speakers := speakers[k := x];
    }

    /** Deletes the speaker at position `k`; its sessions lose their speaker. */
    method DeleteSpeaker(k: nat)
      requires Valid() && k < |speakers|
      modifies this`speakers, this`sessions
      ensures Valid()
      ensures speakers == RemoveAt(old(speakers), k)
      ensures sessions == DetachSpeaker(old(sessions), old(speakers)[k].id)
    {
      var ss := DetachSpeaker(sessions, speakers[k].id);
      assert forall i :: 0 <= i < |ss| ==> ss[i].id == sessions[i].id;
      sessions := ss;
      speakers := RemoveAt(speakers, k);
    }

    /** Overwrites the attendee at position `k`, keeping its key. */
    method SetAttendee(k: nat, x: Attendee)
      requires Valid() && k < |attendees| && x.id == attendees[k].id
      modifies this`attendees
      ensures Valid() && attendees == old(attendees)[k := x]
    {
      attendees := attendees[k := x];
    }

    /** Inserts a row whose key was handed out already. */
    method AddInvitation(x: AttendeeInvitation)
      requires Valid() && x.id < nextId && x.token < nextId
      modifies this`invitations
      ensures Valid() && invitations == old(invitations) + [x]
    {
      invitations := invitations + [x];
    }

    /** Overwrites the attendee invitation at position `k`, keeping its key and token. */
    method SetInvitation(k: nat, x: AttendeeInvitation)
      requires Valid() && k < |invitations| && x.id == invitations[k].id && x.token == invitations[k].token
      modifies this`invitations
      ensures Valid() && invitations == old(invitations)[k := x]
    {
      invitations := invitations[k := x];
    }

    /** Inserts a row whose key was handed out already. */
    method AddNotification(x: Notification)
      requires Valid() && x.id < nextId
      modifies this`notifications
      ensures Valid() && notifications == old(notifications) + [x]
    {
      notifications := notifications + [x];
    }

    /** Inserts a row whose key was handed out already. */
    method AddTemplate(x: TemplateRow)
      requires Valid() && x.id < nextId
      modifies this`templates
      ensures Valid() && templates == old(templates) + [x]
    {
      templates := templates + [x];
    }

    /** Inserts a row whose key was handed out already. */
    method AddVerifyRequest(x: VerifyRequest)
      requires Valid() && x.id < nextId
      modifies this`verifyRequests
      ensures Valid() && verifyRequests == old(verifyRequests) + [x]
    {
      verifyRequests := verifyRequests + [x];
    }

    /** Inserts a row whose key was handed out already. */
    method AddPasswordReset(x: PasswordReset)
      requires Valid() && x.id < nextId
      modifies this`passwordResets
      ensures Valid() && passwordResets == old(passwordResets) + [x]
    {
      passwordResets := passwordResets + [x];
    }
  }

  /** Hands out a fresh primary key or token. */
  method NewId(db: Database) returns (id: nat)
    requires db.Valid()
    modifies db`nextId
    ensures db.Valid() && id == old(db.nextId) && db.nextId == id + 1
  {
    id := db.nextId;
    db.nextId := db.nextId + 1;
  }
}
