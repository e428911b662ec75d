/** The `send_event_reminders` management command: for the published events starting
    around a day or an hour from now, one reminder e-mail to each confirmed attendee
    who has not been reminded successfully already. */
module Reminders {
  import opened Common
  import opened Store
  import opened Notifications

  /** The `--reminder-type` choices `24h` and `1h`. */
  datatype ReminderType = Reminder24h | Reminder1h

  function ReminderNotificationType(t: ReminderType): NotificationType {
    match t
    case Reminder24h => EventReminder24h
    case Reminder1h => EventReminder1h
  }

  /** The target time and the half-width of the window around it. */
  function Target(t: ReminderType, now: int): int {
    match t
    case Reminder24h => now + 24 * HOUR
    case Reminder1h => now + HOUR
  }

  function HalfWidth(t: ReminderType): int {
    match t
    case Reminder24h => HOUR
    case Reminder1h => 15 * MINUTE
  }

  /** The events the command selects: published, starting within the window, both
      ends included. */
  predicate Selected(e: Event, t: ReminderType, now: int) {
    e.status == "published" && Target(t, now) - HalfWidth(t) <= e.start <= Target(t, now) + HalfWidth(t)
  }

  function SelectedEvents(events: seq<Event>, t: ReminderType, now: int): (r: seq<Event>)
    ensures forall e :: e in r <==> e in events && Selected(e, t, now)
  {
    Filter(events, (e: Event) => Selected(e, t, now))
  }

  /** The day reminder covers events starting 23 to 25 hours from now, the hour
      reminder those starting 45 to 75 minutes from now. */
  lemma Windows(e: Event, now: int)
    ensures Selected(e, Reminder24h, now) <==> e.status == "published" && now + 23 * HOUR <= e.start <= now + 25 * HOUR
    ensures Selected(e, Reminder1h, now) <==> e.status == "published" && now + 45 * MINUTE <= e.start <= now + 75 * MINUTE
  {
  }

  predicate Successful(n: Notification) {
    n.status == Sent || n.status == Delivered
  }

  /** The duplicate check: a sent or delivered notification of the type, for the event,
      to the address. */
  predicate AlreadySent(ns: seq<Notification>, nt: NotificationType, eventId: nat, email: string) {
    exists n :: n in ns && n.ntype == nt && n.event == Some(eventId) && n.recipient == email && Successful(n)
  }

  /** No two successful notifications share type, event and address. */
  predicate Unduplicated(ns: seq<Notification>) {
    forall i, j :: (0 <= i < j < |ns| && ns[i].ntype == ns[j].ntype && ns[i].event == ns[j].event
                    && ns[i].recipient == ns[j].recipient) ==> !(Successful(ns[i]) && Successful(ns[j]))
  }

  /** A notification sent only after the duplicate check passed keeps the table free
      of duplicate successes. */
  lemma {:induction false} AppendKeepsUnduplicated(ns: seq<Notification>, n: Notification)
    requires Unduplicated(ns) && n.event.Some? && !AlreadySent(ns, n.ntype, n.event.value, n.recipient)
    ensures Unduplicated(ns + [n])
  {
    var t := ns + [n];
    forall i, j | 0 <= i < j < |t| && t[i].ntype == t[j].ntype && t[i].event == t[j].event && t[i].recipient == t[j].recipient
      ensures !(Successful(t[i]) && Successful(t[j]))
    {
      if j == |ns| {
        assert t[i] in ns;
      } else {
        assert t[i] == ns[i] && t[j] == ns[j];
      }
    }
  }

  function IsSent(n: Notification): bool {
    n.status == Sent
  }

  lemma {:induction false} CountConcat<T(!new)>(a: seq<T>, b: seq<T>, p: T -> bool)
    ensures Count(a + b, p) == Count(a, p) + Count(b, p)
  {
    if a != [] {
      assert (a + b)[1..] == a[1..] + b;
      CountConcat(a[1..], b, p);
    } else {
      assert a + b == b;
    }
  }

  /** A reminder of type `nt` for event `e` to one of `targets`. */
  predicate ReminderTo(n: Notification, nt: NotificationType, e: Event, targets: seq<Attendee>) {
    n.ntype == nt && n.channel == Email && n.event == Some(e.id)
    && exists a :: a in targets && a.email == n.recipient
  }

  /** A reminder of type `nt` to a confirmed attendee of `e`. */
  predicate ReminderOf(n: Notification, nt: NotificationType, e: Event, attendees: seq<Attendee>) {
    ReminderTo(n, nt, e, ConfirmedOf(attendees, e.id))
  }

  /** Appending a reminder keeps the rows appended since `start` all reminders, and
      counts it when it came out sent. */
  lemma ExtendReminders(start: seq<Notification>, before: seq<Notification>, n: Notification,
                        nt: NotificationType, e: Event, targets: seq<Attendee>)
    requires |start| <= |before| && before[..|start|] == start
    requires forall k :: |start| <= k < |before| ==> ReminderTo(before[k], nt, e, targets)
    requires ReminderTo(n, nt, e, targets)
    ensures var after := before + [n];
      |start| <= |after| && after[..|start|] == start
      && (forall k :: |start| <= k < |after| ==> ReminderTo(after[k], nt, e, targets))
      && Count(after[|start|..], IsSent) == Count(before[|start|..], IsSent) + (if IsSent(n) then 1 else 0)
  {
    var after := before + [n];
    assert after[..|start|] == before[..|start|];
    assert after[|start|..] == before[|start|..] + [n];
    CountAppend(before[|start|..], n, IsSent);
  }

  /** A notification of type `nt` for the event to the address, at `from` or later. */
  predicate SentSince(ns: seq<Notification>, from: nat, nt: NotificationType, eventId: nat, email: string) {
    exists k :: from <= k < |ns| && ns[k].ntype == nt && ns[k].event == Some(eventId) && ns[k].recipient == email
  }

  /** What the command promises each eligible address: it had a successful reminder
      of the type for the event in `start` already, or one was sent to it since. */
  predicate Covered(start: seq<Notification>, ns: seq<Notification>, nt: NotificationType, eventId: nat, email: string) {
    AlreadySent(start, nt, eventId, email) || SentSince(ns, |start|, nt, eventId, email)
  }

  /** Rows appended later do not take an address's reminder away. */
  lemma CoveredGrows(start: seq<Notification>, before: seq<Notification>, after: seq<Notification>,
                     nt: NotificationType, eventId: nat, email: string)
    requires |before| <= |after| && after[..|before|] == before
    requires Covered(start, before, nt, eventId, email)
    ensures Covered(start, after, nt, eventId, email)
  {
    if SentSince(before, |start|, nt, eventId, email) {
      var k :| |start| <= k < |before| && before[k].ntype == nt && before[k].event == Some(eventId) && before[k].recipient == email;
      assert after[k] == before[k];
    }
  }

  /** A step that found the address already reminded in `before`, or sent it one,
      leaves it covered since `start`. */
  lemma CoveredByStep(start: seq<Notification>, before: seq<Notification>, after: seq<Notification>,
                      nt: NotificationType, eventId: nat, email: string)
    requires |start| <= |before| <= |after| && before[..|start|] == start && after[..|before|] == before
    requires AlreadySent(before, nt, eventId, email) || SentSince(after, |before|, nt, eventId, email)
    ensures Covered(start, after, nt, eventId, email)
  {
    if AlreadySent(before, nt, eventId, email) {
      var n :| n in before && n.ntype == nt && n.event == Some(eventId) && n.recipient == email && Successful(n);
      var k :| 0 <= k < |before| && before[k] == n;
      if k < |start| {
        assert start[k] == n;
      } else {
        assert after[k] == n;
      }
    }
  }

  /** After the step for `targets[i]`, the first `i + 1` targets are all covered
      since `start`. */
  lemma CoverEach(start: seq<Notification>, before: seq<Notification>, after: seq<Notification>,
                  nt: NotificationType, eventId: nat, targets: seq<Attendee>, i: nat)
    requires |start| <= |before| <= |after| && before[..|start|] == start && after[..|before|] == before
    requires i < |targets|
    requires forall j :: 0 <= j < i ==> Covered(start, before, nt, eventId, targets[j].email)
    requires AlreadySent(before, nt, eventId, targets[i].email) || SentSince(after, |before|, nt, eventId, targets[i].email)
    ensures forall j :: 0 <= j < i + 1 ==> Covered(start, after, nt, eventId, targets[j].email)
  {
    CoveredByStep(start, before, after, nt, eventId, targets[i].email);
    forall j | 0 <= j < i ensures Covered(start, after, nt, eventId, targets[j].email) {
      CoveredGrows(start, before, after, nt, eventId, targets[j].email);
    }
  }

  /** One step of the inner loop: the attendee is sent a reminder unless one of the type
      for the event already reached the address; `added` is 1 when it came out sent. */
  method RemindOne(db: Database, a: Attendee, e: Event, nt: NotificationType, d: Delivery, now: int)
    returns (added: nat)
    requires db.Valid() && Unduplicated(db.notifications)
    modifies db`templates, db`notifications, db`nextId
    ensures db.Valid() && Unduplicated(db.notifications)
    ensures AlreadySent(old(db.notifications), nt, e.id, a.email) ==> db.notifications == old(db.notifications) && added == 0
    ensures !AlreadySent(old(db.notifications), nt, e.id, a.email) ==>
      |db.notifications| == |old(db.notifications)| + 1 && db.notifications[..|old(db.notifications)|] == old(db.notifications)
      && var n := db.notifications[|old(db.notifications)|];
         n.ntype == nt && n.channel == Email && n.event == Some(e.id) && n.recipient == a.email
         && added == if IsSent(n) then 1 else 0
    ensures |old(db.notifications)| <= |db.notifications| && db.notifications[..|old(db.notifications)|] == old(db.notifications)
    ensures AlreadySent(old(db.notifications), nt, e.id, a.email)
            || SentSince(db.notifications, |old(db.notifications)|, nt, e.id, a.email)
  {
    added := 0;
    if !AlreadySent(db.notifications, nt, e.id, a.email) {
      ghost var before := db.notifications;
      var n := SendNotification(db, nt, Email, a.email, Some(e.id), None, None, d, now);
      AppendKeepsUnduplicated(before, n);
      assert db.notifications[..|before|] == before;
      if n.status == Sent {
        added := 1;
      }
    }
  }

  /** One step of the inner loop: `targets[i]` is reminded unless already reached, and
      the loop's invariant moves from the first `i` targets to the first `i + 1`. */
  method RemindTarget(db: Database, targets: seq<Attendee>, i: nat, ghost start: seq<Notification>, sent: nat,
                      e: Event, nt: NotificationType, d: Delivery, now: int)
    returns (total: nat)
    requires db.Valid() && Unduplicated(db.notifications) && i < |targets|
    requires |start| <= |db.notifications| && db.notifications[..|start|] == start
    requires sent == Count(db.notifications[|start|..], IsSent)
    requires forall k :: |start| <= k < |db.notifications| ==> ReminderTo(db.notifications[k], nt, e, targets)
    requires forall j :: 0 <= j < i ==> Covered(start, db.notifications, nt, e.id, targets[j].email)
    modifies db`templates, db`notifications, db`nextId
    ensures db.Valid() && Unduplicated(db.notifications)
    ensures |start| <= |db.notifications| && db.notifications[..|start|] == start
    ensures total == Count(db.notifications[|start|..], IsSent)
    ensures forall k :: |start| <= k < |db.notifications| ==> ReminderTo(db.notifications[k], nt, e, targets)
    ensures forall j :: 0 <= j < i + 1 ==> Covered(start, db.notifications, nt, e.id, targets[j].email)
  {
    ghost var before := db.notifications;
    var added := RemindOne(db, targets[i], e, nt, d, now);
    if db.notifications != before {
      var n := db.notifications[|before|];
      assert db.notifications == before + [n];
      assert targets[i] in targets;
      ExtendReminders(start, before, n, nt, e, targets);
    }
    CoverEach(start, before, db.notifications, nt, e.id, targets, i);
    total := sent + added;
  }

  /** The inner loop over `targets`: the rows it adds are each a reminder to one of them,
      and the count is of those that came out sent. */
  method RemindEach(db: Database, targets: seq<Attendee>, e: Event, nt: NotificationType, d: Delivery, now: int)
    returns (sent: nat)
    requires db.Valid() && Unduplicated(db.notifications)
    modifies db`templates, db`notifications, db`nextId
    ensures db.Valid() && Unduplicated(db.notifications)
    ensures |old(db.notifications)| <= |db.notifications| && db.notifications[..|old(db.notifications)|] == old(db.notifications)
    ensures sent == Count(db.notifications[|old(db.notifications)|..], IsSent)
    ensures forall k :: |old(db.notifications)| <= k < |db.notifications| ==> ReminderTo(db.notifications[k], nt, e, targets)
    ensures forall a :: a in targets ==> Covered(old(db.notifications), db.notifications, nt, e.id, a.email)
  {
    ghost var start := db.notifications;
    assert db.notifications[|start|..] == [];
    sent := 0;
    for i := 0 to |targets|
      invariant db.Valid() && Unduplicated(db.notifications)
      invariant |start| <= |db.notifications| && db.notifications[..|start|] == start
      invariant sent == Count(db.notifications[|start|..], IsSent)
      invariant forall k :: |start| <= k < |db.notifications| ==> ReminderTo(db.notifications[k], nt, e, targets)
      invariant forall j :: 0 <= j < i ==> Covered(start, db.notifications, nt, e.id, targets[j].email)
    {
      sent := RemindTarget(db, targets, i, start, sent, e, nt, d, now);
    }
  }

  /** The inner loop, over the confirmed attendees of one event: each one not reminded
      successfully yet is sent a reminder; the count is of those that came out sent. */
  method RemindAttendees(db: Database, e: Event, nt: NotificationType, d: Delivery, now: int) returns (sent: nat)
    requires db.Valid() && Unduplicated(db.notifications)
    modifies db`templates, db`notifications, db`nextId
    ensures db.Valid() && Unduplicated(db.notifications)
    ensures |old(db.notifications)| <= |db.notifications| && db.notifications[..|old(db.notifications)|] == old(db.notifications)
    ensures sent == Count(db.notifications[|old(db.notifications)|..], IsSent)
    ensures forall k :: |old(db.notifications)| <= k < |db.notifications| ==> ReminderOf(db.notifications[k], nt, e, db.attendees)
    ensures forall a :: a in ConfirmedOf(db.attendees, e.id) ==> Covered(old(db.notifications), db.notifications, nt, e.id, a.email)
  {
    var confirmed := ConfirmedOf(db.attendees, e.id);
    sent := RemindEach(db, confirmed, e, nt, d, now);
  }

  /** A reminder of type `nt` for one of `events`. */
  predicate ReminderForOneOf(n: Notification, nt: NotificationType, events: seq<Event>, attendees: seq<Attendee>) {
    exists e :: e in events && ReminderOf(n, nt, e, attendees)
  }

  /** A batch of reminders for one of `events`, appended after rows that are each a
      reminder for one of them, keeps them all so, and the sent counts add up. */
  lemma ExtendBatch(start: seq<Notification>, before: seq<Notification>, after: seq<Notification>,
                    nt: NotificationType, events: seq<Event>, e: Event, attendees: seq<Attendee>)
    requires |start| <= |before| <= |after| && before[..|start|] == start && after[..|before|] == before
    requires forall k :: |start| <= k < |before| ==> ReminderForOneOf(before[k], nt, events, attendees)
    requires e in events && forall k :: |before| <= k < |after| ==> ReminderOf(after[k], nt, e, attendees)
    ensures after[..|start|] == start
    ensures forall k :: |start| <= k < |after| ==> ReminderForOneOf(after[k], nt, events, attendees)
    ensures Count(after[|start|..], IsSent) == Count(before[|start|..], IsSent) + Count(after[|before|..], IsSent)
  {
    assert after[|start|..] == before[|start|..] + after[|before|..];
    CountConcat(before[|start|..], after[|before|..], IsSent);
    forall k | |start| <= k < |after| ensures ReminderForOneOf(after[k], nt, events, attendees) {
      if k < |before| {
        assert after[k] == before[k];
      }
    }
  }

  /** The confirmed attendees of the first `n` of `events` are all covered since `start`. */
  predicate CoveredEvents(start: seq<Notification>, ns: seq<Notification>, nt: NotificationType,
                          events: seq<Event>, n: nat, attendees: seq<Attendee>)
    requires n <= |events|
  {
    forall j, a :: 0 <= j < n && a in ConfirmedOf(attendees, events[j].id) ==> Covered(start, ns, nt, events[j].id, a.email)
  }

  /** Covering the attendees of every one of `events` covers those of each event in it. */
  lemma CoveredEventsAll(start: seq<Notification>, ns: seq<Notification>, nt: NotificationType,
                         events: seq<Event>, attendees: seq<Attendee>)
    requires CoveredEvents(start, ns, nt, events, |events|, attendees)
    ensures forall e, a :: e in events && a in ConfirmedOf(attendees, e.id) ==> Covered(start, ns, nt, e.id, a.email)
  {
    forall e, a | e in events && a in ConfirmedOf(attendees, e.id) ensures Covered(start, ns, nt, e.id, a.email) {
      var j :| 0 <= j < |events| && events[j] == e;
    }
  }

  /** After the batch for `events[i]`, the attendees of the first `i + 1` events are
      all covered since `start`. */
  lemma CoverBatch(start: seq<Notification>, before: seq<Notification>, after: seq<Notification>,
                   nt: NotificationType, events: seq<Event>, i: nat, attendees: seq<Attendee>)
    requires |start| <= |before| <= |after| && before[..|start|] == start && after[..|before|] == before
    requires i < |events| && CoveredEvents(start, before, nt, events, i, attendees)
    requires forall a :: a in ConfirmedOf(attendees, events[i].id) ==> Covered(before, after, nt, events[i].id, a.email)
    ensures CoveredEvents(start, after, nt, events, i + 1, attendees)
  {
    forall j, a | 0 <= j < i + 1 && a in ConfirmedOf(attendees, events[j].id)
      ensures Covered(start, after, nt, events[j].id, a.email)
    {
      if j < i {
        CoveredGrows(start, before, after, nt, events[j].id, a.email);
      } else {
        CoveredByStep(start, before, after, nt, events[j].id, a.email);
      }
    }
  }

  /** One step of the outer loop: the attendees of `events[i]` are reminded, and the
      loop's invariant moves from the first `i` events to the first `i + 1`. */
  method RemindNext(db: Database, events: seq<Event>, i: nat, ghost start: seq<Notification>, sent: nat,
                    nt: NotificationType, d: Delivery, now: int)
    returns (total: nat)
    requires db.Valid() && Unduplicated(db.notifications) && i < |events|
    requires |start| <= |db.notifications| && db.notifications[..|start|] == start
    requires sent == Count(db.notifications[|start|..], IsSent)
    requires forall k :: |start| <= k < |db.notifications| ==> ReminderForOneOf(db.notifications[k], nt, events, db.attendees)
    requires CoveredEvents(start, db.notifications, nt, events, i, db.attendees)
    modifies db`templates, db`notifications, db`nextId
    ensures db.Valid() && Unduplicated(db.notifications)
    ensures |start| <= |db.notifications| && db.notifications[..|start|] == start
    ensures total == Count(db.notifications[|start|..], IsSent)
    ensures forall k :: |start| <= k < |db.notifications| ==> ReminderForOneOf(db.notifications[k], nt, events, db.attendees)
    ensures CoveredEvents(start, db.notifications, nt, events, i + 1, db.attendees)
  {
    ghost var before := db.notifications;
    var m := RemindAttendees(db, events[i], nt, d, now);
    ExtendBatch(start, before, db.notifications, nt, events, events[i], db.attendees);
    CoverBatch(start, before, db.notifications, nt, events, i, db.attendees);
    total := sent + m;
  }

  /** The outer loop over `events`: the rows it adds are each a reminder for one of
      them, none duplicates a successful one, and the count is of those that came out
      sent. */
  method RemindForEvents(db: Database, events: seq<Event>, nt: NotificationType, d: Delivery, now: int)
    returns (sent: nat)
    requires db.Valid() && Unduplicated(db.notifications)
    modifies db`templates, db`notifications, db`nextId
    ensures db.Valid() && Unduplicated(db.notifications)
    ensures |old(db.notifications)| <= |db.notifications| && db.notifications[..|old(db.notifications)|] == old(db.notifications)
    ensures sent == Count(db.notifications[|old(db.notifications)|..], IsSent)
    ensures forall k :: |old(db.notifications)| <= k < |db.notifications| ==>
      ReminderForOneOf(db.notifications[k], nt, events, db.attendees)
    ensures forall e, a :: e in events && a in ConfirmedOf(db.attendees, e.id) ==>
      Covered(old(db.notifications), db.notifications, nt, e.id, a.email)
  {
    ghost var start := db.notifications;
    assert db.notifications[|start|..] == [];
    sent := 0;
    for i := 0 to |events|
      invariant db.Valid() && Unduplicated(db.notifications)
      invariant |start| <= |db.notifications| && db.notifications[..|start|] == start
      invariant sent == Count(db.notifications[|start|..], IsSent)
      invariant forall k :: |start| <= k < |db.notifications| ==> ReminderForOneOf(db.notifications[k], nt, events, db.attendees)
      invariant CoveredEvents(start, db.notifications, nt, events, i, db.attendees)
    {
      sent := RemindNext(db, events, i, start, sent, nt, d, now);
    }
    CoveredEventsAll(start, db.notifications, nt, events, db.attendees);
  }

  /** `Command.handle`: a dry run sends nothing; otherwise every new notification is a
      reminder of the chosen type to a confirmed attendee of a selected event, none
      duplicates a successful one, and the count is of those that came out sent. */
  method SendEventReminders(db: Database, t: ReminderType, dryRun: bool, d: Delivery, now: int) returns (sent: nat)
    requires db.Valid() && Unduplicated(db.notifications)
    modifies db`templates, db`notifications, db`nextId
    ensures db.Valid() && Unduplicated(db.notifications)
    ensures dryRun ==> sent == 0 && db.notifications == old(db.notifications)
    ensures |old(db.notifications)| <= |db.notifications| && db.notifications[..|old(db.notifications)|] == old(db.notifications)
    ensures sent == Count(db.notifications[|old(db.notifications)|..], IsSent)
    ensures forall k :: |old(db.notifications)| <= k < |db.notifications| ==>
      ReminderForOneOf(db.notifications[k], ReminderNotificationType(t), SelectedEvents(db.events, t, now), db.attendees)
    ensures !dryRun ==> forall e, a :: e in SelectedEvents(db.events, t, now) && a in ConfirmedOf(db.attendees, e.id) ==>
      Covered(old(db.notifications), db.notifications, ReminderNotificationType(t), e.id, a.email)
  {
    var nt := ReminderNotificationType(t);
    var events := SelectedEvents(db.events, t, now);
    if dryRun {
      sent := 0;
      assert db.notifications[|db.notifications|..] == [];
      return;
    }
    sent := RemindForEvents(db, events, nt, d, now);
  }
}
