/** `PendingInvitations`: the organization's list of open invitations, with the time
    each has left, a per-row action menu, and a confirmation dialog for cancelling. */
module PendingInvitations {
  import opened Common
  import opened Text
  import opened Frontend

  const HOUR_MS := 1000 * 60 * 60
  const DAY_MS := 1000 * 60 * 60 * 24

  const EXPIRED := "Expired"
  const EXPIRES_SOON := "Expires soon"

  /** "N day left", "N days left", "N hour left", ... */
  function Remaining(n: nat, unit: string): string {
    NatToString(n) + " " + unit + (if n > 1 then "s" else "") + " left"
  }

  /** A count label starts with a digit, so it is never one of the two fixed labels. */
  lemma RemainingIsNotFixed(n: nat, unit: string)
    ensures Remaining(n, unit) != EXPIRED && Remaining(n, unit) != EXPIRES_SOON
  {
    assert Remaining(n, unit)[0] == NatToString(n)[0];
  }

  /** `formatTimeRemaining`. The expiry is the instant `new Date(expiredAt)` denotes,
      in milliseconds, or `None` when the text is not a date (its `getTime()` is
      `NaN`); `now` is the clock. A `NaN` difference fails every comparison and so
      falls through to "Expires soon". */
  function FormatTimeRemaining(expiry: Option<int>, now: int): (r: string)
    ensures r == EXPIRED <==> expiry.Some? && expiry.value - now <= 0
    ensures r == EXPIRES_SOON <==> expiry.None? || 0 < expiry.value - now < HOUR_MS
    ensures forall d: nat {:trigger Remaining(d, "day")} ::
      expiry.Some? && 1 <= d && d * DAY_MS <= expiry.value - now < (d + 1) * DAY_MS ==>
        r == Remaining(d, "day")
    ensures forall h: nat {:trigger Remaining(h, "hour")} ::
      expiry.Some? && 1 <= h < 24 && h * HOUR_MS <= expiry.value - now < (h + 1) * HOUR_MS ==>
        r == Remaining(h, "hour")
  {
    if expiry.None? then
      EXPIRES_SOON
    else
      var diff := expiry.value - now;
      if diff <= 0 then EXPIRED
      else
        var days := diff / DAY_MS;
        var hours := (diff % DAY_MS) / HOUR_MS;
        RemainingIsNotFixed(days, "day");
        RemainingIsNotFixed(hours, "hour");
        DaysOf(diff);
        HoursOf(diff);
        if days > 0 then Remaining(days, "day")
        else if hours > 0 then Remaining(hours, "hour")
        else EXPIRES_SOON
  }

  /** The whole days in a positive difference are its quotient by a day. */
  lemma DaysOf(diff: int)
    requires diff > 0
    ensures forall d: nat :: d * DAY_MS <= diff < (d + 1) * DAY_MS ==> diff / DAY_MS == d
    ensures diff / DAY_MS == 0 <==> diff < DAY_MS
  {
    forall d: nat | d * DAY_MS <= diff < (d + 1) * DAY_MS
      ensures diff / DAY_MS == d
    {
    }
  }

  /** Under a day, the hours are the quotient by an hour; the remainder by a day is the
      difference itself. */
  lemma HoursOf(diff: int)
    requires diff > 0
    ensures diff < DAY_MS ==> diff % DAY_MS == diff
    ensures forall h: nat :: h * HOUR_MS <= diff < (h + 1) * HOUR_MS ==> diff / HOUR_MS == h
    ensures diff < DAY_MS ==> ((diff % DAY_MS) / HOUR_MS == 0 <==> diff < HOUR_MS)
  {
    forall h: nat | h * HOUR_MS <= diff < (h + 1) * HOUR_MS
      ensures diff / HOUR_MS == h
    {
    }
  }

  /** A pending invitation as the list shows it. */
  datatype Invitation = Invitation(
    id: string, email: string, token: string, expiry: Option<int>,
    inviterName: string, inviterEmail: string)

  /** One row: the address, who invited, the time left, and whether its menu is open. */
  datatype Row = Row(email: string, invitedBy: string, remaining: string, menuOpen: bool)

  datatype ListView = EmptyState | Listing(count: nat, rows: seq<Row>)

  function RowOf(inv: Invitation, now: int, open: Option<string>): Row {
    Row(inv.email, OrElse(Some(inv.inviterName), inv.inviterEmail),
        FormatTimeRemaining(inv.expiry, now), open == Some(inv.id))
  }

  class PendingInvitationsList {
    /** The id whose cancellation awaits confirmation, and the id whose menu is open. */
    var showCancelDialog: Option<string>
    var actionMenuOpen: Option<string>
    /** The ids handed to `onResendInvitation` and `onCancelInvitation`, and the
        tokens handed to `onCopyInviteLink`. */
    var resent: seq<string>
    var cancelled: seq<string>
    var copied: seq<string>

    constructor()
      ensures showCancelDialog == None && actionMenuOpen == None
      ensures resent == [] && cancelled == [] && copied == []
    {
      showCancelDialog := None;
      actionMenuOpen := None;
      resent := [];
      cancelled := [];
      copied := [];
    }

    /** The dialog is open when the chosen id is truthy, so an empty id hides it. */
    predicate DialogOpen()
      reads this
    {
      showCancelDialog.Some? && showCancelDialog.value != []
    }

    /** The backdrop that closes the menu is there while an id is truthy. */
    predicate OverlayShown()
      reads this
    {
      actionMenuOpen.Some? && actionMenuOpen.value != []
    }

    /** An empty list shows the empty state; otherwise one row per invitation, in
        order, with the menu open on exactly the row whose id is the open one. */
    function View(invitations: seq<Invitation>, now: int): (v: ListView)
      reads this
      ensures v == EmptyState <==> |invitations| == 0
      ensures v.Listing? ==> v.count == |invitations| && |v.rows| == |invitations|
      ensures v.Listing? ==> forall i :: 0 <= i < |invitations| ==>
        v.rows[i].email == invitations[i].email
        && v.rows[i].remaining == FormatTimeRemaining(invitations[i].expiry, now)
        && (v.rows[i].menuOpen <==> actionMenuOpen == Some(invitations[i].id))
      ensures v.Listing? ==> forall i :: 0 <= i < |invitations| ==>
        v.rows[i].invitedBy == if invitations[i].inviterName != [] then invitations[i].inviterName
                               else invitations[i].inviterEmail
    {
      var open := actionMenuOpen;
      if |invitations| == 0 then EmptyState
      else Listing(|invitations|, seq(|invitations|, i requires 0 <= i < |invitations| => RowOf(invitations[i], now, open)))
    }

    /** The menu button of a row: it closes that row's menu when it is the open one,
        and otherwise opens that row's menu in place of any other. */
    method ToggleMenu(id: string)
      modifies this`actionMenuOpen
      ensures old(actionMenuOpen) == Some(id) ==> actionMenuOpen == None
      ensures old(actionMenuOpen) != Some(id) ==> actionMenuOpen == Some(id)
    {
      actionMenuOpen := if actionMenuOpen == Some(id) then None else Some(id);
    }

    /** "Resend Invitation", shown only in the open menu: the id goes to the callback
        and the menu closes. */
    method Resend(id: string)
      requires actionMenuOpen == Some(id)
      modifies this`resent, this`actionMenuOpen
      ensures resent == old(resent) + [id] && actionMenuOpen == None
    {
      resent := resent + [id];
      actionMenuOpen := None;
    }

    /** "Cancel Invitation" in the open menu: it only asks, by choosing the id for the
        dialog, and closes the menu. Nothing is cancelled yet. */
    method AskCancel(id: string)
      requires actionMenuOpen == Some(id)
      modifies this`showCancelDialog, this`actionMenuOpen
      ensures showCancelDialog == Some(id) && actionMenuOpen == None
      ensures id != [] ==> DialogOpen()
    {
      showCancelDialog := Some(id);
      actionMenuOpen := None;
    }

    /** The dialog's confirm: the chosen id, when truthy, goes to the callback and the
        dialog closes; otherwise nothing happens. */
    method ConfirmCancel()
      modifies this`showCancelDialog, this`cancelled
      ensures old(DialogOpen()) ==> cancelled == old(cancelled) + [old(showCancelDialog).value]
      ensures old(DialogOpen()) ==> showCancelDialog == None
      ensures !old(DialogOpen()) ==> cancelled == old(cancelled) && showCancelDialog == old(showCancelDialog)
      ensures !DialogOpen()
    {
      if showCancelDialog.Some? && showCancelDialog.value != [] {
        cancelled := cancelled + [showCancelDialog.value];
        showCancelDialog := None;
      }
    }

    /** The dialog's close: the choice is dropped and nothing is cancelled. */
    method DismissDialog()
      modifies this`showCancelDialog
      ensures showCancelDialog == None && !DialogOpen()
    {
      showCancelDialog := None;
    }

    /** A click on the backdrop closes the menu. */
    method ClickOutside()
      requires OverlayShown()
      modifies this`actionMenuOpen
      ensures actionMenuOpen == None && !OverlayShown()
    {
      actionMenuOpen := None;
    }

    /** "Copy Link" hands the row's token to the callback. */
    method CopyLink(inv: Invitation)
      modifies this`copied
      ensures copied == old(copied) + [inv.token]
    {
      copied := copied + [inv.token];
    }
  }
}
