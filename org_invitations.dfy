/** The organization invitation service: the owner sends, cancels and resends
    invitations; anyone holding a token verifies it and accepts it by creating
    an organization-admin account. */
module OrgInvitationService {
  import opened Common
  import opened Store
  import opened Notifications
  import opened Users
  import opened OrganizationModels

  /** `organization.created_by != user` compares keys: no creator owns nothing. */
  predicate Owns(org: Organization, user: User) {
    org.createdBy == Some(user.id)
  }

  /** A not yet accepted invitation of the organization for the e-mail. */
  predicate IsOpenFor(v: OrgInvitation, orgId: nat, email: string) {
    v.organization == orgId && v.email == email && !v.isAccepted
  }

  function OpenFor(orgId: nat, email: string): OrgInvitation -> bool {
    (v: OrgInvitation) => IsOpenFor(v, orgId, email)
  }

  /** The row with key `id`, whose deletion `invitation.delete()` performs. */
  function WithId(id: nat): OrgInvitation -> bool {
    (v: OrgInvitation) => v.id == id
  }

  /** `organization.invitations.filter(email=email, is_invitation_accepted=False).first()`. */
  function OpenIndex(invs: seq<OrgInvitation>, orgId: nat, email: string): (r: Option<nat>)
    ensures r.Some? ==> r.value < |invs| && IsOpenFor(invs[r.value], orgId, email)
    ensures r.None? ==> forall v :: v in invs ==> !IsOpenFor(v, orgId, email)
  {
    FirstIndex(invs, OpenFor(orgId, email))
  }

  /** An accepted invitation of the organization for the e-mail, which the deletion
      keeps and the unique pair then collides with. */
  predicate AcceptedExists(invs: seq<OrgInvitation>, orgId: nat, email: string) {
    exists v :: v in invs && v.organization == orgId && v.email == email && v.isAccepted
  }

  /** The checks of `send_invitation` before its transaction, in their order: the
      owner, an account already using the e-mail, a still valid open invitation. */
  function SendCheck(org: Organization, user: User, users: seq<User>, invs: seq<OrgInvitation>, email: string, now: int)
    : (r: Option<Err>)
    ensures !Owns(org, user) ==> r == Some(PermissionDenied("Only organization owner can send invitations."))
    ensures Owns(org, user) && UserByEmail(users, email).Some? ==>
      r == Some(Invalid("User is alredy register on the platform."))
    ensures r.None? <==>
      Owns(org, user) && UserByEmail(users, email).None?
      && (OpenIndex(invs, org.id, email).None? || !IsValid(invs[OpenIndex(invs, org.id, email).value], now))
    ensures r.Some? && Owns(org, user) && UserByEmail(users, email).None? ==>
      r == Some(Invalid("A pending invitation already exists for this email"))
  {
    if !Owns(org, user) then Some(PermissionDenied("Only organization owner can send invitations."))
    else if UserByEmail(users, email).Some? then Some(Invalid("User is alredy register on the platform."))
    else
      var k := OpenIndex(invs, org.id, email);
      if k.Some? && IsValid(invs[k.value], now) then Some(Invalid("A pending invitation already exists for this email"))
      else None
  }

  /** The invitations `send_invitation` leaves: the open ones for the pair replaced by `v`. */
  function AfterSend(invs: seq<OrgInvitation>, orgId: nat, email: string, v: OrgInvitation): (r: seq<OrgInvitation>)
    ensures v in r && forall w :: w in r ==> w in invs || w == v
  {
    FilterOut(invs, OpenFor(orgId, email)) + [v]
  }

  /** After a send the new invitation is the only open one for its pair, and the
      pairs stay unique when no accepted invitation held the pair before. */
  lemma AfterSendUnique(invs: seq<OrgInvitation>, orgId: nat, email: string, v: OrgInvitation)
    requires v.organization == orgId && v.email == email
    ensures forall w :: w in AfterSend(invs, orgId, email, v) && IsOpenFor(w, orgId, email) ==> w == v
    ensures UniquePerOrgEmail(invs) && !AcceptedExists(invs, orgId, email) ==>
      UniquePerOrgEmail(AfterSend(invs, orgId, email, v))
  {
    var kept := FilterOut(invs, OpenFor(orgId, email));
    assert forall w :: w in kept ==> !IsOpenFor(w, orgId, email);
  }

  /** `send_invitation`: after its checks it deletes every open invitation of the
      organization for the e-mail (and their notifications), creates one new
      invitation, and sends it; when an accepted invitation for the pair remains,
      the creation breaks the unique pair and the whole transaction is undone. */
  method SendInvitation(db: Database, org: Organization, user: User, email: string, d: Delivery, now: int)
    returns (r: Result<OrgInvitation>)
    requires db.Valid()
    modifies db`orgInvitations, db`notifications, db`templates, db`nextId
    ensures db.Valid()
    ensures SendCheck(org, user, old(db.users), old(db.orgInvitations), email, now).Some? ==>
      r == Fail(SendCheck(org, user, old(db.users), old(db.orgInvitations), email, now).value)
    ensures (SendCheck(org, user, old(db.users), old(db.orgInvitations), email, now).None?
             && AcceptedExists(old(db.orgInvitations), org.id, email)) ==>
      r == Fail(Crash(INTEGRITY_ERROR))
    ensures r.Ok? <==>
      SendCheck(org, user, old(db.users), old(db.orgInvitations), email, now).None?
      && !AcceptedExists(old(db.orgInvitations), org.id, email)
    ensures r.Fail? ==> db.orgInvitations == old(db.orgInvitations) && db.notifications == old(db.notifications)
    ensures r.Ok? ==> SentState(db, r.value, org, user, email, now, old(db.nextId), old(db.orgInvitations), old(db.notifications))
    ensures UniquePerOrgEmail(old(db.orgInvitations)) ==> UniquePerOrgEmail(db.orgInvitations)
  {
    var check := SendCheck(org, user, db.users, db.orgInvitations, email, now);
    if check.Some? {
      return Fail(check.value);
    }
    if AcceptedExists(db.orgInvitations, org.id, email) {
      return Fail(Crash(INTEGRITY_ERROR));
    }
    var v := SendInTransaction(db, org, user, email, d, now);
    return Ok(v);
  }

  /** The state a successful send leaves: `v` is a fresh invitation for the pair,
      it replaced the open ones for the pair, their notifications are gone and one
      invitation notification for `v` was added. */
  ghost predicate SentState(db: Database, v: OrgInvitation, org: Organization, user: User, email: string, now: int,
                            nextId: nat, invs: seq<OrgInvitation>, notes: seq<Notification>)
    reads db
  {
    var kept := FilterOut(notes, CascadedBy(IdsWhere(invs, OpenFor(org.id, email))));
    v == NewOrgInvitation(v.id, v.token, org.id, email, user.id, now)
    && nextId <= v.token && (forall w :: w in invs ==> w.token != v.token)
    && db.orgInvitations == AfterSend(invs, org.id, email, v)
    && |db.notifications| == |kept| + 1 && db.notifications[..|kept|] == kept
    && db.notifications[|kept|].ntype == OrgInvitationSent && db.notifications[|kept|].recipient == email
    && db.notifications[|kept|].invitation == Some(v.id)
  }

  /** The `transaction.atomic()` block of `send_invitation`, reached only when no
      accepted invitation holds the pair. */
  method SendInTransaction(db: Database, org: Organization, user: User, email: string, d: Delivery, now: int)
    returns (v: OrgInvitation)
    requires db.Valid() && !AcceptedExists(db.orgInvitations, org.id, email)
    modifies db`orgInvitations, db`notifications, db`templates, db`nextId
    ensures db.Valid()
    ensures SentState(db, v, org, user, email, now, old(db.nextId), old(db.orgInvitations), old(db.notifications))
    ensures UniquePerOrgEmail(old(db.orgInvitations)) ==> UniquePerOrgEmail(db.orgInvitations)
  {
    ghost var kept := FilterOut(db.notifications, CascadedBy(IdsWhere(db.orgInvitations, OpenFor(org.id, email))));
    ghost var before := db.orgInvitations;
    v := ReplaceOpen(db, org, user, email, now);
    AfterSendUnique(before, org.id, email, v);
    var n := SendOrgInvitation(db, v, d, now);
    assert db.notifications[..|kept|] == kept;
    assert db.notifications[|kept|] == n;
  }

  /** The deletion and the creation of `send_invitation`. */
  method ReplaceOpen(db: Database, org: Organization, user: User, email: string, now: int)
    returns (v: OrgInvitation)
    requires db.Valid() && !AcceptedExists(db.orgInvitations, org.id, email)
    modifies db`orgInvitations, db`notifications, db`nextId
    ensures db.Valid() && old(db.nextId) <= v.id < db.nextId && v.token < db.nextId
    ensures v == NewOrgInvitation(v.id, v.token, org.id, email, user.id, now)
    ensures old(db.nextId) <= v.token && (forall w :: w in old(db.orgInvitations) ==> w.token != v.token)
    ensures db.orgInvitations == AfterSend(old(db.orgInvitations), org.id, email, v)
    ensures db.notifications == FilterOut(old(db.notifications), CascadedBy(IdsWhere(old(db.orgInvitations), OpenFor(org.id, email))))
  {
    ghost var before := db.orgInvitations;
    db.DeleteOrgInvitations(OpenFor(org.id, email));
    var id := NewId(db);
    var token := NewId(db);
    v := NewOrgInvitation(id, token, org.id, email, user.id, now);
    assert forall w :: w in before ==> w.token != v.token;
    db.AddOrgInvitation(v);
  }

  /** `organization.invitations.get(id=..., is_invitation_accepted=False)`. */
  function OpenById(invs: seq<OrgInvitation>, orgId: nat, id: nat): (r: Option<nat>)
    ensures r.Some? ==>
      r.value < |invs| && invs[r.value].id == id && invs[r.value].organization == orgId && !invs[r.value].isAccepted
    ensures r.None? ==> forall v :: v in invs && v.id == id && v.organization == orgId ==> v.isAccepted
  {
    FirstIndex(invs, (v: OrgInvitation) => v.organization == orgId && v.id == id && !v.isAccepted)
  }

  /** `cancel_invitation`: only the owner, and only an open invitation of this
      organization; that invitation (and its notifications) is deleted. */
  method CancelInvitation(db: Database, org: Organization, user: User, id: nat) returns (r: Option<Err>)
    requires db.Valid()
    modifies db`orgInvitations, db`notifications
    ensures db.Valid()
    ensures !Owns(org, user) ==> r == Some(PermissionDenied("Only organization owner can cancel invitations"))
    ensures Owns(org, user) && OpenById(old(db.orgInvitations), org.id, id).None? ==>
      r == Some(NotFound("Invitation not found or already accepted"))
    ensures r.None? <==> Owns(org, user) && OpenById(old(db.orgInvitations), org.id, id).Some?
    ensures r.Some? ==> db.orgInvitations == old(db.orgInvitations) && db.notifications == old(db.notifications)
    ensures r.None? ==>
      db.orgInvitations == FilterOut(old(db.orgInvitations), WithId(id))
      && db.notifications == FilterOut(old(db.notifications), CascadedBy(IdsWhere(old(db.orgInvitations), WithId(id))))
      && (forall v :: v in db.orgInvitations ==> v.id != id)
      && (forall v :: v in old(db.orgInvitations) && v.id != id ==> v in db.orgInvitations)
  {
    if !Owns(org, user) {
      return Some(PermissionDenied("Only organization owner can cancel invitations"));
    }
    if OpenById(db.orgInvitations, org.id, id).None? {
      return Some(NotFound("Invitation not found or already accepted"));
    }
    db.DeleteOrgInvitations(WithId(id));
    return None;
  }

  function InvitationByToken(invs: seq<OrgInvitation>, token: nat): (r: Option<nat>)
    ensures r.Some? ==> r.value < |invs| && invs[r.value].token == token
    ensures r.None? ==> forall v :: v in invs ==> v.token != token
  {
    FirstIndex(invs, (v: OrgInvitation) => v.token == token)
  }

  /** What `verify_invitation_token` returns for the registration form. */
  datatype InvitationDetails = InvitationDetails(email: string, organizationName: string, invitedBy: string, expiredAt: int)

  /** The `AttributeError` of reading `invitation.accepted`, a field the model does not have. */
  const NO_ACCEPTED_ATTRIBUTE := "'OrganizationInvitation' object has no attribute 'accepted'"

  /** The `RelatedObjectDoesNotExist` of a dangling `invited_by` key. */
  const NO_INVITER := "OrganizationInvitation has no invited_by."

  /** `verify_invitation_token`: an unknown token, or one whose organization is gone
      (the `select_related` join finds no row), is not found; an invalid invitation
      always fails, because its first test reads a missing attribute; a valid one
      gives the e-mail, the organization's name, the inviter's name and the expiry. */
  function VerifyInvitationToken(users: seq<User>, orgs: seq<Organization>, invs: seq<OrgInvitation>, token: nat, now: int)
    : (r: Result<InvitationDetails>)
    ensures InvitationByToken(invs, token).None? ==> r == Fail(NotFound("Invalid invitation token"))
    ensures r.Ok? ==>
      var v := invs[InvitationByToken(invs, token).value];
      IsValid(v, now) && r.value.email == v.email && r.value.expiredAt == v.expiredAt
      && (exists o :: o in orgs && o.id == v.organization && o.name == r.value.organizationName)
      && (exists u :: u in users && u.id == v.invitedBy && u.fullName == r.value.invitedBy)
    ensures (InvitationByToken(invs, token).Some? && !IsValid(invs[InvitationByToken(invs, token).value], now)
             && OrganizationIndex(orgs, invs[InvitationByToken(invs, token).value].organization).Some?) ==>
      r == Fail(Crash(NO_ACCEPTED_ATTRIBUTE))
    ensures r.Ok? <==>
      InvitationByToken(invs, token).Some? && IsValid(invs[InvitationByToken(invs, token).value], now)
      && OrganizationIndex(orgs, invs[InvitationByToken(invs, token).value].organization).Some?
      && UserIndex(users, invs[InvitationByToken(invs, token).value].invitedBy).Some?
  {
    match InvitationByToken(invs, token)
    case None => Fail(NotFound("Invalid invitation token"))
    case Some(k) =>
      var v := invs[k];
      match OrganizationIndex(orgs, v.organization)
      case None => Fail(NotFound("Invalid invitation token"))
      case Some(o) =>
        if !IsValid(v, now) then Fail(Crash(NO_ACCEPTED_ATTRIBUTE))
        else match UserIndex(users, v.invitedBy)
          case None => Fail(Crash(NO_INVITER))
          case Some(u) => Ok(InvitationDetails(v.email, orgs[o].name, users[u].fullName, v.expiredAt))
  }

  /** `AcceptInvitationSerializer.validate`: the two passwords must agree; the
      service is only reached with a matching pair. */
  function ValidateAcceptPasswords(password: string, confirmPassword: string): (r: Option<Err>)
    ensures r.None? <==> password == confirmPassword
    ensures r.Some? ==> r == Some(Invalid("Password not matched."))
  {
    if password != confirmPassword then Some(Invalid("Password not matched.")) else None
  }

  /** The validity test of `accept_invitation`: an invalid invitation is refused when
      its flag says accepted, or else when it has expired; an invitation with an
      `accepted_at` but no flag, and not expired, passes. */
  function AcceptCheck(v: OrgInvitation, now: int): (r: Option<Err>)
    ensures IsValid(v, now) ==> r.None?
    ensures !IsValid(v, now) && v.isAccepted ==> r == Some(Invalid("This invitation has already accepted."))
    ensures !IsValid(v, now) && !v.isAccepted && IsExpired(v, now) ==> r == Some(Invalid("This invitation has already expired."))
    ensures r.None? <==> IsValid(v, now) || (!v.isAccepted && !IsExpired(v, now))
  {
    if IsValid(v, now) then None
    else if v.isAccepted then Some(Invalid("This invitation has already accepted."))
    else if IsExpired(v, now) then Some(Invalid("This invitation has already expired."))
    else None
  }

  /** The invitation once accepted by the new user; nothing else of it changes. */
  function AcceptStep(v: OrgInvitation, userId: nat, now: int): (w: OrgInvitation)
    ensures w.isAccepted && w.acceptedAt == Some(now) && w.acceptedBy == Some(userId)
    ensures w.id == v.id && w.token == v.token && w.email == v.email && w.organization == v.organization
    ensures w.invitedBy == v.invitedBy && w.expiredAt == v.expiredAt
  {
    v.(isAccepted := true, acceptedAt := Some(now), acceptedBy := Some(userId))
  }

  /** An accepted invitation cannot be accepted again, at any later instant. */
  lemma AcceptedOnce(v: OrgInvitation, userId: nat, now: int, later: int)
    ensures AcceptCheck(AcceptStep(v, userId, now), later) == Some(Invalid("This invitation has already accepted."))
    ensures !IsValid(AcceptStep(v, userId, now), later)
  {
  }

  /** `accept_invitation`: the token and its organization must exist, the invitation
      must pass its validity test and its e-mail must have no account; then an
      active organization admin of the invitation's organization is created and the
      invitation is marked accepted by that user, both or neither. */
  method AcceptInvitation(db: Database, token: nat, fullName: string, password: string, now: int)
    returns (r: Result<User>)
    requires db.Valid()
    modifies db`users, db`orgInvitations, db`nextId
    ensures db.Valid()
    ensures InvitationByToken(old(db.orgInvitations), token).None? ==> r == Fail(NotFound("Invalid invitation token"))
    ensures r.Ok? <==>
      InvitationByToken(old(db.orgInvitations), token).Some?
      && var v := old(db.orgInvitations)[InvitationByToken(old(db.orgInvitations), token).value];
         OrganizationIndex(old(db.organizations), v.organization).Some? && AcceptCheck(v, now).None?
         && UserByEmail(old(db.users), v.email).None?
         && v.email != "" && UserByEmail(old(db.users), NormalizeEmail(v.email)).None?
    ensures r.Fail? ==> db.users == old(db.users) && db.orgInvitations == old(db.orgInvitations)
    ensures InvitationByToken(old(db.orgInvitations), token).Some? ==>
      var k := InvitationByToken(old(db.orgInvitations), token).value;
      var v := old(db.orgInvitations)[k];
      (OrganizationIndex(old(db.organizations), v.organization).Some? && AcceptCheck(v, now).Some? ==>
         r == Fail(AcceptCheck(v, now).value))
      && (OrganizationIndex(old(db.organizations), v.organization).Some? && AcceptCheck(v, now).None?
          && UserByEmail(old(db.users), v.email).Some? ==>
         r == Fail(Invalid("User with this email already exist on the app.")))
      && (r.Ok? ==>
         AcceptCheck(v, now).None? && UserByEmail(old(db.users), v.email).None?
         && db.users == old(db.users) + [r.value] && old(db.nextId) <= r.value.id
         && r.value.email == NormalizeEmail(v.email) && r.value.fullName == fullName
         && r.value.role == Some(ORG_ADMIN) && r.value.organization == Some(v.organization)
         && r.value.isActive && r.value.isStaff && !r.value.isSuperuser
         && db.orgInvitations == old(db.orgInvitations)[k := AcceptStep(v, r.value.id, now)])
    ensures EmailsUnique(old(db.users)) ==> EmailsUnique(db.users)
  {
    var k := InvitationByToken(db.orgInvitations, token);
    if k.None? {
      return Fail(NotFound("Invalid invitation token"));
    }
    var v := db.orgInvitations[k.value];
    if OrganizationIndex(db.organizations, v.organization).None? {
      return Fail(NotFound("Invalid invitation token"));
    }
    var check := AcceptCheck(v, now);
    if check.Some? {
      return Fail(check.value);
    }
    if UserByEmail(db.users, v.email).Some? {
      return Fail(Invalid("User with this email already exist on the app."));
    }
    r := JoinAsAdmin(db, k.value, fullName, password, now);
  }

  /** The writes of `accept_invitation` once its checks passed: an active organization
      admin of the invitation's organization, created from its e-mail, and the
      invitation at `k` marked accepted by that user; both or neither. */
  method JoinAsAdmin(db: Database, k: nat, fullName: string, password: string, now: int)
    returns (r: Result<User>)
    requires db.Valid() && k < |db.orgInvitations|
    modifies db`users, db`orgInvitations, db`nextId
    ensures db.Valid()
    ensures r.Ok? <==>
      old(db.orgInvitations)[k].email != ""
      && UserByEmail(old(db.users), NormalizeEmail(old(db.orgInvitations)[k].email)).None?
    ensures r.Fail? ==> db.users == old(db.users) && db.orgInvitations == old(db.orgInvitations)
    ensures var v := old(db.orgInvitations)[k];
      r.Ok? ==>
        db.users == old(db.users) + [r.value] && old(db.nextId) <= r.value.id
        && r.value.email == NormalizeEmail(v.email) && r.value.fullName == fullName
        && r.value.role == Some(ORG_ADMIN) && r.value.organization == Some(v.organization)
        && r.value.isActive && r.value.isStaff && !r.value.isSuperuser
        && db.orgInvitations == old(db.orgInvitations)[k := AcceptStep(v, r.value.id, now)]
    ensures EmailsUnique(old(db.users)) ==> EmailsUnique(db.users)
  {
    var v := db.orgInvitations[k];
    r := CreateWithRoleDefaults(db, v.email, password, fullName, ORG_ADMIN, Some(v.organization), true);
    if r.Ok? {
      db.SetOrgInvitation(k, AcceptStep(v, r.value.id, now));
    }
  }

  /** `resend_invitation`: only the owner, and only an open invitation of this
      organization; the invitation is sent again and returned as it was stored,
      since the extension is written to a field the model does not have. */
  method ResendInvitation(db: Database, org: Organization, user: User, id: nat, d: Delivery, now: int)
    returns (r: Result<OrgInvitation>)
    requires db.Valid()
    modifies db`notifications, db`templates, db`nextId
    ensures db.Valid()
    ensures !Owns(org, user) ==> r == Fail(PermissionDenied("Only organization owner can resend invitations"))
    ensures Owns(org, user) && OpenById(db.orgInvitations, org.id, id).None? ==>
      r == Fail(NotFound("Invitation not found or already accepted"))
    ensures r.Ok? <==> Owns(org, user) && OpenById(db.orgInvitations, org.id, id).Some?
    ensures r.Fail? ==> db.notifications == old(db.notifications)
    ensures r.Ok? ==>
      r.value == db.orgInvitations[OpenById(db.orgInvitations, org.id, id).value]
      && |db.notifications| == |old(db.notifications)| + 1 && db.notifications[..|old(db.notifications)|] == old(db.notifications)
      && db.notifications[|old(db.notifications)|].invitation == Some(id)
      && db.notifications[|old(db.notifications)|].ntype == OrgInvitationSent
  {
    if !Owns(org, user) {
      return Fail(PermissionDenied("Only organization owner can resend invitations"));
    }
    var k := OpenById(db.orgInvitations, org.id, id);
    if k.None? {
      return Fail(NotFound("Invitation not found or already accepted"));
    }
    var v := db.orgInvitations[k.value];
    var n := SendOrgInvitation(db, v, d, now);
    assert db.notifications[..|old(db.notifications)|] == old(db.notifications);
    return Ok(v);
  }
}
