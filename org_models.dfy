/** The organization models: the expiry and validity of an organization
    invitation, the defaults its `save` fills in, its uniqueness per organization
    and e-mail, and the slug default of an organization. */
module OrganizationModels {
  import opened Common
  import opened Store

  /** The lifetime `save` gives an invitation with no expiry yet. */
  const INVITATION_LIFETIME := WEEK

  /** `is_expired`: strictly after the expiry instant. */
  predicate IsExpired(v: OrgInvitation, now: int) {
    now > v.expiredAt
  }

  /** `is_valid`: never accepted (by `accepted_at`, not by the flag) and not expired. */
  predicate IsValid(v: OrgInvitation, now: int) {
    v.acceptedAt.None? && !IsExpired(v, now)
  }

  /** Validity only ends: an invitation invalid at some instant stays invalid. */
  lemma InvalidStaysInvalid(v: OrgInvitation, now: int, later: int)
    requires now <= later && !IsValid(v, now)
    ensures !IsValid(v, later)
  {
  }

  /** The `expired_at` that `save` stores: an expiry already set is kept, a missing
      one becomes a week from now. */
  function SaveExpiry(expiredAt: Option<int>, now: int): (r: int)
    ensures expiredAt.Some? ==> r == expiredAt.value
    ensures expiredAt.None? ==> r == now + INVITATION_LIFETIME
  {
    if expiredAt.None? then now + INVITATION_LIFETIME else expiredAt.value
  }

  /** A later `save` keeps the expiry the first one stored. */
  lemma SaveExpiryStable(expiredAt: Option<int>, now: int, later: int)
    ensures SaveExpiry(Some(SaveExpiry(expiredAt, now)), later) == SaveExpiry(expiredAt, now)
  {
  }

  /** The row `objects.create(organization=..., invited_by=..., email=...)` saves:
      the field defaults, a fresh token and the expiry `save` fills in. */
  function NewOrgInvitation(id: nat, token: nat, organization: nat, email: string, invitedBy: nat, now: int)
    : (v: OrgInvitation)
    ensures v.id == id && v.token == token && v.organization == organization && v.email == email
    ensures v.invitedBy == invitedBy
    ensures !v.isAccepted && v.acceptedAt.None? && v.acceptedBy.None?
    ensures v.expiredAt == SaveExpiry(None, now)
    ensures IsValid(v, now) && IsValid(v, now + INVITATION_LIFETIME) && !IsValid(v, now + INVITATION_LIFETIME + 1)
  {
    OrgInvitation(id, organization, email, invitedBy, token, SaveExpiry(None, now), false, None, None)
  }

  /** `unique_together = ['organization', 'email']`: a row is determined by its pair. */
  predicate UniquePerOrgEmail(invs: seq<OrgInvitation>) {
    forall v, w :: v in invs && w in invs && v.organization == w.organization && v.email == w.email ==> v == w
  }

  /** `Organization.save`: an empty slug is derived from the name by `slugify`,
      which is a parameter here; a given slug is kept. */
  function SaveSlug(name: string, slug: string, slugify: string -> string): (r: string)
    ensures slug != "" ==> r == slug
    ensures slug == "" ==> r == slugify(name)
  {
    if slug == "" then slugify(name) else slug
  }

  /** A second `save` keeps the slug the first one stored, whatever the name became,
      as long as `slugify` never yields an empty slug. */
  lemma SaveSlugStable(name: string, newName: string, slug: string, slugify: string -> string)
    requires slugify(name) != ""
    ensures SaveSlug(newName, SaveSlug(name, slug, slugify), slugify) == SaveSlug(name, slug, slugify)
  {
  }
}
