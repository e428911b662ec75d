/** The organization service and the post-save signal that links a new
    organization's creator to it. */
module OrganizationService {
  import opened Common
  import opened Store
  import opened OrganizationModels

  /** An organization whose `created_by` is the user (a one-to-one key). */
  predicate HasCreated(orgs: seq<Organization>, user: User) {
    exists o :: o in orgs && o.createdBy == Some(user.id)
  }

  /** `can_user_create_organization`: the user has created none yet. */
  predicate CanUserCreateOrganization(orgs: seq<Organization>, user: User) {
    !HasCreated(orgs, user)
  }

  /** `get_user_organization`: the reverse of the one-to-one `created_by` key. */
  function GetUserOrganization(orgs: seq<Organization>, user: User): (r: Result<Organization>)
    ensures r.Ok? ==> r.value in orgs && r.value.createdBy == Some(user.id)
    ensures r.Fail? <==> !HasCreated(orgs, user)
    ensures r.Fail? ==> r == Fail(Invalid("User is not associated with any organization"))
  {
    match FirstIndex(orgs, (o: Organization) => o.createdBy == Some(user.id))
    case None => Fail(Invalid("User is not associated with any organization"))
    case Some(k) => Ok(orgs[k])
  }

  /** A user may create an organization exactly when there is none to look up. */
  lemma CanCreateIffNoOrganization(orgs: seq<Organization>, user: User)
    ensures CanUserCreateOrganization(orgs, user) <==> GetUserOrganization(orgs, user).Fail?
  {
  }

  /** What `set_creator_organization` does to the creator of a just created
      organization: point it there unless it already does. */
  function SignalStep(creator: User, org: Organization): (u: User)
    ensures u.organization == Some(org.id)
    ensures u == creator.(organization := Some(org.id))
  {
    if creator.organization != Some(org.id) then creator.(organization := Some(org.id)) else creator
  }

  /** The `if not user.organization` step of `create_organization` on the same user
      object, after the signal has run. */
  function FallbackStep(u: User, org: Organization): (w: User)
    ensures u.organization.None? ==> w == u.(organization := Some(org.id))
    ensures u.organization.Some? ==> w == u
  {
    if u.organization.None? then u.(organization := Some(org.id)) else u
  }

  /** The signal always runs first, so the service's own linking step never acts:
      the creator ends linked to the new organization even when it had another. */
  lemma FallbackNeverActs(creator: User, org: Organization)
    ensures FallbackStep(SignalStep(creator, org), org) == SignalStep(creator, org)
    ensures FallbackStep(SignalStep(creator, org), org).organization == Some(org.id)
  {
  }

  /** The `save(update_fields=...)` error when the creator's row is gone. */
  const NO_ROWS_UPDATED := "Save with update_fields did not affect any rows."

  /** `set_creator_organization`: on a save that created the organization and has
      a creator, the creator's row is linked to it; a later save, or no creator,
      changes nothing. */
  method SetCreatorOrganization(db: Database, org: Organization, created: bool) returns (r: Option<Err>)
    requires db.Valid()
    modifies db`users
    ensures db.Valid()
    ensures (!created || org.createdBy.None?) ==> r.None? && db.users == old(db.users)
    ensures created && org.createdBy.Some? && UserIndex(old(db.users), org.createdBy.value).None? ==>
      r == Some(Crash(NO_ROWS_UPDATED)) && db.users == old(db.users)
    ensures created && org.createdBy.Some? && UserIndex(old(db.users), org.createdBy.value).Some? ==>
      var k := UserIndex(old(db.users), org.createdBy.value).value;
      r.None? && db.users == old(db.users)[k := old(db.users)[k].(organization := Some(org.id))]
  {
    if !created || org.createdBy.None? {
      return None;
    }
    var k := UserIndex(db.users, org.createdBy.value);
    if k.None? {
      return Some(Crash(NO_ROWS_UPDATED));
    }
    db.SetUser(k.value, SignalStep(db.users[k.value], org));
    return None;
  }

  /** `create_organization`: a user who created an organization already is refused;
      otherwise the organization is saved with the user as creator and its slug
      defaulted from the name, and the creator is linked to it, all or nothing. A
      name or slug already in use breaks its unique column. */
  method CreateOrganization(db: Database, user: User, name: string, slug: string, slugify: string -> string)
    returns (r: Result<Organization>)
    requires db.Valid()
    modifies db`organizations, db`users, db`nextId
    ensures db.Valid()
    ensures HasCreated(old(db.organizations), user) ==> r == Fail(Invalid("You already have an organization."))
    ensures r.Ok? <==>
      CanUserCreateOrganization(old(db.organizations), user)
      && (forall o :: o in old(db.organizations) ==> o.name != name && o.slug != SaveSlug(name, slug, slugify))
      && UserIndex(old(db.users), user.id).Some?
    ensures r.Fail? ==> db.organizations == old(db.organizations) && db.users == old(db.users)
    ensures r.Ok? ==>
      var k := UserIndex(old(db.users), user.id).value;
      r.value == Organization(r.value.id, name, SaveSlug(name, slug, slugify), Some(user.id))
      && old(db.nextId) <= r.value.id
      && db.organizations == old(db.organizations) + [r.value]
      && db.users == old(db.users)[k := old(db.users)[k].(organization := Some(r.value.id))]
  {
    if HasCreated(db.organizations, user) {
      return Fail(Invalid("You already have an organization."));
    }
    var s := SaveSlug(name, slug, slugify);
    if exists o :: o in db.organizations && (o.name == name || o.slug == s) {
      return Fail(Crash(INTEGRITY_ERROR));
    }
    var k := UserIndex(db.users, user.id);
    if k.None? {
      return Fail(Crash(NO_ROWS_UPDATED));
    }
    var org := FoundOrganization(db, k.value, user, name, s);
    return Ok(org);
  }

  /** The writes of `create_organization` once its checks passed: the organization
      under a fresh key with the user as creator, and the creator's row at `k`
      linked to it, by the signal and then by the service's own step. */
  method FoundOrganization(db: Database, k: nat, user: User, name: string, slug: string)
    returns (org: Organization)
    requires db.Valid() && UserIndex(db.users, user.id) == Some(k)
    modifies db`organizations, db`users, db`nextId
    ensures db.Valid()
    ensures org == Organization(org.id, name, slug, Some(user.id)) && old(db.nextId) <= org.id
    ensures db.organizations == old(db.organizations) + [org]
    ensures db.users == old(db.users)[k := old(db.users)[k].(organization := Some(org.id))]
  {
    var id := NewId(db);
    org := Organization(id, name, slug, Some(user.id));
    db.AddOrganization(org);
    FallbackNeverActs(db.users[k], org);
    var failed := SetCreatorOrganization(db, org, true);
    db.SetUser(k, FallbackStep(db.users[k], org));
  }
}
