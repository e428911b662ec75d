/** The accounts app's user manager: the three roles, e-mail normalisation, the
    `create_*` methods that build and save a user with the flags of its role, and
    the `active()` filter of the soft-deleted request tables. */
module Users {
  import opened Common
  import opened Text
  import opened Store

  const ORG_OWNER := "org_owner"
  const ORG_ADMIN := "org_admin"
  const MEMBER := "member"

  /** The role names a registration may ask for, in their declared order. */
  const ROLE_LIST := [ORG_OWNER, ORG_ADMIN, MEMBER]

  /** `is_active` when no caller passes it. */
  const DEFAULT_IS_ACTIVE := false

  /** Position of the last `c` in `s`, where `rsplit(c, 1)` splits. */
  function LastIndexOf(s: string, c: char): (r: Option<nat>)
    ensures r.Some? ==> r.value < |s| && s[r.value] == c && forall k :: r.value < k < |s| ==> s[k] != c
    ensures r.None? ==> forall k :: 0 <= k < |s| ==> s[k] != c
  {
    if |s| == 0 then None
    else if s[|s| - 1] == c then Some(|s| - 1)
    else LastIndexOf(s[..|s| - 1], c)
  }

  /** `t` with the part after position `k` lower-cased and an `@` at `k`. */
  function LowerDomain(t: string, k: nat): (r: string)
    requires k < |t|
    ensures |r| == |t| && r[..k] == t[..k] && r[k] == '@'
    ensures forall i :: k < i < |r| ==> r[i] == LowerChar(t[i])
  {
    var d := t[k + 1..];
    LowerAll(d);
    var r := t[..k] + "@" + Lower(d);
    assert forall i :: k < i < |r| ==> r[i] == Lower(d)[i - k - 1] && d[i - k - 1] == t[i];
    r
  }

  lemma LowerAll(s: string)
    ensures forall i :: 0 <= i < |s| ==> Lower(s)[i] == LowerChar(s[i])
  {
    forall i | 0 <= i < |s| ensures Lower(s)[i] == LowerChar(s[i]) { LowerAt(s, i); }
  }

  /** `BaseUserManager.normalize_email`: an address whose stripped form has an `@`
      becomes that stripped form with the domain after the last `@` lower-cased and
      the local part kept as it is; any other address is returned untouched. */
  function NormalizeEmail(email: string): (r: string)
    ensures LastIndexOf(Strip(email), '@').None? ==> r == email
    ensures LastIndexOf(Strip(email), '@').Some? ==>
      r == LowerDomain(Strip(email), LastIndexOf(Strip(email), '@').value)
  {
    var t := Strip(email);
    match LastIndexOf(t, '@')
    case None => email
    case Some(k) => LowerDomain(t, k)
  }

  /** Normalising a normalised address changes nothing: the stored e-mail is a
      fixed point of the manager. */
  lemma NormalizeEmailIdempotent(email: string)
    ensures NormalizeEmail(NormalizeEmail(email)) == NormalizeEmail(email)
  {
    var t := Strip(email);
    if LastIndexOf(t, '@').Some? {
      var k := LastIndexOf(t, '@').value;
      var r := LowerDomain(t, k);
      LowerDomainTrimmed(t, k);
      LowerDomainLastAt(t, k);
      LowerDomainFixed(t, k);
    }
  }

  lemma LowerDomainTrimmed(t: string, k: nat)
    requires k < |t| && !IsPySpace(t[0]) && !IsPySpace(t[|t| - 1])
    ensures Strip(LowerDomain(t, k)) == LowerDomain(t, k)
  {
    var r := LowerDomain(t, k);
    if k > 0 { assert r[0] == r[..k][0] == t[..k][0]; }
    StripKeepsTrimmed(r);
  }

  lemma LowerDomainLastAt(t: string, k: nat)
    requires k < |t| && forall i :: k < i < |t| ==> t[i] != '@'
    ensures LastIndexOf(LowerDomain(t, k), '@') == Some(k)
  {
    var r := LowerDomain(t, k);
    assert forall i :: k < i < |r| ==> r[i] != '@';
  }

  lemma LowerDomainFixed(t: string, k: nat)
    requires k < |t|
    ensures LowerDomain(LowerDomain(t, k), k) == LowerDomain(t, k)
  {
    var r := LowerDomain(t, k);
    var r2 := LowerDomain(r, k);
    forall i | 0 <= i < |r| ensures r2[i] == r[i] {
      if i < k { assert r2[i] == r2[..k][i] && r[i] == r[..k][i]; }
    }
  }

  /** No two users share an e-mail, as the unique column demands. */
  predicate EmailsUnique(users: seq<User>) {
    forall i, j :: 0 <= i < j < |users| ==> users[i].email != users[j].email
  }

  /** `create_user`: a blank e-mail raises, an e-mail whose normalised form is taken
      breaks the unique column; otherwise one user is saved with the normalised
      e-mail, the role, the organization and the flags it was given. */
  method CreateUser(db: Database, email: string, password: string, fullName: string, role: string,
                    organization: Option<nat>, isActive: bool, isStaff: bool, isSuperuser: bool)
    returns (r: Result<User>)
    requires db.Valid()
    modifies db`users, db`nextId
    ensures db.Valid()
    ensures email == "" ==> r == Fail(Crash("Email must be provided"))
    ensures email != "" && UserByEmail(old(db.users), NormalizeEmail(email)).Some? ==> r == Fail(Crash(INTEGRITY_ERROR))
    ensures r.Ok? <==> email != "" && UserByEmail(old(db.users), NormalizeEmail(email)).None?
    ensures r.Fail? ==> db.users == old(db.users)
    ensures r.Ok? ==>
      r.value == User(r.value.id, NormalizeEmail(email), fullName, password, Some(role), organization,
                      isActive, isStaff, isSuperuser)
      && old(db.nextId) <= r.value.id && db.users == old(db.users) + [r.value]
    ensures EmailsUnique(old(db.users)) ==> EmailsUnique(db.users)
  {
    if email == "" {
      return Fail(Crash("Email must be provided"));
    }
    var normalized := NormalizeEmail(email);
    if UserByEmail(db.users, normalized).Some? {
      return Fail(Crash(INTEGRITY_ERROR));
    }
    var id := NewId(db);
    var user := User(id, normalized, fullName, password, Some(role), organization, isActive, isStaff, isSuperuser);
    db.AddUser(user);
    AddKeepsEmailsUnique(old(db.users), user);
    return Ok(user);
  }

  /** A user whose e-mail no row has can join the table without breaking uniqueness. */
  lemma AddKeepsEmailsUnique(users: seq<User>, x: User)
    requires UserByEmail(users, x.email).None?
    ensures EmailsUnique(users) ==> EmailsUnique(users + [x])
  {
    var t := users + [x];
    if EmailsUnique(users) {
      forall i, j | 0 <= i < j < |t| ensures t[i].email != t[j].email {
        if j < |users| { assert t[i] == users[i] && t[j] == users[j]; }
        else { assert t[i] == users[i] && t[j] == x; }
      }
    }
  }

  /** The role and the `is_staff` and `is_superuser` defaults each `create_*` method
      puts in: owners are staff and superusers, admins staff only, members neither. */
  function RoleDefaults(role: string): (r: Option<(bool, bool)>)
    ensures r.Some? <==> role in ROLE_LIST
    ensures role == ORG_OWNER ==> r == Some((true, true))
    ensures role == ORG_ADMIN ==> r == Some((true, false))
    ensures role == MEMBER ==> r == Some((false, false))
  {
    if role == ORG_OWNER then Some((true, true))
    else if role == ORG_ADMIN then Some((true, false))
    else if role == MEMBER then Some((false, false))
    else None
  }

  /** `create_organization_owner`, `create_organization_admin` and `create_member`:
      `create_user` with the role's name and its flags. */
  method CreateWithRoleDefaults(db: Database, email: string, password: string, fullName: string, role: string,
                                organization: Option<nat>, isActive: bool)
    returns (r: Result<User>)
    requires db.Valid() && role in ROLE_LIST
    modifies db`users, db`nextId
    ensures db.Valid()
    ensures r.Ok? <==> email != "" && UserByEmail(old(db.users), NormalizeEmail(email)).None?
    ensures r.Fail? ==> db.users == old(db.users)
    ensures r.Ok? ==>
      r.value.email == NormalizeEmail(email) && r.value.role == Some(role)
      && r.value.organization == organization && r.value.isActive == isActive && r.value.fullName == fullName
      && r.value.password == password
      && Some((r.value.isStaff, r.value.isSuperuser)) == RoleDefaults(role)
      && old(db.nextId) <= r.value.id && db.users == old(db.users) + [r.value]
    ensures EmailsUnique(old(db.users)) ==> EmailsUnique(db.users)
  {
    var flags := RoleDefaults(role).value;
    r := CreateUser(db, email, password, fullName, role, organization, isActive, flags.0, flags.1);
  }

  /** `create_user_with_role`: a missing role and a role outside the three each raise
      before anything is saved; a known role creates an inactive user of that role,
      with no organization. */
  method CreateUserWithRole(db: Database, email: string, password: string, fullName: string, role: Option<string>)
    returns (r: Result<User>)
    requires db.Valid()
    modifies db`users, db`nextId
    ensures db.Valid()
    ensures (role.None? || role == Some("")) ==> r == Fail(Crash("Role is required"))
    ensures role.Some? && role.value != "" && role.value !in ROLE_LIST ==> r == Fail(Crash("Invalid role"))
    ensures r.Ok? <==>
      role.Some? && role.value in ROLE_LIST && email != "" && UserByEmail(old(db.users), NormalizeEmail(email)).None?
    ensures r.Fail? ==> db.users == old(db.users)
    ensures r.Ok? ==>
      r.value.email == NormalizeEmail(email) && r.value.role == role && r.value.organization.None?
      && r.value.fullName == fullName && r.value.password == password
      && !r.value.isActive && Some((r.value.isStaff, r.value.isSuperuser)) == RoleDefaults(role.value)
      && db.users == old(db.users) + [r.value]
  {
    if role.None? || role.value == "" {
      return Fail(Crash("Role is required"));
    }
    if role.value !in ROLE_LIST {
      return Fail(Crash("Invalid role"));
    }
    r := CreateWithRoleDefaults(db, email, password, fullName, role.value, None, DEFAULT_IS_ACTIVE);
  }

  /** `CustomQuerySet.active()` on the verification requests. */
  function ActiveVerifyRequests(rows: seq<VerifyRequest>): (r: seq<VerifyRequest>)
    ensures forall x :: x in r <==> x in rows && x.active
  {
    Filter(rows, (x: VerifyRequest) => x.active)
  }

  /** `CustomQuerySet.active()` on the password-reset requests. */
  function ActivePasswordResets(rows: seq<PasswordReset>): (r: seq<PasswordReset>)
    ensures forall x :: x in r <==> x in rows && x.active
  {
    Filter(rows, (x: PasswordReset) => x.active)
  }
}
