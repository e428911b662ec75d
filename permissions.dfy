/** The role-membership permission classes of the API: each grants a request when
    the text of the user's role is in the class's list of allowed roles. */
module Permissions {
  import opened Common
  import opened Users

  /** An entry of an `allowed_roles` list: a role name, or the `ROLES` class itself,
      which `OwnerPermission` lists by mistake and which equals no string. */
  datatype Allowed = RoleName(name: string) | RolesClass

  datatype PermissionClass = OwnerPermission | AdminPermission | MemberPermission | OwnerOrAdminPermission | AllUserPermission

  function AllowedRoles(p: PermissionClass): seq<Allowed> {
    match p
    case OwnerPermission => [RolesClass]
    case AdminPermission => [RoleName(ORG_ADMIN)]
    case MemberPermission => [RoleName(MEMBER)]
    case OwnerOrAdminPermission => [RoleName(ORG_OWNER), RoleName(ORG_ADMIN)]
    case AllUserPermission => [RoleName(ORG_OWNER), RoleName(ORG_ADMIN), RoleName(MEMBER)]
  }

  /** `str(getattr(request.user, 'role', None))`: the role's name, or "None" for a
      user without a role. */
  function RoleText(role: Option<string>): (r: string)
    ensures role.Some? ==> r == role.value
    ensures role.None? ==> r == "None"
  {
    if role.None? then "None" else role.value
  }

  /** `has_permission`: the role's text is in the list, comparing by equality. */
  predicate HasPermission(p: PermissionClass, role: Option<string>) {
    RoleName(RoleText(role)) in AllowedRoles(p)
  }

  /** `OwnerPermission` grants no request at all. */
  lemma OwnerNeverGrants(role: Option<string>)
    ensures !HasPermission(OwnerPermission, role)
  {
  }

  /** `OwnerOrAdminPermission` grants exactly owners and admins. */
  lemma OwnerOrAdminExactly(role: Option<string>)
    ensures HasPermission(OwnerOrAdminPermission, role) <==> role == Some(ORG_OWNER) || role == Some(ORG_ADMIN)
  {
  }

  /** `AllUserPermission` grants exactly the three roles of `ROLE_LIST`. */
  lemma AllUserExactly(role: Option<string>)
    ensures HasPermission(AllUserPermission, role) <==> role.Some? && role.value in ROLE_LIST
  {
  }

  /** `AdminPermission` grants only admins and `MemberPermission` only members. */
  lemma SingleRoleClasses(role: Option<string>)
    ensures HasPermission(AdminPermission, role) <==> role == Some(ORG_ADMIN)
    ensures HasPermission(MemberPermission, role) <==> role == Some(MEMBER)
  {
  }

  /** A user without a role is refused by every class. */
  lemma NoRoleDenied(p: PermissionClass)
    ensures !HasPermission(p, None)
  {
  }
}
