/** Role-based access control of the views: the dispatch decision of the
    role-required view mixin, with the policies its subclasses fix, and the
    role helpers the views use. */
module Mixins {
  import opened Common
  import opened Models

  /** The requesting user as the access checks see them: `profile` is the
      role of the user's profile, `None` without one; `organizerMembership`
      is the answer of `user_has_organizer_membership`, an organizer
      membership in an active organization. */
  datatype Visitor = Visitor(authenticated: bool, isSuperuser: bool, profile: Option<Role>, organizerMembership: bool)

  /** A view's class attributes: `allowed_roles` holds role codes. */
  datatype Policy = Policy(allowedRoles: seq<string>, requireSuperuser: bool)

  datatype Access = Allow | Deny

  const OrganizerCode: string := RoleCode(Organizer)

  /** The membership fallback: organizers are allowed and the visitor
      organizes an organization. */
  predicate MembershipFallback(p: Policy, v: Visitor)
  {
    OrganizerCode in p.allowedRoles && v.organizerMembership
  }

  /** `RoleRequiredMixin.dispatch`: `Allow` where the view proceeds,
      `Deny` where it goes to `handle_no_permission`. */
  function Dispatch(p: Policy, v: Visitor): Access
  {
    if !v.authenticated then Deny
    else if p.requireSuperuser then (if v.isSuperuser then Allow else Deny)
    else if |p.allowedRoles| > 0 then
      if v.isSuperuser then Allow
      else if v.profile.None? then (if MembershipFallback(p, v) then Allow else Deny)
      else if RoleCode(v.profile.value) !in p.allowedRoles then (if MembershipFallback(p, v) then Allow else Deny)
      else Allow
    else Allow
  }

  const SuperAdminRequired: Policy := Policy([], true)
  const AdminRequired: Policy := Policy([RoleCode(Admin)], false)
  const OrganizerRequired: Policy := Policy([RoleCode(Organizer), RoleCode(Admin)], false)
  const AdminOrOrganizerRequired: Policy := Policy([RoleCode(Admin), RoleCode(Organizer)], false)
  const UserOrAbove: Policy := Policy([RoleCode(User), RoleCode(Admin)], false)

  /** An unauthenticated visitor is always turned away. */
  lemma UnauthenticatedDenied(p: Policy, v: Visitor)
    requires !v.authenticated
    ensures Dispatch(p, v) == Deny
  {
  }

  /** Under a superuser requirement, access is exactly superuser access. */
  lemma SuperuserRequirement(p: Policy, v: Visitor)
    requires p.requireSuperuser
    ensures Dispatch(p, v) == Allow <==> v.authenticated && v.isSuperuser
  {
  }

  /** With roles listed, an authenticated superuser always passes. */
  lemma SuperuserBypassesRoles(p: Policy, v: Visitor)
    requires v.authenticated && v.isSuperuser
    ensures Dispatch(p, v) == Allow
  {
  }

  /** With roles listed, a visitor who is not a superuser passes exactly
      when their profile's role is listed, or else through the membership
      fallback. */
  lemma RoleCheck(p: Policy, v: Visitor)
    requires v.authenticated && !p.requireSuperuser && |p.allowedRoles| > 0 && !v.isSuperuser
    ensures Dispatch(p, v) == Allow
            <==> (v.profile.Some? && RoleCode(v.profile.value) in p.allowedRoles) || MembershipFallback(p, v)
    ensures v.profile.None? ==> (Dispatch(p, v) == Allow <==> MembershipFallback(p, v))
  {
  }

  /** Without a superuser requirement or listed roles, every authenticated
      visitor passes. */
  lemma OpenPolicy(p: Policy, v: Visitor)
    requires !p.requireSuperuser && p.allowedRoles == []
    ensures Dispatch(p, v) == Allow <==> v.authenticated
  {
  }

  /** The organizer views admit an authenticated visitor who is a
      superuser, holds the ORGANIZER or ADMIN role, or organizes an
      organization. */
  lemma OrganizerViews(v: Visitor)
    ensures Dispatch(OrganizerRequired, v) == Dispatch(AdminOrOrganizerRequired, v)
    ensures Dispatch(OrganizerRequired, v) == Allow
            <==> v.authenticated && (v.isSuperuser || v.profile == Some(Organizer) || v.profile == Some(Admin)
                                     || v.organizerMembership)
  {
  }

  /** The "users and above" views list USER and ADMIN but not ORGANIZER, so
      a visitor whose profile holds the ORGANIZER role is turned away there,
      whatever memberships they hold, unless they are a superuser. */
  lemma UserOrAboveExcludesOrganizerRole(v: Visitor)
    requires v.authenticated && !v.isSuperuser && v.profile == Some(Organizer)
    ensures Dispatch(UserOrAbove, v) == Deny
  {
    assert RoleCode(Organizer) !in UserOrAbove.allowedRoles;
  }

  /** The admin views admit exactly authenticated superusers and the ADMIN role. */
  lemma AdminViews(v: Visitor)
    ensures Dispatch(AdminRequired, v) == Allow
            <==> v.authenticated && (v.isSuperuser || v.profile == Some(Admin))
  {
    assert OrganizerCode !in AdminRequired.allowedRoles;
  }

  /** `has_role`: authenticated, with a profile whose role code is listed. */
  function HasRole(v: Visitor, roles: seq<string>): (r: bool)
    ensures r ==> v.authenticated && v.profile.Some?
  {
    v.authenticated && v.profile.Some? && RoleCode(v.profile.value) in roles
  }

  /** `is_admin`. */
  function IsAdmin(v: Visitor): bool
  {
    HasRole(v, [RoleCode(Admin)])
  }

  /** `is_organizer`: the ORGANIZER and the ADMIN roles both count. */
  function IsOrganizer(v: Visitor): bool
  {
    HasRole(v, [RoleCode(Organizer), RoleCode(Admin)])
  }

  /** `is_super_admin`. */
  function IsSuperAdmin(v: Visitor): bool
  {
    v.authenticated && v.isSuperuser
  }

  /** The role helpers read the profile's role only; a superuser flag
      alone makes no one an admin or organizer. */
  lemma RoleHelpers(v: Visitor)
    ensures IsAdmin(v) <==> v.authenticated && v.profile == Some(Admin)
    ensures IsOrganizer(v) <==> v.authenticated && (v.profile == Some(Organizer) || v.profile == Some(Admin))
    ensures IsAdmin(v) ==> IsOrganizer(v)
    ensures v.profile.None? ==> !IsAdmin(v) && !IsOrganizer(v)
  {
    assert RoleCode(User) != RoleCode(Admin) && RoleCode(Organizer) != RoleCode(Admin);
  }

  /** `RoleCode` names each role by a distinct code. */
  lemma RoleCodesDistinct(a: Role, b: Role)
    ensures RoleCode(a) == RoleCode(b) <==> a == b
  {
  }
}
