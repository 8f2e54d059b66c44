/** The three permission predicates every command consults (utils/permissions.py). */
module Permissions {
  import opened Wrappers
  import opened Platform

  /** `any(r in ids for r in roles)` */
  function AnyRoleIn(roles: seq<int>, ids: set<int>): (r: bool)
    ensures r <==> exists i :: 0 <= i < |roles| && roles[i] in ids
  {
    if roles == [] then false
    else if roles[0] in ids then true
    else
      var rest := AnyRoleIn(roles[1..], ids);
      assert rest <==> exists i :: 1 <= i < |roles| && roles[i] in ids by {
        if rest {
          var j :| 0 <= j < |roles[1..]| && roles[1..][j] in ids;
          assert roles[j + 1] in ids;
        }
      }
      rest
  }

  /** Whether the member holds one of the configured admin roles. */
  predicate HasAdminRole(m: Member, adminRoleIds: seq<int>) {
    AnyRoleIn(m.roleIds, set rid | rid in adminRoleIds)
  }

  /** `is_admin`: a configured admin role, or the platform's administrator flag. */
  function IsAdmin(m: Member, adminRoleIds: seq<int>): (r: bool)
    ensures r <==> m.administrator || exists i :: 0 <= i < |m.roleIds| && m.roleIds[i] in adminRoleIds
  {
    HasAdminRole(m, adminRoleIds) || m.administrator
  }

  /** With no admin roles configured, only the administrator flag makes an admin. */
  lemma AdminWithoutRoles(m: Member)
    ensures IsAdmin(m, []) <==> m.administrator
  {
  }

  /**
   * `can_manage_ticket`: admins and the ticket's creator. The thread argument of
   * the source plays no part, so it is not a parameter here.
   */
  function CanManageTicket(m: Member, adminRoleIds: seq<int>, creatorId: int): (r: bool)
    ensures m.id == creatorId ==> r
    ensures m.administrator ==> r
    ensures !m.administrator && m.id != creatorId ==>
      (r <==> exists i :: 0 <= i < |m.roleIds| && m.roleIds[i] in adminRoleIds)
  {
    IsAdmin(m, adminRoleIds) || m.id == creatorId
  }

  /**
   * `escalate_role`: nothing when no escalation role id is configured (None or
   * 0, both falsy), otherwise the guild's role of that id, if it exists.
   */
  function EscalateRole(escalationRoleId: Option<int>, g: Guild): (r: Option<int>)
    ensures r.Some? <==> escalationRoleId.Some? && escalationRoleId.value != 0 && escalationRoleId.value in g.roleIds
    ensures r.Some? ==> r.value == escalationRoleId.value
  {
    if escalationRoleId.Some? && escalationRoleId.value != 0 then
      if escalationRoleId.value in g.roleIds then Some(escalationRoleId.value) else None
    else None
  }
}
