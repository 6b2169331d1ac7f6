/** The role list (src/components/admin/RoleManagement.tsx): each fetched
    role joined with the permissions that `role_permissions` links to it. */
module RoleAdmin {
  import opened Common
  import opened PermissionAdmin

  /** A row of the `roles` table. */
  datatype Role = Role(id: string, code: string, name: string, description: Option<string>)

  /** A row of the `role_permissions` table. */
  datatype RolePermission = RolePermission(roleId: string, permissionId: string)

  datatype RoleWithPermissions = RoleWithPermissions(role: Role, permissions: seq<Permission>)

  /** Some `role_permissions` row links `permissionId` to `roleId`. */
  predicate Linked(rolePermissions: seq<RolePermission>, roleId: string, permissionId: string) {
    exists i :: 0 <= i < |rolePermissions| && rolePermissions[i] == RolePermission(roleId, permissionId)
  }

  /** `rolePermIds`: the permission ids of the rows for `roleId`, in row
      order. */
  function RolePermIds(rolePermissions: seq<RolePermission>, roleId: string): (ids: seq<string>)
    ensures forall pid :: pid in ids <==> Linked(rolePermissions, roleId, pid)
  {
    if rolePermissions == [] then []
    else
      var rest := RolePermIds(rolePermissions[1..], roleId);
      assert forall pid :: Linked(rolePermissions, roleId, pid) <==>
        rolePermissions[0] == RolePermission(roleId, pid) || Linked(rolePermissions[1..], roleId, pid) by {
        forall pid ensures Linked(rolePermissions, roleId, pid) <==>
          rolePermissions[0] == RolePermission(roleId, pid) || Linked(rolePermissions[1..], roleId, pid) {
          if Linked(rolePermissions, roleId, pid) {
            var i :| 0 <= i < |rolePermissions| && rolePermissions[i] == RolePermission(roleId, pid);
            if i > 0 {
              assert rolePermissions[1..][i - 1] == rolePermissions[i];
            }
          }
          if Linked(rolePermissions[1..], roleId, pid) {
            var i :| 0 <= i < |rolePermissions[1..]| && rolePermissions[1..][i] == RolePermission(roleId, pid);
            assert rolePermissions[i + 1] == rolePermissions[1..][i];
          }
        }
      }
      if rolePermissions[0].roleId == roleId then [rolePermissions[0].permissionId] + rest else rest
  }

  /** The permissions of one role: the fetched permissions linked to it, in
      fetched order. */
  function PermissionsOf(permissions: seq<Permission>, rolePermissions: seq<RolePermission>, roleId: string): (r: seq<Permission>)
    ensures IsSubsequence(r, permissions)
    ensures forall p :: p in r ==> p in permissions && Linked(rolePermissions, roleId, p.id)
    ensures forall p :: p in permissions && Linked(rolePermissions, roleId, p.id) ==> p in r
  {
    var ids := RolePermIds(rolePermissions, roleId);
    Filter(permissions, (p: Permission) => p.id in ids)
  }

  /** `rolesWithPermissions`: every role, in query order, with its
      permissions. */
  function RolesWithPermissions(roles: seq<Role>, permissions: seq<Permission>, rolePermissions: seq<RolePermission>): (r: seq<RoleWithPermissions>)
    ensures |r| == |roles|
    ensures forall i :: 0 <= i < |r| ==> r[i].role == roles[i] && r[i].permissions == PermissionsOf(permissions, rolePermissions, roles[i].id)
  {
    seq(|roles|, i requires 0 <= i < |roles| => RoleWithPermissions(roles[i], PermissionsOf(permissions, rolePermissions, roles[i].id)))
  }

  /** "Permissions (n)". */
  function PermissionCount(r: RoleWithPermissions): nat {
    |r.permissions|
  }

  /** "Tidak ada permission" is shown for an empty list. */
  predicate ShowsNoPermissionText(r: RoleWithPermissions) {
    |r.permissions| == 0
  }

  /** The empty-list text appears exactly when no fetched permission is
      linked to the role; in particular a role without rows shows it. */
  lemma {:induction false} NoPermissionTextIff(roles: seq<Role>, permissions: seq<Permission>, rolePermissions: seq<RolePermission>, i: nat)
    requires i < |roles|
    ensures var r := RolesWithPermissions(roles, permissions, rolePermissions)[i];
      && (ShowsNoPermissionText(r) <==> forall p :: p in permissions ==> !Linked(rolePermissions, roles[i].id, p.id))
      && PermissionCount(r) <= |permissions|
  {
    var ids := RolePermIds(rolePermissions, roles[i].id);
    var r := RolesWithPermissions(roles, permissions, rolePermissions)[i];
    FilterLength(permissions, (p: Permission) => p.id in ids);
    if forall p :: p in permissions ==> !Linked(rolePermissions, roles[i].id, p.id) {
      FilterNone(permissions, (p: Permission) => p.id in ids);
    }
  }
}
