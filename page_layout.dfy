/** The page shell (src/components/TestPageLayout.tsx): the page-level
    permission gate and the sidebar menu filtered by the user's permissions.
    The Dashboard declares the same twelve menu entries and filters them the
    same way. */
module PageLayout {
  import opened Common
  import opened Auth

  datatype MenuItem = MenuItem(path: string, permission: string, caption: string)

  /** The sidebar entries in declaration order. */
  const MenuItems: seq<MenuItem> := [
    MenuItem("/admin", "access_admin", "Admin Panel"),
    MenuItem("/test/kabapas", "access_kabapas", "Kabapas"),
    MenuItem("/test/kasie", "access_kasie", "Kasie"),
    MenuItem("/test/kasubsie", "access_kasubsie", "Kasubsie"),
    MenuItem("/test/operator-registrasi", "access_operator_registrasi", "Registrasi"),
    MenuItem("/test/anev", "access_anev", "Anev"),
    MenuItem("/test/pk", "access_pk", "PK"),
    MenuItem("/test/persuratan", "access_persuratan", "Persuratan"),
    MenuItem("/test/bimker", "access_bimker", "Bimker"),
    MenuItem("/test/bimkemas", "access_bimkemas", "Bimkemas"),
    MenuItem("/test/tpp", "access_tpp", "TPP"),
    MenuItem("/test/laporan", "access_laporan", "Laporan")
  ]

  /** `accessibleMenus`: the entries whose permission the user holds, in
      declaration order. */
  function AccessibleMenus(user: Option<AuthUser>, items: seq<MenuItem>): (r: seq<MenuItem>)
    ensures IsSubsequence(r, items)
    ensures forall m :: m in r ==> m in items && HasPermission(user, m.permission)
    ensures forall m :: m in items && HasPermission(user, m.permission) ==> m in r
  {
    Filter(items, (m: MenuItem) => HasPermission(user, m.permission))
  }

  /** What the page body shows: the children, or an alert naming the
      missing permission. */
  datatype PageBody = Children | PermissionAlert(permissionCode: string)

  /** `hasAccess = hasPermission(permissionCode)` and the branch on it. */
  function Body(user: Option<AuthUser>, permissionCode: string): (b: PageBody)
    ensures b == Children <==> user.Some? && permissionCode in user.value.permissions
    ensures b.PermissionAlert? ==> b.permissionCode == permissionCode
  {
    if HasPermission(user, permissionCode) then Children else PermissionAlert(permissionCode)
  }

  /** The debug badge under every page. */
  function DebugStatus(user: Option<AuthUser>, permissionCode: string): (s: string)
    ensures s == "GRANTED" <==> Body(user, permissionCode) == Children
    ensures s == "GRANTED" || s == "DENIED"
  {
    if HasPermission(user, permissionCode) then "GRANTED" else "DENIED"
  }

  /** A signed-out user sees no menu entry and no page content. */
  lemma {:induction false} SignedOutSeesNothing(items: seq<MenuItem>, permissionCode: string)
    ensures AccessibleMenus(None, items) == []
    ensures Body(None, permissionCode) == PermissionAlert(permissionCode)
  {
    FilterNone(items, (m: MenuItem) => HasPermission(None, m.permission));
  }

  /** A user holding every menu permission sees the whole menu, in order. */
  lemma {:induction false} FullAccessSeesAll(u: AuthUser, items: seq<MenuItem>)
    requires forall m :: m in items ==> m.permission in u.permissions
    ensures AccessibleMenus(Some(u), items) == items
  {
    FilterAll(items, (m: MenuItem) => HasPermission(Some(u), m.permission));
  }
}
