/** The permission list (src/components/admin/PermissionManagement.tsx): the
    search filter over the fetched permissions and the total shown under
    the table. */
module PermissionAdmin {
  import opened Common

  /** A row of the `permissions` table. */
  datatype Permission = Permission(id: string, code: string, name: string, description: Option<string>)

  /** A permission matches when its lower-cased code or name contains the
      lower-cased term. `lower` stands for `toLowerCase`. */
  predicate MatchesSearch(p: Permission, searchTerm: string, lower: string -> string) {
    Contains(lower(p.code), lower(searchTerm)) || Contains(lower(p.name), lower(searchTerm))
  }

  /** `filteredPermissions`: the matching permissions, in fetched order. */
  function FilteredPermissions(permissions: seq<Permission>, searchTerm: string, lower: string -> string): (r: seq<Permission>)
    ensures IsSubsequence(r, permissions)
    ensures forall p :: p in r ==> p in permissions && MatchesSearch(p, searchTerm, lower)
    ensures forall p :: p in permissions && MatchesSearch(p, searchTerm, lower) ==> p in r
  {
    Filter(permissions, (p: Permission) => MatchesSearch(p, searchTerm, lower))
  }

  /** An empty search keeps every permission, in order (lower-casing the
      empty string gives the empty string, which every text contains). */
  lemma {:induction false} EmptySearchKeepsAll(permissions: seq<Permission>, lower: string -> string)
    requires lower("") == ""
    ensures FilteredPermissions(permissions, "", lower) == permissions
  {
    forall p | p in permissions ensures MatchesSearch(p, "", lower) {
      assert "" <= lower(p.code);
    }
    FilterAll(permissions, (p: Permission) => MatchesSearch(p, "", lower));
  }

  /** "Total: n permissions": the number of filtered rows, which is at most
      the number fetched and equals it exactly when every row matches. */
  function Total(permissions: seq<Permission>, searchTerm: string, lower: string -> string): (n: nat)
    ensures n <= |permissions|
    ensures n == |permissions| <==> forall p :: p in permissions ==> MatchesSearch(p, searchTerm, lower)
  {
    FilterLength(permissions, (p: Permission) => MatchesSearch(p, searchTerm, lower));
    |FilteredPermissions(permissions, searchTerm, lower)|
  }
}
