/** The probation officer's task list (src/pages/test/PKTest.tsx): an admin
    sees every case; any other user sees the cases assigned to their
    `petugas_pk` record, or nothing when they have none; newest first. */
module PkTasks {
  import opened Common
  import opened Auth

  const AdminRole := "admin"

  /** A `litmas` row as the list uses it. */
  datatype Task = Task(idLitmas: int, namaPk: Option<string>)

  function IdOf(t: Task): int {
    t.idLitmas
  }

  /** What the `petugas_pk` lookup for the signed-in user returns. */
  datatype PkLookup = PkLookupError | NoPkRecord | PkRecord(id: string)

  /** `!isAdmin && pkId`: only a non-admin with a non-empty PK id gets the
      `nama_pk` filter. */
  predicate Restricted(isAdmin: bool, pkId: Option<string>) {
    !isAdmin && pkId.Some? && pkId.value != ""
  }

  /** The query's rows: the cases, filtered to the PK id when restricted,
      ordered by `id_litmas` descending. */
  function SelectTasks(isAdmin: bool, pkId: Option<string>, cases: seq<Task>): (r: seq<Task>)
    ensures SortedDesc(r, IdOf)
    ensures forall t :: t in r ==> t in cases
    ensures Restricted(isAdmin, pkId) ==> forall t :: t in r ==> t.namaPk == pkId
    ensures Restricted(isAdmin, pkId) ==> forall t :: t in cases && t.namaPk == pkId ==> t in r
    ensures !Restricted(isAdmin, pkId) ==> multiset(r) == multiset(cases)
  {
    var rows := if Restricted(isAdmin, pkId) then Filter(cases, (t: Task) => t.namaPk == pkId) else cases;
    var r := SortDesc(rows, IdOf);
    SamePermutationMembers(rows, r);
    r
  }

  /** The page's state. */
  class PkPage {
    var tasks: seq<Task>
    var loading: bool

    constructor ()
      ensures tasks == [] && !loading
    {
      tasks := [];
      loading := false;
    }

    /** `fetchMyTasks`. `lookup` is what the `petugas_pk` query would
        return and `queryFails` whether the main query would fail; either
        failure leaves the tasks as they were. */
    method FetchMyTasks(user: Option<AuthUser>, lookup: PkLookup, cases: seq<Task>, queryFails: bool)
      modifies this
      ensures user.None? ==> tasks == old(tasks) && loading == old(loading)
      ensures user.Some? ==> !loading
      ensures user.Some? && !HasRole(user, AdminRole) && lookup == NoPkRecord ==> tasks == []
      ensures user.Some? && HasRole(user, AdminRole) && !queryFails ==> tasks == SelectTasks(true, None, cases)
      ensures user.Some? && !HasRole(user, AdminRole) && lookup.PkRecord? && !queryFails ==>
        tasks == SelectTasks(false, Some(lookup.id), cases)
      ensures user.Some? && !HasRole(user, AdminRole) && lookup == PkLookupError ==> tasks == old(tasks)
      ensures user.Some? && queryFails && (HasRole(user, AdminRole) || lookup.PkRecord?) ==> tasks == old(tasks)
    {
      if user.None? {
        return;
      }
      var isAdmin := HasRole(user, AdminRole);
      loading := true;
      var pkId: Option<string> := None;
      if !isAdmin {
        if lookup == PkLookupError {
          loading := false;
          return;
        }
        if lookup == NoPkRecord {
          tasks := [];
          loading := false;
          return;
        }
        pkId := Some(lookup.id);
      }
      if queryFails {
        loading := false;
        return;
      }
      tasks := SelectTasks(isAdmin, pkId, cases);
      loading := false;
    }
  }

  /** The empty-state row spans one more column for an admin, who also
      sees the officer column. */
  function EmptyStateColumns(isAdmin: bool): (n: nat)
    ensures isAdmin ==> n == 7
    ensures !isAdmin ==> n == 6
  {
    if isAdmin then 7 else 6
  }
}
