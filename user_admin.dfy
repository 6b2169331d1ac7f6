/** Account administration (src/components/admin/UserManagement.tsx): the
    list of accounts with their roles, the employees that may still get an
    account, the checks made before an account is created or a password is
    changed, the role picker of the create dialog, the per-user add-role
    options, and the search box. */
module UserAdmin {
  import opened Common

  datatype Employee = Employee(id: string, nip: string, nama: string, email: Option<string>)

  datatype Role = Role(id: string, name: string)

  /** A `users` row with its joined employee (None when the join is empty). */
  datatype UserRow = UserRow(id: string, employeeId: string, employee: Option<Employee>)

  datatype UserWithDetails = UserWithDetails(id: string, employeeId: string, employee: Employee, roles: seq<Role>)

  /** A user's roles: the entries of the role list with a matching
      `user_roles` row (`userRoleIds`, None when that lookup returned
      null), in role-list order. */
  function RolesOfUser(allRoles: seq<Role>, userRoleIds: Option<seq<string>>): (r: seq<Role>)
    ensures IsSubsequence(r, allRoles)
    ensures forall q :: q in r ==> q in allRoles && userRoleIds.Some? && q.id in userRoleIds.value
    ensures forall q :: q in allRoles && userRoleIds.Some? && q.id in userRoleIds.value ==> q in r
  {
    Filter(allRoles, (q: Role) => userRoleIds.Some? && q.id in userRoleIds.value)
  }

  /** The accounts listed: every row with an employee, in row order, with
      its roles; `roleLookup` gives the `user_roles` ids fetched for a user. */
  function UsersWithRoles(rows: seq<UserRow>, allRoles: seq<Role>, roleLookup: string -> Option<seq<string>>): seq<UserWithDetails> {
    if rows == [] then []
    else
      var row := rows[|rows| - 1];
      UsersWithRoles(rows[..|rows| - 1], allRoles, roleLookup)
      + (if row.employee.Some?
         then [UserWithDetails(row.id, row.employeeId, row.employee.value, RolesOfUser(allRoles, roleLookup(row.id)))]
         else [])
  }

  /** The loop of `fetchData` that pushes one entry per user with an
      employee record. */
  method BuildUsersWithRoles(rows: seq<UserRow>, allRoles: seq<Role>, roleLookup: string -> Option<seq<string>>)
    returns (usersWithRoles: seq<UserWithDetails>)
    ensures usersWithRoles == UsersWithRoles(rows, allRoles, roleLookup)
  {
    usersWithRoles := [];
    var i := 0;
    while i < |rows|
      invariant 0 <= i <= |rows|
      invariant usersWithRoles == UsersWithRoles(rows[..i], allRoles, roleLookup)
    {
      assert rows[..i + 1][..i] == rows[..i];
      var user := rows[i];
      var roles := RolesOfUser(allRoles, roleLookup(user.id));
      if user.employee.Some? {
        usersWithRoles := usersWithRoles + [UserWithDetails(user.id, user.employeeId, user.employee.value, roles)];
      }
      i := i + 1;
    }
    assert rows[..i] == rows;
  }

  /** Every listed account comes from a row with an employee and carries
      that row's data and roles; every row with an employee is listed; rows
      without one are dropped. */
  lemma {:induction false} UsersWithRolesMembers(rows: seq<UserRow>, allRoles: seq<Role>, roleLookup: string -> Option<seq<string>>)
    ensures |UsersWithRoles(rows, allRoles, roleLookup)| <= |rows|
    ensures forall u :: u in UsersWithRoles(rows, allRoles, roleLookup) ==>
      UserRow(u.id, u.employeeId, Some(u.employee)) in rows && u.roles == RolesOfUser(allRoles, roleLookup(u.id))
    ensures forall row :: row in rows && row.employee.Some? ==>
      UserWithDetails(row.id, row.employeeId, row.employee.value, RolesOfUser(allRoles, roleLookup(row.id)))
        in UsersWithRoles(rows, allRoles, roleLookup)
  {
    if rows != [] {
      var init := rows[..|rows| - 1];
      UsersWithRolesMembers(init, allRoles, roleLookup);
      assert rows == init + [rows[|rows| - 1]];
    }
  }

  /** `employeesWithoutUser`: the employees no account points to, in
      employee order. */
  function EmployeesWithoutUser(allEmployees: seq<Employee>, rows: seq<UserRow>): (r: seq<Employee>)
    ensures IsSubsequence(r, allEmployees)
    ensures forall e :: e in r ==> e in allEmployees && forall row :: row in rows ==> row.employeeId != e.id
    ensures forall e :: e in allEmployees && (forall row :: row in rows ==> row.employeeId != e.id) ==> e in r
  {
    var userEmployeeIds := set row | row in rows :: row.employeeId;
    Filter(allEmployees, (e: Employee) => e.id !in userEmployeeIds)
  }

  const MissingFields := "Employee dan password wajib diisi"
  const ShortPassword := "Password minimal 6 karakter"
  const NoEmail := "Employee ini tidak memiliki email terdaftar"
  const SessionExpired := "Sesi habis. Silakan login ulang."

  /** The first employee with the given id (`find`). */
  function FindEmployee(employees: seq<Employee>, id: string): (r: Option<Employee>)
    ensures r.Some? ==> r.value in employees && r.value.id == id
    ensures r.None? <==> forall e :: e in employees ==> e.id != id
  {
    if employees == [] then None
    else if employees[0].id == id then Some(employees[0])
    else FindEmployee(employees[1..], id)
  }

  /** What the create handler does: stop with a message, or call the
      account-creation function with this body. */
  datatype CreateOutcome =
    | CreateRejected(message: string)
    | InvokeCreate(email: string, password: string, employeeId: string, roles: seq<string>)

  /** `handleCreateUser` up to the remote call, checks in source order. */
  function CreateUser(
    selectedEmployee: string, password: string, selectedRoles: seq<string>,
    employeesWithoutUser: seq<Employee>, hasSession: bool): (o: CreateOutcome)
    ensures (selectedEmployee == "" || password == "") ==> o == CreateRejected(MissingFields)
    ensures selectedEmployee != "" && password != "" && |password| < 6 ==> o == CreateRejected(ShortPassword)
    ensures selectedEmployee != "" && |password| >= 6
      && (FindEmployee(employeesWithoutUser, selectedEmployee).None?
          || FindEmployee(employeesWithoutUser, selectedEmployee).value.email.GetOr("") == "")
      ==> o == CreateRejected(NoEmail)
    ensures selectedEmployee != "" && |password| >= 6
      && FindEmployee(employeesWithoutUser, selectedEmployee).Some?
      && FindEmployee(employeesWithoutUser, selectedEmployee).value.email.GetOr("") != ""
      && !hasSession
      ==> o == CreateRejected(SessionExpired)
    ensures o.InvokeCreate? <==>
      && selectedEmployee != "" && |password| >= 6 && hasSession
      && (exists e :: e in employeesWithoutUser && e.id == selectedEmployee)
      && FindEmployee(employeesWithoutUser, selectedEmployee).value.email.GetOr("") != ""
    ensures o.InvokeCreate? ==>
      && o.password == password && o.employeeId == selectedEmployee && o.roles == selectedRoles
      && o.email != ""
      && (exists e :: e in employeesWithoutUser && e.id == selectedEmployee && e.email == Some(o.email))
  {
    if selectedEmployee == "" || password == "" then CreateRejected(MissingFields)
    else if |password| < 6 then CreateRejected(ShortPassword)
    else
      var employee := FindEmployee(employeesWithoutUser, selectedEmployee);
      if employee.None? || employee.value.email.GetOr("") == "" then CreateRejected(NoEmail)
      else if !hasSession then CreateRejected(SessionExpired)
      else InvokeCreate(employee.value.email.value, password, selectedEmployee, selectedRoles)
  }

  datatype ChangePasswordOutcome = Ignored | PasswordRejected(message: string) | InvokeUpdate(userId: string, password: string)

  /** `handleChangePassword` up to the remote call. */
  function ChangePassword(userToUpdate: Option<string>, newPassword: string): (o: ChangePasswordOutcome)
    ensures o == Ignored <==> userToUpdate.None? || newPassword == ""
    ensures o.InvokeUpdate? <==> userToUpdate.Some? && |newPassword| >= 6
    ensures o.InvokeUpdate? ==> o.userId == userToUpdate.value && o.password == newPassword
    ensures o.PasswordRejected? ==> o.message == ShortPassword && 0 < |newPassword| < 6
  {
    if userToUpdate.None? || newPassword == "" then Ignored
    else if |newPassword| < 6 then PasswordRejected(ShortPassword)
    else InvokeUpdate(userToUpdate.value, newPassword)
  }

  /** The role badge's click handler: remove the id if selected, append it
      otherwise. */
  function ToggleRole(selectedRoles: seq<string>, roleId: string): (r: seq<string>)
    ensures roleId in r <==> roleId !in selectedRoles
    ensures forall q :: q != roleId ==> (q in r <==> q in selectedRoles)
  {
    if roleId in selectedRoles then Filter(selectedRoles, (q: string) => q != roleId)
    else selectedRoles + [roleId]
  }

  /** Toggling keeps the selection free of repeats, and toggling the same
      role twice restores the selection's membership; starting from an
      unselected role it restores the very same list. */
  lemma ToggleTwice(selectedRoles: seq<string>, roleId: string)
    ensures Distinct(selectedRoles) ==> Distinct(ToggleRole(selectedRoles, roleId))
    ensures forall q :: q in ToggleRole(ToggleRole(selectedRoles, roleId), roleId) <==> q in selectedRoles
    ensures roleId !in selectedRoles ==> ToggleRole(ToggleRole(selectedRoles, roleId), roleId) == selectedRoles
  {
    if Distinct(selectedRoles) && roleId in selectedRoles {
      FilterDistinct(selectedRoles, (q: string) => q != roleId);
    }
    if roleId !in selectedRoles {
      FilterAppendOne(selectedRoles, roleId);
    }
  }

  /** Removing an appended id that was not there before gives back the list. */
  lemma {:induction false} FilterAppendOne(s: seq<string>, x: string)
    requires x !in s
    ensures Filter(s + [x], (q: string) => q != x) == s
  {
    if s == [] {
      assert Filter([x], (q: string) => q != x) == Filter([], (q: string) => q != x);
    } else {
      assert (s + [x])[1..] == s[1..] + [x];
      FilterAppendOne(s[1..], x);
      assert [s[0]] + s[1..] == s;
    }
  }

  /** The add-role options: the roles the user does not hold yet. */
  function AvailableRoles(allRoles: seq<Role>, userRoles: seq<Role>): (r: seq<Role>)
    ensures IsSubsequence(r, allRoles)
    ensures forall q :: q in r ==> q in allRoles && forall h :: h in userRoles ==> h.id != q.id
    ensures forall q :: q in allRoles && (forall h :: h in userRoles ==> h.id != q.id) ==> q in r
  {
    var held := set h | h in userRoles :: h.id;
    Filter(allRoles, (q: Role) => q.id !in held)
  }

  /** For a listed account, a role is offered exactly when the user has no
      `user_roles` row for it: the options and the role badges split the
      role list between them. */
  lemma OptionsComplementRoles(allRoles: seq<Role>, userRoleIds: Option<seq<string>>, q: Role)
    requires q in allRoles
    ensures q in AvailableRoles(allRoles, RolesOfUser(allRoles, userRoleIds)) <==> q !in RolesOfUser(allRoles, userRoleIds)
  {
    var held := RolesOfUser(allRoles, userRoleIds);
    if q !in held {
      forall h | h in held ensures h.id != q.id {
      }
    }
  }

  /** Only `RoleAdded` refreshes the list. */
  datatype AddRoleOutcome = RoleAdded | AlreadyHasRole | AddRoleFailed

  /** PostgreSQL's unique_violation SQLSTATE. */
  const UniqueViolation := "23505"

  /** `handleAddRole` after the insert: a unique-key violation means the
      user already holds the role. */
  function AddRole(insertError: Option<string>): (o: AddRoleOutcome)
    ensures o == RoleAdded <==> insertError.None?
    ensures o == AlreadyHasRole <==> insertError == Some(UniqueViolation)
  {
    match insertError
    case None => RoleAdded
    case Some(code) => if code == UniqueViolation then AlreadyHasRole else AddRoleFailed
  }

  /** The search predicate of `filteredUsers`: the lower-cased name
      contains the lower-cased term, or the NIP contains the term as typed.
      `lower` stands for `toLowerCase`. */
  predicate MatchesSearch(u: UserWithDetails, searchTerm: string, lower: string -> string) {
    Contains(lower(u.employee.nama), lower(searchTerm)) || Contains(u.employee.nip, searchTerm)
  }

  /** `filteredUsers`: the matching accounts in list order. */
  function FilteredUsers(users: seq<UserWithDetails>, searchTerm: string, lower: string -> string): (r: seq<UserWithDetails>)
    ensures IsSubsequence(r, users)
    ensures forall u :: u in r ==> u in users && MatchesSearch(u, searchTerm, lower)
    ensures forall u :: u in users && MatchesSearch(u, searchTerm, lower) ==> u in r
  {
    Filter(users, (u: UserWithDetails) => MatchesSearch(u, searchTerm, lower))
  }

  /** An empty search keeps every account, in order. */
  lemma {:induction false} EmptySearchKeepsAll(users: seq<UserWithDetails>, lower: string -> string)
    ensures FilteredUsers(users, "", lower) == users
  {
    FilterAll(users, (u: UserWithDetails) => MatchesSearch(u, "", lower));
  }
}
