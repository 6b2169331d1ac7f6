/** The authentication context (src/contexts/AuthContext.tsx): the signed-in
    user with the role and permission codes granted to them, the membership
    predicates every access check goes through, the error chain of `signIn`,
    and the provider state that the auth listener and `signOut` update. */
module Auth {
  import opened Common

  /** The signed-in user. `roles` and `permissions` hold the codes returned
      by the role and permission lookups for this user. */
  datatype AuthUser = AuthUser(
    id: string,
    employeeName: string,
    roles: seq<string>,
    permissions: seq<string>)

  /** `hasPermission`: false for a signed-out user. */
  predicate HasPermission(user: Option<AuthUser>, permission: string)
    ensures HasPermission(user, permission) ==> user.Some?
    ensures user.Some? ==> (HasPermission(user, permission) <==> permission in user.value.permissions)
  {
    match user
    case None => false
    case Some(u) => permission in u.permissions
  }

  /** `hasRole`: false for a signed-out user. */
  predicate HasRole(user: Option<AuthUser>, role: string)
    ensures HasRole(user, role) ==> user.Some?
    ensures user.Some? ==> (HasRole(user, role) <==> role in user.value.roles)
  {
    match user
    case None => false
    case Some(u) => role in u.roles
  }

  /** `hasAnyPermission`: `permissions.some(...)`, scanning the list in order. */
  function HasAnyPermission(user: Option<AuthUser>, permissions: seq<string>): (r: bool)
    ensures r <==> exists p :: p in permissions && HasPermission(user, p)
  {
    if permissions == [] then false
    else
      assert permissions == [permissions[0]] + permissions[1..];
      HasPermission(user, permissions[0]) || HasAnyPermission(user, permissions[1..])
  }

  /** `hasAnyRole`: `roles.some(...)`, scanning the list in order. */
  function HasAnyRole(user: Option<AuthUser>, roles: seq<string>): (r: bool)
    ensures r <==> exists q :: q in roles && HasRole(user, q)
  {
    if roles == [] then false
    else
      assert roles == [roles[0]] + roles[1..];
      HasRole(user, roles[0]) || HasAnyRole(user, roles[1..])
  }

  /** A one-element list asks the same question as the single check. */
  lemma AnyOfOne(user: Option<AuthUser>, p: string)
    ensures HasAnyPermission(user, [p]) == HasPermission(user, p)
    ensures HasAnyRole(user, [p]) == HasRole(user, p)
  {
    assert p in [p];
  }

  /** With nobody signed in every predicate is false, whatever is asked. */
  lemma SignedOutDeniesAll(ps: seq<string>, rs: seq<string>)
    ensures forall p :: !HasPermission(None, p) && !HasRole(None, p)
    ensures !HasAnyPermission(None, ps) && !HasAnyRole(None, rs)
  {
  }

  /** `loadUserData`: no user when the users row is missing; otherwise the
      codes of the role and permission lookups, or none when a lookup
      returned null. */
  function LoadUser(
    userId: string,
    employeeName: Option<string>,
    roleCodes: Option<seq<string>>,
    permissionCodes: Option<seq<string>>): (r: Option<AuthUser>)
    ensures r.Some? <==> employeeName.Some?
    ensures r.Some? ==> r.value.id == userId && r.value.employeeName == employeeName.value
    ensures r.Some? ==> forall q :: HasRole(r, q) <==> roleCodes.Some? && q in roleCodes.value
    ensures r.Some? ==> forall p :: HasPermission(r, p) <==> permissionCodes.Some? && p in permissionCodes.value
  {
    match employeeName
    case None => None
    case Some(name) => Some(AuthUser(userId, name, roleCodes.GetOr([]), permissionCodes.GetOr([])))
  }

  const NipNotFound := "NIP tidak ditemukan"
  const NoLoginEmail := "Employee tidak memiliki email untuk login"
  const WrongCredentials := "NIP atau password salah"
  const LoginFailed := "Terjadi kesalahan saat login"
  const InvalidCredentialsMarker := "Invalid login credentials"

  /** Result of looking an employee up by NIP: the call failed, or the rows
      found, each carrying its email (None for null). */
  datatype EmployeeLookup = LookupError | LookupThrew | Rows(emails: seq<Option<string>>)

  /** Result of the password sign-in for the employee's email. */
  datatype PasswordSignIn = SignedIn | SignInError(message: string) | SignInThrew

  /** `signIn`: the error message shown to the user, or None on success.
      The password sign-in is attempted only for the first row's email, and
      only when that email is non-empty; an exception from either call
      becomes the generic login error. */
  function SignIn(lookup: EmployeeLookup, attempt: PasswordSignIn): (r: Option<string>)
    ensures r == None <==>
      lookup.Rows? && |lookup.emails| > 0 && lookup.emails[0].Some? && lookup.emails[0].value != ""
      && attempt == SignedIn
    ensures (lookup == LookupError || (lookup.Rows? && lookup.emails == [])) ==> r == Some(NipNotFound)
    ensures lookup.Rows? && |lookup.emails| > 0 && lookup.emails[0].GetOr("") == "" ==> r == Some(NoLoginEmail)
    ensures r == Some(WrongCredentials) && lookup.Rows? ==>
      attempt.SignInError? && (Contains(attempt.message, InvalidCredentialsMarker) || attempt.message == WrongCredentials)
    ensures lookup.Rows? && |lookup.emails| > 0 && lookup.emails[0].GetOr("") != "" && attempt.SignInError? ==>
      r == Some(if Contains(attempt.message, InvalidCredentialsMarker) then WrongCredentials else attempt.message)
    ensures lookup == LookupThrew
      || (lookup.Rows? && |lookup.emails| > 0 && lookup.emails[0].GetOr("") != "" && attempt == SignInThrew)
      ==> r == Some(LoginFailed)
  {
    match lookup
    case LookupThrew => Some(LoginFailed)
    case LookupError => Some(NipNotFound)
    case Rows(emails) =>
      if |emails| == 0 then Some(NipNotFound)
      else if emails[0].GetOr("") == "" then Some(NoLoginEmail)
      else
        match attempt
        case SignedIn => None
        case SignInThrew => Some(LoginFailed)
        case SignInError(m) =>
          if Contains(m, InvalidCredentialsMarker) then Some(WrongCredentials) else Some(m)
  }

  /** The provider's state: the current user and whether the first session
      check is still in progress. */
  class AuthProvider {
    var user: Option<AuthUser>
    var loading: bool

    constructor ()
      ensures user == None && loading
    {
      user := None;
      loading := true;
    }

    /** The `onAuthStateChange` listener: a session with a user loads that
        user (None when the users row is missing); no session clears the
        user. Either way loading ends. */
    method OnAuthStateChange(
      sessionUserId: Option<string>,
      employeeName: Option<string>,
      roleCodes: Option<seq<string>>,
      permissionCodes: Option<seq<string>>)
      modifies this
      ensures !loading
      ensures sessionUserId.None? ==> user == None
      ensures sessionUserId.Some? ==> user == LoadUser(sessionUserId.value, employeeName, roleCodes, permissionCodes)
    {
      if sessionUserId.Some? {
        user := LoadUser(sessionUserId.value, employeeName, roleCodes, permissionCodes);
        loading := false;
      } else {
        user := None;
        loading := false;
      }
    }

    /** The initial `getSession` check: unlike the listener it leaves the
        user alone when there is no session. */
    method OnInitialSession(
      sessionUserId: Option<string>,
      employeeName: Option<string>,
      roleCodes: Option<seq<string>>,
      permissionCodes: Option<seq<string>>)
      modifies this
      ensures !loading
      ensures sessionUserId.None? ==> user == old(user)
      ensures sessionUserId.Some? ==> user == LoadUser(sessionUserId.value, employeeName, roleCodes, permissionCodes)
    {
      if sessionUserId.Some? {
        user := LoadUser(sessionUserId.value, employeeName, roleCodes, permissionCodes);
        loading := false;
      } else {
        loading := false;
      }
    }

    /** `signOut`: the user is cleared, so every access predicate is false. */
    method SignOut()
      modifies this`user
      ensures user == None
      ensures forall p :: !HasPermission(user, p) && !HasRole(user, p)
    {
      user := None;
    }
  }
}
