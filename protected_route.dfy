/** The route guard (src/components/ProtectedRoute.tsx): a chain of early
    returns deciding, from the auth state and the route's requirements,
    whether to show a spinner, redirect, or render the page. */
module ProtectedRoute {
  import opened Common
  import opened Auth

  datatype Outcome =
    | Spinner
    | RedirectToLogin(from: string)
    | RedirectToUnauthorized
    | RenderChildren

  /** The guard's props. A missing or empty-string `permission`/`role` is
      falsy and imposes nothing; so does a missing or empty list.
      `requireAll` defaults to false at the call site. */
  datatype Requirements = Requirements(
    permission: Option<string>,
    role: Option<string>,
    permissions: Option<seq<string>>,
    roles: Option<seq<string>>,
    requireAll: bool)

  /** `permissions.every(p => hasPermission(p))`. */
  function HasAllPermissions(user: Option<AuthUser>, ps: seq<string>): (r: bool)
    ensures r <==> forall p :: p in ps ==> HasPermission(user, p)
  {
    if ps == [] then true
    else
      assert ps == [ps[0]] + ps[1..];
      HasPermission(user, ps[0]) && HasAllPermissions(user, ps[1..])
  }

  /** `roles.every(r => hasRole(r))`. */
  function HasAllRoles(user: Option<AuthUser>, rs: seq<string>): (r: bool)
    ensures r <==> forall q :: q in rs ==> HasRole(user, q)
  {
    if rs == [] then true
    else
      assert rs == [rs[0]] + rs[1..];
      HasRole(user, rs[0]) && HasAllRoles(user, rs[1..])
  }

  predicate Given(s: Option<string>) {
    s.Some? && s.value != ""
  }

  predicate NonEmptyList(l: Option<seq<string>>) {
    l.Some? && |l.value| > 0
  }

  /** `ProtectedRoute`: loading, then sign-in, then the single permission,
      the single role, the permission list and the role list, in that order. */
  function Decide(loading: bool, user: Option<AuthUser>, location: string, req: Requirements): (o: Outcome)
    ensures o == Spinner <==> loading
    ensures o.RedirectToLogin? <==> !loading && user.None?
    ensures o.RedirectToLogin? ==> o.from == location
  {
    if loading then Spinner
    else if user.None? then RedirectToLogin(location)
    else if Given(req.permission) && !HasPermission(user, req.permission.value) then RedirectToUnauthorized
    else if Given(req.role) && !HasRole(user, req.role.value) then RedirectToUnauthorized
    else if NonEmptyList(req.permissions) && req.requireAll && !HasAllPermissions(user, req.permissions.value) then RedirectToUnauthorized
    else if NonEmptyList(req.permissions) && !req.requireAll && !HasAnyPermission(user, req.permissions.value) then RedirectToUnauthorized
    else if NonEmptyList(req.roles) && req.requireAll && !HasAllRoles(user, req.roles.value) then RedirectToUnauthorized
    else if NonEmptyList(req.roles) && !req.requireAll && !HasAnyRole(user, req.roles.value) then RedirectToUnauthorized
    else RenderChildren
  }

  /** What the route asks of a signed-in user, stated on the user's code
      lists directly rather than through the guard's checks. */
  ghost predicate Satisfies(u: AuthUser, req: Requirements) {
    && (Given(req.permission) ==> req.permission.value in u.permissions)
    && (Given(req.role) ==> req.role.value in u.roles)
    && (NonEmptyList(req.permissions) && req.requireAll ==>
          forall p :: p in req.permissions.value ==> p in u.permissions)
    && (NonEmptyList(req.permissions) && !req.requireAll ==>
          exists p :: p in req.permissions.value && p in u.permissions)
    && (NonEmptyList(req.roles) && req.requireAll ==>
          forall q :: q in req.roles.value ==> q in u.roles)
    && (NonEmptyList(req.roles) && !req.requireAll ==>
          exists q :: q in req.roles.value && q in u.roles)
  }

  /** Children render exactly when the session is loaded, someone is signed
      in, and every supplied requirement holds; an absent or empty list
      imposes nothing. Otherwise a signed-in user is sent to /unauthorized. */
  lemma RenderIff(loading: bool, user: Option<AuthUser>, location: string, req: Requirements)
    ensures Decide(loading, user, location, req) == RenderChildren <==>
      !loading && user.Some? && Satisfies(user.value, req)
    ensures !loading && user.Some? && !Satisfies(user.value, req) ==>
      Decide(loading, user, location, req) == RedirectToUnauthorized
  {
    if !loading && user.Some? {
      var u := user.value;
      if NonEmptyList(req.permissions) && !req.requireAll && HasAnyPermission(user, req.permissions.value) {
        var p :| p in req.permissions.value && HasPermission(user, p);
        assert p in u.permissions;
      }
      if NonEmptyList(req.roles) && !req.requireAll && HasAnyRole(user, req.roles.value) {
        var q :| q in req.roles.value && HasRole(user, q);
        assert q in u.roles;
      }
      if NonEmptyList(req.permissions) && !req.requireAll && !HasAnyPermission(user, req.permissions.value) {
        assert !exists p :: p in req.permissions.value && p in u.permissions;
      }
      if NonEmptyList(req.roles) && !req.requireAll && !HasAnyRole(user, req.roles.value) {
        assert !exists q :: q in req.roles.value && q in u.roles;
      }
    }
  }

  /** A user lacking the route's single permission, or its single role, is
      redirected to /unauthorized. */
  lemma MissingSingleRequirementRedirects(user: AuthUser, location: string, req: Requirements)
    requires (Given(req.permission) && req.permission.value !in user.permissions)
          || (Given(req.role) && req.role.value !in user.roles)
    ensures Decide(false, Some(user), location, req) == RedirectToUnauthorized
  {
  }

  /** `u` holds every role and permission that `v` holds. */
  predicate Covers(u: AuthUser, v: AuthUser) {
    && (forall p :: p in v.permissions ==> p in u.permissions)
    && (forall q :: q in v.roles ==> q in u.roles)
  }

  /** Granting more roles or permissions never turns a rendered page into a
      redirect. */
  lemma {:induction false} Monotone(v: AuthUser, u: AuthUser, location: string, req: Requirements)
    requires Covers(u, v)
    requires Decide(false, Some(v), location, req) == RenderChildren
    ensures Decide(false, Some(u), location, req) == RenderChildren
  {
    RenderIff(false, Some(v), location, req);
    RenderIff(false, Some(u), location, req);
    if NonEmptyList(req.permissions) && !req.requireAll {
      var p :| p in req.permissions.value && p in v.permissions;
      assert p in u.permissions;
    }
    if NonEmptyList(req.roles) && !req.requireAll {
      var q :| q in req.roles.value && q in v.roles;
      assert q in u.roles;
    }
  }
}
