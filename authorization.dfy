/**
 * The declarative per-endpoint role gates (`@PreAuthorize("hasRole('A') or
 * hasRole('B') ...")`) and their evaluation against the bound authentication.
 */
module Authorization {
  import opened Wrappers
  import opened Security

  /** The endpoints whose declarations are part of this model. */
  datatype Endpoint =
    | Login          // POST /auth/login
    | GuestLogin     // POST /guest/login
    | GuestBooks     // GET /guest/books
    | AllUsers       // GET /user/all
    | GetUser        // GET /user/{type}/{identifier}
    | DeleteUser     // DELETE /user/{type}/{identifier}
    | UpdateUser     // PUT /user/{type}/{identifier}

  /** The roles named in an endpoint's `hasRole(..) or ..` chain, in order; None when it has no gate. */
  function DeclaredRoles(e: Endpoint): (roles: Option<seq<Role>>)
  {
    match e
    case Login => Some([SUPER, ADMIN, READER])
    case AllUsers => Some([SUPER, ADMIN])
    case GetUser => Some([SUPER, ADMIN])
    case GuestLogin => None
    case GuestBooks => None
    case DeleteUser => None
    case UpdateUser => None
  }

  /** `hasRole(roles[0]) or hasRole(roles[1]) or ...`, evaluated left to right. */
  function AnyRole(a: Auth, roles: seq<Role>): (granted: bool)
    ensures granted <==> exists i :: 0 <= i < |roles| && HasRole(a, roles[i])
  {
    if roles == [] then false
    else if HasRole(a, roles[0]) then true
    else
      var rest := AnyRole(a, roles[1..]);
      assert forall i :: 0 < i < |roles| ==> roles[i] == roles[1..][i - 1];
      rest
  }

  /** The gate's verdict before the endpoint body runs. */
  datatype Decision = Permit | Unauthenticated | Forbidden

  /** No gate lets everything through; a gate rejects a missing authentication as
      unauthenticated and a present one without any listed role as forbidden. */
  function PreAuthorize(bound: Option<Auth>, e: Endpoint): (d: Decision)
    ensures DeclaredRoles(e).None? ==> d == Permit
    ensures DeclaredRoles(e).Some? && bound.None? ==> d == Unauthenticated
    ensures DeclaredRoles(e).Some? && bound.Some? ==>
      (d == Permit <==> exists r :: r in DeclaredRoles(e).value && HasRole(bound.value, r))
    ensures d != Unauthenticated ==> d == Permit || (bound.Some? && d == Forbidden)
  {
    match DeclaredRoles(e)
    case None => Permit
    case Some(roles) =>
      if bound.None? then Unauthenticated
      else if AnyRole(bound.value, roles) then Permit
      else Forbidden
  }

  /** For a principal bound with its own authorities, a gate admits exactly the listed roles. */
  lemma GateAdmitsListedRoles(u: User, e: Endpoint)
    requires DeclaredRoles(e).Some?
    ensures PreAuthorize(Some(PrincipalAuth(u)), e) == Permit <==> u.role in DeclaredRoles(e).value
    ensures PreAuthorize(Some(PrincipalAuth(u)), e) != Permit ==> PreAuthorize(Some(PrincipalAuth(u)), e) == Forbidden
  {
    var roles := DeclaredRoles(e).value;
    if PreAuthorize(Some(PrincipalAuth(u)), e) == Permit {
      var r :| r in roles && HasRole(PrincipalAuth(u), r);
      PrincipalHasOnlyItsRole(u, r);
    } else {
      PrincipalHasOnlyItsRole(u, u.role);
    }
  }

  /** The login endpoint is declared for SUPER, ADMIN and READER: a GUEST is forbidden there. */
  lemma LoginGate(u: User)
    ensures PreAuthorize(Some(PrincipalAuth(u)), Login) == Permit <==> u.role != GUEST
    ensures u.role == GUEST ==> PreAuthorize(Some(PrincipalAuth(u)), Login) == Forbidden
    ensures PreAuthorize(None, Login) == Unauthenticated
  {
    GateAdmitsListedRoles(u, Login);
  }

  /** Listing all users and reading one user are declared for SUPER and ADMIN only. */
  lemma UserReadGates(u: User)
    ensures PreAuthorize(Some(PrincipalAuth(u)), AllUsers) == Permit <==> u.role == SUPER || u.role == ADMIN
    ensures PreAuthorize(Some(PrincipalAuth(u)), GetUser) == Permit <==> u.role == SUPER || u.role == ADMIN
  {
    GateAdmitsListedRoles(u, AllUsers);
    GateAdmitsListedRoles(u, GetUser);
  }

  /** Deleting and updating a user carry no role annotation: every request passes. */
  lemma UserWritesUngated(bound: Option<Auth>)
    ensures PreAuthorize(bound, DeleteUser) == Permit && PreAuthorize(bound, UpdateUser) == Permit
  {
  }
}
