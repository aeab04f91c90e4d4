/**
 * Principals, granted authorities and the security-context slot that the
 * authentication filter and the login endpoints read and write.
 */
module Security {
  import opened Wrappers

  /** The closed set of user roles. */
  datatype Role = SUPER | ADMIN | READER | GUEST

  /** The enum constant's name, as `Role.name()` gives it. */
  function RoleName(r: Role): (name: string)
  {
    match r
    case SUPER => "SUPER"
    case ADMIN => "ADMIN"
    case READER => "READER"
    case GUEST => "GUEST"
  }

  const RolePrefix: string := "ROLE_"

  /** The granted-authority string that `hasRole(r)` looks for. */
  function RoleAuthority(r: Role): (a: string)
    ensures |a| > |RolePrefix| && a[..|RolePrefix|] == RolePrefix && a[|RolePrefix|..] == RoleName(r)
  {
    RolePrefix + RoleName(r)
  }

  /** Distinct roles have distinct authority strings. */
  lemma RoleAuthorityInjective(r1: Role, r2: Role)
    ensures RoleAuthority(r1) == RoleAuthority(r2) <==> r1 == r2
  {
    if RoleAuthority(r1) == RoleAuthority(r2) {
      assert RoleName(r1) == RoleName(r2);
      assert RoleName(r1)[0] == RoleName(r2)[0];
    }
  }

  /** A user record as the controllers and the user-details lookup see it. */
  datatype User = User(username: string, role: Role)

  /** The authorities a user-details object grants: one per role, `ROLE_<ROLE>`. */
  function Authorities(u: User): (auths: seq<string>)
  {
    [RoleAuthority(u.role)]
  }

  /** A bound authentication: a principal and the authorities granted with it. */
  datatype Auth = Auth(principal: User, authorities: seq<string>)

  /** The authentication built from a user-details object and its own authorities. */
  function PrincipalAuth(u: User): (a: Auth)
  {
    Auth(u, Authorities(u))
  }

  /** `hasRole(r)`: the authentication was granted the authority `ROLE_<r>`. */
  predicate HasRole(a: Auth, r: Role)
  {
    RoleAuthority(r) in a.authorities
  }

  /** An authentication built from a user's own authorities has exactly that user's role. */
  lemma PrincipalHasOnlyItsRole(u: User, r: Role)
    ensures HasRole(PrincipalAuth(u), r) <==> u.role == r
  {
    RoleAuthorityInjective(u.role, r);
  }

  /** The single security-context slot: empty, or holding one authentication. */
  class SecurityContext {
    var auth: Option<Auth>

    constructor ()
      ensures auth == None
    {
      auth := None;
    }

    /** `SecurityContextHolder.clearContext()`. */
    method ClearContext()
      modifies this
      ensures auth == None
    {
      auth := None;
    }

    /** `SecurityContextHolder.getContext().setAuthentication(a)`. */
    method SetAuthentication(a: Auth)
      modifies this
      ensures auth == Some(a)
    {
      auth := Some(a);
    }
  }
}
