/**
 * `POST /guest/login` issues a token for a synthetic GUEST principal and binds it
 * to a freshly cleared context; `GET /guest/books` is open to GUEST users only.
 */
module GuestController {
  import opened Wrappers
  import opened Security
  import opened Http
  import opened Collaborators
  import Authorization

  /** The synthetic principal of guest login. */
  const GuestUser: User := User("guestuser", GUEST)

  /** The authentication guest login binds: the guest principal with the single authority ROLE_GUEST. */
  const GuestAuth: Auth := Auth(GuestUser, ["ROLE_GUEST"])

  /** One guest login: the context slot afterwards, the result (token generation may throw,
      which leaves the method) and the calls made. */
  datatype GuestRun = GuestRun(auth: Option<Auth>, result: Outcome<Response<LoginResponse>>, calls: seq<Call>)

  /** What `authenticateGuest()` does; the context it starts from plays no part. */
  function GuestLogin(jwt: JwtService): (r: GuestRun)
  {
    var issued := [ContextClear, JwtGenerateToken(GuestUser)];
    match jwt.generateToken(GuestUser)
    case Raised(e) => GuestRun(None, Raised(e), issued)
    case Returned(token) =>
      GuestRun(Some(GuestAuth), Returned(Response(OK, Some(LoginResponse(token, Some(jwt.expirationTime))))),
               issued + [ContextSet(GuestAuth)])
  }

  /** Guest login clears first; whatever was bound before is gone, and the context then holds
      nothing or the guest authentication, whose single authority ROLE_GUEST is the one the
      GUEST role derives. When token generation returns, the answer is 200 with that token and
      the validity window. */
  lemma GuestLoginBindsOnlyGuest(jwt: JwtService)
    ensures var r := GuestLogin(jwt);
      && r.calls[0] == ContextClear
      && (r.auth == None || r.auth == Some(GuestAuth))
      && (r.auth.Some? <==> r.result.Returned?)
      && (r.result.Returned? ==>
            r.result.value == Response(OK, Some(LoginResponse(jwt.generateToken(GuestUser).value, Some(jwt.expirationTime)))))
    ensures GuestAuth.principal.username == "guestuser" && GuestAuth.principal.role == GUEST
    ensures |GuestAuth.authorities| == 1 && GuestAuth.authorities[0] == "ROLE_GUEST"
    ensures GuestAuth == PrincipalAuth(GuestUser)
  {
    assert RoleAuthority(GUEST) == "ROLE_GUEST";
  }

  /** A guest authentication is refused by the password-login gate and by the user-read gates. */
  lemma GuestDeniedByRoleGates()
    ensures Authorization.PreAuthorize(Some(GuestAuth), Authorization.Login) == Authorization.Forbidden
    ensures Authorization.PreAuthorize(Some(GuestAuth), Authorization.AllUsers) == Authorization.Forbidden
    ensures Authorization.PreAuthorize(Some(GuestAuth), Authorization.GetUser) == Authorization.Forbidden
  {
    assert GuestAuth == PrincipalAuth(GuestUser) by {
      assert RoleAuthority(GUEST) == "ROLE_GUEST";
    }
    Authorization.GateAdmitsListedRoles(GuestUser, Authorization.Login);
    Authorization.GateAdmitsListedRoles(GuestUser, Authorization.AllUsers);
    Authorization.GateAdmitsListedRoles(GuestUser, Authorization.GetUser);
  }

  /** `authenticateGuest()` on the context slot `ctx`, recording calls in `rec`. */
  method AuthenticateGuest(ctx: SecurityContext, jwt: JwtService, rec: Recorder)
    returns (result: Outcome<Response<LoginResponse>>)
    modifies ctx, rec
    ensures var r := GuestLogin(jwt);
      ctx.auth == r.auth && result == r.result && rec.log == old(rec.log) + r.calls
  {
    ctx.ClearContext();
    rec.Record(ContextClear);
    rec.Record(JwtGenerateToken(GuestUser));
    var token := jwt.generateToken(GuestUser);
    if token.Raised? {
      return Raised(token.error);
    }
    var expiration := jwt.expirationTime;
    ctx.SetAuthentication(GuestAuth);
    rec.Record(ContextSet(GuestAuth));
    result := Returned(Response(OK, Some(LoginResponse(token.value, Some(expiration)))));
  }

  const DefaultPage: int := 0
  const DefaultSize: int := 10
  const NotLoggedIn: string := "Restricted to logged Guest users"
  const NotGuest: string := "Access restricted to Guest users only"

  /** A request parameter, or its declared default when it is absent. */
  function ParamOr(p: Option<int>, default: int): (v: int)
  {
    if p.Some? then p.value else default
  }

  /** The guest listing's answer: a refusal owned by the controller, or the book
      service's `getOnlyBooks(page, size)` response handed back unchanged. */
  datatype GuestBooks = Refused(response: Response<string>) | Listed(listing: Response<BookPage>)

  /** `getAvailableBooks(page, size)`: the current user comes from the user service;
      absent parameters take their defaults. */
  function GetAvailableBooks(users: UserService, books: BookService, page: Option<int>, size: Option<int>): (r: GuestBooks)
    ensures users.getCurrentUser.None? ==> r == Refused(Response(UNAUTHORIZED, Some(NotLoggedIn)))
    ensures users.getCurrentUser.Some? && users.getCurrentUser.value.role != GUEST ==>
      r == Refused(Response(FORBIDDEN, Some(NotGuest)))
    ensures r.Listed? <==> users.getCurrentUser.Some? && users.getCurrentUser.value.role == GUEST
    ensures r.Listed? ==> r.listing == books.getOnlyBooks(ParamOr(page, DefaultPage), ParamOr(size, DefaultSize))
  {
    var current := users.getCurrentUser;
    if current.None? then Refused(Response(UNAUTHORIZED, Some(NotLoggedIn)))
    else if current.value.role != GUEST then Refused(Response(FORBIDDEN, Some(NotGuest)))
    else Listed(books.getOnlyBooks(ParamOr(page, DefaultPage), ParamOr(size, DefaultSize)))
  }

  /** A guest gets the page and size it asked for, and the first page of ten when it asked
      for neither; a refusal is the same whatever the book service would answer. */
  lemma GuestListingPages(users: UserService, books: BookService, other: BookService, page: int, size: int)
    ensures users.getCurrentUser.Some? && users.getCurrentUser.value.role == GUEST ==>
      && GetAvailableBooks(users, books, None, None) == Listed(books.getOnlyBooks(0, 10))
      && GetAvailableBooks(users, books, Some(page), Some(size)) == Listed(books.getOnlyBooks(page, size))
    ensures GetAvailableBooks(users, books, Some(page), Some(size)).Refused? ==>
      GetAvailableBooks(users, books, Some(page), Some(size)) == GetAvailableBooks(users, other, Some(page), Some(size))
  {
  }
}
