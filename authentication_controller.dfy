/**
 * `POST /auth/login`: a fixed sequence of early returns (400, 401, 500, 500,
 * 200) around clearing the security context and, on success only, binding the
 * authenticated user to it.
 */
module AuthenticationController {
  import opened Wrappers
  import opened Security
  import opened Http
  import opened Collaborators

  /** One login attempt: the context slot afterwards, the response and the calls made. */
  datatype LoginRun = LoginRun(auth: Option<Auth>, response: Response<LoginResponse>, calls: seq<Call>)

  /** What `authenticate(loginUserDto)` does from context slot `bound`. */
  function Login(body: Option<LoginUserDto>, bound: Option<Auth>, authService: AuthenticationService, jwt: JwtService): (r: LoginRun)
  {
    if body.None? then LoginRun(bound, Response(BAD_REQUEST, None), [])
    else
      var checked := [ContextClear, AuthServiceAuthenticate(body.value)];
      match authService(body.value)
      case None => LoginRun(None, Response(UNAUTHORIZED, None), checked)
      case Some(user) =>
        var issued := checked + [JwtGenerateToken(user)];
        match jwt.generateToken(user)
        case Raised(_) => LoginRun(None, Response(INTERNAL_SERVER_ERROR, None), issued)
        case Returned(None) =>
          LoginRun(None, Response(INTERNAL_SERVER_ERROR, Some(LoginResponse(None, None))), issued)
        case Returned(Some(token)) =>
          var a := PrincipalAuth(user);
          LoginRun(Some(a), Response(OK, Some(LoginResponse(Some(token), Some(jwt.expirationTime)))),
                   issued + [ContextSet(a)])
  }

  /** A missing body is a bad request, answered before the context is touched. */
  lemma NullBodyIsBadRequest(bound: Option<Auth>, authService: AuthenticationService, jwt: JwtService)
    ensures var r := Login(None, bound, authService, jwt);
      r.response == Response(BAD_REQUEST, None) && r.auth == bound && r.calls == []
  {
  }

  /** With a body, the context is cleared first and the credentials are checked next. */
  lemma ClearedBeforeCredentials(body: LoginUserDto, bound: Option<Auth>, authService: AuthenticationService, jwt: JwtService)
    ensures var r := Login(Some(body), bound, authService, jwt);
      |r.calls| >= 2 && r.calls[0] == ContextClear && r.calls[1] == AuthServiceAuthenticate(body) &&
      Count(r.calls, ContextClear) == 1
  {
  }

  /** With a body, the context ends up holding a principal exactly on the 200 path, and then
      it is the authenticated user with that user's authorities, answered with the issued
      token and the token service's validity window. Every earlier return leaves it empty. */
  lemma BoundOnlyOnSuccess(body: LoginUserDto, bound: Option<Auth>, authService: AuthenticationService, jwt: JwtService)
    ensures var r := Login(Some(body), bound, authService, jwt);
      && (r.auth.Some? <==> r.response.status == OK)
      && (r.response.status != OK ==> r.auth == None && forall i :: 0 <= i < |r.calls| ==> !r.calls[i].ContextSet?)
      && (r.response.status == OK ==>
            exists user, token ::
              && authService(body) == Some(user)
              && jwt.generateToken(user) == Returned(Some(token))
              && r.auth == Some(Auth(user, Authorities(user)))
              && r.response.body == Some(LoginResponse(Some(token), Some(jwt.expirationTime))))
  {
    var r := Login(Some(body), bound, authService, jwt);
    match authService(body)
    case None =>
    case Some(user) =>
      match jwt.generateToken(user)
      case Raised(_) =>
      case Returned(None) =>
      case Returned(Some(token)) =>
        assert r.auth == Some(Auth(user, Authorities(user)));
  }

  /** Credentials that do not authenticate: 401 without a body, context empty, no token issued. */
  lemma RejectedCredentials(body: LoginUserDto, bound: Option<Auth>, authService: AuthenticationService, jwt: JwtService)
    requires authService(body).None?
    ensures var r := Login(Some(body), bound, authService, jwt);
      r.response == Response(UNAUTHORIZED, None) && r.auth == None &&
      forall i :: 0 <= i < |r.calls| ==> !r.calls[i].JwtGenerateToken?
  {
  }

  /** Token generation that throws: 500 without a body, context empty. */
  lemma TokenFailureIsServerError(body: LoginUserDto, bound: Option<Auth>, authService: AuthenticationService, jwt: JwtService)
    requires authService(body).Some? && jwt.generateToken(authService(body).value).Raised?
    ensures var r := Login(Some(body), bound, authService, jwt);
      r.response == Response(INTERNAL_SERVER_ERROR, None) && r.auth == None
  {
  }

  /** Token generation that returns null: 500 whose body carries a null token, context empty. */
  lemma NullTokenIsServerError(body: LoginUserDto, bound: Option<Auth>, authService: AuthenticationService, jwt: JwtService)
    requires authService(body).Some? && jwt.generateToken(authService(body).value) == Returned(None)
    ensures var r := Login(Some(body), bound, authService, jwt);
      r.response.status == INTERNAL_SERVER_ERROR && r.response.body.Some? &&
      r.response.body.value.token == None && r.auth == None
  {
  }

  /** `authenticate(loginUserDto)` on the context slot `ctx`, recording calls in `rec`. */
  method Authenticate(body: Option<LoginUserDto>, ctx: SecurityContext, authService: AuthenticationService,
                      jwt: JwtService, rec: Recorder)
    returns (response: Response<LoginResponse>)
    modifies ctx, rec
    ensures var r := Login(body, old(ctx.auth), authService, jwt);
      ctx.auth == r.auth && response == r.response && rec.log == old(rec.log) + r.calls
  {
    if body.None? {
      return Response(BAD_REQUEST, None);
    }
    ctx.ClearContext();
    rec.Record(ContextClear);
    rec.Record(AuthServiceAuthenticate(body.value));
    var authenticated := authService(body.value);
    if authenticated.None? {
      return Response(UNAUTHORIZED, None);
    }
    var user := authenticated.value;
    rec.Record(JwtGenerateToken(user));
    var token := jwt.generateToken(user);
    if token.Raised? {
      return Response(INTERNAL_SERVER_ERROR, None);
    }
    if token.value.None? {
      return Response(INTERNAL_SERVER_ERROR, Some(LoginResponse(None, None)));
    }
    var expiration := jwt.expirationTime;
    var a := PrincipalAuth(user);
    ctx.SetAuthentication(a);
    rec.Record(ContextSet(a));
    response := Response(OK, Some(LoginResponse(token.value, Some(expiration))));
  }
}
