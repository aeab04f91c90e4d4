/**
 * The per-request JWT authentication filter (`doFilterInternal`): it reads the
 * `Authorization` header, extracts the token's subject, and binds a principal
 * to an empty security context when the token validates against the looked-up
 * user; it then forwards the request to the chain exactly once, unless an
 * unexpected exception was raised, which goes to the exception resolver instead.
 */
module JwtAuthenticationFilter {
  import opened Wrappers
  import opened Security
  import opened Collaborators

  const BearerPrefix: string := "Bearer "

  /** `authHeader.startsWith("Bearer ")`. */
  predicate IsBearer(header: string)
  {
    |BearerPrefix| <= |header| && header[..|BearerPrefix|] == BearerPrefix
  }

  /** `authHeader.substring(7)`: the token after the scheme. */
  function BearerToken(header: string): (token: string)
    requires IsBearer(header)
    ensures BearerPrefix + token == header
    ensures |token| == |header| - |BearerPrefix|
  {
    header[|BearerPrefix|..]
  }

  /** Continue down the chain, or the resolver produced the response. */
  datatype FilterOutcome = Forwarded | Resolved

  /** One run of the filter: the context slot afterwards, the outcome and the calls made. */
  datatype FilterRun = FilterRun(auth: Option<Auth>, outcome: FilterOutcome, calls: seq<Call>)

  /** The header carries a bearer token whose subject names user `u`, and the token is valid for `u`. */
  predicate Authenticates(header: Option<string>, jwt: JwtService, users: UserDetailsService, u: User)
  {
    && header.Some? && IsBearer(header.value)
    && var token := BearerToken(header.value);
       && jwt.extractUsername(token).Returned?
       && jwt.extractUsername(token).value.Some?
       && users(jwt.extractUsername(token).value.value) == Returned(Some(u))
       && jwt.isTokenValid(token, u) == Returned(true)
  }

  /** After a user `u` was found for an empty context: validation, binding, forwarding. */
  function Validation(token: string, u: User, jwt: JwtService): (r: FilterRun)
  {
    var checked := [JwtIsTokenValid(token, u)];
    match jwt.isTokenValid(token, u)
    case Raised(_) => FilterRun(None, Resolved, checked + [ResolverResolveException])
    case Returned(false) => FilterRun(None, Forwarded, checked + [ChainDoFilter])
    case Returned(true) =>
      var a := PrincipalAuth(u);
      FilterRun(Some(a), Forwarded, checked + [ContextSet(a), ChainDoFilter])
  }

  /** After a non-null subject was extracted for an empty context: user lookup onwards. */
  function Lookup(token: string, subject: string, jwt: JwtService, users: UserDetailsService): (r: FilterRun)
  {
    var looked := [UserDetailsLoad(subject)];
    match users(subject)
    case Raised(_) => FilterRun(None, Resolved, looked + [ResolverResolveException])
    case Returned(None) => FilterRun(None, Forwarded, looked + [ChainDoFilter])
    case Returned(Some(u)) =>
      var v := Validation(token, u, jwt);
      FilterRun(v.auth, v.outcome, looked + v.calls)
  }

  /** After the subject was extracted from `token`: everything up to the terminal call. */
  function Extracted(token: string, bound: Option<Auth>, jwt: JwtService, users: UserDetailsService): (r: FilterRun)
  {
    match jwt.extractUsername(token)
    case Raised(_) => FilterRun(bound, Resolved, [ResolverResolveException])
    case Returned(subject) =>
      if subject.None? || bound.Some? then FilterRun(bound, Forwarded, [ChainDoFilter])
      else Lookup(token, subject.value, jwt, users)
  }

  /** What `doFilterInternal` does, given the context slot `bound` it starts from. */
  function Filter(header: Option<string>, bound: Option<Auth>, jwt: JwtService, users: UserDetailsService): (r: FilterRun)
  {
    if header.None? || !IsBearer(header.value) then
      FilterRun(bound, Forwarded, [ChainDoFilter])
    else
      var token := BearerToken(header.value);
      var e := Extracted(token, bound, jwt, users);
      FilterRun(e.auth, e.outcome, [JwtExtractUsername(token)] + e.calls)
  }

  /** The terminal call of a run: the chain when forwarded, the resolver otherwise. */
  function Terminal(o: FilterOutcome): (c: Call)
  {
    if o == Forwarded then ChainDoFilter else ResolverResolveException
  }

  /** A run whose only terminal call is its last one and which extracts nothing. */
  predicate EndsOnce(r: FilterRun)
  {
    && |r.calls| > 0 && r.calls[|r.calls| - 1] == Terminal(r.outcome)
    && Count(r.calls, ChainDoFilter) == (if r.outcome == Forwarded then 1 else 0)
    && Count(r.calls, ResolverResolveException) == (if r.outcome == Resolved then 1 else 0)
    && forall i :: 0 <= i < |r.calls| ==> !r.calls[i].JwtExtractUsername?
  }

  /** The validation stage ends in one terminal call and extracts nothing. */
  lemma ValidationEndsOnce(token: string, u: User, jwt: JwtService)
    ensures EndsOnce(Validation(token, u, jwt))
  {
  }

  /** The lookup stage ends in one terminal call and extracts nothing. */
  lemma {:induction false} LookupEndsOnce(token: string, subject: string, jwt: JwtService, users: UserDetailsService)
    ensures EndsOnce(Lookup(token, subject, jwt, users))
  {
    match users(subject)
    case Raised(_) =>
    case Returned(None) =>
    case Returned(Some(u)) =>
      var v := Validation(token, u, jwt);
      ValidationEndsOnce(token, u, jwt);
      var l := Lookup(token, subject, jwt, users);
      assert l.calls == [UserDetailsLoad(subject)] + v.calls;
      assert l.calls[|l.calls| - 1] == v.calls[|v.calls| - 1];
      assert forall i :: 0 < i < |l.calls| ==> l.calls[i] == v.calls[i - 1];
  }

  /** Every continuation after extraction ends in one terminal call and extracts nothing more. */
  lemma {:induction false} ExtractedEndsOnce(token: string, bound: Option<Auth>, jwt: JwtService, users: UserDetailsService)
    ensures EndsOnce(Extracted(token, bound, jwt, users))
  {
    var s := jwt.extractUsername(token);
    if s.Returned? && s.value.Some? && bound.None? {
      LookupEndsOnce(token, s.value.value, jwt, users);
    }
  }

  /** Every run of the filter ends in exactly one of the chain and the resolver, once, as
      its last call; and with a bearer header the subject is extracted first, exactly once,
      from the token after the scheme. */
  lemma {:induction false} FilterEndsOnce(header: Option<string>, bound: Option<Auth>, jwt: JwtService, users: UserDetailsService)
    ensures var r := Filter(header, bound, jwt, users);
      && |r.calls| > 0 && r.calls[|r.calls| - 1] == Terminal(r.outcome)
      && (r.outcome == Forwarded ==> Count(r.calls, ChainDoFilter) == 1 && Count(r.calls, ResolverResolveException) == 0)
      && (r.outcome == Resolved ==> Count(r.calls, ChainDoFilter) == 0 && Count(r.calls, ResolverResolveException) == 1)
      && (header.Some? && IsBearer(header.value) ==>
            r.calls[0] == JwtExtractUsername(BearerToken(header.value)) &&
            Count(r.calls, JwtExtractUsername(BearerToken(header.value))) == 1)
  {
    if header.Some? && IsBearer(header.value) {
      var token := BearerToken(header.value);
      var e := Extracted(token, bound, jwt, users);
      ExtractedEndsOnce(token, bound, jwt, users);
      var r := Filter(header, bound, jwt, users);
      assert r.calls == [JwtExtractUsername(token)] + e.calls;
      assert JwtExtractUsername(token) !in multiset(e.calls);
      assert r.calls[|r.calls| - 1] == e.calls[|e.calls| - 1];
      PrependedCount(JwtExtractUsername(token), e.calls, ChainDoFilter);
      PrependedCount(JwtExtractUsername(token), e.calls, ResolverResolveException);
      PrependedCount(JwtExtractUsername(token), e.calls, JwtExtractUsername(token));
    }
  }

  /** Putting one call in front of a log adds one to its own count and nothing to others. */
  lemma PrependedCount(first: Call, calls: seq<Call>, c: Call)
    ensures Count([first] + calls, c) == Count(calls, c) + (if c == first then 1 else 0)
  {
    assert multiset([first] + calls) == multiset([first]) + multiset(calls);
  }

  /** Without a bearer header nothing is consulted and nothing changes. */
  lemma FilterIgnoresNonBearer(header: Option<string>, bound: Option<Auth>, jwt: JwtService, users: UserDetailsService)
    requires header.None? || !IsBearer(header.value)
    ensures Filter(header, bound, jwt, users) == FilterRun(bound, Forwarded, [ChainDoFilter])
  {
  }

  /** An authentication already bound is never replaced, and the resolver path binds nothing. */
  lemma {:induction false} FilterKeepsBound(header: Option<string>, bound: Option<Auth>, jwt: JwtService, users: UserDetailsService)
    ensures var r := Filter(header, bound, jwt, users);
      bound.Some? || r.outcome == Resolved ==> r.auth == bound
  {
    if header.Some? && IsBearer(header.value) {
      var token := BearerToken(header.value);
      var s := jwt.extractUsername(token);
      if s.Returned? && s.value.Some? && bound.None? {
        match users(s.value.value)
        case Raised(_) =>
        case Returned(None) =>
        case Returned(Some(u)) =>
          var v := Validation(token, u, jwt);
          assert v.outcome == Resolved ==> v.auth == None;
      }
    }
  }

  /** Starting from an empty context, a principal is bound exactly when the header's token
      authenticates a looked-up user, and then that user is the principal. */
  lemma {:induction false} FilterBindsIffAuthenticates(header: Option<string>, jwt: JwtService, users: UserDetailsService)
    ensures var r := Filter(header, None, jwt, users);
      && (r.auth.Some? ==> r.outcome == Forwarded && exists u :: Authenticates(header, jwt, users, u) && r.auth == Some(PrincipalAuth(u)))
      && (forall u :: Authenticates(header, jwt, users, u) ==> r.auth == Some(PrincipalAuth(u)) && r.outcome == Forwarded)
  {
    var r := Filter(header, None, jwt, users);
    if header.Some? && IsBearer(header.value) {
      var token := BearerToken(header.value);
      var s := jwt.extractUsername(token);
      if s.Returned? && s.value.Some? {
        match users(s.value.value)
        case Raised(_) =>
        case Returned(None) =>
        case Returned(Some(u)) =>
          if jwt.isTokenValid(token, u) == Returned(true) {
            assert Authenticates(header, jwt, users, u);
          }
      }
    }
  }

  /** `doFilterInternal(request, response, filterChain)` on the context slot `ctx`,
      recording every collaborator call in `rec`. */
  method DoFilterInternal(header: Option<string>, ctx: SecurityContext, jwt: JwtService,
                          users: UserDetailsService, rec: Recorder)
    returns (outcome: FilterOutcome)
    modifies ctx, rec
    ensures var r := Filter(header, old(ctx.auth), jwt, users);
      ctx.auth == r.auth && outcome == r.outcome && rec.log == old(rec.log) + r.calls
  {
    if header.None? || !IsBearer(header.value) {
      rec.Record(ChainDoFilter);
      return Forwarded;
    }
    var token := BearerToken(header.value);
    rec.Record(JwtExtractUsername(token));
    var subject := jwt.extractUsername(token);
    if subject.Raised? {
      rec.Record(ResolverResolveException);
      return Resolved;
    }
    if subject.value.Some? && ctx.auth.None? {
      var name := subject.value.value;
      rec.Record(UserDetailsLoad(name));
      var details := users(name);
      if details.Raised? {
        rec.Record(ResolverResolveException);
        return Resolved;
      }
      if details.value.Some? {
        var user := details.value.value;
        rec.Record(JwtIsTokenValid(token, user));
        var valid := jwt.isTokenValid(token, user);
        if valid.Raised? {
          rec.Record(ResolverResolveException);
          return Resolved;
        }
        if valid.value {
          var a := PrincipalAuth(user);
          ctx.SetAuthentication(a);
          rec.Record(ContextSet(a));
        }
      }
    }
    rec.Record(ChainDoFilter);
    outcome := Forwarded;
  }

  // The scenarios of the filter's unit tests, each over every collaborator behaviour they leave open.

  /** No `Authorization` header: forwarded once, context still empty. */
  lemma NoHeaderForwardsOnce(jwt: JwtService, users: UserDetailsService)
    ensures var r := Filter(None, None, jwt, users);
      r.auth == None && r.outcome == Forwarded && Count(r.calls, ChainDoFilter) == 1
  {
  }

  /** A header without the bearer scheme is ignored. */
  lemma NonBearerHeaderForwardsOnce(jwt: JwtService, users: UserDetailsService)
    ensures !IsBearer("InvalidBearerToken")
    ensures var r := Filter(Some("InvalidBearerToken"), None, jwt, users);
      r.auth == None && r.outcome == Forwarded && r.calls == [ChainDoFilter]
  {
    assert "InvalidBearerToken"[..7] != BearerPrefix by {
      assert "InvalidBearerToken"[0] != BearerPrefix[0];
    }
  }

  /** The subject is extracted once from the token with the scheme stripped. */
  lemma ExtractsStrippedToken(jwt: JwtService, users: UserDetailsService)
    ensures IsBearer("Bearer valid.jwt.token") && BearerToken("Bearer valid.jwt.token") == "valid.jwt.token"
    ensures var r := Filter(Some("Bearer valid.jwt.token"), None, jwt, users);
      Count(r.calls, JwtExtractUsername("valid.jwt.token")) == 1
  {
    assert BearerPrefix + "valid.jwt.token" == "Bearer valid.jwt.token";
    FilterEndsOnce(Some("Bearer valid.jwt.token"), None, jwt, users);
  }

  /** A null subject binds nothing and still forwards once. */
  lemma NullSubjectForwardsOnce(header: string, jwt: JwtService, users: UserDetailsService)
    requires IsBearer(header) && jwt.extractUsername(BearerToken(header)) == Returned(None)
    ensures var r := Filter(Some(header), None, jwt, users);
      r.auth == None && r.outcome == Forwarded && Count(r.calls, ChainDoFilter) == 1
  {
  }

  /** A found user whose token does not validate binds nothing and still forwards once. */
  lemma InvalidTokenForwardsOnce(header: string, jwt: JwtService, users: UserDetailsService, u: User)
    requires IsBearer(header)
    requires jwt.extractUsername(BearerToken(header)).Returned? && jwt.extractUsername(BearerToken(header)).value.Some?
    requires users(jwt.extractUsername(BearerToken(header)).value.value) == Returned(Some(u))
    requires jwt.isTokenValid(BearerToken(header), u) == Returned(false)
    ensures var r := Filter(Some(header), None, jwt, users);
      r.auth == None && r.outcome == Forwarded && Count(r.calls, ChainDoFilter) == 1
  {
  }

  /** A found user with a valid token becomes the principal; forwarded once. */
  lemma ValidTokenBindsUser(header: string, jwt: JwtService, users: UserDetailsService, u: User)
    requires Authenticates(Some(header), jwt, users, u)
    ensures var r := Filter(Some(header), None, jwt, users);
      r.auth.Some? && r.auth.value.principal == u && Count(r.calls, ChainDoFilter) == 1
  {
  }

  /** An authentication already bound is left as it is, and the request is forwarded once. */
  lemma BoundAuthenticationKept(header: string, existing: Auth, jwt: JwtService, users: UserDetailsService)
    requires IsBearer(header)
    requires jwt.extractUsername(BearerToken(header)).Returned?
    ensures var r := Filter(Some(header), Some(existing), jwt, users);
      r.auth == Some(existing) && r.outcome == Forwarded && Count(r.calls, ChainDoFilter) == 1
  {
  }

  /** An exception from subject extraction goes to the resolver once; the chain is not called. */
  lemma ExtractionFailureResolved(header: string, jwt: JwtService, users: UserDetailsService)
    requires IsBearer(header) && jwt.extractUsername(BearerToken(header)).Raised?
    ensures var r := Filter(Some(header), None, jwt, users);
      r.auth == None && r.outcome == Resolved &&
      Count(r.calls, ResolverResolveException) == 1 && Count(r.calls, ChainDoFilter) == 0
  {
  }
}
