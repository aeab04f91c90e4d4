/**
 * The user endpoints: listing and reading users (gated to SUPER and ADMIN in
 * Authorization), with the read's mapping of lookup results and exceptions onto
 * statuses, and deleting and updating users, which hand back the service's answer.
 */
module UserController {
  import opened Wrappers
  import opened Security
  import opened Http
  import opened Collaborators
  import Authorization

  /** `new UserDto(user)`. */
  function ToDto(u: User): (dto: UserDto)
  {
    UserDto(u.username, u.role)
  }

  /** `allUsers()`: always the first page of ten, answered 200 whatever the service's status. */
  function AllUsers(users: UserService): (r: Response<UserPage>)
    ensures r.status == OK
    ensures r.body == users.getAllUsers(0, 10).body
  {
    Response(OK, users.getAllUsers(0, 10).body)
  }

  /** The exceptions `getUser` answers with 404. */
  predicate MeansNotFound(e: Exception)
  {
    e == UserNotFoundException || e == IllegalArgumentException
  }

  /** `getUser(type, identifier)`: the service is asked with the identifier first. */
  function GetUser(kind: string, identifier: string, users: UserService): (r: Response<UserDto>)
    ensures var found := users.getUserByIdentifier(identifier, kind);
      && (r.status == OK <==> found.Returned? && found.value.Some?)
      && (r.status == OK ==> r.body == Some(ToDto(found.value.value)))
      && (r.status == NOT_FOUND <==> (found.Returned? && found.value.None?) || (found.Raised? && MeansNotFound(found.error)))
      && (r.status == INTERNAL_SERVER_ERROR <==> found.Raised? && !MeansNotFound(found.error))
      && (r.status != OK ==> r.body.None?)
  {
    match users.getUserByIdentifier(identifier, kind)
    case Returned(None) => Response(NOT_FOUND, None)
    case Returned(Some(u)) => Response(OK, Some(ToDto(u)))
    case Raised(e) =>
      if MeansNotFound(e) then Response(NOT_FOUND, None)
      else Response(INTERNAL_SERVER_ERROR, None)
  }

  /** `deleteUser(type, identifier)`: the service's answer (or exception), unchanged. */
  function DeleteUser(kind: string, identifier: string, users: UserService): (r: Outcome<Response<()>>)
    ensures r == users.deleteUser(identifier, kind)
  {
    users.deleteUser(identifier, kind)
  }

  /** `updateUser(type, identifier, input)`: the service's answer (or exception), unchanged. */
  function UpdateUser(kind: string, identifier: string, input: UserDto, users: UserService): (r: Outcome<Response<()>>)
    ensures r == users.updateUser(identifier, kind, input)
  {
    users.updateUser(identifier, kind, input)
  }

  /** The answer for a request the endpoint's role gate turned away, without a body. */
  function Refusal<T>(d: Authorization.Decision): (r: Response<T>)
    requires d != Authorization.Permit
    ensures r.body.None?
  {
    if d == Authorization.Unauthenticated then Response(UNAUTHORIZED, None)
    else Response(FORBIDDEN, None)
  }

  /** `GET /user/all`: the role gate first, then `allUsers()` only for an admitted request. */
  function AllUsersEndpoint(bound: Option<Auth>, users: UserService): (r: Response<UserPage>)
    ensures var d := Authorization.PreAuthorize(bound, Authorization.AllUsers);
      && (d == Authorization.Permit ==> r == AllUsers(users))
      && (r.status == OK <==> d == Authorization.Permit)
      && (r.status == UNAUTHORIZED <==> d == Authorization.Unauthenticated)
      && (r.status == FORBIDDEN <==> d == Authorization.Forbidden)
      && (d != Authorization.Permit ==> r.body.None?)
  {
    var d := Authorization.PreAuthorize(bound, Authorization.AllUsers);
    if d == Authorization.Permit then AllUsers(users) else Refusal(d)
  }

  /** `GET /user/{type}/{identifier}`: the role gate first, then `getUser` only for an admitted request. */
  function GetUserEndpoint(bound: Option<Auth>, kind: string, identifier: string, users: UserService): (r: Response<UserDto>)
    ensures var d := Authorization.PreAuthorize(bound, Authorization.GetUser);
      && (d == Authorization.Permit ==> r == GetUser(kind, identifier, users))
      && (r.status == UNAUTHORIZED <==> d == Authorization.Unauthenticated)
      && (r.status == FORBIDDEN <==> d == Authorization.Forbidden)
      && (d != Authorization.Permit ==> r.body.None?)
  {
    var d := Authorization.PreAuthorize(bound, Authorization.GetUser);
    if d == Authorization.Permit then GetUser(kind, identifier, users) else Refusal(d)
  }

  /** Only a bound SUPER or ADMIN gets the user list; an empty context gets 401, any other
      role 403, and a refused answer is the same whatever the user service would say. */
  lemma AllUsersOnlyForManagers(u: User, users: UserService, other: UserService)
    ensures AllUsersEndpoint(Some(PrincipalAuth(u)), users).status == OK <==> u.role == SUPER || u.role == ADMIN
    ensures u.role == READER || u.role == GUEST ==> AllUsersEndpoint(Some(PrincipalAuth(u)), users) == Response(FORBIDDEN, None)
    ensures AllUsersEndpoint(None, users) == Response(UNAUTHORIZED, None)
    ensures AllUsersEndpoint(Some(PrincipalAuth(u)), users).status != OK ==>
      AllUsersEndpoint(Some(PrincipalAuth(u)), users) == AllUsersEndpoint(Some(PrincipalAuth(u)), other)
  {
    Authorization.GateAdmitsListedRoles(u, Authorization.AllUsers);
  }

  /** A user is read only for a bound SUPER or ADMIN and only when the lookup finds one; an empty
      context gets 401, any other role 403, and then the lookup's answer makes no difference. */
  lemma GetUserOnlyForManagers(u: User, kind: string, identifier: string, users: UserService, other: UserService)
    ensures var found := users.getUserByIdentifier(identifier, kind);
      GetUserEndpoint(Some(PrincipalAuth(u)), kind, identifier, users).status == OK <==>
        (u.role == SUPER || u.role == ADMIN) && found.Returned? && found.value.Some?
    ensures u.role == READER || u.role == GUEST ==>
      GetUserEndpoint(Some(PrincipalAuth(u)), kind, identifier, users) == Response(FORBIDDEN, None)
    ensures GetUserEndpoint(None, kind, identifier, users) == Response(UNAUTHORIZED, None)
    ensures u.role == READER || u.role == GUEST ==>
      GetUserEndpoint(Some(PrincipalAuth(u)), kind, identifier, users) == GetUserEndpoint(Some(PrincipalAuth(u)), kind, identifier, other)
  {
    Authorization.GateAdmitsListedRoles(u, Authorization.GetUser);
  }
}
