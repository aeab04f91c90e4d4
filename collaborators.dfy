/**
 * The collaborators of the authentication layer and of the controllers,
 * modelled as oracles (total functions fixed per request), and the log of
 * the calls made on them, which plays the part of the test doubles'
 * invocation records.
 */
module Collaborators {
  import opened Wrappers
  import opened Security
  import opened Http
  import opened Books

  /** The token service: subject extraction, validation, issuing and the validity window. */
  datatype JwtService = JwtService(
    extractUsername: string -> Outcome<Option<string>>,
    isTokenValid: (string, User) -> Outcome<bool>,
    generateToken: User -> Outcome<Option<string>>,
    expirationTime: int)

  /** The user-details lookup by username or email; None is a user that is not found. */
  type UserDetailsService = string -> Outcome<Option<User>>

  /** The login body: a username or email and a password. */
  datatype LoginUserDto = LoginUserDto(identifier: string, password: string)

  /** Credential checking: the authenticated user, or None (null) when the credentials fail. */
  type AuthenticationService = LoginUserDto -> Option<User>

  /** Stores an uploaded file and gives the name to record as the cover image. */
  type FileStore = Upload -> string

  /** A page of book listings answered by the guest listing service. */
  datatype BookPage = BookPage(books: seq<BookShortDto>)

  /** The book service the controllers delegate to. */
  datatype BookService = BookService(
    getBookById: int -> Option<BookData>,
    createBook: BookData -> BookData,
    updateBook: (int, BookData, Option<string>) -> BookData,
    getBooksByUserId: int -> set<BookShortDto>,
    getBooksByUserIdentifier: string -> set<BookShortDto>,
    allBooks: Response<seq<BookData>>,
    allBooksShort: Response<seq<BookShortDto>>,
    getOnlyBooks: (int, int) -> Response<BookPage>)

  /** The user-facing view of a user record. */
  datatype UserDto = UserDto(username: string, role: Role)

  /** A page of users. */
  datatype UserPage = UserPage(users: seq<UserDto>)

  /** The user service the user endpoints delegate to; lookups and writes may throw. */
  datatype UserService = UserService(
    getCurrentUser: Option<User>,
    getAllUsers: (int, int) -> Response<UserPage>,
    getUserByIdentifier: (string, string) -> Outcome<Option<User>>,
    deleteUser: (string, string) -> Outcome<Response<()>>,
    updateUser: (string, string, UserDto) -> Outcome<Response<()>>)

  /** One observable call on a collaborator or on the security context. */
  datatype Call =
    | ChainDoFilter
    | ResolverResolveException
    | JwtExtractUsername(token: string)
    | JwtIsTokenValid(token: string, user: User)
    | JwtGenerateToken(user: User)
    | UserDetailsLoad(username: string)
    | AuthServiceAuthenticate(login: LoginUserDto)
    | ContextClear
    | ContextSet(auth: Auth)
    | BookServiceGetById(id: int)
    | BookServiceCreate(book: BookData)
    | BookServiceUpdate(id: int, details: BookData, image: Option<string>)
    | BookServiceDeleteById(id: int)

  /** How many times a call occurs in a log (`verify(mock, times(n))`). */
  function Count(log: seq<Call>, c: Call): (n: nat)
  {
    multiset(log)[c]
  }

  /** The invocation log shared by the test doubles of one request. */
  class Recorder {
    var log: seq<Call>

    constructor ()
      ensures log == []
    {
      log := [];
    }

    method Record(c: Call)
      modifies this
      ensures log == old(log) + [c]
    {
      log := log + [c];
    }
  }
}
