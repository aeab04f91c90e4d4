# BookCatalog request authentication and authorization, in Dafny

This project models the authentication and role-based authorization core of the
BookCatalog web backend. The backend is a multi-role library catalogue: SUPER,
ADMIN, READER and GUEST users log in, get a bearer token, and are then allowed or
refused book and user operations according to their role.

The model is a small state machine over one mutable security-context slot
(`Security.SecurityContext`, field `auth: Option<Auth>`). The slot is either empty
or holds one authentication, which is a principal plus its granted authorities.
Every collaborator is an oracle: a total function fixed for the request. These are
the token service (`extractUsername`, `isTokenValid`, `generateToken`,
`getExpirationTime`), the user-details lookup, and the authentication, book, user
and file-storage services. A collaborator that can throw returns an
`Outcome` (`Returned` or `Raised`). The filter, the two logins and the three book
writes append their calls on collaborators and on the context to a
`Collaborators.Recorder` log. That log plays the part of the test doubles'
invocation records, so "forwarded exactly once" and "never called" are statements
about `Count` over the log. The other operations are pure functions of their
oracles and log nothing: `getCurrentUser`, `getAllUsers`, `getUserByIdentifier`,
`deleteUser`, `updateUser`, `getOnlyBooks`, `getExpirationTime`, the file store
and the book reads. For them, "the service is not consulted" is stated as "the
answer is the same whatever the service would say".

Each imperative operation has two parts. A pure function gives the run: the slot
afterwards, the response and the calls made. A method changes the context, the
request book and the log step by step, and its `ensures` ties the new state to
that function. The properties are proved about the functions.

- `JwtAuthenticationFilter`: `doFilterInternal`. It handles the header and the
  bearer scheme, subject extraction, an already-bound context, user lookup, token
  validation, binding, and the forward-or-resolve outcome.
- `AuthenticationController`: password login. The early returns are 400, 401,
  500, 500 and 200. The context is cleared first and bound only on the 200 path.
- `GuestController`: guest login, which clears the context and then binds the
  synthetic `guestuser` principal with exactly `ROLE_GUEST`. Also the guest-only
  book listing.
- `UserController`: listing users, reading one user (lookup results and exception
  classes mapped to statuses), and the delete and update pass-throughs.
- `BookController`: create, update and delete checked against the bound
  principal's role, the 2 MiB inclusive upload limit, an empty file treated as no
  file, not-found checked before the role, and the read endpoints.
- `Authorization`: the declared `@PreAuthorize` role lists and their evaluation
  (`hasRole(..) or ..` over granted authorities `ROLE_<ROLE>`). It tells
  unauthenticated apart from forbidden.

Modelling notes:

- The filter's own source is not part of this model. Its behaviour follows what
  its unit test asserts, branch by branch. The test leaves two cases open. In the
  model, a lookup that returns no user forwards without binding, and any exception
  from extraction, lookup or validation goes to the exception resolver without
  forwarding.
- The book controller's source is not part of this model either. Its behaviour
  follows its unit test. The tests do not fix the order of checks. The model
  checks role then size on create, lookup, role, then size on update, and lookup
  then role on delete, which takes no upload. That order agrees with every asserted outcome.
- An empty context at a book write gets 401 without a body, where a wrong role
  gets 403; the tests never exercise it.
- Guest login is not always 200: an exception from token generation leaves the
  method after the clear (`Raised`).
- In the filter, only a null subject counts as missing; an empty subject is
  looked up like any other.
- Deleting and updating a user carry no `@PreAuthorize` (UserController.java
  lines 72-82), unlike listing and reading users. At the method level any request
  reaches the user service; `Authorization.UserWritesUngated` states this.
- The password-login endpoint carries the gate SUPER/ADMIN/READER in the code, and
  `Authorization.LoginGate` states it. The login body (`Authenticate`) is modelled
  apart from the gate. Whether the gate is enforced depends on method-security
  configuration, which is not part of this model. The two user reads are modelled
  both ways: `AllUsers` and `GetUser` are the method bodies, and
  `AllUsersEndpoint` and `GetUserEndpoint` put the gate in front of them.

## Model

| member | source | states |
|---|---|---|
| `Security.PrincipalHasOnlyItsRole` | Backend/BookCatalog/bookcatalog/src/main/java/com/bookcatalog/backend/controller/AuthenticationController.java:62-63 | Take an authentication built from a user's own authorities (`ROLE_<ROLE>`). It satisfies `hasRole(r)` exactly when r is that user's role. |
| `Authorization.AnyRole` | Backend/BookCatalog/bookcatalog/src/main/java/com/bookcatalog/backend/controller/AuthenticationController.java:28 | A `hasRole(a) or hasRole(b) or ..` chain is true exactly when some listed role's authority was granted. |
| `Authorization.PreAuthorize` | Backend/BookCatalog/bookcatalog/src/main/java/com/bookcatalog/bookcatalog/controller/UserController.java:47 | An endpoint without a gate permits every request. A gated endpoint answers Unauthenticated when nothing is bound. Otherwise it permits exactly when some listed role is granted, and forbids the rest. |
| `Authorization.GateAdmitsListedRoles` | Backend/BookCatalog/bookcatalog/src/main/java/com/bookcatalog/bookcatalog/controller/UserController.java:38 | For a principal bound with its own authorities, a gate permits exactly the listed roles and forbids every other role. |
| `Authorization.LoginGate` | Backend/BookCatalog/bookcatalog/src/main/java/com/bookcatalog/backend/controller/AuthenticationController.java:28 | The login gate admits SUPER, ADMIN and READER and forbids GUEST. An empty context is unauthenticated. |
| `Authorization.UserReadGates` | Backend/BookCatalog/bookcatalog/src/main/java/com/bookcatalog/bookcatalog/controller/UserController.java:38-47 | `allUsers` and `getUser` admit exactly SUPER and ADMIN. |
| `Authorization.UserWritesUngated` | Backend/BookCatalog/bookcatalog/src/main/java/com/bookcatalog/bookcatalog/controller/UserController.java:72-82 | `deleteUser` and `updateUser` carry no role gate: every request passes. |
| `JwtAuthenticationFilter.BearerToken` | Backend/BookCatalog/bookcatalog/src/test/java/com/bookcatalog/backend/config/JwtAuthenticationFilterTest.java:216-226 | The token is the header with the `Bearer ` prefix removed, so prefix plus token gives back the header. |
| `JwtAuthenticationFilter.FilterEndsOnce` | Backend/BookCatalog/bookcatalog/src/test/java/com/bookcatalog/backend/config/JwtAuthenticationFilterTest.java:98-287 | Every run ends, as its last call, in exactly one of the chain and the exception resolver, called exactly once. With a bearer header, the subject is extracted first and exactly once, from the stripped token. |
| `JwtAuthenticationFilter.FilterIgnoresNonBearer` | Backend/BookCatalog/bookcatalog/src/test/java/com/bookcatalog/backend/config/JwtAuthenticationFilterTest.java:98-121 | With no header, or a header without the bearer scheme, only the chain is called, once, and the context is unchanged. |
| `JwtAuthenticationFilter.FilterKeepsBound` | Backend/BookCatalog/bookcatalog/src/test/java/com/bookcatalog/backend/config/JwtAuthenticationFilterTest.java:174-192 | An authentication already in the context is never replaced, and the resolver path leaves the context as it was. |
| `JwtAuthenticationFilter.FilterBindsIffAuthenticates` | Backend/BookCatalog/bookcatalog/src/test/java/com/bookcatalog/backend/config/JwtAuthenticationFilterTest.java:140-268 | From an empty context, the filter binds a principal exactly when the bearer token's subject names a found user and the token is valid for that user. That user is then the principal, and the request is forwarded. Both directions are proved. |
| `JwtAuthenticationFilter.DoFilterInternal` | Backend/BookCatalog/bookcatalog/src/test/java/com/bookcatalog/backend/config/JwtAuthenticationFilterTest.java:98-306 | The step-by-step filter leaves the context slot, the outcome and the call log exactly as `Filter` describes, starting from the old slot. |
| `JwtAuthenticationFilter.NoHeaderForwardsOnce` | Backend/BookCatalog/bookcatalog/src/test/java/com/bookcatalog/backend/config/JwtAuthenticationFilterTest.java:98-108 | No header: forwarded once, and the context stays empty. |
| `JwtAuthenticationFilter.NonBearerHeaderForwardsOnce` | Backend/BookCatalog/bookcatalog/src/test/java/com/bookcatalog/backend/config/JwtAuthenticationFilterTest.java:110-121 | "InvalidBearerToken" is not a bearer header. It is forwarded once, nothing else is called, and the context stays empty. |
| `JwtAuthenticationFilter.ExtractsStrippedToken` | Backend/BookCatalog/bookcatalog/src/test/java/com/bookcatalog/backend/config/JwtAuthenticationFilterTest.java:212-228 | "Bearer valid.jwt.token" gives the token "valid.jwt.token", and the subject is extracted from it exactly once. |
| `JwtAuthenticationFilter.NullSubjectForwardsOnce` | Backend/BookCatalog/bookcatalog/src/test/java/com/bookcatalog/backend/config/JwtAuthenticationFilterTest.java:123-172 | A null subject binds nothing and forwards once. |
| `JwtAuthenticationFilter.InvalidTokenForwardsOnce` | Backend/BookCatalog/bookcatalog/src/test/java/com/bookcatalog/backend/config/JwtAuthenticationFilterTest.java:140-157 | A found user whose token does not validate: nothing bound, forwarded once. |
| `JwtAuthenticationFilter.ValidTokenBindsUser` | Backend/BookCatalog/bookcatalog/src/test/java/com/bookcatalog/backend/config/JwtAuthenticationFilterTest.java:248-268 | A found user with a valid token becomes the bound principal, and the request is forwarded once. |
| `JwtAuthenticationFilter.BoundAuthenticationKept` | Backend/BookCatalog/bookcatalog/src/test/java/com/bookcatalog/backend/config/JwtAuthenticationFilterTest.java:289-306 | An existing authentication is still bound afterwards, and the request is forwarded once. |
| `JwtAuthenticationFilter.ExtractionFailureResolved` | Backend/BookCatalog/bookcatalog/src/test/java/com/bookcatalog/backend/config/JwtAuthenticationFilterTest.java:270-287 | Extraction throws: the resolver is called once, the chain zero times, and the context stays empty. |
| `AuthenticationController.NullBodyIsBadRequest` | Backend/BookCatalog/bookcatalog/src/main/java/com/bookcatalog/backend/controller/AuthenticationController.java:31-35 | A null body gets 400 without a body. The context is not cleared, and nothing is called. |
| `AuthenticationController.ClearedBeforeCredentials` | Backend/BookCatalog/bookcatalog/src/main/java/com/bookcatalog/backend/controller/AuthenticationController.java:35-37 | With a body, the first step clears the context (exactly once) and the second checks the credentials. |
| `AuthenticationController.BoundOnlyOnSuccess` | Backend/BookCatalog/bookcatalog/src/main/java/com/bookcatalog/backend/controller/AuthenticationController.java:35-70 | The context holds a principal afterwards exactly on the 200 path. That principal is the authenticated user with the user's own authorities, and the answer carries the generated token and `getExpirationTime()`. Every other return leaves the context empty, with no binding made. |
| `AuthenticationController.RejectedCredentials` | Backend/BookCatalog/bookcatalog/src/main/java/com/bookcatalog/backend/controller/AuthenticationController.java:37-41 | Authentication gives null: 401 without a body, the context is empty, and no token is generated. |
| `AuthenticationController.TokenFailureIsServerError` | Backend/BookCatalog/bookcatalog/src/main/java/com/bookcatalog/backend/controller/AuthenticationController.java:47-53 | Token generation throws: 500 without a body, and the context is empty. |
| `AuthenticationController.NullTokenIsServerError` | Backend/BookCatalog/bookcatalog/src/main/java/com/bookcatalog/backend/controller/AuthenticationController.java:55-58 | Token generation gives null: 500 with a body whose token is null, and the context is empty. |
| `AuthenticationController.Authenticate` | Backend/BookCatalog/bookcatalog/src/main/java/com/bookcatalog/backend/controller/AuthenticationController.java:29-71 | The step-by-step login leaves the context slot, the response and the call log exactly as `Login` describes, starting from the old slot. |
| `GuestController.GuestLoginBindsOnlyGuest` | Backend/BookCatalog/bookcatalog/src/main/java/com/bookcatalog/backend/controller/GuestController.java:44-61 | Guest login clears first, so whatever was bound is gone. The context then holds nothing (token generation threw) or the guest authentication. That authentication's principal is "guestuser" with role GUEST, and its only authority is `ROLE_GUEST`, the one GUEST derives. When generation returns, the answer is 200 with that token and `getExpirationTime()`. |
| `GuestController.GuestDeniedByRoleGates` | Backend/BookCatalog/bookcatalog/src/main/java/com/bookcatalog/backend/controller/GuestController.java:53-54 | The authority list `[ROLE_GUEST]` is forbidden by the password-login gate and by both user-read gates. |
| `GuestController.AuthenticateGuest` | Backend/BookCatalog/bookcatalog/src/main/java/com/bookcatalog/backend/controller/GuestController.java:42-62 | The step-by-step guest login leaves the context slot, the result and the call log exactly as `GuestLogin` describes, whatever the slot held before. |
| `GuestController.GetAvailableBooks` | Backend/BookCatalog/bookcatalog/src/main/java/com/bookcatalog/backend/controller/GuestController.java:64-82 | The current user comes from `getCurrentUser()`. No current user: 401 "Restricted to logged Guest users". A non-GUEST user: 403 "Access restricted to Guest users only". Exactly for a GUEST user the answer is the book service's `getOnlyBooks` response, unchanged, for the given page and size or their defaults. |
| `GuestController.GuestListingPages` | Backend/BookCatalog/bookcatalog/src/main/java/com/bookcatalog/backend/controller/GuestController.java:64-82 | A guest gets `getOnlyBooks(page, size)` for the parameters it gave, and `getOnlyBooks(0, 10)` when it gave none. A refusal is the same whatever the book service would answer. |
| `UserController.AllUsers` | Backend/BookCatalog/bookcatalog/src/main/java/com/bookcatalog/bookcatalog/controller/UserController.java:38-44 | A delegate: it always answers 200, with the body of the service's page 0 of size 10, whatever status the service gave. |
| `UserController.GetUser` | Backend/BookCatalog/bookcatalog/src/main/java/com/bookcatalog/bookcatalog/controller/UserController.java:47-70 | 200 exactly when the lookup finds a user, with that user's DTO. 404 exactly when the lookup is empty or throws UserNotFound or IllegalArgument. 500 exactly for any other exception. No body unless 200. |
| `UserController.AllUsersEndpoint` | Backend/BookCatalog/bookcatalog/src/main/java/com/bookcatalog/bookcatalog/controller/UserController.java:37-44 | The gate runs first. An admitted request gets the `allUsers()` answer, 200. An empty context gets 401 and a bound principal without SUPER or ADMIN gets 403, both without a body, and exactly then. |
| `UserController.GetUserEndpoint` | Backend/BookCatalog/bookcatalog/src/main/java/com/bookcatalog/bookcatalog/controller/UserController.java:46-70 | The gate runs first. An admitted request gets the `getUser` answer. 401 exactly for an empty context and 403 exactly for a bound principal without SUPER or ADMIN, both without a body. |
| `UserController.AllUsersOnlyForManagers` | Backend/BookCatalog/bookcatalog/src/main/java/com/bookcatalog/bookcatalog/controller/UserController.java:37-44 | For a principal bound with its own authorities, 200 comes exactly for SUPER or ADMIN. READER and GUEST get 403 and an empty context 401. A refused answer is the same whatever the user service would give. |
| `UserController.GetUserOnlyForManagers` | Backend/BookCatalog/bookcatalog/src/main/java/com/bookcatalog/bookcatalog/controller/UserController.java:46-70 | For a principal bound with its own authorities, 200 comes exactly for SUPER or ADMIN when the lookup finds a user. READER and GUEST get 403 and an empty context 401, and then the lookup's answer makes no difference. |
| `UserController.DeleteUser` | Backend/BookCatalog/bookcatalog/src/main/java/com/bookcatalog/bookcatalog/controller/UserController.java:72-76 | A delegate: it hands back the service's answer, or its exception, unchanged. The service gets the identifier first and the type second. |
| `UserController.UpdateUser` | Backend/BookCatalog/bookcatalog/src/main/java/com/bookcatalog/bookcatalog/controller/UserController.java:78-82 | A delegate: it hands back the service's answer, or its exception, unchanged. The service gets the identifier, the type and the body. |
| `BookController.Attachment` | Backend/BookCatalog/bookcatalog/src/test/java/com/bookcatalog/bookcatalog/controller/BookControllerTest.java:317-339 | A file is attached exactly when one came and it is non-empty. An empty file counts as no file. |
| `BookController.SizeLimitBoundary` | Backend/BookCatalog/bookcatalog/src/test/java/com/bookcatalog/bookcatalog/controller/BookControllerTest.java:121-155 | The limit is 2097152 bytes and inclusive: limit−1 and limit are accepted, and limit+1 is not. |
| `BookController.WriteRejection` | Backend/BookCatalog/bookcatalog/src/test/java/com/bookcatalog/bookcatalog/controller/BookControllerTest.java:105-119 | Only a bound SUPER or ADMIN principal passes. Any other role gets 403 with the given permission message, and an empty context gets 401. |
| `BookController.SizeRejection` | Backend/BookCatalog/bookcatalog/src/test/java/com/bookcatalog/bookcatalog/controller/BookControllerTest.java:142-155 | Rejects exactly an oversized upload, with 400 "File size exceeds 2MB size limit". |
| `BookController.CreateRules` | Backend/BookCatalog/bookcatalog/src/test/java/com/bookcatalog/bookcatalog/controller/BookControllerTest.java:66-155 | A READER gets 403 with the create message. An oversized file gets 400. In both cases the service is never called and the book is unchanged. 200 comes exactly for a writer within the limit. Then `createBook` is called once, with the book carrying the stored cover image exactly when a non-empty file came, and its result is the body. |
| `BookController.CreateBook` | Backend/BookCatalog/bookcatalog/src/test/java/com/bookcatalog/bookcatalog/controller/BookControllerTest.java:66-155 | The step-by-step create sets the book's cover image in place, and leaves the book, the response and the call log exactly as `Create` describes. |
| `BookController.UpdateRules` | Backend/BookCatalog/bookcatalog/src/test/java/com/bookcatalog/bookcatalog/controller/BookControllerTest.java:295-476 | The book is looked up first, once. A missing book is 404 whoever asks. On an existing book, a READER gets 403 with the update message and an oversized file gets 400, and in neither case is `updateBook` called. 200 comes exactly for a writer within the limit. Then `updateBook` is called once, with a null image exactly when no file or an empty file came. |
| `BookController.UpdateBook` | Backend/BookCatalog/bookcatalog/src/test/java/com/bookcatalog/bookcatalog/controller/BookControllerTest.java:295-476 | The step-by-step update leaves the response and the call log exactly as `Update` describes. |
| `BookController.DeleteRules` | Backend/BookCatalog/bookcatalog/src/test/java/com/bookcatalog/bookcatalog/controller/BookControllerTest.java:478-540 | A missing book is 404 whoever asks. A READER on an existing book gets 403 with the update message. 204 comes exactly for SUPER or ADMIN on an existing book. `deleteBookById` is then called exactly once, and never otherwise. |
| `BookController.DeleteBook` | Backend/BookCatalog/bookcatalog/src/test/java/com/bookcatalog/bookcatalog/controller/BookControllerTest.java:478-540 | The step-by-step delete leaves the response and the call log exactly as `Delete` describes. |
| `BookController.SameUploadRule` | Backend/BookCatalog/bookcatalog/src/test/java/com/bookcatalog/bookcatalog/controller/BookControllerTest.java:341-409 | For a writer, with the book existing on update, create and update reject the same files with 400, with the same message. |
| `BookController.GetBookById` | Backend/BookCatalog/bookcatalog/src/test/java/com/bookcatalog/bookcatalog/controller/BookControllerTest.java:157-179 | 200 exactly when the book is found. Otherwise 404. The body is the found book, or none. |
| `BookController.GetBooksByUserId` | Backend/BookCatalog/bookcatalog/src/test/java/com/bookcatalog/bookcatalog/controller/BookControllerTest.java:247-266 | 200 with the listings exactly when there are some. Otherwise 404 without a body. |
| `BookController.GetBooksByUserUsernameOrEmail` | Backend/BookCatalog/bookcatalog/src/test/java/com/bookcatalog/bookcatalog/controller/BookControllerTest.java:268-293 | 200 with the listings exactly when there are some. Otherwise 404 without a body. |
| `BookController.GetAllBooks` | Backend/BookCatalog/bookcatalog/src/test/java/com/bookcatalog/bookcatalog/controller/BookControllerTest.java:181-203 | A delegate: it hands back the service's response unchanged. |
| `BookController.GetAllBooksShort` | Backend/BookCatalog/bookcatalog/src/test/java/com/bookcatalog/bookcatalog/controller/BookControllerTest.java:214-236 | A delegate: it hands back the service's response unchanged. |

## Left out

- Token service internals (signing, claims parsing, expiry arithmetic): oracles, as are the user-details lookup and the authentication, book, user and file-storage services.
- HTTP request parsing, response writing, the filter chain's and the exception resolver's own behaviour, persistence, pagination contents, DTO field mapping and writing the uploaded file to disk (the stored name is the `FileStore` oracle's answer).
- The filter's null request, response or chain (the tests expecting NullPointerException): the header is an `Option`, and the request, response and chain are always present.
- An exception thrown by the chain after forwarding, and the web-authentication details the filter attaches to the token.
- `AuthenticationController.Authenticate`: an exception from the authentication service is not modelled; it is not caught in the controller and would propagate.
- `BookController.CreateBook` and `BookController.UpdateBook`: an IOException from storing the file is not modelled.
- `BookController.GetAllBooks` and `BookController.GetAllBooksShort`: the null response a READER gets in their tests comes from the test doubles, and the role restriction behind it is not visible in the code of this model; only the pass-through is stated.
- Security.User: a role is always one of the four; a user whose role is null cannot be represented. In the code `getAvailableBooks` answers such a user 403 (its `!= Role.GUEST` comparison, GuestController.java line 77), which `GuestController.GetAvailableBooks` cannot state. How the book writes treat a null role is not visible in the code or the tests, and `BookController.WriteRejection` says nothing about it.
- Security.Authorities: the authorities of a logged-in user are taken to be exactly `[ROLE_<role>]`. `CustomUserDetails.getAuthorities()` (used at AuthenticationController.java line 63) is not part of this model, and `Authorization.GateAdmitsListedRoles`, `Authorization.LoginGate`, `Authorization.UserReadGates` and the endpoint lemmas rest on that assumption.
- Thread-locality of the context holder and any cross-thread behaviour: the context is one object passed to each operation.
- Java's 32-bit page and size parameters and the 64-bit validity window: passed through unchanged, with no arithmetic on them.
- UserService.java (a wrapper over the repository), the UsernameOrEmailRequired annotation (its validator is not part of this model) and the Swift client files (UI wiring and a bare role enum the `Role` datatype already covers).
