# Todo service with login: a Dafny model

This project models the core of a small to-do web service: an owner-scoped
todos table with five request handlers (list, get, create, update, delete),
the earlier unscoped draft of the same table (list, get, create), and the
registration and login decisions of the authentication router. The tables
are Dafny collections held by classes whose methods are the handlers;
the queries the handlers run are pure functions; lemmas state what a
sequence of handler calls does to what a caller sees.

Modules:

- `Outcomes` — `Option`, `Result` and the three error outcomes: a failed
  request validation (422), no current user (401), and a lookup that found
  nothing (`NotFound`, see below).
- `TodoRequests` — the request body of create and update and its field
  constraints: title of at least 3 characters, description of 3 to 100
  characters, priority strictly between 0 and 6; path ids must be positive.
  Both drafts declare the same constraints, so they are defined once.
- `Todos` — `routers/todos.py`: the table as `map<int, Todo>` in
  `TodoStore`, with a key counter standing for the database's
  autoincrement. The queries `OwnedBy`, `FindById` and `FindOwned` model
  the filters the handlers apply.
- `DraftTodos` — `TodoApp/main.py`: the same table without owners and
  without authentication, and the erasure that shows the scoped router only
  adds an owner on create and only filters on read.
- `Auth` — `TodoApp/routers/auth.py`: the users table as `seq<User>` in
  insertion order, the credential check, the claim set of an access token,
  the login reply, and registration.

The request validation the web framework performs before a handler runs
(path ids and body fields, answered with 422) is modelled as the first
branch of each handler, so a request that is both invalid and without a
current user gets 422, not 401.

Behaviour kept as written in the source:

- `update_todo` and `delete_todo` take no current user and look a row up by
  key only, while `get_single_todos` also filters on the owner. Any caller
  can overwrite or delete another user's row (`ForeignRowReachableByWrite`).
- The not-found branches raise the framework's HTTP exception with
  `details=` instead of `detail=`; the exception's constructor then fails
  with a TypeError, so the client sees a server error instead of 404. The
  model keeps this as its own outcome, `Outcomes.Error.NotFound`.
- On a failed login the handler returns the string "Fail Auth"
  (TodoApp/routers/auth.py:89) instead of raising a 401. The route declares
  its reply model as the token body (TodoApp/routers/auth.py:83), so the
  framework's check of the returned value rejects the bare string and the
  client gets a server error. The model stops at the value the handler
  returns (`Auth.LoginForAccessToken`).
- Registration makes no uniqueness check in the handler. Assuming the users
  table declares no unique constraint either, a second registration under a
  taken username appends a row that login never reaches, because the
  credential check takes the first matching row
  (`Auth.DuplicateRegistrationShadowed`).
- The credential check does not look at the active flag.

The users table is a sequence, not a map keyed by username: with no
uniqueness check, two rows can share a username, and a map could not hold
both. The first row of a query without an ordering clause is modelled as
the earliest inserted row.

## Model

| member | source | states |
|---|---|---|
| `TodoRequests.ValidRequest` | routers/todos.py:37-41 | a create or update body is valid iff the title has at least 3 characters, the description 3 to 100, and 0 < priority < 6 (the same constraints as TodoApp/main.py:26-30) |
| `TodoRequests.ValidPathId` | routers/todos.py:62 | a path id is accepted iff it is greater than 0, as declared for get, update and delete |
| `TodoRequests.PriorityBoundaries` | routers/todos.py:37-41 | priority 0 and 6 are rejected, 1 and 5 accepted, for otherwise valid bodies |
| `TodoRequests.LengthBoundaries` | routers/todos.py:38-39 | a 100-character description is accepted, a 101-character one rejected; a 2-character title or description is rejected |
| `TodoRequests.ValidPriorityLevels` | routers/todos.py:40 | for a body whose title and description meet their limits, the body is valid iff the priority is one of 1 to 5 |
| `Todos.NewTodo` | routers/todos.py:96 | the row create builds carries the request's title, description, priority and complete, and the caller's id as owner |
| `Todos.Overwritten` | routers/todos.py:112-115 | the row update commits: the four mutable fields taken from the request, id and owner kept |
| `Todos.OwnedBy` | routers/todos.py:57 | the owner filter keeps exactly the rows whose owner is the caller, unchanged |
| `Todos.FindById` | routers/todos.py:105 | the lookup by key finds the row stored under that key and nothing when the key is absent |
| `Todos.FindOwned` | routers/todos.py:69-74 | the two filters find a row only when its key matches AND its owner is the caller |
| `Todos.TodoStore.ReadAll` | routers/todos.py:49-57 | 401 without a caller; otherwise exactly the caller's rows |
| `Todos.TodoStore.GetSingle` | routers/todos.py:60-79 | 422 for id <= 0, 401 without a caller, the row iff it exists and is the caller's, not-found otherwise (also for another user's row) |
| `Todos.TodoStore.Create` | routers/todos.py:82-98 | 422 for an invalid body, 401 without a caller, both with the table unchanged; otherwise one row added under a fresh key with the request's fields and the caller as owner, every other row unchanged |
| `Todos.TodoStore.Update` | routers/todos.py:101-118 | 422 for id <= 0 or an invalid body, not-found with the table unchanged for an absent key; otherwise that row's four mutable fields replaced and nothing else changed; no owner check |
| `Todos.TodoStore.Delete` | routers/todos.py:121-132 | 422 for id <= 0, not-found with the table unchanged for an absent key; otherwise exactly that key removed |
| `Todos.CreateIsListedForOwnerOnly` | routers/todos.py:96-98 | a created row joins its owner's list and is found by its owner with the request's fields; every other user's list is unchanged and does not find it |
| `Todos.UpdateReplacesFourFields` | routers/todos.py:112-115 | after an update the row keeps key and owner and holds exactly the request's four fields, other rows unchanged; the owner's GET sees the new row |
| `Todos.UpdateIdempotent` | routers/todos.py:112-118 | applying an update's table change twice with one body leaves the table as applying it once |
| `Todos.DeleteThenNotFound` | routers/todos.py:121-132 | after a delete that key is not found by any caller, and every list loses exactly that row |
| `Todos.ListsAreDisjoint` | routers/todos.py:57 | two users' lists share no row, and every row is in its owner's list |
| `Todos.ForeignRowReachableByWrite` | routers/todos.py:101-127 | a row of another user is not found by the caller's GET yet is found by the key-only lookup of update and delete |
| `DraftTodos.NewItem` | TodoApp/main.py:56 | the row the draft's create builds carries the request's four fields |
| `DraftTodos.DraftStore.ReadAll` | TodoApp/main.py:33-35 | every row of the table, regardless of who created it |
| `DraftTodos.DraftStore.GetSingle` | TodoApp/main.py:38-45 | 422 for id <= 0, the row under that key if present, not-found otherwise |
| `DraftTodos.DraftStore.Create` | TodoApp/main.py:48-58 | 422 unless the body meets the constraints declared at TodoApp/main.py:26-30; otherwise one row added under a fresh key with the request's four fields, nothing else changed |
| `DraftTodos.Erase` | TodoApp/main.py:56 | the draft's view of a scoped table: same keys, each row without its owner |
| `DraftTodos.CreateRefinesDraft` | TodoApp/main.py:56-58 | creating in the scoped table and forgetting owners equals creating in the draft's table |
| `DraftTodos.ScopedListWithinDraftList` | TodoApp/main.py:33-35 | a caller's scoped list is part of the draft's list of the same table |
| `DraftTodos.ScopedGetRefinesDraftGet` | TodoApp/main.py:38-45 | a row the scoped GET returns is the one the draft's GET returns; the draft finds more only for other users' rows |
| `Auth.ValidUserRequest` | TodoApp/routers/auth.py:26-32 | a registration body is valid iff its email has at least 3 characters; no other field is constrained |
| `Auth.FirstIndex` | TodoApp/routers/auth.py:52 | the position of the earliest row with the username, and none iff no row has it |
| `Auth.FirstIndexAfterAppend` | TodoApp/routers/auth.py:52 | appending a row changes the first match only when no earlier row matched |
| `Auth.Authenticate` | TodoApp/routers/auth.py:51-57 | nothing when no row has the username; nothing when verify rejects the password against the first such row's hash; that row when both checks pass |
| `Auth.UnknownUserSkipsVerify` | TodoApp/routers/auth.py:51-54 | with no row for the username the result is failure whatever verify would answer |
| `Auth.AccessClaims` | TodoApp/routers/auth.py:60-64 | the signed claim set has exactly the keys sub, id and exp, holding the username, the user id and now plus the delta |
| `Auth.CreateAccessToken` | TodoApp/routers/auth.py:60-64 | the access token is the signature of exactly the claim set `AccessClaims` builds for the username, id and now plus the delta |
| `Auth.ClaimsRoundTrip` | TodoApp/routers/auth.py:60-64 | reading the claim set back gives exactly the username, id and expiry it was built from |
| `Auth.LoginForAccessToken` | TodoApp/routers/auth.py:83-91 | "Fail Auth" iff the credential check fails; otherwise token type "bearer" and the signature of the claims for that user's username and id with a 20-minute lifetime |
| `Auth.NewUser` | TodoApp/routers/auth.py:69-77 | the registered row copies email, username, names and role, stores hash(password) rather than the password, and is active |
| `Auth.Registered` | TodoApp/routers/auth.py:79-80 | registration appends exactly one row, under the next key, after the existing rows |
| `Auth.UserStore.CreateUser` | TodoApp/routers/auth.py:67-80 | 422 when the email is shorter than 3; otherwise one row appended with the request's email, username, names and role, hash(password) as the stored password, active set, earlier rows unchanged, a key distinct from every earlier row's, no uniqueness check |
| `Auth.StoredRowSeesOnlyHash` | TodoApp/routers/auth.py:69-77 | the stored row depends on the password only through its hash, and is active |
| `Auth.RegisterThenLogin` | TodoApp/routers/auth.py:67-91 | registering a fresh username and logging in with the same password yields a bearer token for the new row's username and id, given verify accepts a password against its own hash |
| `Auth.RegisterThenWrongPassword` | TodoApp/routers/auth.py:67-91 | registering and logging in with a password verify rejects yields "Fail Auth" |
| `Auth.DuplicateRegistrationShadowed` | TodoApp/routers/auth.py:67-80 | registering a taken username adds a row, yet the credential check for that username answers as before the registration |

## Left out

- Password hashing and verification (bcrypt) and token signing (JWT) are function parameters; the model does not look inside them. The random salt of each hash is folded into the hash function the caller supplies.
- The signing secret and algorithm come from environment configuration; they are part of the signing function parameter.
- The wall clock is the parameter `now`, in microseconds; how the token library turns the expiry instant into a number is not modelled.
- Database sessions (acquisition, release, commit) are not modelled: a handler's new table is its committed state, and each handler call is one transaction.
- Autoincrement keys: the model hands out keys from a counter, one fresh key per insert; a database may choose a different fresh key.
- The order of the list that GET /Todos returns is not modelled: the result is the map of matching rows.
- Token decoding and the current-user dependency belong to the router's auth module, which this model does not cover; the caller is an optional (username, id) input.
- The framework's check of the login reply against its declared token model is not modelled: it rejects the "Fail Auth" string and turns a failed login into a server error, while the model gives the value the handler returns.
- Auth.FirstIndex: a query without an ordering clause may return any matching row; the model takes the earliest inserted one, and `Auth.DuplicateRegistrationShadowed` depends on that choice.
- Auth.UserStore.CreateUser: assumes the users table has no unique constraint on username or email; with one, a duplicate registration would fail at commit with no row added, an error outcome this model does not have, and `Auth.DuplicateRegistrationShadowed` would describe a table that cannot arise.
- Routing, dependency injection, form parsing, the HTML template route, static files, the health check and the test fixtures carry no logic of the core and are not modelled.
- The conversion of loosely typed request values (strings to integers) by the validation library is not modelled: request fields arrive typed.
