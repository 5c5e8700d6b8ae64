# Nest-Todo: ownership-guarded todos and the login decision, in Dafny

This project models the core of a NestJS todo service with password login:

- **The todo service** (`TodoService`): a table of todos keyed by integer id,
  each with a title, a description and the id of its owner. Creation takes the
  owner from the authenticated caller, never from the request body. Listing
  returns the caller's todos. Get, update and delete all fetch the row by id,
  refuse with NotFound ("Todo not found") when it is absent, then with
  Forbidden ("Access denied") when the stored owner is not the caller, and
  only then act.
- **The login decision** (`AuthService.signIn`): look the user up by email,
  compare the password with the stored hash, build the claims
  `{sub: id, email, name}` from the stored record and sign them. Both failures
  answer Unauthorized with the same message, "Invalid credentials".

Layout:

- `wrappers.dfy`: module `Wrappers`, an `Option` type for optional fields.
- `todo_store.dfy`: module `TodoStore`, the entities and every todo operation
  as a function on the table (`Fetch` is the shared existence-then-ownership
  guard; `Create`, `Update`, `Delete`, `Owned`).
- `todo_history.dfy`: module `TodoHistory`, sequences of calls by any users,
  and the guarantees that hold after any of them: the table stays well formed,
  ids are not reused, a row's owner never changes, and calls by other users
  leave an owner's rows exactly as they were. These hold for update bodies
  of the declared type `{title?, description?}`; see "## Findings" for a body
  that also carries an owner.
- `todo_service.dfy`: module `TodoApi`, class `TodoService` holding the table
  as a `map<int, Todo>` field and the next id to hand out; its methods change
  the table in place and are proved equal to the functions of `TodoStore` and
  to one step of `TodoHistory`.
- `todo_untyped_body.dfy`: module `TodoUntypedBody`, the update as the
  program runs it, with a body that may carry an owner field.
- `auth.dfy`: module `Auth`, the user lookup by email and `SignIn`.

The password-hash comparison and the token signer are parameters of `SignIn`
(`compare: (string, string) -> bool`, `sign: Claims -> string`). The model says
what they are given and what is done with their answer, nothing about how they
work. The caller's user id for the todo operations is a plain parameter: it is
what the authentication guard puts in the request, and that guard is not part
of this model.

## Model

| member | source | states |
|---|---|---|
| TodoStore.Fetch | src/todo/todo.service.ts:24-27 | NotFound exactly when the id is absent, Forbidden exactly when the row exists and its stored owner is not the caller, otherwise the stored row, whose owner is the caller; the two error messages |
| TodoStore.Create | src/todo/todo.service.ts:9-16 | the new row's owner is the caller's id, title and description are as given; the table gains that one row and keeps all others; on a well-formed store the id was unused and the store stays well formed |
| TodoStore.Patched | src/todo/todo.service.ts:35 | a field present in the update replaces the stored one, an absent field keeps its value; id and owner are preserved |
| TodoStore.Update | src/todo/todo.service.ts:30-36 | same NotFound/Forbidden conditions as the guard; on either refusal the table is unchanged; on success the result is the patched row and only that row changes; the set of ids never changes |
| TodoStore.Delete | src/todo/todo.service.ts:38-44 | same NotFound/Forbidden conditions as the guard; on either refusal the table is unchanged; on success the removed row is returned, exactly its id leaves the table and every other row is untouched |
| TodoStore.Owned | src/todo/todo.service.ts:19-21 | every stored todo owned by the user is listed, and every listed todo is a stored todo owned by the user |
| TodoStore.NotFoundWhoeverAsks | src/todo/todo.service.ts:24-25 | whether a get fails with NotFound does not depend on the caller |
| TodoStore.PresentNeverNotFound | src/todo/todo.service.ts:24-27 | existence is checked before ownership: an existing row owned by someone else gives Forbidden, never NotFound; its owner gets the row |
| TodoStore.ListedIffFetched | src/todo/todo.service.ts:19-27 | a todo is in a user's listing exactly when getting its id as that user returns it |
| TodoStore.PatchIdempotent | src/todo/todo.service.ts:35 | applying the same update twice is the same as applying it once |
| TodoStore.EmptyPatchKeepsRow | src/todo/todo.service.ts:35 | an update with no fields leaves the row as it was |
| TodoStore.DeletedThenNotFound | src/todo/todo.service.ts:23-44 | after a successful delete, getting that id fails with NotFound whoever asks |
| TodoHistory.StepWellFormed | src/todo/todo.service.ts:9-44 | every operation keeps each row stored under its own id with all ids below the counter, and never moves the counter back |
| TodoHistory.RunWellFormed | src/todo/todo.service.ts:9-44 | the same holds after any sequence of calls by any users |
| TodoHistory.IdsNeverReused | src/todo/todo.service.ts:9-16 | an id once handed out and then deleted never reappears, whatever calls follow |
| TodoHistory.StepKeepsOwner | src/todo/todo.service.ts:30-44 | no single operation changes the owner of a row it leaves in the table |
| TodoHistory.OwnerNeverChanges | src/todo/todo.service.ts:9-44 | after any sequence of calls by any users, a row still present has the owner it had at the start |
| TodoHistory.StepIsolation | src/todo/todo.service.ts:30-44 | a call by anyone but the owner leaves the owner's rows exactly as they were |
| TodoHistory.Isolation | src/todo/todo.service.ts:9-44 | after any sequence of calls made only by other users, the owner's rows (ids and contents) and the owner's listing are unchanged |
| TodoHistory.TwoUsersScenario | src/todo/todo.service.ts:9-44 | on an empty table two users create todos 1 and 2 with themselves as owners; the second user's delete of todo 1 is Forbidden, the owner's succeeds, and a later get of 1 is NotFound |
| TodoApi.TodoService.constructor | src/todo/todo.service.ts:7 | the service is bound to a store already holding any well-formed table (rows under their own ids, all below the next id) and starts from exactly that state |
| TodoApi.TodoService.CreateTodo | src/todo/todo.service.ts:9-17 | adds exactly one row, under an id not in the table before, owned by the caller, with the given title and description; the table stays well formed |
| TodoApi.TodoService.GetTodos | src/todo/todo.service.ts:19-21 | returns exactly the stored todos owned by the caller; changes nothing |
| TodoApi.TodoService.GetTodo | src/todo/todo.service.ts:23-28 | NotFound exactly when the id is absent, Forbidden exactly when another user owns it, otherwise the stored row unchanged; changes nothing |
| TodoApi.TodoService.UpdateTodo | src/todo/todo.service.ts:30-36 | the new table and the answer are those of `Update` on the old table: unchanged on a refusal, only the given fields of that row on success; the counter is kept |
| TodoApi.TodoService.DeleteTodo | src/todo/todo.service.ts:38-44 | the new table and the answer are those of `Delete` on the old table: unchanged on a refusal, exactly that row removed and returned on success |
| TodoUntypedBody.PatchedAsWritten | src/todo/todo.service.ts:35 | each of title, description and owner present in the body replaces the stored one, each absent one keeps its value; the id is kept; without an owner field it is the typed patch |
| TodoUntypedBody.UpdateAsWritten | src/todo/todo.service.ts:30-36 | same guard as the typed update: NotFound and Forbidden under the same conditions, with the guard's exact answer and the table unchanged; on success the row becomes the body applied to it, owner field included |
| TodoUntypedBody.TypedBodyAgrees | src/todo/todo.service.ts:30-36 | a body without an owner field gives exactly the typed update's table and answer |
| TodoUntypedBody.OwnerHandsOver | src/todo/todo.service.ts:35 | the owner's update with a body naming another user succeeds, the row's owner becomes that user, and that user's rows change without any call of theirs |
| TodoUntypedBody.AliceGivesTodoToBob | src/todo/todo.service.ts:35 | a concrete case: bob lists nothing before, and lists alice's former todo after alice's update |
| Auth.FindByEmail | src/auth/auth.service.ts:14 | finds no user exactly when no stored user has the email; a found user is stored and has that email |
| Auth.FindByEmailUnique | src/auth/auth.service.ts:14 | when emails are unique, the lookup returns the one stored user holding the email |
| Auth.SignIn | src/auth/auth.service.ts:13-29 | a token exactly when a user with the email exists and the password matches its hash; the token signs that user's id, the email and that user's name; every failure is Unauthorized "Invalid credentials"; the user table is only read |
| Auth.SignInSucceedsIff | src/auth/auth.service.ts:13-28 | with unique emails, logging in as a stored user gives the signature of exactly that user's claims when the password matches, and Unauthorized otherwise |
| Auth.FailuresIndistinguishable | src/auth/auth.service.ts:16-23 | an unknown email and a wrong password for a known one give the same answer |
| Auth.TokenOnlyOnSuccess | src/auth/auth.service.ts:20-28 | a token is produced only when some stored user has the email and the password matches its hash |

## Findings

| source | as written | input that shows it | evidently intended | confidence | as-written member | corrected member |
|---|---|---|---|---|---|---|
| src/todo/todo.service.ts:35 | the unfiltered request body is the update data, so every field it carries is written, including `userId` | the owner of todo 1 sends PATCH /todo/1 with body `{"userId": "bob"}`: todo 1 now belongs to bob | only `title` and `description` change, as the declared body type says; the owner is never changed by an update | not executed; medium, since it relies on the store accepting an owner field in update data (the schema is not part of this model) | TodoUntypedBody.OwnerHandsOver | TodoStore.Patched |

The corrected update (`TodoStore.Patched`, used by `TodoStore.Update` and
`TodoApi.TodoService.UpdateTodo`) keeps the owner and the id, and
`TodoHistory.OwnerNeverChanges` and `TodoHistory.Isolation` are proved for it.

## Left out

- HTTP controllers, routing, status codes and API documentation annotations (src/todo/todo.controller.ts, src/auth/auth.controller.ts): wiring around the core.
- The controllers' conversion of the path id with `Number(id)` (src/todo/todo.controller.ts:46,65,75): ids are integers here; JavaScript's NaN and fractional numbers are not modelled.
- The password-stripping projection of the profile endpoint (src/auth/auth.controller.ts:56).
- The password-hash comparison and the token signer: parameters of `SignIn`; salts, timing and signature formats are not modelled, nor the issue and expiry times the signer's configuration may add.
- Token verification and the authentication guard: not part of this model; the todo operations take the already authenticated user id.
- The user service and its tests (src/users/users.service.spec.ts): the user table is a sequence of records and the lookup returns the first record with the email; email uniqueness is a predicate the lemmas assume, since the database enforces it.
- Auth.SignIn: the stored `name` is a string; a user record without a name (a null field) is not modelled.
- Asynchrony and the gap between the fetch and the update or delete: each operation is one atomic step.
- Database specifics: the store's own auto-increment rules and the errors it may raise on update or delete are not modelled; ids come from a counter that is above every id in use.
- TodoApi.TodoService.GetTodos: returns a set; the order of the rows in the source's list is not modelled.
- TodoStore.Create, TodoApi.TodoService.CreateTodo: the create body is taken at its declared type `{title, description}` of two strings. The controller passes it through unfiltered, so a body missing a field or carrying a non-string one reaches the store, which refuses the create (a server error) or stores a default or null; the model does not show either. Ownership is unaffected, since the owner always comes from the caller.
- TodoApi.TodoService.UpdateTodo: the update body is taken at its declared type `{title?, description?}`. The controller passes the body through unfiltered, so a body with an owner field can reassign the row; that path is modelled separately in `TodoUntypedBody` (see "## Findings"), and a body with an `id` field is not modelled at all.
- TodoHistory.StepKeepsOwner, TodoHistory.OwnerNeverChanges, TodoHistory.StepIsolation, TodoHistory.Isolation: owner immutability and isolation between users hold only for update bodies of the declared type; with the unfiltered body, an owner can hand a row to another user (`TodoUntypedBody.OwnerHandsOver`), which changes that row's owner and adds a row to the other user's rows.
- Auth.SignIn, Auth.FailuresIndistinguishable: email and password are taken at their declared string type, and the password comparison is assumed always to answer. The login body is untyped at runtime, so a body without a password reaches the comparison with a missing value; for a registered email the comparison library may then fail and the request end in a server error, while an unregistered email still gets Unauthorized "Invalid credentials". Such a body can therefore tell a registered email from an unregistered one, which this model does not show.
- Auth.FindByEmail: emails are compared by exact string equality; the database's own comparison rules for the email column (a case-insensitive collation, for one) are not modelled, and they would change both the lookup and the `email` claim.
- Other columns the todo table may have besides id, title, description and owner are not modelled.
