# User service model

A Dafny model of the business logic of a user-management REST resource,
`services/UserService.js`. The service creates, lists, searches, bulk-creates,
fetches, updates and soft-deletes user records. Here the relational store is
an in-memory table: a map from store id to a record
`{name, email, passwordHash, cellphone, status, createdAt}`. That table is a
field of the class `Service.UserService`, next to the store's next
auto-increment id. The password hash and the date parser are functions
injected into the class and left uninterpreted.

Files and modules:

- `wrappers.dfy` (`Wrappers`): `Option`, used for request fields and query
  parameters that may be absent (`undefined` or `null`).
- `users.dfy` (`Users`): the `User` record, the table and the `{code, message}`
  response. It also holds the name check `^[a-zA-Z]+$` and the read-only
  selections behind `getAllUsers` and `getUserById`.
- `search.dfy` (`Search`): the `findUsers` filter. `BuildFilter` assembles it
  with successive assignments, as the source does; `FilterFor` is the filter
  it must produce; `Matches` and `Select` say which rows a filter keeps. The
  lemmas state the search's meaning in terms of rows.
- `service.dfy` (`Service`): each mutating operation as a function from the
  old table to the response and the new table (`Create`, `Update`,
  `Delete`, `BulkCreate`). The class `UserService` has one method per
  service operation. Each method is proved to have exactly the effect of the
  matching function.
- `lifecycle.dfy` (`Lifecycle`): lemmas that span several operations. They
  cover what a create adds, the soft-delete lifecycle (a status goes from
  true to false and never back; rows are never removed), email uniqueness,
  and the bulk tally.

Points where the code does something a reader might not expect; the model follows the code:

- A password is rehashed only if it is truthy, i.e. present and non-empty. An
  empty-string password keeps the old hash.
- An update does not check the name, so it accepts any string, even an empty one.
- With both date bounds, the filter is `createdAt BETWEEN antes AND despues`,
  inclusive. This is not the intersection of what each bound means on its own
  (`< antes`, `> despues`); `Search.BothBoundsAreNotIntersection` gives a case.

## Model

| member | source | states |
|---|---|---|
| `Users.NameMatches` | services/UserService.js:9-10 | the name passes exactly when it is non-empty and every character is an ASCII letter |
| `Users.ActiveUsers` | services/UserService.js:43-47 | the selection holds exactly the rows whose status is true, unchanged |
| `Users.ActiveById` | services/UserService.js:118-123 | the lookup finds a row exactly when the id is stored and active, returns that row, and agrees with `ActiveUsers` |
| `Search.Select` | services/UserService.js:77-79 | the search result holds exactly the stored rows that match every filter entry, unchanged |
| `Search.BuildFilter` | services/UserService.js:56-75 | the assembled filter is `FilterFor(q)`: a present `status` wins over `eliminados`; the name entry only for a non-empty `nombre`; the date entry is between / lt / gt / none depending on which bounds are non-empty |
| `Search.EliminadosSelects` | services/UserService.js:58-60 | with no other constraint, `eliminados = "true"` selects exactly the soft-deleted rows and any other value exactly the active rows |
| `Search.StatusParameterWins` | services/UserService.js:73-75 | with no other constraint, a present `status` selects the active rows for `"true"` and the deleted rows otherwise, whatever `eliminados` is |
| `Search.StatusOverridesEliminados` | services/UserService.js:58-75 | whatever the other parameters, once `status` is present the search result does not depend on `eliminados` |
| `Search.AllActiveIsStatusSearch` | services/UserService.js:42-47 | `getAllUsers` returns the same rows as a search with only `status = "true"` |
| `Search.EmptyQuerySelectsAll` | services/UserService.js:57-79 | a search with no parameters returns every row, soft-deleted ones included |
| `Search.NombreConstraint` | services/UserService.js:61-63 | an empty or absent `nombre` adds no constraint; a non-empty one adds exactly "the name contains `nombre`" |
| `Search.DateWindow` | services/UserService.js:64-72 | both bounds: `antes <= createdAt <= despues`; only `antes`: `createdAt < antes`; only `despues`: `createdAt > despues`; neither: no date constraint |
| `Search.BothBoundsAreNotIntersection` | services/UserService.js:64-72 | a row created at 7 passes `antes = 10` alone and `despues = 5` alone but not both together |
| `Service.Create` | services/UserService.js:5-38 | code 200 exactly when the name passes and no row, active or deleted, has the email; a bad name gives 400 "letters only" and otherwise a taken email gives 400 "email exists", both with the table unchanged; a success adds exactly one row under a fresh id, active, with the hashed password, and leaves every other row as it was |
| `Service.NatToStringDigits` | services/UserService.js:37 | the id in the success message renders as a non-empty string of decimal digits |
| `Service.CreateMessageTexts` | services/UserService.js:13-37 | the three `createUser` messages are "Name must contain only letters", "Email already exists" and "User created successfully with ID: " followed by the id in decimal (checked for 12 and 105) |
| `Service.Merge` | services/UserService.js:140-143 | name and cellphone take the request value unless it is absent; the hash changes to `hash(password)` only for a non-empty password; email, status and creation time are kept; an empty request changes nothing |
| `Service.Update` | services/UserService.js:127-154 | 404 "User not found" and the table unchanged exactly when the id has no active row; otherwise 200, that row merged and every other row unchanged |
| `Service.Delete` | services/UserService.js:156-180 | 404 and the table unchanged exactly when the id has no active row; otherwise 200, only that row's status set to false, every other row unchanged |
| `Service.BulkCreate` | services/UserService.js:97-98 | one create per request in input order, each on the table the previous ones left; one response per request, and ids stay fresh |
| `Service.TallyAddsUp` | services/UserService.js:99-103 | successes plus failures equals the number of responses |
| `Service.UserService.CreateUser` | services/UserService.js:5-38 | the response, new table and new next id are those of `Create`; email uniqueness and the lifecycle are kept |
| `Service.UserService.GetAllUsers` | services/UserService.js:42-52 | code 200 and exactly the active rows |
| `Service.UserService.FindUsers` | services/UserService.js:54-92 | with no storage failure, code 200 and the rows that match `FilterFor(q)`; with a storage failure, code 500 "Internal Server Error" |
| `Service.UserService.BulkCreateUsers` | services/UserService.js:93-113 | always code 200; the table is that of `BulkCreate`; `successfulCount` is the number of code-200 results and `failedCount` the number of the rest, which sum to the number of requests; no row is removed or revived |
| `Service.UserService.GetUserById` | services/UserService.js:115-125 | code 200 always; the row if the id is active, otherwise no row (never 404) |
| `Service.UserService.UpdateUser` | services/UserService.js:127-154 | the response and new table are those of `Update`; the next id and the invariants are kept |
| `Service.UserService.DeleteUser` | services/UserService.js:156-180 | the response and new table are those of `Delete`; the next id and the invariants are kept |
| `Lifecycle.CreatedUserIsVisible` | services/UserService.js:25-38 | after a successful create the table has one more row, and `getUserById` and `getAllUsers` see the new active row with the hashed password under the reported id |
| `Lifecycle.CreatePreserves` | services/UserService.js:17-33 | a create keeps emails unique and never removes or revives a row |
| `Lifecycle.UpdatePreserves` | services/UserService.js:140-149 | an update keeps emails unique and the lifecycle; an update with no body fields leaves the table unchanged |
| `Lifecycle.DeleteHides` | services/UserService.js:169-175 | after a delete the row is still stored and found by `eliminados = "true"`, but `getUserById` and `getAllUsers` no longer see it; emails stay unique and nothing is revived |
| `Lifecycle.DeleteIsFinal` | services/UserService.js:127-168 | after a successful delete, a second delete and any update of that id return 404 and change nothing |
| `Lifecycle.DeletedEmailStaysTaken` | services/UserService.js:17-23 | create, delete, then create again with the same email gives 400 "Email already exists" and changes nothing |
| `Lifecycle.BulkCreateAdds` | services/UserService.js:93-104 | a bulk create keeps every existing row as it was, keeps emails unique and the lifecycle, and the table grows by exactly the number of successes |
| `Lifecycle.BulkCreatePair` | services/UserService.js:97-98 | a bulk create of two requests is the first create followed by the second on the table it left |
| `Lifecycle.BulkDuplicateEmail` | services/UserService.js:93-113 | on any table, a valid user with a free email followed by a request with the same email: the first is created under the next id, the second rejected with 400 ("Email already exists" when its name passes), the tally is 1 and 1, and exactly the first row is added |
| `Lifecycle.BulkDuplicateEmailExample` | services/UserService.js:93-113 | on an empty store, concrete requests: responses 200 with id 1 and 400 "Email already exists", tally 1 and 1, one row |

## Left out

- The HTTP layer in `controllers/UserController.js`: routing, and the mapping of `code`/`message` onto the HTTP response. It is I/O glue.
- The middlewares that guard the `/:id` routes: numeric id, existence, token and permission checks. Their files are not part of this model. Ids are modelled as natural numbers.
- The store: a map stands for Sequelize. `Op.like` is a plain, case-sensitive substring test, so `%` and `_` inside `nombre` are not treated as wildcards. A `findAll` result is a map from id to row, so its order is not modelled.
- Store exceptions: only `findUsers` catches them, and there they are a `storageFails` parameter that leads to code 500. The `console.error` logging is left out. The other operations let exceptions propagate, which is not modelled.
- bcrypt: the hash is an injected, deterministic function. Salting is not modelled, so rehashing the same password gives the same value here. Checking a password against a hash is not part of this code.
- `new Date(string)`: an injected function from string to integer. Invalid dates are not modelled.
- The clock: `createdAt` is the `now` argument. All entries of one bulk create share the same `now`.
- Store-generated ids: an auto-increment counter, so a new id is always above every id in use. Actual id values are not modelled beyond that.
- Async execution and the check-then-insert race on email uniqueness between concurrent creates. That is a concurrency matter. Email uniqueness is therefore an invariant of sequential use only.
- Request values that are not strings. In JavaScript, `/^[a-zA-Z]+$/.test(undefined)` tests the string `"undefined"`, and query parameters may arrive as arrays. Every request field here is a string or absent.
