# Owner-scoped boards and todos: a Dafny model

This project models the core of the TODO-APP backend: the Express handlers
under `/boards` and `/todos`, which keep Board and Todo documents in MongoDB
and filter every read and write by the principal that the auth middleware
resolved from the bearer token, and the middleware itself.

- `common.dfy` (module `Common`): ids, status codes, the `Reply` a handler sends.
- `board_schema.dfy` (module `BoardSchema`): the Board document, its required
  paths (`userId`, `title`) and defaults (`color` `#3B82F6`, `createdAt` the
  clock), and the partial update a `PUT` body applies.
- `todo_schema.dfy` (module `TodoSchema`): the Todo document, priorities
  (low, medium, high) and statuses (pending, in-progress, completed) as the
  client offers them, creation and patching.
- `queries.dfy` (module `Queries`): what the Mongoose queries mean over a
  collection held in insertion order: `find`, `findOne`, delete of one
  document, `sort({ createdAt: -1 })`, `deleteMany`; and the order lemmas.
- `auth_middleware.dfy` (module `AuthMiddleware`): `split(' ')` written out
  character by character, the token it yields, the middleware's verdict, and
  the middleware as a method on a request/response object (`Exchange`) that
  sets `userId` and counts calls of `next`.
- `store.dfy` (module `Store`): class `Store` holds both collections
  (`boards`, `todos`), the clock standing in for `Date.now` and the ObjectId
  counter; every route handler of `boards.js` and `todos.js` is a method on
  it. `Valid()` says ids and creation times ascend in insertion order.
- `scenarios.dfy` (module `Scenarios`): request sequences on a fresh store.

The handlers are modelled as written, including what they let through:
an unfiltered todo listing, no board check on todo creation, and an
unfiltered update body:

- `GET /todos/:boardId` filters only by `boardId` (`ListTodos`,
  `ForeignTodoListing`).
- `POST /todos` accepts any `boardId`, so a todo may reference a board that
  does not exist or belongs to someone else (`OrphanTodo`, `ForeignTodo`);
  `NoOrphans()` is therefore not an invariant. `DeleteBoard` preserves it.
- `PUT` applies the body unfiltered: a patch may set `userId` (and on todos
  `boardId`), handing the record to another user (`OwnerRewrite`), and
  update validators do not run, so a patched title may be empty.
- A retried board delete answers 404 and does not run the cascade again;
  running the cascade again would remove nothing (`RetriedBoardDelete`,
  `CascadeIdempotent`).

Because the store keeps documents in insertion order with strictly
ascending `createdAt`, the newest-first sort is the reversed filter; the
listings are specified independently (exactly the matching documents,
strictly descending `createdAt`), and `DescendingUnique` shows that this
specification admits one answer only.

## Model

| member | source | states |
|---|---|---|
| `Queries.Where` | backend/routes/boards.js:8 | `find(filter)` returns exactly the documents of the collection that match the filter, never more than there are |
| `Queries.FirstWhere` | backend/routes/boards.js:29 | `findOne(filter)` finds the first matching position, and finds none exactly when no document matches |
| `Queries.RemoveAt` | backend/routes/boards.js:53 | `findOneAndDelete` on a found position: the documents before it keep their places, those after it move up one, and the collection is one shorter |
| `Queries.Reverse` | backend/routes/boards.js:8 | `sort({ createdAt: -1 })` over a collection held in creation order: the same length, element `i` is element `n-1-i` of the collection |
| `Queries.WhereAscending` | backend/routes/todos.js:8 | filtering keeps the documents in creation order |
| `Queries.ReverseDescending` | backend/routes/boards.js:8 | read backwards, a collection in creation order is in `createdAt` descending order |
| `Queries.WhereIdempotent` | backend/routes/boards.js:56 | running the same `deleteMany` filter twice removes nothing the second time |
| `Queries.RemoveAtElements` | backend/routes/boards.js:53 | deleting the one document with an id leaves exactly the documents with other ids |
| `Queries.DescendingUnique` | backend/routes/boards.js:8 | a listing specified as "these documents, `createdAt` strictly descending" has exactly one value |
| `BoardSchema.NewBoard` | backend/models/Board.js:3-9 | a board is built iff `userId` is present and `title` present and non-empty; `description` may be absent; `color` defaults to `#3B82F6`; `createdAt` is the clock |
| `BoardSchema.PatchBoard` | backend/routes/boards.js:39-42 | an update sets every path the body names, `userId` included, and never changes `_id` or `createdAt` |
| `BoardSchema.PatchBoardIdempotent` | backend/routes/boards.js:39-42 | applying the same update body twice gives the same board as once |
| `TodoSchema.NewTodo` | backend/routes/todos.js:19 | a new todo takes boardId, owner, title, description, priority and due date from its inputs; priority defaults to medium; status is always pending (the body's status is not read) |
| `TodoSchema.PatchTodo` | backend/routes/todos.js:29-32 | an update sets every path the body names, `userId` and `boardId` included, and never changes `_id` or `createdAt` |
| `AuthMiddleware.Split` | backend/middleware/authMiddleware.js:4 | `split(' ')` yields at least one field and no field contains a space |
| `AuthMiddleware.JoinSplit` | backend/middleware/authMiddleware.js:4 | the fields joined back with single spaces give the header again |
| `AuthMiddleware.SplitJoin` | backend/middleware/authMiddleware.js:4 | splitting the space-join of space-free fields gives those fields back |
| `AuthMiddleware.TokenOf` | backend/middleware/authMiddleware.js:4-5 | no header gives no token; a token is never empty and never contains a space |
| `AuthMiddleware.TokenOfExactly` | backend/middleware/authMiddleware.js:4 | a token `t` is extracted iff `t` is non-empty and the header is a space-free first word, one space, `t`, then the end or a space; the first word is not checked |
| `AuthMiddleware.TokenAfterWord` | backend/middleware/authMiddleware.js:4 | any header of that layout yields exactly that token |
| `AuthMiddleware.TokenExamplesFound` | backend/middleware/authMiddleware.js:4 | "Bearer abc" and "Token abc" yield "abc"; "Bearer abc def" yields "abc" |
| `AuthMiddleware.TokenExamplesRefused` | backend/middleware/authMiddleware.js:4-5 | "Bearer", "Bearer " and "Bearer  abc" (two spaces) yield no token |
| `AuthMiddleware.Authenticate` | backend/middleware/authMiddleware.js:3-11 | "No token provided" iff no token; "Invalid token" iff a token the verifier rejects; a token the verifier accepts passes with exactly the verified id, and a pass only ever carries the verified id |
| `AuthMiddleware.RejectionsAreIndistinguishable` | backend/middleware/authMiddleware.js:9-10 | every verifier failure gives the one same 401 "Invalid token" |
| `AuthMiddleware.Guard` | backend/middleware/authMiddleware.js:3-11 | on pass, `req.userId` is the verified id, `next` is called exactly once and no response is sent; on deny, a 401 with the error is sent, `next` is not called and `req.userId` is untouched |
| `AuthMiddleware.GuardIgnoresScheme` | backend/middleware/authMiddleware.js:4-8 | "Token abc" is accepted like "Bearer abc": `next` runs once with the verified id |
| `Store.WithoutBoard` | backend/routes/boards.js:56 | `Todo.deleteMany({ boardId })` leaves exactly the todos of other boards: no todo of the board remains, whoever owns it, and every todo of another board does |
| `Store.CascadeKeepsOrder` | backend/routes/boards.js:56 | the todos the cascade keeps stay in creation order |
| `Store.CascadeIdempotent` | backend/routes/boards.js:56 | running the cascade again on the same board changes nothing |
| `Store.Store.ListBoards` | backend/routes/boards.js:8 | 200 with exactly the caller's boards, `createdAt` strictly descending |
| `Store.Store.CreateBoard` | backend/routes/boards.js:17-21 | missing or empty title: 400 "Title required" and the store unchanged; otherwise 201 with one appended board owned by the caller (not any body `userId`), built by the schema with the next id and clock, todos untouched |
| `Store.Store.GetBoard` | backend/routes/boards.js:29-31 | 404 "Not found" iff no board matches both id and caller, so absent and foreign ids give the same answer; otherwise 200 with the caller's board of that id |
| `Store.Store.UpdateBoard` | backend/routes/boards.js:39-45 | only a board matching id and caller is patched, every other board is unchanged, todos untouched; 404 with nothing changed when none matches; otherwise 200 with the post-update board |
| `Store.Store.DeleteTodosOfBoard` | backend/routes/boards.js:56 | the todos become those of every other board, in order; the count is the number removed; boards untouched |
| `Store.Store.DeleteBoard` | backend/routes/boards.js:53-57 | 404 and nothing removed when no board matches id and caller; otherwise 200 "Deleted", that board gone, every other board kept, and the todos are exactly the cascade's result; a store without orphan todos stays so |
| `Store.Store.ListTodos` | backend/routes/todos.js:8 | 200 with exactly the todos whose `boardId` is the parameter, `createdAt` strictly descending, whatever the caller |
| `Store.Store.CreateTodo` | backend/routes/todos.js:17-21 | missing boardId, or missing or empty title: 400 "Missing fields" and the store unchanged; otherwise 201 with one appended todo owned by the caller on the given board, whether or not it exists or is the caller's |
| `Store.Store.UpdateTodo` | backend/routes/todos.js:29-35 | only a todo matching id and caller is patched, no other user's todo changes; 404 with nothing changed when none matches; otherwise 200 with the post-update todo |
| `Store.Store.DeleteTodo` | backend/routes/todos.js:43-45 | 404 and nothing removed when no todo matches id and caller; otherwise 200 "Deleted" and exactly that todo is gone; another user's todo is never removed |
| `Scenarios.RetriedBoardDelete` | backend/routes/boards.js:53-56 | after a successful delete, repeating it answers 404 and re-running the cascade removes nothing; no todo of that board remains |
| `Scenarios.CrossUser` | backend/routes/boards.js:29-44 | Bob's GET and PUT of Alice's board answer 404, Bob's listing is empty, Alice's board is unchanged |
| `Scenarios.EndToEnd` | backend/routes/boards.js:53-57 | create a board and a low-priority todo, complete it, delete the board: the todo listing for it is empty and the board answers 404 |
| `Scenarios.ForeignTodoListing` | backend/routes/todos.js:8 | Bob's listing of Alice's board shows Alice's todo |
| `Scenarios.OrphanTodo` | backend/routes/todos.js:18-20 | a todo on a board that does not exist is created with 201 and leaves an orphan |
| `Scenarios.ForeignTodo` | backend/routes/todos.js:18-20 | Bob's todo on Alice's board is created with 201, and Alice's board delete removes it |
| `Scenarios.OwnerRewrite` | backend/routes/boards.js:39-44 | a PUT body with `userId` hands the board to Bob: Alice then gets 404, Bob gets the board |

## Left out

- Token cryptography and expiry: `verify` is a parameter that yields the payload's `id` or fails. A verified payload without an `id` (which would set `req.userId` to undefined and still call `next`) is not modelled.
- Every 500 path: store failures, and ObjectId cast errors for malformed ids in the path or body (a body `boardId` is `None` when missing or falsy and otherwise a valid id). The text of 500 messages.
- `backend/server.js` (Express wiring, CORS, connection, port, the error handler), `routes/auth.js` (register, login) and the frontend. The handlers take the `req.userId` that the middleware attached as a parameter; the wiring of middleware before handler is not modelled.
- The Todo schema file is not part of this model: priority and status are enumerations taken from the client's options, their defaults (medium, pending) are the values the client starts its form with (frontend/src/pages/BoardPage.js:12-13), `createdAt` is assumed to default to the creation clock as a board's does, and its required flags are not modelled.
- `Date.now` has millisecond resolution, so two creates may share a `createdAt`; the model's clock advances on every create, so ties, and the unspecified order among tied documents, are not modelled.
- BoardSchema.PatchBoard: an update body that sets `_id` (rejected by the database) or `createdAt`, or that sets a path to `null`, is not modelled; patches set the schema paths listed in `BoardPatch`.
- TodoSchema.PatchTodo: the same restriction as for boards, for the paths listed in `TodoPatch`.
- Body values of the wrong type (a numeric title cast to a string) are not modelled: body fields are typed.
- Concurrency between requests: handlers run one at a time, and a board delete runs its cascade before the next request.
