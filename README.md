# Task list API — a verified model

This project models the task API of a small to-do manager. The API is an
Express server with six routes under `/tarefas`, backed by one relational
table `tarefa` of tasks: an integer `id`, a `titulo` and a `concluida` flag.
The model has these parts:

- the two Zod request schemas and the status literal of the filter route, as
  pure functions (`schemas.dfy`, module `Schemas`);
- the table as a value, with the functions that say what each storage call
  does to it and lemmas about them (`tasks.dfy`, module `Tasks`);
- the storage collaborator `prisma.tarefa`, as the class `TaskStore`. It holds
  a mutable map from id to row, and its methods update that map in place
  (`store.dfy`, module `Store`);
- one handler method per route, and the functions that map a caught failure
  to a status code (`server.dfy`, module `Server`). It also holds a few
  client methods that call the handlers: three chain two calls (create then
  list, delete twice, complete-all twice), and two make one call with a fixed
  body (mark one task done, and an invalid patch on a missing id).

Each handler is one atomic step. It validates first, then calls storage at
most once, and answers with exactly one `Response`: a status and a payload.
The payload is a task, a list of tasks, a count, a validation-issue list, a
fixed message, or no content.

Modelling decisions:

- Request bodies are reduced to what the schemas look at. A body is an object
  with the two keys `titulo` and `concluida`, each absent, a string, a
  boolean, or some other JSON value; or the body is not an object. Other
  keys are stripped by `z.object`, so they are not kept. A Zod issue is kept
  as its path (the body, `titulo` or `concluida`) and its code (invalid type,
  too small, or the custom refinement). Message texts are not kept.
- Ids are integers. The storage layer assigns new ids from an
  auto-incremented counter `nextId`, starting at 1. So a new id is positive,
  not in the table, and larger than every id issued before. This counter is
  an assumption about the database schema, which is not part of this model.
- An unreachable database is the `outage` parameter of every storage call.
  When it is set, the call fails with code `P1001` and changes nothing. An
  update or delete of a missing id fails with the not-found code `P2025`.
- Both table scans (`findMany` and `updateMany`) visit ids in ascending
  order. The `findMany` contract still promises no order: only that every
  matching task is listed exactly once.
- A stricter reading, that a validated title is never blank, is not what
  the code checks. The schemas check only `length >= 1`
  (`backend/src/server.ts:9`, `:13`). The model follows the code: a title of
  blanks is accepted (`Schemas.BlankTituloAccepted`). Only the browser client
  trims titles.

## Model

| member | source | states |
|---|---|---|
| Schemas.TituloIssues | backend/src/server.ts:9 | `z.string().min(1)` on `titulo`: no issue exactly for a string of length at least 1; an empty string gives one too-small issue; a missing or non-string value gives one invalid-type issue. |
| Schemas.OptionalTituloIssues | backend/src/server.ts:13 | `.optional()` on the same check: absence is also accepted; otherwise the same single issue as above. |
| Schemas.OptionalConcluidaIssues | backend/src/server.ts:14 | `z.boolean().optional()`: no issue exactly when `concluida` is absent or a boolean; otherwise one invalid-type issue. |
| Schemas.ParseCreateTask | backend/src/server.ts:8-10 | Accepts exactly an object whose `titulo` is a string of length at least 1, and yields that string. Otherwise the issue list is non-empty, and for an object every issue points at `titulo`. |
| Schemas.ParseUpdateTask | backend/src/server.ts:12-17 | Accepts exactly an object whose `titulo` is absent or a non-empty string, whose `concluida` is absent or a boolean, and where at least one is present. The patch carries exactly the supplied values. A rejection has at least one issue. With both keys absent, the one issue is the refinement's. |
| Schemas.ParseStatusFilter | backend/src/server.ts:108-111 | "concluida" maps to true and "pendente" to false (each in both directions). Every other literal is rejected. |
| Schemas.BlankTituloAccepted | backend/src/server.ts:9-13 | Validation looks at length only: a title of one blank passes both schemas. |
| Schemas.CreateBodyIsRenamePatch | backend/src/server.ts:8-17 | A body the create schema accepts, with no `concluida`, passes the update schema as a patch that sets only the title. |
| Tasks.Select | backend/src/server.ts:114 | The rows a `findMany` with a status filter returns: exactly the rows whose `concluida` matches, unchanged. No filter selects every row. |
| Tasks.ApplyPatch | backend/src/server.ts:66-69 | An update writes each supplied field and leaves each unsupplied field as it was. |
| Tasks.IdsWithStatus | backend/src/server.ts:127 | Exactly the ids whose `concluida` equals the given value. |
| Tasks.SetStatusWhere | backend/src/server.ts:126-129 | The bulk update keeps every id and title. Matching rows get the new status; all other rows are unchanged. |
| Tasks.ListingLength | backend/src/server.ts:31 | A response listing the table has one element per stored task: its length is the table's size. |
| Tasks.ListingExtend | backend/src/server.ts:31 | Appending a task not yet listed extends a listing of the table by that task. |
| Tasks.ListingHoldsOnce | backend/src/server.ts:31-32 | Every stored task appears in a listing exactly once, with its stored fields. |
| Tasks.StatusPartition | backend/src/server.ts:126-133 | The pending and the done tasks together are the whole table, so their counts add up to its size. |
| Tasks.CompleteAllFinishes | backend/src/server.ts:126-129 | After completing all pending tasks, every task is done, none is pending, and ids and titles are unchanged. |
| Tasks.CompleteAllIdempotent | backend/src/server.ts:126-129 | Completing all pending tasks twice gives the same table as doing it once. |
| Tasks.CompleteAllCount | backend/src/server.ts:126-134 | With N pending and M done tasks, N (the old pending ids, which `UpdateMany` and `CompleteAll` report) equals the table size minus M, and equals the number of rows the bulk update changes. Afterwards all N + M tasks are done. |
| Tasks.StatusFiltersPartition | backend/src/server.ts:108-114 | The two status filters select exactly the done and the pending ids. They are disjoint and together cover the table. |
| Tasks.PatchIdempotent | backend/src/server.ts:66-69 | Applying the same patch twice equals applying it once. |
| Tasks.PatchKeepsTitled | backend/src/server.ts:13 | A patch whose title passed validation keeps every stored title non-empty. |
| Store.TaskStore.constructor | backend/src/server.ts:26 | A client over whatever the table holds: given rows with positive ids below the next id to issue, the store holds exactly those rows and that counter. |
| Store.TaskStore.FindMany | backend/src/server.ts:31 | Lists every row matching the filter exactly once, or fails with the unreachable code when the database is down. |
| Store.TaskStore.Create | backend/src/server.ts:44 | Adds exactly one row under a fresh positive id, with the given title and `concluida` false. The result is the new record and every other row is unchanged. |
| Store.TaskStore.Update | backend/src/server.ts:66-69 | On an existing id, writes the patch to that row only and returns the updated record. On a missing id, fails with `P2025` and changes nothing. |
| Store.TaskStore.Delete | backend/src/server.ts:92 | On an existing id, removes exactly that row. On a missing id, fails with `P2025` and changes nothing. |
| Store.TaskStore.UpdateMany | backend/src/server.ts:126-129 | Rewrites the table to `SetStatusWhere` of the old table. The count it returns is the number of rows that matched before. |
| Server.CreateCatch | backend/src/server.ts:47-56 | A validation failure is 400 with its issues; any storage failure is 500 with the route's fixed message. |
| Server.UpdateCatch | backend/src/server.ts:72-84 | Validation failure gives 400 with its issues, code `P2025` gives 404, and every other code gives 500. Each holds in both directions. |
| Server.DeleteCatch | backend/src/server.ts:95-101 | Code `P2025` gives 404 (in both directions); everything else gives 500 with the route's message. |
| Server.InternalErrorsAreOpaque | backend/src/server.ts:47-100 | Two different non-not-found storage errors give the same response on every route, so nothing of the error leaks. |
| Server.ListTasks | backend/src/server.ts:29-37 | Status 200 listing every stored task exactly once, or 500 when storage is unreachable. |
| Server.CreateTask | backend/src/server.ts:40-57 | An invalid body gives 400 with its issues and leaves the table unchanged. A valid body adds exactly one pending task under a fresh positive id and returns it with 201. Other tasks are unchanged. |
| Server.UpdateTask | backend/src/server.ts:60-85 | An invalid body gives 400 before storage is consulted, whether or not the id exists. A missing id gives 404 with the table unchanged. Otherwise only the supplied fields of that one task change, and 200 returns the new record. |
| Server.DeleteTask | backend/src/server.ts:88-102 | An existing id is removed and the answer is 204 with no body. A missing id gives 404 with the table unchanged. |
| Server.FilterTasks | backend/src/server.ts:105-121 | A bad literal gives 400 without touching storage. Otherwise 200 lists exactly the tasks with the selected status. |
| Server.CompleteAll | backend/src/server.ts:124-140 | Marks every pending task done, keeps every id and title, and reports the number of tasks that were pending (200). On storage failure, 500 with the table unchanged. |
| Server.CreateThenList | backend/src/server.ts:44-45 | A task created with a valid title appears exactly once in the next listing, as it was returned. |
| Server.DeleteTwice | backend/src/server.ts:92-98 | Deleting an existing id twice gives 204 and then 404. |
| Server.CompleteAllTwice | backend/src/server.ts:126-134 | The second of two immediate bulk completions reports 0, and afterwards every task is done. |
| Server.MarkDone | backend/src/server.ts:64-70 | `{concluida: true}` marks the task done and keeps its title. |
| Server.InvalidPatchBeforeLookup | backend/src/server.ts:64-78 | A body with neither field gives 400 with a non-empty issue list even for an id not in the table, and changes nothing. |

## Left out

- Express routing, `app.listen`, CORS and JSON body parsing (`backend/src/server.ts:20-24`, `:143`) are transport. A handler receives the already parsed body and path parameters.
- `dotenv` and the connection settings of the Prisma client are environment and configuration. The database engine is replaced by the in-memory `TaskStore`, whose constructor stands for a client opened on the table's current contents; the Prisma adapter configuration in `frontend/backend/prisma/prisma.config.ts` is not part of this model.
- The exact shape and wording of Zod issues and of the error messages: issues are an abstract list of path and code. The fixed route messages are kept as constants.
- Server.CompleteAll: the response's `message` text renders the count into a sentence; only the `count` field is modelled.
- The order of Zod issues when both keys are invalid follows the key order of the schema. The model reproduces it, but no contract states it.
- `console.error` logging has no effect on responses.
- `async`/`await` and concurrent requests: each handler is one atomic sequential step, with no interleaving between requests.
- `Number(id)` on a non-numeric or fractional path id, or one out of the `id` column's range (`backend/src/server.ts:67`, `:92`), is out of scope. The storage layer then raises an error other than not-found (a 500), while the model answers 404 for every absent integer. Ids are modelled as integers.
- Storage failures other than not-found are reduced to one kind, an unreachable database (code `P1001`). Constraint violations and other codes are mapped the same way by the handlers.
- `frontend/frontend/index.js` and `frontend/index.ts` are DOM rendering and HTTP calls. Their only logic is the client-side trim and non-empty check.
