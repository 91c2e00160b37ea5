# Task board synchronisation, modelled in Dafny

This project models how the TaskFlow task board keeps its clients in step with the server.

On the server, the Express task handlers do the following:
- validate a create body against the zod schema;
- store, update or delete task records (the Mongoose `Task` schema, with its enumerations, defaults, required paths and timestamps);
- answer a filtered read sorted newest first;
- push a `task:created`, `task:updated` or `task:deleted` event on the socket channel.

On the client, the `useTaskSocket` hook does the following:
- loads a snapshot of the whole collection;
- folds each event into its local list, by prepend, replace-by-id and remove-by-id.

The board page splits that list into four status columns. The `protect` middleware decides from the `Authorization` header whether a request reaches the handlers.

Files:

- `wrappers.dfy`: `Option` and `Result`.
- `task_model.dfy`: the task record. It covers the status and priority enumerations and their stored spellings, the schema's required paths and defaults, and the timestamps the store adds.
- `task_socket.dfy`: the change events and the three list transforms, with their lemmas. The class `Reconciler` holds the hook's `tasks` and `loading` state.
- `task_controller.dfy`: the create-body schema and the read with its filter and sort. The class `TaskServer` holds the collection as a map from identifier to record, a next identifier, a logical clock and the append-only log of pushed events. Its handlers are methods. A ghost history of full reads carries the main theorem as a class invariant. The theorem: a client that loaded the full read at any point and then applied every later event in order holds the current full read (`ClientCatchesUp`, and `CatchesUpSince` in terms of a read taken before a run of handler calls). Records are compared as the model represents them: identifiers as numbers and user references unpopulated (see "## Left out").
- `dashboard.dfy`: the column partition, the count badges and the empty-column placeholder.
- `auth_middleware.dfy`: `protect` as a decision over the header. `jwt.verify` and `User.findById` are passed in as functions that either return or throw.

The code's actual behaviour is modelled even where one might expect otherwise:
- `task:created` is applied by a blind prepend, so delivering it twice duplicates the task.
- `deleteTask` never checks that the record exists. It always pushes `task:deleted` and answers 200.
- `updateTask` applies the raw body, including `creatorId`, with no schema check.
- The zod schema makes `priority` mandatory on create, although the store's schema has a default for it.
- A newly created task is always "To Do", because zod drops a `status` key.

## Model

| member | source | states |
|---|---|---|
| TaskModel.ParseStatus | Backend/src/models/Task.ts:23-27 | a status name is accepted exactly when it is one of "To Do", "In Progress", "Review", "Completed", and it maps to the status of that spelling |
| TaskModel.ParsePriority | Backend/src/models/Task.ts:18-22 | a priority name is accepted exactly when it is one of "Low", "Medium", "High", "Urgent", and it maps to the priority of that spelling |
| TaskModel.StatusNameRoundTrip | Backend/src/models/Task.ts:25 | reading back a stored status spelling gives the status that was stored |
| TaskModel.PriorityNameRoundTrip | Backend/src/models/Task.ts:20 | reading back a stored priority spelling gives the priority that was stored |
| TaskModel.SchemaErrors | Backend/src/models/Task.ts:15-28 | a draft has no violations exactly when title and description are present and non-empty, dueDate and creatorId are present, and priority and status are absent or one of their names |
| TaskModel.BuildRecord | Backend/src/models/Task.ts:13-32 | a draft is rejected exactly when it has violations, and then with all of them; otherwise the record carries the draft's fields, priority defaults to Medium, status to To Do, assignedToId may be absent, and createdAt = updatedAt = the store's clock |
| TaskSocket.Prepend | frontend/src/hooks/useTaskSocket.ts:34-36 | the new task is at index 0, the prior list follows unchanged, and the length grows by exactly one |
| TaskSocket.ReplaceById | frontend/src/hooks/useTaskSocket.ts:38-40 | the length is kept; at each index the element becomes the updated task if its id matches and is unchanged otherwise |
| TaskSocket.RemoveById | frontend/src/hooks/useTaskSocket.ts:42-44 | the result is never longer than the list |
| TaskSocket.RemoveByIdMembers | frontend/src/hooks/useTaskSocket.ts:43 | after a deletion the list holds exactly the prior elements whose id differs; no element has the deleted id |
| TaskSocket.CreatedIsNotDeduplicated | frontend/src/hooks/useTaskSocket.ts:35 | delivering the same `task:created` twice gives `[t, t] + list`, two more elements with that id |
| TaskSocket.CreatedTwiceBreaksUniqueIds | frontend/src/hooks/useTaskSocket.ts:35 | so after a duplicated `task:created` the ids of the list are no longer unique |
| TaskSocket.ReplaceByIdSplits | frontend/src/hooks/useTaskSocket.ts:39 | replacing by id acts on each part of a concatenation separately |
| TaskSocket.UpdatedAbsentIsNoOp | frontend/src/hooks/useTaskSocket.ts:39 | `task:updated` for an id not in the list leaves the list unchanged |
| TaskSocket.UpdatedIsIdempotent | frontend/src/hooks/useTaskSocket.ts:39 | applying the same `task:updated` twice equals applying it once |
| TaskSocket.RemoveByIdSplits | frontend/src/hooks/useTaskSocket.ts:43 | removing by id acts on each part of a concatenation separately |
| TaskSocket.RemoveByIdCons | frontend/src/hooks/useTaskSocket.ts:43 | the head of a list is dropped exactly when it carries the deleted id |
| TaskSocket.RemoveByIdKeepsOrder | frontend/src/hooks/useTaskSocket.ts:43 | each survivor sits in the result at the index given by the survivors before it |
| TaskSocket.RemoveByIdPrefixGrows | frontend/src/hooks/useTaskSocket.ts:43 | a later survivor lands strictly after an earlier one, so survivors keep their relative order |
| TaskSocket.DeletedIsIdempotent | frontend/src/hooks/useTaskSocket.ts:43 | applying the same `task:deleted` twice equals applying it once |
| TaskSocket.DeletedAbsentIsNoOp | frontend/src/hooks/useTaskSocket.ts:43 | deleting an id that is not in the list leaves the list unchanged |
| TaskSocket.UpdatedThenDeleted | frontend/src/hooks/useTaskSocket.ts:38-44 | `task:updated` followed by `task:deleted` for the same id gives the same list as the deletion alone |
| TaskSocket.ReplayLog | frontend/src/hooks/useTaskSocket.ts:47-49 | when each snapshot is the previous one with its event applied, replaying the events from any snapshot reaches the last one |
| TaskSocket.Reconciler.constructor | frontend/src/hooks/useTaskSocket.ts:10-11 | the hook starts with an empty list and `loading` true |
| TaskSocket.Reconciler.LoadSnapshot | frontend/src/hooks/useTaskSocket.ts:20-29 | a fetched list replaces the local one wholesale, a failed fetch leaves it as it was, and `loading` is false in both cases |
| TaskSocket.Reconciler.OnCreated | frontend/src/hooks/useTaskSocket.ts:34-36 | the list becomes the prepend of the new task onto the old list |
| TaskSocket.Reconciler.OnUpdated | frontend/src/hooks/useTaskSocket.ts:38-40 | the list becomes the old list with the task replaced by id, at the same length |
| TaskSocket.Reconciler.OnDeleted | frontend/src/hooks/useTaskSocket.ts:42-44 | the list becomes the old list without the id, and no element has that id |
| TaskSocket.Reconciler.OnEvent | frontend/src/hooks/useTaskSocket.ts:47-49 | each event runs the listener registered for its name |
| TaskController.ParseTaskBody | Backend/src/controllers/taskController.ts:5-11 | a body parses exactly when title is a string of at least 3 characters, description and dueDate are strings, priority is one of the four names and assignedToId is absent or a string; a failure lists the rejected paths; on success the typed fields are the body's |
| TaskController.UnknownKeyIgnored | Backend/src/controllers/taskController.ts:33 | a key the schema does not name, such as `status`, has no effect on the parse |
| TaskController.NewRecord | Backend/src/controllers/taskController.ts:31-54 | a schema failure is a 400 carrying the issues; a missing user or a record the store refuses is a 500; otherwise the record has the parsed fields, status To Do, the requesting user as creator, the next id and the current clock |
| TaskController.MatchesAllTasks | Backend/src/controllers/taskController.ts:16-18 | the read with no query parameters, as the client's snapshot load makes it, matches every record |
| TaskController.MatchesParams | Backend/src/controllers/taskController.ts:16-18 | each parameter constrains the read on its own: an absent or empty one not at all, a given one to the records whose status or priority has exactly that name |
| TaskController.FindMembers | Backend/src/controllers/taskController.ts:16-20 | the read returns exactly the stored records that match the given parameters |
| TaskController.FindIdsDescending | Backend/src/controllers/taskController.ts:20-23 | identifiers strictly decrease along the read, all below the next identifier to assign, so no record appears twice |
| TaskController.FindNewestFirst | Backend/src/controllers/taskController.ts:23 | on a store that keeps its invariant, the read is sorted by createdAt descending |
| TaskController.NewestFirstIsUnique | Backend/src/controllers/taskController.ts:23 | two newest-first lists with the same members are equal, so the read is the one createdAt-descending listing of the matching records |
| TaskController.FindFrame | Backend/src/controllers/taskController.ts:20 | the read depends only on the stored records it scans |
| TaskController.ApplyPatch | Backend/src/controllers/taskController.ts:60-62 | each field present in the body overwrites the record and each absent field is kept; id and createdAt are kept, updatedAt becomes the clock |
| TaskController.LastWriterWins | Backend/src/controllers/taskController.ts:62 | a run of updates leaves each field with the value of the last body that carried it, as one merged update would |
| TaskController.CreatedKeepsClientInStep | Backend/src/controllers/taskController.ts:36-44 | storing a record under the next id changes the full read exactly as `task:created` changes a client's list |
| TaskController.UpdatedKeepsClientInStep | Backend/src/controllers/taskController.ts:62-73 | rewriting a stored record changes the full read exactly as `task:updated` changes a client's list |
| TaskController.DeletedKeepsClientInStep | Backend/src/controllers/taskController.ts:84-88 | dropping an id, stored or not, changes the full read exactly as `task:deleted` changes a client's list |
| TaskController.ServerOkAfterCreate | Backend/src/controllers/taskController.ts:36-44 | a create and its event keep the store's invariant and the event history in step |
| TaskController.ServerOkAfterUpdate | Backend/src/controllers/taskController.ts:62-73 | an update and its event keep the store's invariant and the event history in step |
| TaskController.ServerOkAfterDelete | Backend/src/controllers/taskController.ts:84-88 | a delete and its event keep the store's invariant and the event history in step |
| TaskController.TaskServer.GetTasks | Backend/src/controllers/taskController.ts:14-29 | a 200 listing exactly the stored records that match the query, newest first |
| TaskController.TaskServer.CreateTask | Backend/src/controllers/taskController.ts:31-54 | on success the record is stored under a fresh id, exactly one `task:created` carrying it is pushed, and the reply is a 201 with the same record; a rejected request answers its error, stores nothing and pushes nothing |
| TaskController.TaskServer.Insert | Backend/src/controllers/taskController.ts:36-44 | the record is stored under an id not used before and exactly one `task:created` is appended to the log |
| TaskController.TaskServer.UpdateTask | Backend/src/controllers/taskController.ts:57-79 | an unknown id is a 404 "Task not found" that changes and pushes nothing; a known id gets the patched record, no other record changes, and one `task:updated` with the whole new record is pushed and returned with 200 |
| TaskController.TaskServer.DeleteTask | Backend/src/controllers/taskController.ts:81-94 | the record is dropped if stored, and in every case one `task:deleted` with the id is pushed and the reply is 200 "Task deleted" |
| TaskController.TaskServer.ClientCatchesUp | frontend/src/hooks/useTaskSocket.ts:20-49 | the full read as it stood after the first k events, with every later event applied in order, is the current full read |
| TaskController.TaskServer.CatchesUpSince | frontend/src/hooks/useTaskSocket.ts:20-49 | across any run of handler calls, the full read taken before the run with the events pushed during the run applied is the full read after it |
| TaskController.DeleteThenUpdateCatchesUp | frontend/src/hooks/useTaskSocket.ts:20-49 | a client that loaded the full read, then applied the events of a delete and an update (found or not), holds the new full read |
| Dashboard.TasksByStatus | frontend/src/pages/Dashboard.tsx:12-13 | a column holds exactly the tasks whose status is the column's |
| Dashboard.TasksByStatusSplits | frontend/src/pages/Dashboard.tsx:13 | the status filter acts on each part of a concatenation separately |
| Dashboard.TasksByStatusKeepsOrder | frontend/src/pages/Dashboard.tsx:13 | each task sits in its column at the index given by the column's tasks before it, so the column keeps the list's order |
| Dashboard.EmptyHint | frontend/src/pages/Dashboard.tsx:122-124 | the hint is "Create a task to get started" for To Do and "Move tasks to '<status>'" for the other columns |
| Dashboard.ColumnFor | frontend/src/pages/Dashboard.tsx:94-131 | a column has its status as heading, the filtered tasks as cards, their number as count, and the placeholder exactly when the count is 0 |
| Dashboard.Board | frontend/src/pages/Dashboard.tsx:15-136 | while loading there are no columns; otherwise there are four, To Do, In Progress, Review and Completed, in that order |
| Dashboard.ColumnsPartitionTasks | frontend/src/pages/Dashboard.tsx:93-94 | the four columns together are exactly as long as the list |
| Dashboard.BoardCountsSum | frontend/src/pages/Dashboard.tsx:93-105 | the count badges of a loaded board add up to the length of the list |
| Dashboard.EachTaskInOneColumn | frontend/src/pages/Dashboard.tsx:93-94 | every task is a card in exactly one column, the one of its status |
| Dashboard.ColumnIndex | frontend/src/pages/Dashboard.tsx:93 | every status has a column on the board |
| AuthMiddleware.Split | Backend/src/middleware/authMiddleware.ts:24 | splitting always yields at least one piece |
| AuthMiddleware.SplitJoin | Backend/src/middleware/authMiddleware.ts:24 | joining the pieces with the separator gives the header back |
| AuthMiddleware.SplitPiecesHaveNoSeparator | Backend/src/middleware/authMiddleware.ts:24 | no piece contains a space |
| AuthMiddleware.SplitAtFirstSeparator | Backend/src/middleware/authMiddleware.ts:24 | the first piece is the text before the first space, and the rest splits on from there |
| AuthMiddleware.SplitWithoutSeparator | Backend/src/middleware/authMiddleware.ts:24 | a header without a space is a single piece |
| AuthMiddleware.SecondFieldIsBetweenSpaces | Backend/src/middleware/authMiddleware.ts:24 | the token is absent exactly when the header has no space, and otherwise is the text after the first space up to the next space or the end |
| AuthMiddleware.SecondFieldOf | Backend/src/middleware/authMiddleware.ts:24 | for a header `p + " " + t + rest`, with no space in p or t and rest empty or starting with a space, the token is t |
| AuthMiddleware.Protect | Backend/src/middleware/authMiddleware.ts:18-46 | an absent header, or one not starting with "Bearer", is 401 "no token"; an absent or empty second field is 401 "no token found"; a verification or lookup that throws is 401 "token failed"; otherwise `next` runs with the looked-up user, found or not; each of the four outcomes is stated as an if-and-only-if |
| AuthMiddleware.BearerWithoutSpaceHasNoToken | Backend/src/middleware/authMiddleware.ts:27-30 | a header starting with "Bearer" and holding no space, such as "Bearer" or "Bearerxyz", is 401 "no token found" |
| AuthMiddleware.EmptySecondFieldHasNoToken | Backend/src/middleware/authMiddleware.ts:27-30 | a space followed by the end or by another space, as in "Bearer " or "Bearer  abc", is 401 "no token found" |
| AuthMiddleware.AnyBearerPrefixYieldsToken | Backend/src/middleware/authMiddleware.ts:21-38 | any first field that starts with "Bearer", such as "Bearerxyz", passes its second field to verification; a throw is 401 "token failed", and a successful lookup runs `next` with the user |

## Left out

- Identifiers are natural numbers taken from a counter, not ObjectIds. Casting a malformed id, and the 500 CastError it causes, is not modelled.
- Timestamps are readings of a logical clock that advances on every create and every update that finds its record; a delete writes no timestamp and leaves it. Two records created in the same millisecond, whose order the real sort leaves open, cannot occur in the model.
- `dueDate` is kept as opaque text. The conversion to a `Date`, and the store's rejection of an unparseable date, are not modelled.
- The text of a 500 reply is the message of the thrown error, which depends on the library. It is modelled as one `ErrorMessage` payload.
- The zod issue list is modelled as the rejected paths in schema order. Issue codes and message texts are not modelled.
- A store or network failure during a read or a write, which gives a 500, is not modelled. The collection is always available.
- TaskController.TaskServer.UpdateTask: an update body holds typed values, one per schema path. The code passes the raw body to the store with validators off, so an update could store a status outside the four names, or carry `_id` or unknown keys. The model cannot express those records.
- `populate` of the user references is not modelled. `creatorId` and `assignedToId` stay opaque user ids. The `task:created` payload has only `assignedToId` populated (taskController.ts:41) while the full read and `task:updated` also populate `creatorId` (taskController.ts:21-22, 63-64). So a client's list equals the full read only up to the shape of those references.
- The handlers take the URL id as the model's identifier. The store casts the text to an ObjectId, which also accepts upper-case hex, but `task:deleted` carries the raw text and the client compares it with `!==`. A `DELETE` with an upper-case id therefore removes the record on the server while clients keep it. The single identifier equality of the model cannot express this.
- An `assignedToId` that is not a valid ObjectId string passes the create schema and the raw update body, and then fails the store's cast with a 500. TaskController.NewRecord and TaskController.TaskServer.UpdateTask accept any user id text, so they do not model that 500.
- Socket.io delivery is modelled as one ordered log shared by every client. Per-connection sessions, a client that misses events, and delivery order across connections are not modelled.
- The React lifecycle is not modelled. Listener attachment and cleanup, the socket singleton, and the race between the initial fetch and early events are concurrency concerns. `ClientCatchesUp` and `CatchesUpSince` state what holds when the snapshot is taken at a point in the log.
- AuthMiddleware.Protect: `jwt.verify` with its secret and `User.findById` are parameters that return or throw. Token contents and expiry are not modelled.
- Strings are sequences of characters. JavaScript measures `min(3)` in UTF-16 code units, which can differ for characters outside the Basic Multilingual Plane.
- A query parameter given as an array, or one that is not a string, is not modelled.
- Server start-up, the database connection, registration and login, and the user routes are not part of this model. They are I/O and calls into libraries.
- Rendering details of the board are not part of this model: markup, styling, theme and navigation. Only the columns, counts, cards and placeholders are modelled.
