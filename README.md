# Task store of the task manager, modelled in Dafny

This project models the ownership-scoped task store behind the task manager's
REST API. That store is `backend/controllers/taskController.js`, together with
the `tasks` table declared in `backend/scripts/migrate.js`.

- **The table.** `TaskController.TaskTable` is an object that holds:
  - the `tasks` rows, in insertion order;
  - the `users` rows that the handlers read;
  - the next value of the `SERIAL` id sequence;
  - a logical clock that stands for `CURRENT_TIMESTAMP`.
- **Handlers.** Each handler that writes is a method of that object:
  - `CreateTask` (INSERT);
  - `UpdateTask` (SELECT, then UPDATE);
  - `DeleteTask` (DELETE ... RETURNING).

  The read-only handlers are functions of the object: `GetTask`, and
  `GetAllTasksAdmin` with its owner join. `GetAllTasks` is a method that does
  not change the table.
- **Outcomes.** Each handler answers `Ok(data)` (200/201), `NotFound` (404) or
  `InternalError` (500).
- **Column constraints.** The column constraints live in module `Schema`:
  - NOT NULL;
  - VARCHAR(200);
  - the CHECK domains of status and priority.

  `Schema` also says which texts bind as parameters. The foreign key to
  `users` is the `t.ownerId in users` conjunct of
  `TaskQueries.TableInvariant`, and the `requester in users` condition of
  `CreateTask`. A value these constraints refuse is how a request ends in 500.
- **Row-set semantics.** `TaskQueries` holds what the handlers' SQL means:
  - owner and filter selection;
  - `ORDER BY created_at DESC`;
  - `LIMIT`/`OFFSET`;
  - lookup by id and owner;
  - the table invariant;
  - the cascade.
- **The list statement.** `ListQuery` models how `getAllTasks` builds its SQL
  text and its parameter array, step by step. It also gives a small semantics
  for the statement that results. `BuildListQuery` is proved to return, from
  any table kept in insertion order, exactly the owner's matching rows, newest
  first, in the requested window. (`ORDER BY created_at DESC` is read as the
  reverse of insertion order; `TaskTable`'s invariant keeps every table in
  that order.) It is also proved to number its placeholders `$1..$n` in step with
  the parameter array, with LIMIT and OFFSET last.
- **Walk-throughs.** `CreateThenList`, `ForeignRequester`, `UpdateOwnTask`,
  `NulTitleRefused` and `DeleteTwice` are end-to-end walk-throughs, verified
  against the class contracts alone:
  - create "Buy milk", which gets the defaults, and list it;
  - another user is refused;
  - update it;
  - a title holding U+0000 is refused;
  - delete it, and delete it again.

The model follows the code, including where a reader might expect otherwise:

- **Titles.** An empty title is accepted, because the column is only NOT NULL
  and VARCHAR(200). A title longer than 200 characters is refused unless
  everything past the 200th character is spaces; such a title is stored cut
  to 200 characters, as PostgreSQL does for `VARCHAR(n)`.
- **Ids are INTEGERs.** `tasks.id` is a SERIAL, that is an INTEGER fed by a
  sequence. An `:id` outside the INTEGER range makes the statement fail, so
  get, update and delete answer 500 for it. An exhausted sequence makes every
  insert fail with 500. `users.id` is a SERIAL as well, so `TaskTable` keeps
  every user id, and with it every owner id, a positive INTEGER.
- **No U+0000 in text.** node-postgres sends every parameter as text, and
  PostgreSQL's text types cannot hold U+0000. A title, description, status or
  priority holding one is refused when the parameters are bound, so create,
  update and list answer 500. Create fails before `nextval` runs, so the id
  sequence does not advance. Update still answers 404 first for a task the
  requester does not own.
- **No enum validation.** Status and priority are not validated by the
  handler. An out-of-domain value fails the CHECK constraint and becomes 500.
- **Update writes NULL.** Update writes the body values exactly as given, so a
  missing description, status or priority becomes NULL, since the CHECK passes
  on NULL. A missing title fails NOT NULL and becomes 500.
- **`total` ignores the filters.** The list's `total` counts all of the
  requester's tasks, whatever the status and priority filters. The count
  statement has only the owner condition (taskController.js:34-37).

## Model

| member | source | states |
|---|---|---|
| Schema.StatusName | backend/scripts/migrate.js:27 | each status has a text that the status domain parses back to that status |
| Schema.PriorityName | backend/scripts/migrate.js:28 | each priority has a text that the priority domain parses back to that priority |
| Schema.ParseInvertsName | backend/scripts/migrate.js:27-28 | only the names of the domain parse, and each parses to the value it names |
| Schema.TitleColumn | backend/scripts/migrate.js:25 | NULL is refused; a title of at most 200 characters, '' included, is stored unchanged; any title whose characters past the 200th are all spaces is stored, and a longer one is cut to exactly its first 200 characters; a stored title has at most 200 characters and the given text is that title followed only by spaces |
| Schema.OrElse | backend/controllers/taskController.js:98 | `value \|\| fallback` is the value when it is truthy and the fallback otherwise, so a non-empty fallback never yields '' |
| Schema.OrElseDecodes | backend/controllers/taskController.js:96-99 | sending `value \|\| fallback` with a fallback free of U+0000 binds exactly when the field itself binds |
| Schema.StatusColumn | backend/scripts/migrate.js:27 | NULL passes the CHECK; a text passes iff it names a status; a text that passes is stored as the status it names, never as NULL |
| Schema.PriorityColumn | backend/scripts/migrate.js:28 | NULL passes the CHECK; a text passes iff it names a priority; a text that passes is stored as the priority it names, never as NULL |
| TaskQueries.Matching | backend/controllers/taskController.js:11-26 | a row is selected iff it belongs to the owner and has the exact status and priority of every truthy filter; never more rows than the table |
| TaskQueries.CountOwned | backend/controllers/taskController.js:34-37 | the count query's result equals the number of the owner's rows, whatever their status or priority |
| TaskQueries.MatchingWithinOwned | backend/controllers/taskController.js:16-26 | adding filters never selects more rows than the owner has |
| TaskQueries.NewestFirst | backend/controllers/taskController.js:28 | same rows in reverse insertion order, so on a chronological table `created_at` strictly decreases |
| TaskQueries.Window | backend/controllers/taskController.js:28-29 | LIMIT/OFFSET keep at most `limit` rows: exactly the rows at `offset`, `offset+1`, ... of the input, and none when the offset is past the end |
| TaskQueries.PageHoldsRow | backend/controllers/taskController.js:9 | with `offset = (page-1)*limit`, row `k` is entry `k % limit` of page `k / limit + 1`, so the pages cover every row |
| TaskQueries.Lookup | backend/controllers/taskController.js:125-128 | the id-and-owner SELECT returns a row iff the table has a row with this id and this owner, and then a row of the table with both |
| TaskQueries.Locate | backend/controllers/taskController.js:63-66 | finds a row with this id and this owner, or establishes that no row has both |
| TaskQueries.LookupSeesOnlyOwnRows | backend/controllers/taskController.js:63-66 | the id-and-owner lookup gives the same answer on the owner's rows alone, so other owners' rows cannot change it |
| TaskQueries.MatchingSeesOnlyOwnRows | backend/controllers/taskController.js:11-12 | the list selection gives the same answer on the owner's rows alone, for every filter |
| TaskQueries.ForeignRowNotFound | backend/controllers/taskController.js:63-73 | on a table with unique ids, another owner's task is not found, just like a missing id |
| TaskQueries.RemoveAt | backend/controllers/taskController.js:164-167 | deleting row `i` shifts the later rows down by one and keeps all the others |
| TaskQueries.RemoveAtChronological | backend/controllers/taskController.js:164-167 | deleting a row keeps the table in insertion order |
| TaskQueries.RemoveLocated | backend/controllers/taskController.js:164-167 | deleting the located row removes exactly the rows with that id and owner, keeps every other row, and leaves nothing for the same lookup to find |
| TaskQueries.RemoveKeepsInvariant | backend/controllers/taskController.js:164-167 | deleting the located row keeps the table invariant, removes exactly the rows with that id and owner, shortens the table by one, and leaves nothing for the lookup to find |
| TaskQueries.Disowned | backend/scripts/migrate.js:29 | ON DELETE CASCADE keeps a row iff its owner is not the deleted user |
| TaskQueries.MatchingChronological | backend/controllers/taskController.js:11-28 | the filtered rows stay in insertion order |
| TaskQueries.DisownedChronological | backend/scripts/migrate.js:29 | the cascade keeps the table in insertion order |
| ListQuery.Decimal | backend/controllers/taskController.js:18 | a placeholder number is written as a non-empty string of decimal digits |
| ListQuery.DecimalRoundTrip | backend/controllers/taskController.js:18 | reading the digits of `$k` back gives `k` |
| ListQuery.WhereText | backend/controllers/taskController.js:11-26 | there is no WHERE text exactly when there are no conditions |
| ListQuery.WhereOpensClause | backend/controllers/taskController.js:11 | whatever conditions follow, the clause opens with ` WHERE ` |
| ListQuery.PageText | backend/controllers/taskController.js:28 | the page clause opens with ` ORDER BY created_at DESC LIMIT $`, the digits after it read back as the LIMIT placeholder, and the clause ends with the digits of the OFFSET placeholder |
| ListQuery.Render | backend/controllers/taskController.js:11-28 | the statement text ends with the digits of its OFFSET placeholder |
| ListQuery.CondHolds | backend/controllers/taskController.js:11-25 | a condition holds only when its placeholder is bound, and the owner condition holds only for a row whose owner is the bound integer |
| ListQuery.Where | backend/controllers/taskController.js:31 | the WHERE clause keeps exactly the rows that satisfy every condition and never adds rows |
| ListQuery.WhereChronological | backend/controllers/taskController.js:31 | the WHERE clause keeps a table's insertion order, by induction |
| ListQuery.Execute | backend/controllers/taskController.js:31 | running a statement fails iff a LIMIT or OFFSET placeholder is unbound, not an integer, or negative; otherwise it returns at most `limit` rows, each a row of the table that satisfies every condition |
| ListQuery.ListRows | backend/controllers/taskController.js:8-31 | building the statement and running it on the table fails when a filter text holds U+0000; otherwise it gives the expected page of the owner's matching rows, or an error for a negative limit or offset |
| ListQuery.AddStatusFilter | backend/controllers/taskController.js:16-20 | the status block appends one condition and one parameter, and the statement then selects exactly the rows matching the filters applied so far, the status included; the parameters bind iff they did before and the status text holds no U+0000 |
| ListQuery.AddPriorityFilter | backend/controllers/taskController.js:22-26 | the priority block appends one condition and one parameter, and the statement then selects exactly the rows matching the filters applied so far, the priority included; the parameters bind iff they did before and the priority text holds no U+0000 |
| ListQuery.AppendPage | backend/controllers/taskController.js:28-29 | appending the page clause completes a statement numbered `$1..$n` with limit and offset last, whose text renders it and which returns the expected page from any table; the integers it adds always bind |
| ListQuery.WhereIsMatching | backend/controllers/taskController.js:11-26 | WHERE conditions that agree with the owner-and-filter predicate on every row select exactly the matching rows, in table order |
| ListQuery.PushStatus | backend/controllers/taskController.js:16-20 | appending `AND status = $n` with the status pushed as parameter `n` narrows the selection to that status and keeps the numbering |
| ListQuery.PushPriority | backend/controllers/taskController.js:22-26 | appending `AND priority = $n` with the priority pushed as parameter `n` narrows the selection to that priority and keeps the numbering |
| ListQuery.OwnerScoped | backend/controllers/taskController.js:11-13 | the opening `user_id = $1` with the requester as the only parameter selects exactly the requester's rows |
| ListQuery.CloseScoped | backend/controllers/taskController.js:28-29 | appending LIMIT and OFFSET placeholders `n+1` and `n+2` with limit and offset pushed last yields a statement that returns the expected page from any table, and an error for a negative limit or offset |
| ListQuery.AppendCondText | backend/controllers/taskController.js:18 | each later condition is written as ` AND <column> = $<n>` after the ones before it |
| ListQuery.OwnerScopeText | backend/controllers/taskController.js:11 | the opening statement text, `OwnerScope`, is the rendering of the lone owner condition |
| ListQuery.AppendFilter | backend/controllers/taskController.js:16-26 | one filter block counts one more placeholder, appends its condition to the text and its value to the parameters, and keeps the owner clause at the front |
| ListQuery.BuildListQuery | backend/controllers/taskController.js:8-29 | the text renders the statement and starts with the owner clause; there is one condition per truthy filter; placeholders `$1..$n` match the parameters position by position, with the requester first and limit and offset last; from any table the statement returns the owner's matching rows in reverse insertion order, windowed (newest first on a table kept in insertion order); the parameters bind iff neither filter text holds U+0000 |
| TaskController.JoinOwners | backend/controllers/taskController.js:196-198 | the inner join pairs each task with its owner's username and email, keeps row order, and drops nothing when every owner exists |
| TaskController.OffsetOf | backend/controllers/taskController.js:9 | the first page, given or defaulted, skips no rows, and no page from 1 on with a non-negative limit skips a negative number of rows |
| TaskController.QueryDefaults | backend/controllers/taskController.js:8 | `PageOf` and `LimitOf` use a given value as it is; a missing `page` is 1 and a missing `limit` is 10, so the default request starts at row 0 |
| TaskController.NextPageOffset | backend/controllers/taskController.js:9 | page `p + 1` starts exactly `limit` rows after page `p` |
| TaskController.JoinNewest | backend/controllers/taskController.js:195-200 | on a table in insertion order whose owners all exist, the join of the newest-first rows has every row, newest first, each with its own owner's username and email |
| TaskController.TaskTable.constructor | backend/scripts/migrate.js:10-32 | given users whose ids are positive INTEGERs, as `users.id SERIAL` issues them, an empty table that satisfies the invariant, with the id sequence at 1 |
| TaskController.TaskTable.GetAllTasks | backend/controllers/taskController.js:6-52 | never NotFound; 500 iff limit or offset is negative or a filter text holds U+0000; otherwise `data` is the window at `(page-1)*limit` of the requester's matching rows newest first; every row is the requester's and matches the filters; `created_at` strictly decreases; `count` is the number of rows in `data`, at most `limit`; `total` counts all the requester's tasks and is at least `count`; `page` is echoed with default 1 |
| TaskController.TaskTable.GetTask | backend/controllers/taskController.js:59-85 | 500 iff the id is outside INTEGER; otherwise Ok iff some task has this id and is owned by the requester, returning such a task, and NotFound if not |
| TaskController.TaskTable.CreateTask | backend/controllers/taskController.js:92-112 | Ok iff no sent text holds U+0000, the id sequence is not exhausted, the title is accepted by its column, the defaulted status and priority are in their domains, and the requester exists. On Ok, exactly one row is appended: a fresh id, owned by the requester, the title as the column stores it, description/status/priority defaulted to ''/pending/medium when missing or empty, and both timestamps at the new clock. On 500 the rows are unchanged. The id sequence advances whenever the parameters bind and it is not exhausted, also on a later 500 |
| TaskController.TaskTable.UpdateTask | backend/controllers/taskController.js:119-153 | 500 iff the id is outside INTEGER, or such a task exists but a supplied text holds U+0000 or a value breaks a column constraint. NotFound iff the id is an INTEGER and the requester owns no task with it. On either, nothing changes. On Ok only that row changes: description, status and priority become exactly the supplied values (missing ones become NULL), the title becomes the value its column stores, `updated_at` is refreshed, and id, owner and `created_at` are kept |
| TaskController.TaskTable.DeleteTask | backend/controllers/taskController.js:160-186 | 500 iff the id is outside INTEGER. NotFound iff the id is an INTEGER and the requester owns no task with it. On either, nothing changes. On Ok exactly that row goes and every other row stays. Afterwards the lookup finds nothing, so a second delete is NotFound |
| TaskController.TaskTable.DeleteUser | backend/scripts/migrate.js:29 | deleting a user removes exactly that user's tasks and keeps the invariant, including that every task's owner exists |
| TaskController.TaskTable.GetAllTasksAdmin | backend/controllers/taskController.js:193-206 | every task of every owner, newest first, with `created_at` strictly decreasing; each paired with its owner's username and email; `count` equals the number of rows and of tasks; the rows are the join of the newest-first tasks with `users` |
| TaskController.ListedPage | backend/controllers/taskController.js:28-43 | a listed page holds only matching rows of the table, strictly newest first, and never more than the owner's task count |
| TaskController.NewestWindow | backend/controllers/taskController.js:28 | any window of the newest-first rows holds rows of the table, in strictly decreasing `created_at` |
| TaskController.UpdateKeepsChronological | backend/controllers/taskController.js:137-140 | an update that keeps id and `created_at` keeps the table in insertion order |
| TaskController.UpdateKeepsInvariant | backend/controllers/taskController.js:137-140 | an UPDATE that keeps id, owner and `created_at`, stamps `updated_at` with the next clock value and stores a title that fits keeps the table invariant |

## Left out

- Connection pool, SQL execution and `async`/`await`. The table is an in-memory
  object, and each statement is a method or function over it.
  `CURRENT_TIMESTAMP` is a logical clock that ticks once per successful INSERT
  or UPDATE, so no two rows share a creation time. The order of ties under
  `ORDER BY created_at DESC` is not modelled.
- Express response plumbing, `console.error`, and the text of `error.message`
  that is returned to the client. These reduce to the `Outcome` datatype.
- Authentication, tokens, password hashing and the admin role gate are not part
  of this model. The requester id is a plain parameter, and `GetAllTasksAdmin`
  does not check a role.
- The race between the ownership check and the UPDATE in `updateTask`. It
  needs concurrent requests, and the model is sequential.
- JavaScript coercion of request values:
  - `page` and `limit` arrive as strings and are multiplied after coercion.
    Non-numeric text, fractions and arrays are not modelled; they are
    integers or absent here.
  - The `:id` path parameter is an integer here; the range check of INTEGER
    is modelled. Text that is not an integer is not modelled.
  - Body and query values that are not strings are not modelled.
- TaskController.TaskTable.GetTask: an `:id` text that is not an integer,
  such as `abc` or `1.5`, makes PostgreSQL fail with 500. This is not modelled,
  because ids are integers here.
- TaskController.TaskTable.UpdateTask: an `:id` text that is not an integer
  answers 500 in the source. This is not modelled, because ids are integers
  here.
- TaskController.TaskTable.DeleteTask: an `:id` text that is not an integer
  answers 500 in the source. This is not modelled, because ids are integers
  here.
- TaskController.TaskTable.GetAllTasks: a `limit` or offset beyond the BIGINT
  range, and JavaScript's floating-point arithmetic on `(page - 1) * limit`,
  are not modelled. The requester id comes from the authentication layer and
  is taken to be a valid INTEGER user id.
- ListQuery.Execute: `ORDER BY created_at DESC` is read as the reverse of
  insertion order. This agrees with sorting by creation time only on tables
  kept in insertion order, which `TaskTable` keeps as an invariant.
- Database failures other than constraint violations: lost connections and
  timeouts, which would also answer 500.
- TaskController.TaskTable.GetAllTasks: the `count` statement runs as a
  separate query. The model evaluates it on the same table state, so a write
  between the two statements is not captured.
- User registration and the `users` table's own columns and constraints. Only
  the username and email read by the admin join are kept, and `DeleteUser`
  stands in for deleting a user row so that the cascade can be stated.
- The frontend components, the API documentation configuration, the request
  logger and the migration script's provisioning steps are not part of this
  model. Only the migration script's column constraints are used.
