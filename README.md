# Todo bookkeeping of two CRUD apps, modelled in Dafny

The repository holds two small todo applications.

- **Go application** (`assignment_04/todoapp-go`): a Gin + GORM backend over a MySQL `todos` table, and a React client.
- **Python application** (`assignment_03/TodoApp01`): a FastAPI + SQLAlchemy backend with pydantic schemas, and a React client.

This project models the part of both that keeps the todo list:

- the server handlers as operations on an abstract table, which is a sequence of rows with unique ids;
- the clients' request builders as pure maps from an intent and a reply to a request and a result;
- the Go client's list store as a class whose handlers reconcile the list after each request;
- the form and item components as small state machines with a blank-title guard.

The modules are:

| module | models |
|---|---|
| `Wrappers` | Option and Result |
| `Seqs` | order-preserving filter and map-with-replacement, shared by clients and servers |
| `JsText` | JavaScript `String.prototype.trim` and the blank-title test |
| `GoScan` | the Go backend's `toInt`, i.e. `fmt.Sscanf("%d")` into a zeroed `int` |
| `Http` | methods, paths, query strings, replies, and Gin's and FastAPI's query-value lookup |
| `GoTodo` | the Go `Todo` record and the list operations both Go sides apply |
| `GoBackend` | the Gin handlers, as class `Table` |
| `GoApi` | the Go client's seven request builders |
| `GoStore` | the Go client's `App` state, as class `TaskStore` |
| `GoComponents` | the Go client's `TodoForm` and `TodoItem` |
| `PyModels` | the pydantic schemas and the validation of a JSON body |
| `PyBackend` | the FastAPI handlers, as class `Table` |
| `PyApi` | the Python client's six request builders |
| `PyComponents` | the Python client's `TodoForm` and `TodoItem` |

Some things are parameters rather than modelled behaviour:

- What the network delivers is a parameter: each client handler takes the replies it receives and returns the requests it sent.
- The clock is the parameter `now`.
- The browser's time zone is the constant `offset` of each Go component: the milliseconds by which local time is ahead of UTC.
- A failing database call that a Go handler answers with 500 is the parameter `fault`; it leaves the table unchanged. The update, delete and toggle handlers first look the row up with `DB.First` and answer 404 on any error of that lookup, a broken connection included. That failing lookup is their parameter `lookupFault`.

The paths are the segments after the `/api/v1` prefix that both backends mount their routes under.

## Model

| member | source | states |
|---|---|---|
| Seqs.Where | assignment_04/todoapp-go/front/src/App.js:46 | the result holds exactly the elements that pass the filter and is no longer than the input |
| Seqs.MapWhere | assignment_04/todoapp-go/front/src/App.js:37 | same length; a hit position holds the replacement and every other position is unchanged |
| Seqs.WhereConcat | assignment_03/TodoApp01/backend/main.py:75-81 | filtering distributes over concatenation, i.e. the kept elements keep their relative order |
| Seqs.WherePartition | assignment_04/todoapp-go/backend/main.go:296-306 | complementary filters split a list, so their lengths add up to its length |
| Seqs.WhereWhere | assignment_03/TodoApp01/backend/main.py:78-79 | two successive filters equal one filter by their conjunction |
| JsText.Trim | assignment_04/todoapp-go/front/src/components/TodoForm.js:11 | neither end of the trimmed text is ECMAScript white space |
| JsText.TrimIsSlice | assignment_04/todoapp-go/front/src/components/TodoForm.js:11 | the trimmed text is a slice of the input with only ECMAScript white space cut off on either side |
| JsText.BlankIffAllSpace | assignment_03/TodoApp01/front/src/components/TodoForm.js:8 | `title.trim() !== ''` fails exactly when every character is white space |
| JsText.VisibleIsNotBlank | assignment_04/todoapp-go/front/src/components/TodoItem.js:25 | a title with one visible character passes the guard |
| GoScan.ToInt | assignment_04/todoapp-go/backend/main.go:331-335 | the result is a 64-bit value: the scanned integer, or 0 when scanning fails |
| GoScan.ToIntFormat | assignment_04/todoapp-go/backend/main.go:331-335 | round trip: the decimal text of any 64-bit value reads back as that value, whatever non-digit text follows |
| GoScan.NonNumericIsZero | assignment_04/todoapp-go/backend/main.go:331-335 | text that does not start, after spaces, with a sign or a digit reads as 0 |
| GoScan.ToIntDigits | assignment_04/todoapp-go/backend/main.go:331-335 | a non-empty run of digits whose value fits 64 bits reads as that value |
| GoScan.DefaultsRead | assignment_04/todoapp-go/backend/main.go:129-132 | the default texts "100" and "0" read as 100 and 0 |
| Http.FirstValue | assignment_04/todoapp-go/backend/main.go:124-130 | absent exactly when no pair has the key; otherwise the value of the first pair with the key |
| Http.LastValue | assignment_03/TodoApp01/backend/main.py:37 | absent exactly when no pair has the key; otherwise the value of the last pair with the key |
| GoTodo.WithoutId | assignment_04/todoapp-go/front/src/App.js:46 | exactly the elements with another id remain; removing an absent id changes nothing |
| GoTodo.ReplaceById | assignment_04/todoapp-go/front/src/App.js:37 | same length; exactly the positions holding the id get the new record |
| GoTodo.WithCompleted | assignment_04/todoapp-go/backend/main.go:124-127 | exactly the rows whose flag equals the value |
| GoTodo.WithoutPresentId | assignment_04/todoapp-go/backend/main.go:231-249 | with unique ids, removing a present id shortens the list by exactly one |
| GoTodo.ReplaceKeepsUnique | assignment_04/todoapp-go/backend/main.go:27-28 | replacing a row by a record with the same id keeps the ids unique and the id set unchanged |
| GoTodo.WhereKeepsUnique | assignment_04/todoapp-go/backend/main.go:296 | any filter keeps the ids unique |
| GoBackend.Route | assignment_04/todoapp-go/backend/main.go:76-83 | static `completed`/`all` segments take precedence over `:id` (see the partner ensures in GoApi) |
| GoBackend.CompletedFilter | assignment_04/todoapp-go/backend/main.go:124-127 | no filter exactly when `completed` is absent or empty; completed-only exactly when it is "true" |
| GoBackend.PagingDefaults | assignment_04/todoapp-go/backend/main.go:129-132 | without `limit` and `offset` the page is limit 100, offset 0 |
| GoBackend.Listed | assignment_04/todoapp-go/backend/main.go:124-127 | without a filter all rows; with one exactly the rows whose flag matches |
| GoBackend.Page | assignment_04/todoapp-go/backend/main.go:132 | a contiguous slice starting at the clamped offset, as long as the limit allows; only a negative limit means none |
| GoBackend.Lookup | assignment_04/todoapp-go/backend/main.go:196 | absent exactly when the id is not in the table; otherwise a row of the table with that id |
| GoBackend.Inserted | assignment_04/todoapp-go/backend/main.go:34-35 | the new row carries the assigned id and the body's fields; a zero timestamp gets the clock reading |
| GoBackend.Merge | assignment_04/todoapp-go/backend/main.go:207-208 | only non-zero fields of the patch overwrite the row; the id and creation time stay, so `completed` cannot be cleared |
| GoBackend.Flip | assignment_04/todoapp-go/backend/main.go:269-270 | only the flag, negated, and the update time change |
| GoBackend.FlipTwice | assignment_04/todoapp-go/backend/main.go:269-270 | toggling twice restores the row except its update time |
| GoBackend.Table.constructor | assignment_04/todoapp-go/backend/main.go:27-36 | an empty table whose counter starts at 1 |
| GoBackend.Table.GetTodos | assignment_04/todoapp-go/backend/main.go:120-149 | 500 on a database error, which includes a negative limit with a positive offset (an `OFFSET` without `LIMIT`); otherwise 200 with the paged, filtered rows, every one of them in the table and matching the filter |
| GoBackend.Table.CreateTodo | assignment_04/todoapp-go/backend/main.go:161-179 | 400 "Invalid input" without a title; 500 on a clashing id or error; otherwise 201, the table grows by a row with a fresh positive id, and the AUTO_INCREMENT counter moves past that id |
| GoBackend.Table.UpdateTodo | assignment_04/todoapp-go/backend/main.go:193-219 | 404 for a missing id or a failing lookup before 400 for a bad body, nothing changed; otherwise only that row is merged |
| GoBackend.Table.DeleteTodo | assignment_04/todoapp-go/backend/main.go:231-249 | 404 for a missing id or a failing lookup, nothing changed; otherwise exactly that row is gone and the table shrinks by one |
| GoBackend.Table.ToggleTodoStatus | assignment_04/todoapp-go/backend/main.go:261-285 | 404 for a missing id or a failing lookup, nothing changed; otherwise only that row's flag is negated and the reply carries only id, flag and update time |
| GoBackend.Table.DeleteCompletedTodos | assignment_04/todoapp-go/backend/main.go:295-307 | exactly the incomplete rows remain, in order; `deleted_count` equals the number of completed rows |
| GoBackend.Table.DeleteAllTodos | assignment_04/todoapp-go/backend/main.go:317-329 | the table is empty and `deleted_count` equals the former row count |
| GoApi.Settle | assignment_04/todoapp-go/front/src/api.js:10-12 | ok exactly when the status is 2xx; otherwise the given error message |
| GoApi.ListQuery | assignment_04/todoapp-go/front/src/api.js:3-8 | no query exactly for "all"; the backend decodes "completed" as completed-only and any other filter as incomplete-only |
| GoApi.FilterRoundTrip | assignment_04/todoapp-go/front/src/api.js:5-7 | the three filter buttons reach the backend as no filter, `completed = true` and `completed = false` |
| GoApi.GetTodos | assignment_04/todoapp-go/front/src/api.js:3-15 | `GET /todos` with the filter query, routed to getTodos; returns `data` when ok, else throws "Failed to fetch todos" |
| GoApi.CreateTodo | assignment_04/todoapp-go/front/src/api.js:17-30 | `POST /todos` with the draft as body, routed to createTodo; returns `data` when ok, else throws |
| GoApi.UpdateTodo | assignment_04/todoapp-go/front/src/api.js:32-45 | `PUT /todos/{id}` with the fields as body, routed to updateTodo for that id; returns `data` when ok, else throws |
| GoApi.DeleteTodo | assignment_04/todoapp-go/front/src/api.js:47-55 | `DELETE /todos/{id}`, routed to deleteTodo; returns the whole body when ok, else throws |
| GoApi.ToggleTodoStatus | assignment_04/todoapp-go/front/src/api.js:57-66 | `PATCH /todos/{id}/toggle`, routed to toggleTodoStatus; returns `data` when ok, else throws |
| GoApi.ClearCompletedTodos | assignment_04/todoapp-go/front/src/api.js:68-76 | `DELETE /todos/completed`, routed to deleteCompletedTodos rather than deleteTodo; returns the whole body when ok |
| GoApi.ClearAllTodos | assignment_04/todoapp-go/front/src/api.js:78-86 | `DELETE /todos/all`, routed to deleteAllTodos; returns the whole body when ok |
| GoStore.TaskStore.constructor | assignment_04/todoapp-go/front/src/App.js:9-10 | an empty list and the filter "all" |
| GoStore.TaskStore.FetchTodos | assignment_04/todoapp-go/front/src/App.js:16-23 | the list becomes the server's rows for the current filter; on failure it stays |
| GoStore.TaskStore.SetFilter | assignment_04/todoapp-go/front/src/App.js:12-14 | a changed filter triggers exactly one reload with the new filter; an unchanged one sends nothing |
| GoStore.TaskStore.AddTodo | assignment_04/todoapp-go/front/src/App.js:25-32 | on success the server's record is appended and the length grows by one; on failure nothing changes |
| GoStore.TaskStore.UpdateTodo | assignment_04/todoapp-go/front/src/App.js:34-41 | on success only elements with the id are replaced by the server's record, with order and length kept |
| GoStore.TaskStore.DeleteTodo | assignment_04/todoapp-go/front/src/App.js:43-50 | on success exactly the elements with other ids remain, in order, one fewer when the id was present |
| GoStore.TaskStore.ToggleTodoStatus | assignment_04/todoapp-go/front/src/App.js:52-59 | no local edit; a successful toggle is followed by one reload with the current filter |
| GoStore.TaskStore.ClearCompleted | assignment_04/todoapp-go/front/src/App.js:61-68 | no local edit; a successful clear is followed by one reload with the current filter |
| GoStore.TaskStore.ClearAll | assignment_04/todoapp-go/front/src/App.js:70-77 | on success the list is empty whatever it held; on failure it stays |
| GoComponents.DueDatePayload | assignment_04/todoapp-go/front/src/components/TodoForm.js:16 | null exactly for an empty field; otherwise the instant whose local clock shows the field |
| GoComponents.DueDateField | assignment_04/todoapp-go/front/src/components/TodoItem.js:8-10 | '' exactly for a todo without due date; otherwise the UTC minute that holds the due instant |
| GoComponents.UneditedDueDateShifts | assignment_04/todoapp-go/front/src/components/TodoItem.js:8-30 | an unedited save sends the due date cut to the minute and moved back by the zone offset; it is unchanged exactly when the offset cancels the cut seconds |
| GoComponents.DueDateDriftExample | assignment_04/todoapp-go/front/src/components/TodoItem.js:8-30 | in UTC+2 a todo due 2024-01-01T10:00:00Z is saved unedited as due 08:00:00Z |
| GoComponents.SavedFieldShifts | assignment_04/todoapp-go/front/src/components/TodoItem.js:8-30 | a time typed into an item and saved shows, on the next render, moved by the zone offset |
| GoComponents.LocalDueDateField | assignment_04/todoapp-go/front/src/components/TodoItem.js:8-10 | corrected field: '' exactly without due date; otherwise the local-clock minute that holds the instant |
| GoComponents.LocalFieldRoundTrip | assignment_04/todoapp-go/front/src/components/TodoItem.js:30 | with the corrected field, a saved field shows again exactly as typed, in any zone |
| GoComponents.LocalDueDateRoundTrip | assignment_04/todoapp-go/front/src/components/TodoItem.js:8-30 | with the corrected field, an unedited save sends the due date cut to the minute, so a whole-minute due date comes back unchanged |
| GoComponents.DraftOf | assignment_04/todoapp-go/front/src/components/TodoForm.js:12-17 | the draft carries the title untrimmed, the description, the priority and the due-date payload |
| GoComponents.TodoForm.constructor | assignment_04/todoapp-go/front/src/components/TodoForm.js:4-7 | all four fields start empty or 0, in the browser's zone |
| GoComponents.TodoForm.SetTitle | assignment_04/todoapp-go/front/src/components/TodoForm.js:31 | only the title changes |
| GoComponents.TodoForm.SetDescription | assignment_04/todoapp-go/front/src/components/TodoForm.js:37 | only the description changes |
| GoComponents.TodoForm.SetPriority | assignment_04/todoapp-go/front/src/components/TodoForm.js:43 | only the priority changes |
| GoComponents.TodoForm.SetDueDate | assignment_04/todoapp-go/front/src/components/TodoForm.js:48 | only the due-date field changes |
| GoComponents.TodoForm.Submit | assignment_04/todoapp-go/front/src/components/TodoForm.js:9-23 | a blank title calls nothing and keeps the fields; otherwise add is called once with the fields and they reset to '', '', 0, '' |
| GoComponents.TodoItem.constructor | assignment_04/todoapp-go/front/src/components/TodoItem.js:4-10 | not editing, fields taken from the todo, the due date as its UTC minute |
| GoComponents.TodoItem.Receive | assignment_04/todoapp-go/front/src/components/TodoItem.js:3-10 | a new `todo` prop leaves the edit state as it was |
| GoComponents.TodoItem.CheckboxChange | assignment_04/todoapp-go/front/src/components/TodoItem.js:12-14 | only the toggle callback, with the id |
| GoComponents.TodoItem.DeleteClick | assignment_04/todoapp-go/front/src/components/TodoItem.js:46-48 | only the delete callback, with the id |
| GoComponents.TodoItem.EditClick | assignment_04/todoapp-go/front/src/components/TodoItem.js:20-22 | enters edit mode, fields kept |
| GoComponents.TodoItem.TitleChange | assignment_04/todoapp-go/front/src/components/TodoItem.js:16-18 | only the edited title changes |
| GoComponents.TodoItem.DescriptionChange | assignment_04/todoapp-go/front/src/components/TodoItem.js:68 | only the edited description changes |
| GoComponents.TodoItem.PriorityChange | assignment_04/todoapp-go/front/src/components/TodoItem.js:74 | only the edited priority changes |
| GoComponents.TodoItem.DueDateChange | assignment_04/todoapp-go/front/src/components/TodoItem.js:80 | only the edited due-date field changes |
| GoComponents.TodoItem.SaveClick | assignment_04/todoapp-go/front/src/components/TodoItem.js:24-34 | blank: nothing called, state unchanged, still editing; otherwise update called once with the id and edited fields, edit mode left |
| GoComponents.TodoItem.CancelClick | assignment_04/todoapp-go/front/src/components/TodoItem.js:36-44 | fields reset to the todo's values, edit mode left |
| GoComponents.UneditedSave | assignment_04/todoapp-go/front/src/components/TodoItem.js:26-31 | saving unedited fields sends the todo's own title, description and priority, and its due date shifted by the zone offset |
| PyModels.ParseBase | assignment_03/TodoApp01/backend/models.py:3-4 | valid exactly when `title` is a string |
| PyModels.ParseCreate | assignment_03/TodoApp01/backend/models.py:6-7 | valid exactly with a string title and a boolean or absent `completed`, which defaults to false |
| PyModels.ParseUpdate | assignment_03/TodoApp01/backend/models.py:9-10 | valid exactly with a string title and a boolean `completed`; there is no default |
| PyModels.EncodeCreate | assignment_03/TodoApp01/front/src/api.js:17 | the JSON object has exactly the keys title and completed |
| PyModels.EncodeUpdate | assignment_03/TodoApp01/front/src/api.js:31 | the JSON object has exactly the keys title and completed |
| PyModels.CreateRoundTrip | assignment_03/TodoApp01/backend/models.py:6-7 | validating an encoded create payload gives it back |
| PyModels.UpdateRoundTrip | assignment_03/TodoApp01/backend/models.py:9-10 | validating an encoded update payload gives it back |
| PyModels.TitleOnly | assignment_03/TodoApp01/backend/models.py:6-10 | a title-only body is an open todo to create, but not a valid update |
| PyModels.TitleRequired | assignment_03/TodoApp01/backend/models.py:3-4 | no schema accepts a body without a string title |
| PyBackend.Route | assignment_03/TodoApp01/backend/main.py:36-87 | routes as declared: first match wins and `{todo_id}` takes any segment |
| PyBackend.ClearCompletedShadowed | assignment_03/TodoApp01/backend/main.py:54-75 | `PUT /todos/clear-completed` reaches the update handler, and no request reaches clear-completed |
| PyBackend.RouteStaticFirst | assignment_03/TodoApp01/backend/main.py:75 | the clear-completed request reaches its handler; every other request is routed as before |
| PyBackend.StatusOf | assignment_03/TodoApp01/backend/main.py:37 | the last `status` value, or "all" when absent |
| PyBackend.Selected | assignment_03/TodoApp01/backend/main.py:38-44 | "completed": exactly the completed rows; "incomplete": exactly the others; any other status: every row |
| PyBackend.SelectionsPartition | assignment_03/TodoApp01/backend/main.py:38-41 | the completed and incomplete selections together have as many rows as the table |
| PyBackend.Find | assignment_03/TodoApp01/backend/main.py:56 | absent exactly when the id is not in the table; otherwise a row with that id |
| PyBackend.WithoutId | assignment_03/TodoApp01/backend/main.py:71 | exactly the rows with another id remain |
| PyBackend.Overwrite | assignment_03/TodoApp01/backend/main.py:60-61 | title and flag taken from the update, id kept |
| PyBackend.Updated | assignment_03/TodoApp01/backend/main.py:55-64 | same length; only the row with the id is overwritten |
| PyBackend.UpdatedKeepsIds | assignment_03/TodoApp01/backend/main.py:60-62 | an update keeps ids unique and the id set unchanged |
| PyBackend.WhereKeepsUnique | assignment_03/TodoApp01/backend/main.py:78-79 | deleting rows keeps the ids unique |
| PyBackend.SameIdSameRow | assignment_03/TodoApp01/backend/main.py:56 | in a table with unique ids, rows sharing an id are the same row |
| PyBackend.ClearedRows | assignment_03/TodoApp01/backend/main.py:75-81 | deleting the completed rows' ids one by one leaves the incomplete rows, with ids still unique and below the counter |
| PyBackend.DeletingDoneIds | assignment_03/TodoApp01/backend/main.py:77-79 | deleting the ids of the completed rows leaves exactly the incomplete rows, in order |
| PyBackend.DeleteOneMore | assignment_03/TodoApp01/backend/main.py:78-79 | one more pass of the deletion loop extends the deleted prefix by one row |
| PyBackend.Table.constructor | assignment_03/TodoApp01/backend/main.py:24-26 | an empty table |
| PyBackend.Table.ReadTodos | assignment_03/TodoApp01/backend/main.py:36-44 | 200 with the selected rows, the table unchanged |
| PyBackend.Table.CreateTodo | assignment_03/TodoApp01/backend/main.py:46-52 | 422 for an invalid body, nothing changed; otherwise 201 and a row with a fresh id and only title and flag is appended |
| PyBackend.Table.UpdateTodo | assignment_03/TodoApp01/backend/main.py:54-64 | 422 for an invalid body before 404 for a missing id, nothing changed; otherwise title and flag of that row overwritten |
| PyBackend.Table.DeleteTodo | assignment_03/TodoApp01/backend/main.py:66-73 | 404 for a missing id, nothing changed; otherwise exactly that row is gone |
| PyBackend.Table.ClearCompletedTodos | assignment_03/TodoApp01/backend/main.py:75-81 | the loop leaves exactly the incomplete rows, in order |
| PyBackend.Table.ClearAllTodos | assignment_03/TodoApp01/backend/main.py:83-87 | the table is empty |
| PyApi.Settle | assignment_03/TodoApp01/front/src/api.js:5-8 | the bare body exactly when the status is 2xx; otherwise the given error message |
| PyApi.ListQuery | assignment_03/TodoApp01/front/src/api.js:3-4 | one `status` pair, which the backend reads back unchanged |
| PyApi.DefaultStatusListsAll | assignment_03/TodoApp01/front/src/api.js:3-4 | the default status "all" lists every row |
| PyApi.GetTodos | assignment_03/TodoApp01/front/src/api.js:3-9 | `GET /todos?status=…`, routed to read_todos; the bare body when ok, else throws "Failed to fetch todos" |
| PyApi.CreateTodo | assignment_03/TodoApp01/front/src/api.js:11-23 | `POST /todos` with the object unchanged as body, routed to create_todo; the bare body when ok |
| PyApi.UpdateTodo | assignment_03/TodoApp01/front/src/api.js:25-37 | `PUT /todos/{id}` with the object unchanged as body, routed to update_todo; the bare body when ok |
| PyApi.DeleteTodo | assignment_03/TodoApp01/front/src/api.js:39-47 | `DELETE /todos/{id}`, routed to delete_todo; the bare body when ok |
| PyApi.ClearCompletedTodos | assignment_03/TodoApp01/front/src/api.js:49-57 | `PUT /todos/clear-completed`; reaches update as declared, clear-completed with the corrected routing |
| PyApi.ClearAllTodos | assignment_03/TodoApp01/front/src/api.js:59-67 | `DELETE /todos` with no id, routed to clear_all_todos; the bare body when ok |
| PyComponents.CheckboxFields | assignment_03/TodoApp01/front/src/components/TodoItem.js:8 | the title unchanged and the flag negated |
| PyComponents.CheckboxFlipsRow | assignment_03/TodoApp01/front/src/components/TodoItem.js:7-9 | the checkbox update passes validation, negates only the flag of the row, and a second click restores it |
| PyComponents.TodoForm.constructor | assignment_03/TodoApp01/front/src/components/TodoForm.js:4 | the title starts empty |
| PyComponents.TodoForm.SetTitle | assignment_03/TodoApp01/front/src/components/TodoForm.js:20 | the title becomes the typed text |
| PyComponents.TodoForm.Submit | assignment_03/TodoApp01/front/src/components/TodoForm.js:6-12 | a blank title calls nothing and keeps the field; otherwise add is called once with the raw title and the field is cleared |
| PyComponents.TodoItem.constructor | assignment_03/TodoApp01/front/src/components/TodoItem.js:4-5 | not editing, the title field holds the todo's title |
| PyComponents.TodoItem.Receive | assignment_03/TodoApp01/front/src/components/TodoItem.js:3-5 | a new `todo` prop leaves the edit state as it was |
| PyComponents.TodoItem.CheckboxChange | assignment_03/TodoApp01/front/src/components/TodoItem.js:7-9 | one update with the same title and the negated flag |
| PyComponents.TodoItem.DeleteClick | assignment_03/TodoApp01/front/src/components/TodoItem.js:31-33 | only the delete callback, with the id |
| PyComponents.TodoItem.EditClick | assignment_03/TodoApp01/front/src/components/TodoItem.js:15-17 | enters edit mode |
| PyComponents.TodoItem.TitleChange | assignment_03/TodoApp01/front/src/components/TodoItem.js:11-13 | only the edited title changes |
| PyComponents.TodoItem.SaveClick | assignment_03/TodoApp01/front/src/components/TodoItem.js:19-24 | blank: nothing called and the state unchanged; otherwise one update with the new title and the flag unchanged, edit mode left |
| PyComponents.TodoItem.CancelClick | assignment_03/TodoApp01/front/src/components/TodoItem.js:26-29 | the title field is reset from the todo, edit mode left, nothing called |

## Left out

- Infrastructure is not modelled: database connections, migrations, CORS, the Swagger route, the health check, ports and `main`. `database.py` is not part of this model.
- The `total` field of the Go list reply is not modelled. It is a count on a query that already carries the limit and offset.
- The `detail` text of error bodies is not modelled. So is the list of validation errors in a FastAPI 422 body.
- Id segments are natural numbers. These cases are not modelled:
  - a non-numeric or negative id segment. Gin passes it to GORM. FastAPI answers 422 for a non-numeric segment, apart from `clear-completed` in the Finding below, and 404 for a negative one, since no row has a negative id;
  - Gin's and Starlette's 404/405 replies for unmatched routes, for which `Route` gives None.
- GoBackend.Listed keeps rows in insertion order. MySQL lists by primary key. The two differ only when a client inserts an explicit id below an existing one, which `Todo.ID` binding allows but neither client does.
- GoBackend.Merge ignores any `id`, `created_at` or `updated_at` in an update body, and always sets the update time to `now`. The clients never send those fields.
- GoBackend.Table.CreateTodo models MySQL AUTO_INCREMENT as a counter that moves past an explicit id. PyBackend.Table.CreateTodo models the database's id choice as a counter above every id issued.
- Database failures in the Python handlers (an uncaught 500) are not modelled.
- PyModels.ParseCreate and PyModels.ParseUpdate accept only a JSON boolean for `completed` and a JSON string for `title`. Pydantic's lax mode also coerces values such as `"true"`, `1` or `0` to booleans.
- A due date is an instant in milliseconds since the epoch. Its RFC 3339 text, Go's sub-millisecond precision and the database column's precision are not modelled. `toLocaleString` and `parseInt` are not modelled either: a priority is already an integer.
- GoComponents.DueDatePayload and GoComponents.DueDateField take the zone offset as one constant. Daylight-saving changes, where the offset depends on the instant, are not modelled.
- GoApi and PyApi builders: a `fetch` that rejects (network failure) or a body that is not JSON makes the builder throw that error rather than its "Failed to …" message. A reply here always arrives with a JSON body, so that case is not modelled.
- GoStore.TaskStore.constructor sends nothing. The effect at `App.js:12-14` also runs after the first render; that first load is `FetchTodos` called on the new store, with the filter 'all', and is not a member of its own.
- The `todo.description || ''` and `todo.priority || 0` fallbacks are the identity here, because a Go record always has both fields.
- URL encoding of query values is not modelled.
- GoStore.TaskStore.ToggleTodoStatus and GoStore.TaskStore.ClearCompleted treat the un-awaited reload as finished before the handler returns.
- Handlers run one after another, so the async ordering and the stale `todos` closure of concurrent handlers are not modelled.
- Rendering (JSX, CSS classes, `TodoList`, `FilterButtons`) is not modelled. Neither are assignments 01 and 02.
- The Python client's `App.js` is not part of this model. The Python components return the callbacks they invoke, and nothing follows them further.

## Findings

| source | as written | input that shows it | evidently intended | confidence | as-written member | corrected member |
|---|---|---|---|---|---|---|
| assignment_04/todoapp-go/front/src/components/TodoItem.js:8-30 | the edit field shows the due date as UTC clock time, `toISOString().slice(0, 16)`, and Save reads the field back with `new Date(newDueDate)`, which takes a date-time without an offset as local time | in UTC+2, a todo due `2024-01-01T10:00:00Z` shows `10:00`; saving it unedited sends `2024-01-01T08:00:00.000Z`, and each further save moves it two hours more; in any zone the seconds are lost | the field shows local clock time, so an unedited save keeps a whole-minute due date | high, not executed | GoComponents.UneditedDueDateShifts | GoComponents.LocalDueDateRoundTrip |
| assignment_03/TodoApp01/backend/main.py:54-81 | `PUT /api/v1/todos/{todo_id}` is declared before `PUT /api/v1/todos/clear-completed`, and FastAPI tries routes in declaration order | `PUT /api/v1/todos/clear-completed` (the client's clear-completed request) reaches `update_todo`, whose `todo_id: int` rejects `clear-completed` with 422, so completed todos are never cleared | the static route is tried first, so the request reaches `clear_completed_todos` | high, not executed | PyBackend.ClearCompletedShadowed | PyBackend.RouteStaticFirst |
