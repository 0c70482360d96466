# Kanban task board — a Dafny model

This project models the in-memory logic of a small kanban task board with
two roles. An administrator creates tasks, deletes them and drags them
between nine columns. There is one column per area (INGENIERÍA, LOGÍSTICA,
MARKETING) and priority (Alta, Media, Baja). A worker sees the tasks of
their own area and changes their status (asignada, en_proceso, completada).
A login page decides which of the two the user is.

The model is functional. Every operation takes the current state and returns
the new one: a `Board` holds the master task list and the nine columns built
from it. Browser storage, toasts, routing and the clock are left out. What
they would supply (a fresh id, a URL, query parameters) is a parameter, and
what they would receive (a navigation, an error message) is a returned value.

Modules, following the source files:

- `Tasks` (tasks.dfy): the `ITask` and `UserTask` records, the enumerated
  area, priority and status values, and first-match lookup by id.
- `Kanban` (kanban.dfy): the nine columns and `filterTasks`.
- `DragDrop` (dragdrop.dfy): the list move and transfer done by the
  drag-and-drop toolkit.
- `App` (app.dfy): the board operations of `src/app/app.ts`.
- `SessionState` (session.dfy): the session read from the query parameters,
  and logout.
- `Dashboard` (dashboard.dfy): `src/app/user-dashboard/user-dashboard.component.ts`.
- `Login` (login.dfy): the decision of `src/app/login/login.ts`.
- `Text`, `Seqs`, `Wrappers`: lower-casing and prefix/suffix tests, `filter`,
  and `Option`.

Area, priority and status are string unions in TypeScript. At run time their
values come from form controls, query parameters and JSON read back from
storage, so the model keeps them as strings. The enumerated values are named
constants, and a closed `BucketId` names the columns.

The drop handler behaves in a surprising way, and the model reproduces it.
`updateTaskAfterDrop` does not look at the column the task was dropped on. It
rebuilds a name from the task's own area and priority, lower-cased, and tests
whether that name starts with the unaccented `ingenieria` or `logistica`.
Lower-casing keeps the accents (`ingeniería`, `logística`), so both tests
fail. A dropped task whose area and priority are enumeration values, and
whose id is on the master list, therefore becomes a MARKETING task of its old
priority (`App.DropMovesToMarketing`). The next rebuild of the columns then
moves it to the MARKETING column. A task with other values can come out
differently. For example, an area written `Ingenieria` passes the prefix test,
and an unknown priority that ends in neither `Alta` nor `Media`, such as
`Urgente`, becomes Baja.

Order and placement on the board:

- A new task is appended to the end of the master list (src/app/app.ts:193),
  so it lands last in its column.
- Columns keep master-list order, or the order the user dragged them into.
- `deleteTask` filters the master list by id. It ignores the column name it
  is given.
- A drop rebuilds no column. It rewrites the dropped task in place.

## Model

| member | source | states |
|---|---|---|
| Tasks.FindIndex | src/app/app.ts:247 | `findIndex` by id: -1 exactly when no task has the id, otherwise the first index holding it |
| Tasks.ToUserTask | src/app/app.ts:269-278 | the worker-side copy carries every field unchanged: copying it back gives the original task |
| Text.ToLower | src/app/app.ts:258 | `toLowerCase` keeps the length, lower-cases each character, and never yields the capitals `A` or `M` |
| Text.BeforeFirst | src/app/app.ts:189 | `split('T')[0]`: a prefix of the input with no `T` in it, ending where the first `T` stood |
| Kanban.Classify | src/app/app.ts:159-171 | the nested tests pick a column exactly when area and priority are both enumeration values, and then the column they name |
| Kanban.ClassifyIff | src/app/app.ts:159-171 | the nested tests select column `b` if and only if the task's area and priority are `b`'s |
| Kanban.FilterTasks | src/app/app.ts:151-172 | after clearing and pushing in list order, every column equals the filter of the master list by that column's area and priority |
| Kanban.FilterTasksMembership | src/app/app.ts:157-171 | a task is in column `b` if and only if it is on the master list and its fields select `b`: one column for a recognised task |
| Kanban.UnrecognisedOnNoColumn | src/app/app.ts:159-171 | a task with an unknown area or priority is on no column |
| Kanban.FilterTasksKeepsOrder | src/app/app.ts:158-171 | each column keeps master-list order: the columns of a concatenation are the concatenated columns |
| Kanban.FilterTasksCount | src/app/app.ts:151-172 | the columns together hold exactly as many tasks as the list holds recognised ones, so nothing is duplicated or lost |
| DragDrop.MoveItem | src/app/app.ts:218 | moving within one list keeps its length and elements, puts the moved one at the target index and keeps the others' order |
| DragDrop.MoveItemUndo | src/app/app.ts:218 | dragging an item back to where it came from restores the list |
| DragDrop.TransferItem | src/app/app.ts:220-225 | the source loses one element, the target gains it at the target index, and together they keep the same elements |
| DragDrop.TransferItemUndo | src/app/app.ts:220-225 | dragging a transferred item straight back restores both lists |
| App.AddTask | src/app/app.ts:179-202 | an invalid form (see the validators at src/app/app.ts:99-106) changes nothing; a valid one appends one task with status asignada, the fresh id, the submitted fields and the part of the timestamp before its first `T`, then rebuilds the columns and resets the form |
| App.ResetFormRejected | src/app/app.ts:194-198 | the reset form is invalid, so submitting it again adds nothing |
| App.AddTaskLandsLastInColumn | src/app/app.ts:193-199 | the new task goes to the end of its own column, and every other column is the rebuild of the old list |
| App.DeleteTask | src/app/app.ts:207-209 | what remains is exactly the tasks without the deleted id, each as often as before, and the columns are rebuilt from it |
| App.DeleteTaskIdempotent | src/app/app.ts:207-208 | deleting twice equals deleting once, whatever column names are passed |
| App.DeleteTaskKeepsOrder | src/app/app.ts:208 | the surviving tasks keep their relative order |
| App.DeleteAbsentTask | src/app/app.ts:208 | deleting an id not on the board leaves the master list unchanged |
| App.OnUserTaskStatusChanged | src/app/app.ts:284-291 | only the first task with the event's id takes the new status, everything else stays; with no such id the whole board is unchanged |
| App.StatusChangeReachesBoard | src/app/app.ts:284-291 | the event emitted by the dashboard's status change makes the board's copy equal to the dashboard's changed copy |
| App.ContainerName | src/app/app.ts:257-259 | the container name is the lower-cased area followed by the unchanged priority |
| App.DropAreaIsMarketing | src/app/app.ts:238-240 | for each of the three areas both unaccented prefix tests fail, so the new area is always MARKETING |
| App.DropPriorityBySuffix | src/app/app.ts:242-244 | the suffix tests depend on the priority text alone, never on the area |
| App.DropKeepsPriority | src/app/app.ts:242-244 | each of the three priorities is given back unchanged |
| App.UpdateTaskAfterDrop | src/app/app.ts:234-252 | only the first task with the dropped id takes the computed area and priority; with no such id nothing changes |
| App.DropColumns | src/app/app.ts:216-226 | within one column: a permutation of it in which the other items keep their order; between two: the source loses exactly the picked item and the target gains it at the drop index, with nothing else changed; other columns are untouched |
| App.OnDrop | src/app/app.ts:216-229 | the master-list rewrite applies to the task picked up; the columns are as after the move or transfer, except that the dropped item takes the new area and priority when its id is on the master list |
| App.DropMovesToMarketing | src/app/app.ts:234-252 | a listed task of known area and priority comes out of any drop as MARKETING with its old priority, and the next rebuild puts it in that MARKETING column |
| App.GetUserTasks | src/app/app.ts:266-279 | the worker sees copies of exactly the tasks of their area, each as often as the task occurs, and no more tasks than the list holds |
| App.GetUserTasksKeepsOrder | src/app/app.ts:267-268 | the worker's list keeps master-list order |
| SessionState.OrElse | src/app/app.ts:122-123 | the or-default of a string parameter: the parameter when present and non-empty, else the fallback |
| SessionState.OnQueryParams | src/app/app.ts:113-130 | a role logs the user in with that role; a worker takes name and area, defaulting to Trabajador and INGENIERÍA; with no role nothing changes and a dashboard URL is sent to login |
| SessionState.DashboardUrlRedirects | src/app/app.ts:125-129 | any URL containing `/dashboard` with no role redirects to login |
| SessionState.Logout | src/app/app.ts:139-143 | logout clears the logged-in flag and the role, keeps name and area, and sends the user to the login page |
| SessionState.LogoutThenParams | src/app/app.ts:113-124 | reading a role after logout gives the same session as reading it before |
| Dashboard.PriorityColorsDistinct | src/app/user-dashboard/user-dashboard.component.ts:48-59 | Alta, Media and Baja get three different colours; exactly the other values get the grey default |
| Dashboard.StatusLookupsDistinct | src/app/user-dashboard/user-dashboard.component.ts:62-87 | the three statuses get three different icons and labels; only other values get `help`, and their label is the value itself |
| Dashboard.TasksByStatus | src/app/user-dashboard/user-dashboard.component.ts:100-102 | exactly the tasks with the given status, each as often as in the list |
| Dashboard.TasksByStatusKeepsOrder | src/app/user-dashboard/user-dashboard.component.ts:100-102 | the status view keeps the list's order: the view of a concatenation is the concatenated views |
| Dashboard.StatsCount | src/app/user-dashboard/user-dashboard.component.ts:104-106 | the count is the size of the status view, so at most the number of tasks |
| Dashboard.StatsCountsSum | src/app/user-dashboard/user-dashboard.component.ts:100-106 | when every status is one of the three, the three counts add up to the number of tasks |
| Dashboard.SumPayAppend | src/app/user-dashboard/user-dashboard.component.ts:108-111 | appending a task adds exactly its pay to the total |
| Dashboard.SumPayNonNegative | src/app/user-dashboard/user-dashboard.component.ts:108-111 | with no negative pay the total is not negative |
| Dashboard.TotalEstimatedPay | src/app/user-dashboard/user-dashboard.component.ts:108-111 | the reduce from 0 equals the reference sum: 0 for no tasks, non-negative when no pay is negative |
| Dashboard.ChangeStatus | src/app/user-dashboard/user-dashboard.component.ts:89-94 | the task takes the new status and keeps every other field; the event names that task's id and the new status |
| Login.Submit | src/app/login/login.ts:48-66 | an empty field does nothing, and only then; a wrong password always gives the password error; a navigation goes to the dashboard and needs the right password |
| Login.SubmitWithPassword | src/app/login/login.ts:57-65 | with the right password: admin goes to the dashboard as admin, juan as worker Juan García of INGENIERÍA, anyone else gets the unknown-user error |
| Login.ValidSubmitHasOneEffect | src/app/login/login.ts:49-66 | a valid submission either shows an error or navigates, never both and never neither |
| Login.LoginEstablishesSession | src/app/login/login.ts:57-62 | following a successful login's navigation yields a logged-in session with the intended role, name and area |

`Kanban.FilterTasks` takes the master list alone, so the columns it builds
cannot depend on what they held before. Clearing them first, and getting the
same columns from a second run, hold by construction.

The board's own `getStatusLabel` and `getStatusIcon` (src/app/app.ts:307-323)
are the same tables as the dashboard's. They are defined once, in `Dashboard`.

## Left out

- Persistence: `saveTasks` and `loadTasks` write and read browser storage through JSON. A snapshot is just the `tasks` sequence, so no operation models it.
- Id generation and date formatting: the creation time that gives the id, and the chosen date's ISO timestamp, are inputs to `AddTask`. Two tasks made in the same millisecond can share an id, and nothing here prevents it.
- Toasts (`MatSnackBar`) and `onViewTaskDetails`: their only effect is a message on screen.
- Router navigation and the query-parameter subscription: they are returned values and parameters. The call to `filterTasks` at the end of the subscription is `App.Refresh`.
- `DragDrop.MoveItem` and `DragDrop.TransferItem`: the toolkit clamps out-of-range indices. Its source is not part of this model, so the indices are required to be in range.
- App.OnDrop: a column holds the same objects as the master list. When the dropped task's id is found, the model rewrites the column copy too. This is exact when ids are unique; with duplicate ids the source might rewrite a different object.
- Text.ToLower: lower-cases only ASCII and the Latin-1 Supplement capitals. These cover every area name the program uses.
- Dashboard.TotalEstimatedPay: pay is an integer. Floating-point rounding, and the `|| 0` fallback for an undefined or NaN pay, are not modelled.
- Form controls hold `null` after a reset; the model uses the empty string and `None`.
- src/app/app.routes.ts: route configuration only, with no logic.
- Templates, styles and the Angular component wiring.
