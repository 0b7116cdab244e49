# Youth Balance dashboard and record store — a Dafny model

Youth Balance is a small Flask web application. Each user signs up, logs in,
and keeps three kinds of personal records: tasks, notes and goals. It has two
parts, and this project models both.

- **The record store (app.py).** SQLite holds a `users` table and three
  per-user tables: `user_tasks`, `user_notes` and `user_goals`. A JSON API
  lists, inserts, updates and deletes rows, each scoped to the logged-in
  user, and it can toggle a task's `completed` flag. Signup checks the form,
  rejects a taken username and seeds every new account with 4 tasks, 4 notes
  and 3 goals.
- **The dashboard (static/dashboard.js).** The browser side keeps a cache of
  each collection and renders it as cards. It shows summary figures and
  drives three add/edit dialogs. Each dialog carries a mode marker (create,
  or edit with an id) that decides whether a submission adds or updates.

## Modules

| File | Module | Contents |
|---|---|---|
| `wire.dfy` | `Wire` | Values shared by both sides: `Option`, the record kind, JSON values, the requests the dashboard sends, and the three outcomes of a `fetch` (`Ok`, a non-2xx `NotOk`, and a rejected `Thrown`). |
| `dashboard_view.dfy` | `DashboardView` | The cached records, the card and placeholder rendering rule (a `method` with a loop), and the overview statistics. |
| `dashboard_forms.dfy` | `DashboardForms` | The dialog state machine, submit dispatch, and the effect lists of the write handlers. |
| `dashboard_controller.dfy` | `DashboardController` | A `class Controller` with the page's mutable state, and one method per event handler. |
| `store_tables.dfy` | `StoreTables` | Table rows and column values, with the SQL statements as functions on sequences of rows. |
| `store_signup.dfy` | `SignupRules` | The signup form checks, including the email pattern with Python's `re.match` semantics. |
| `store_database.dfy` | `Database` | A `class Store` with the four tables and their AUTOINCREMENT counters. One method per endpoint, plus the seeding loops. |
| `end_to_end.dfy` | `EndToEnd` | Lemmas about what the API does with the requests the dashboard's forms send. |

### Dashboard state

- **Dialog invariant.** `Controller.Valid` states that every dialog's heading
  matches its mode marker. It also states that a hidden dialog is never in
  edit mode: every path that hides a dialog resets it. So reopening a dialog
  with "add" can never submit a leftover edit.
- **Write handlers.** Each handler is modelled as a function from the
  request's outcome to an ordered list of effects. The effects are
  `Notify`, `CloseModal`, `ResetForm`, `ResetFields`, `Load` and
  `LoadStats`. `Perform` applies the effects to a dialog.

### Store

- **Row constraints.** `Store.Valid` holds the schema's constraints:
  - every row has a non-null title;
  - row ids are increasing and below the table's counter;
  - usernames are unique;
  - every row belongs to a user id the users counter has handed out.

  Every endpoint preserves `Valid`.
- **Sessions.** A request's session is `Some(user_id)` when logged in and
  `None` otherwise.
- **Missing or null title.** A missing `title` raises a `KeyError` and
  aborts the request with a 500. A null `title` violates the NOT NULL
  constraint:
  - on INSERT it always does;
  - on UPDATE it does only when a row matches.

  In both cases no change is committed and the AUTOINCREMENT counter does
  not advance.
- **Goal edits reset progress.** The dashboard's goal edit sends
  `progress: 0` beside the comment "Keep existing progress" in
  static/dashboard.js:639. Every edit made through the dashboard therefore
  resets the goal's progress to 0. The model keeps this behaviour as written
  and proves it (`EndToEnd.EditedGoalLosesProgress`).
- **Seeded note texts.** The seeded note texts contain a backslash followed
  by `n` where a line break was evidently meant. They are kept exactly as
  stored.

## Model

| member | source | states |
|---|---|---|
| DashboardView.FindIndex | static/dashboard.js:521-522 | `find` by id: a found index holds the id and no earlier record does; not found means no record has the id |
| DashboardView.TaskCardOf | static/dashboard.js:231-260 | a task card carries the task's id (which its checkbox, edit and delete buttons act on), title, priority, category and completion; its description is the task's when present and empty when null, so it is empty exactly when the task's is null or empty |
| DashboardView.NoteCardOf | static/dashboard.js:289-314 | a note card carries the note's id, title, category and color; its content is the note's when present and empty when null, so it is empty exactly when the note's is null or empty |
| DashboardView.GoalCardOf | static/dashboard.js:343-373 | a goal card carries the goal's id, title, progress, target date and status; its description is the goal's when present and empty when null, so it is empty exactly when the goal's is null or empty |
| DashboardView.Render | static/dashboard.js:217-229 | an empty collection renders as exactly one placeholder; otherwise exactly one card per record, card i built from record i, in input order |
| DashboardView.Filter | static/dashboard.js:386-390 | `filter` keeps exactly the elements that pass, never more than the input |
| DashboardView.FilterAppend | static/dashboard.js:386-390 | filtering distributes over concatenation |
| DashboardView.FilterExtremes | static/dashboard.js:386-390 | the filtered length equals the input length iff every element passes, and is 0 iff none does |
| DashboardView.PendingPlusCompleted | static/dashboard.js:386-391 | every task is pending or completed, so pending + completed = total |
| DashboardView.AppendTaskPending | static/dashboard.js:386 | adding a task raises the pending count by one exactly when it is not completed |
| DashboardView.CompleteTaskPending | static/dashboard.js:386 | completing one pending task lowers the pending count by exactly one |
| DashboardView.CompletionPercent | static/dashboard.js:390-392 | 0 with no tasks; otherwise the nearest integer to 100·completed/total, halves rounded up; always within 0..100; 100 when all are completed, 0 when none is |
| DashboardView.HalfUp | static/dashboard.js:392 | `Math.round(c/n*100)` as exact half-up rounding: `2n·p <= 200c + n < 2n·(p+1)`, within 0..100, with the ends exact |
| DashboardView.ComputeStats | static/dashboard.js:386-393 | the four overview figures: pending + completed = total (all pending iff no task is completed, none pending iff all are); the note count; the active-goal count, which is the number of goals whose status is exactly "active" (the total iff all are, 0 iff none is); and the percentage, which is `CompletionPercent` of the tasks |
| DashboardForms.ModalKind | static/dashboard.js:449-455 | an element id names a record dialog iff it is one of the three modal ids, and then names the dialog with that id |
| DashboardForms.Initial | static/dashboard.js:664-684 | the dialog as loaded is hidden, in create mode, with the "Add New …" heading |
| DashboardForms.Reset | static/dashboard.js:664-684 | `reset*Form` clears the fields and the mode marker and restores the add heading, leaving visibility alone |
| DashboardForms.Close | static/dashboard.js:431-441 | `closeModal` hides and resets, which gives exactly the initial dialog |
| DashboardForms.Open | static/dashboard.js:422-430 | showing a dialog keeps its mode and fields, and a dialog opened from hidden is in create mode with the add heading |
| DashboardForms.ClearFields | static/dashboard.js:131 | `e.target.reset()` restores the field defaults but keeps the mode marker |
| DashboardForms.StartEdit | static/dashboard.js:520-536 | an edit shows the dialog in edit mode on that id, with the record's fields and the "Edit …" heading |
| DashboardForms.AddBody | static/dashboard.js:111-126 | the body of an add has exactly the form's keys (title, description, priority, category for a task; title, content, category, color for a note; title, description, target_date for a goal), each holding the string entered in that field, and never `progress` |
| DashboardForms.UpdateBody | static/dashboard.js:633-640 | the body of an update holds the add body's fields unchanged, and adds `progress: 0` exactly for a goal |
| DashboardForms.Dispatch | static/dashboard.js:72-109 | a submission is a PUT to the edit id exactly when the marker says edit, else a POST of that kind; it always carries the title; a goal PUT carries `progress: 0`, and no other request carries `progress`; every other key is one of the add body's, with the same value, and all of them are present |
| DashboardForms.AddEffects | static/dashboard.js:127-140 | a successful add emits exactly five effects in this order: the success notification, closing the dialog, `e.target.reset()`, the reload of the kind, the stats reload; a failed or rejected add emits exactly one error notification |
| DashboardForms.UpdateEffects | static/dashboard.js:587-599 | a successful update emits exactly five effects in this order: the success notification, closing the dialog, `reset*Form`, the reload of the kind, the stats reload; a failure emits exactly one error notification |
| DashboardForms.DeleteEffects | static/dashboard.js:474-488 | a non-2xx delete does nothing at all; success emits exactly three effects in this order: the "… deleted successfully!" notification, the reload of the kind, the stats reload; only a rejected request reports an error; never touches a dialog |
| DashboardForms.ToggleEffects | static/dashboard.js:460-472 | a toggle never notifies; on success it emits exactly two effects, the tasks reload and then the stats reload, and otherwise none |
| DashboardForms.WriteSettlesDialog | static/dashboard.js:127-136 | after a successful add or update the dialog is exactly as on page load; after a failure it is untouched (a failed edit stays open in edit mode) |
| DashboardForms.DeleteAndToggleKeepDialog | static/dashboard.js:460-488 | deleting or toggling leaves every dialog as it was |
| DashboardForms.EditThenSubmit | static/dashboard.js:76-83 | a submission after an edit is a PUT to the edited id; once the dialog is closed in between, the same submission is a POST |
| DashboardController.SectionEffects | static/dashboard.js:55-70 | each of the four known sections fetches exactly its own data; any other name fetches nothing |
| DashboardController.AddDialogFor | static/dashboard.js:406-421 | "add" opens the note or goal dialog from those sections and the task dialog from every other section |
| DashboardController.TaskEntryOf | static/dashboard.js:524-527 | the task form is filled with the task's title, priority and category, and its description when present or `''` when null |
| DashboardController.NoteEntryOf | static/dashboard.js:541-544 | the note form is filled with the note's title, category and color, and its content when present or `''` when null |
| DashboardController.GoalEntryOf | static/dashboard.js:558-560 | the goal form is filled with the goal's title, and its description and target date when present or `''` when null |
| DashboardController.Controller.constructor | static/dashboard.js:3-6 | the overview section is current, the caches are empty and every dialog is in its initial state |
| DashboardController.Controller.ShowSection | static/dashboard.js:41-53 | changes only the current and the visible section: an existing section becomes current and visible and fetches its data; a missing one leaves the current section unchanged, shows no section and fetches nothing |
| DashboardController.Controller.ShowAddModal | static/dashboard.js:406-430 | changes only the dialogs: opens the one chosen by the current section, leaving it in create mode if it was hidden, and no other |
| DashboardController.Controller.LoadTasks | static/dashboard.js:204-215 | changes only the task cache and grid: an ok response replaces the whole cache and re-renders the grid from it; otherwise nothing changes |
| DashboardController.Controller.LoadNotes | static/dashboard.js:262-273 | as for tasks, changing only the notes cache and grid |
| DashboardController.Controller.LoadGoals | static/dashboard.js:316-327 | as for tasks, changing only the goals cache and grid |
| DashboardController.Controller.RefreshStats | static/dashboard.js:375-397 | changes only the figures: when the three arrays arrive they become `ComputeStats` of them; when a fetch or parse throws they stay |
| DashboardController.Controller.EditTask | static/dashboard.js:520-536 | changes only the task dialog: an id not in the cache changes nothing; otherwise the dialog enters edit mode on that id, filled by `TaskEntryOf` from the first cached task with it (`''` for a null description) |
| DashboardController.Controller.EditNote | static/dashboard.js:537-553 | as for tasks, changing only the note dialog, filled by `NoteEntryOf` |
| DashboardController.Controller.EditGoal | static/dashboard.js:554-569 | as for tasks, changing only the goal dialog, filled by `GoalEntryOf` (`''` for a null target date) |
| DashboardController.Controller.CloseModal | static/dashboard.js:431-441 | changes only the dialogs: the closed one returns to its initial state, the others are untouched |
| DashboardController.Controller.OutsideClick | static/dashboard.js:442-458 | changes only the dialogs: a click on a record dialog's backdrop resets that dialog to its initial state; every other click changes nothing |
| DashboardController.Controller.Submit | static/dashboard.js:72-109 | the request goes to the entry's kind, and is a PUT to the edit id exactly when that dialog is in edit mode; its body holds every field of the add body with the entered value, no other key except `progress`, and `progress: 0` exactly on a goal PUT |
| DashboardController.Controller.HandleAdd | static/dashboard.js:111-202 | changes only the dialogs: emits `AddEffects` and applies them, so success leaves the dialog as on page load and failure changes nothing at all |
| DashboardController.Controller.HandleUpdate | static/dashboard.js:571-662 | changes only the dialogs: emits `UpdateEffects` and applies them, with the same outcome as for an add |
| StoreTables.FindOwned | app.py:312 | finds a row with that id owned by that user, and finds none exactly when there is none |
| StoreTables.OwnedBy | app.py:206-208 | a user's list holds exactly the table's rows with that `user_id`, each as many times as in the table |
| StoreTables.DeleteOwned | app.py:217-218 | removes exactly the rows with that id and owner and keeps every other row; with no such row the table is unchanged |
| StoreTables.DeleteKeepsIncreasing | app.py:217-218 | a delete keeps row ids increasing |
| StoreTables.UpdateOwned | app.py:219-223 | an UPDATE rewrites every row with that id and owner by the SET clause and leaves every other row as it was |
| StoreTables.NewTask | app.py:197-204 | fails exactly when the title is missing or null; otherwise a pending task row with the next id, the user, the sent title, and each of description, priority and category as sent, or '' / 'medium' / 'general' when absent |
| StoreTables.NewNote | app.py:236-243 | fails exactly when the title is missing or null; otherwise a note row with the next id, the user, the sent title, and each of content, category and color as sent, or '' / 'general' / '#ff99c8' when absent |
| StoreTables.NewGoal | app.py:275-281 | fails exactly when the title is missing or null; otherwise a goal row at progress 0 and 'active', with the sent title, the description as sent or '', and the target date as sent or NULL |
| StoreTables.PutTask | app.py:219-223 | fails exactly when the title is missing, or null while the row exists; otherwise only title, description, priority and category of the owned row change (with the defaults for absent fields), and every other row and column is kept |
| StoreTables.PutNote | app.py:258-262 | the same for notes: only title, content, category and color of the owned row change |
| StoreTables.PutGoal | app.py:296-300 | the same for goals: title, description (or '') and target date (or NULL) as sent, progress the value sent or 0 when absent, and status never changes |
| StoreTables.FlipOwned | app.py:306-318 | negates `completed` on exactly the owned rows with that id and keeps every other row |
| StoreTables.FlipTwice | app.py:312-315 | toggling twice restores the table |
| StoreTables.FlipMissing | app.py:312-313 | toggling an id the user does not own changes nothing |
| StoreTables.ReadThenWriteFlips | app.py:312-315 | with unique ids, reading the row's flag and writing its negation flips exactly that row |
| SignupRules.MatchesWhole | app.py:143 | splitting at the first `@` and the last `.` after it decides exactly whether the pattern matches the whole string |
| SignupRules.MatchesWholeCorrect | app.py:143 | the split-based check agrees with the existence of any split |
| SignupRules.EmailMatches | app.py:143 | `re.match` succeeds exactly when the pattern matches the string, or the string minus one trailing line feed |
| SignupRules.AcceptedEmails | app.py:143 | `a@b.co`, `a@b.co` followed by a line feed, and `a@..co` pass the pattern |
| SignupRules.RejectedEmails | app.py:143 | `a@b.c` (one-letter top-level domain) and `@b.co` (empty local part) fail it |
| SignupRules.CheckForm | app.py:139-145 | missing fields exactly when the username or password is empty; a bad email exactly when both are given and a non-empty email fails the pattern; acceptable otherwise |
| Database.CheckAuth | app.py:66-69 | 401 exactly when the session has no user id, else that id |
| Database.NewRow | app.py:197-204 | the POST of any table fails exactly when the title is missing or null; otherwise the row has that table's kind, the next id, the user and a non-null title |
| Database.PutRows | app.py:219-223 | the PUT of any table fails exactly when the title is missing, or null with a matching row; ids, owners and kinds never change, other rows are kept, and the owned row takes the title |
| Database.DefaultSizes | app.py:72-90 | the default lists hold 4 tasks, 4 notes and 3 goals |
| Database.SeedTaskRows | app.py:92-93 | seeded task i is a pending task of the new user with id `first + i` and the title, description, priority and category of default entry i |
| Database.SeedNoteRows | app.py:94-95 | seeded note i belongs to the new user, has id `first + i` and the title, content, category and color of default entry i |
| Database.SeedGoalRows | app.py:96-97 | seeded goal i belongs to the new user, has id `first + i`, the title and description of default entry i and target date i, and is at progress 0 and 'active' |
| Database.SeedsBelongToUser | app.py:92-97 | every seeded row belongs to the new user; seeded tasks are pending; seeded goals are at 0 and 'active' |
| Database.AllOwned | app.py:206 | listing rows that all belong to the user returns them all, in order |
| Database.OwnedByAppend | app.py:206 | listing distributes over rows appended to a table |
| Database.NoneOwned | app.py:206 | listing rows none of which belongs to the user returns nothing |
| Database.Store.constructor | app.py:17-61 | a fresh database: empty tables, every AUTOINCREMENT counter at 1, and the default lists of `create_default_content` |
| Database.Store.List | app.py:206-208 | 401 exactly without a session, never 500; otherwise exactly the user's rows of that table, each as many times as it occurs there |
| Database.Store.Post | app.py:197-204 | for a session that names a registered user: 401 and no change without a session; 500 and no change on a bad title; otherwise appends the new row, answers its id, advances only that counter and touches no other table |
| Database.Store.Delete | app.py:217-227 | 401 and no change without a session; otherwise success even when nothing matched, with only the user's row of that id removed |
| Database.Store.Put | app.py:219-227 | 401 and no change without a session; 500 and no change when `PutRows` fails; otherwise success with that table replaced by `PutRows` and nothing else touched |
| Database.Store.Toggle | app.py:306-318 | 401 and no change without a session; otherwise success, with exactly the owned task's flag negated (nothing when there is none) and every other table untouched |
| Database.Store.CreateDefaultContent | app.py:71-97 | appends the seeded tasks, notes and goals for the user, with ids from each table's counter, and advances each counter by its list's length |
| Database.Store.Signup | app.py:134-159 | incomplete, bad email and taken username each leave the database unchanged (the name check is exact and case-sensitive); otherwise adds the user with the next id, hashed password and default color, seeds the defaults, and advances each counter by the rows it handed out; the new user then owns exactly the seeded rows of each table |
| Database.Store.Register | app.py:147-151 | the user INSERT takes the next user id, the hashed password and the default color; the seeded rows follow in each table, and the new user owns exactly them |
| Database.Store.AddUser | app.py:149 | appends the user row with the counter's id and advances that counter, keeping every constraint |
| Database.InsertSeedTasks | app.py:92-93 | the insert loop appends exactly the seeded task rows and advances the counter by their number |
| Database.InsertSeedNotes | app.py:94-95 | the same for the default notes |
| Database.InsertSeedGoals | app.py:96-97 | the same for the default goals |
| Database.AppendRunKeepsValid | app.py:92-97 | appending rows with consecutive ids from the counter keeps the table's constraints |
| Database.SeedsKeepValid | app.py:71-97 | seeding keeps every table's constraints, with each counter advanced |
| Database.PutKeepsValid | app.py:219-223 | a successful PUT keeps the table's constraints and every row's owner; a null title gets through only when no row is written |
| Database.AppendKeepsValid | app.py:197-204 | an insert with the counter's id keeps the table's constraints |
| Database.AddUserKeepsValid | app.py:149 | adding a user with an unused name keeps ids increasing and usernames unique |
| Database.FlipKeepsValid | app.py:312-315 | toggling keeps the tasks table's constraints and every row's owner |
| Database.SignupSeedsNewUser | app.py:149-151 | when every existing row belongs to an earlier user id, which `Store.Valid` guarantees for the next id, the new user owns exactly the seeded tasks, notes and goals |
| Database.OwnedAfterSeeding | app.py:206 | after rows of earlier users, appended rows of one user are exactly what that user lists |
| Database.AppendKeepsOwners | app.py:197-204 | a row written for a registered user keeps every row's owner among the handed-out user ids |
| Database.SeedsKeepOwners | app.py:71-97 | seeding for a handed-out user id keeps every row's owner among the handed-out user ids |
| EndToEnd.SubmissionsNeverFail | static/dashboard.js:111-126 | a dashboard submission always has a string title, so neither its INSERT nor its UPDATE fails on the title |
| EndToEnd.AddedTaskIsPending | app.py:197-201 | a task added from the dashboard is stored pending, with exactly the entered fields |
| EndToEnd.AddedNoteIsStored | app.py:236-243 | a note added from the dashboard is stored with exactly the entered fields; no column default applies |
| EndToEnd.AddedGoalIsActive | app.py:275-281 | a goal added from the dashboard is stored active at progress 0 with the entered fields; a blank date is stored as empty text, never NULL |
| EndToEnd.EditedGoalLosesProgress | static/dashboard.js:633-640 | editing a goal from the dashboard resets the owned row's progress to 0 and keeps its status |

## Left out

- DOM and HTML: markup, CSS classes, `style.display` and the navigation highlight are left out. Cards, placeholders and dialogs are abstract values.
- Missing elements are left out. The guard `if (!container) return` in the render functions is not modelled; the grids are assumed present.
- `fetch` and HTTP are left out. Every request is one of three outcomes: `Ok`, `NotOk` or `Thrown`.
- HandleAdd: a 2xx answer to an add whose body then fails to parse (`await response.json()` in static/dashboard.js:128) is folded into `Thrown`, which gives the same single error notification.
- RefreshStats: `loadDashboardStats` never checks `response.ok`. The `None` case stands for a fetch or parse that throws, or an error body (such as the 401 object) on which `.filter` throws. An answer that parses to arrays is used whatever its status.
- Handlers do not run concurrently. The `Load`/`LoadStats` effects name the fetches a handler starts, and their results arrive through `LoadTasks` and `RefreshStats`. The `Promise.all` inside `loadDashboardStats` is folded into one optional triple of arrays.
- Notifications are reduced to one `Notify(level, message)` effect. The `setTimeout` animation and removal are not modelled.
- `formatDate` and every `created_at` timestamp are left out, because they depend on locale and clock.
- DashboardView.CompletionPercent: `Math.round` on a floating-point quotient is idealised as exact half-up rounding of the rational 100·completed/total. The two differ where the double product falls just below a half: for 23 of 40 tasks, `0.575 * 100` is slightly under 57.5, so the page shows 57 and the model 58.
- Database.Store.List: the `ORDER BY created_at DESC` order is not modelled. The contract states which rows are returned, not their order, because ties at one-second resolution are unspecified.
- The goals' target dates (30, 60 and 90 days from `datetime.now()`) are a parameter `dates` of `Signup` and `CreateDefaultContent`.
- `hash_password` is an injective `Sha256(password)` constructor. SHA-256 itself is left out.
- The Flask plumbing is left out: routing, templates, `flash`, redirects, login, logout, `session` lifetime and `app.run`. The session is an `Option<int>` parameter.
- Database.Store.Post: requires that a logged-in session names a registered user. Only `login` (app.py:113-116) sets `session['user_id']`, from a `users` row, and no endpoint deletes users; a forged or stale session cookie is not modelled.
- JSON values are reduced to null, strings and integers. Booleans, floats, arrays and nested objects in a request body are left out; the dashboard never sends them.
- The dashboard's cached records hold `priority`, `category`, `color`, `progress` and `status` as non-null values. The store keeps a `null` sent for one of those columns as NULL (`data.get` returns a present null), which only a client other than the dashboard can send; such rows are not modelled on the dashboard side.
- SQLite connection handling and type affinity are left out. Rows hold typed values (NULL, text, integer).
- Request bodies that are not JSON objects are left out, and so are form posts missing the `username` or `password` field (Flask's 400).
- The `__main__` block that creates a test user is left out.
- Signup's default lists are fixed by the `Store` constructor (`defaults`). The seeding methods read them from that field rather than rebuilding them on every call.
