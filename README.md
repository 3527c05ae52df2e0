# EnhancedTodoApp task store, in Dafny

This project models the state machine of the single `App` component of a browser
to-do list (`src/App.jsx`). The component holds six pieces of state: the task list,
the add-box text, the id of the task being edited, the edit-box text, the active
filter and the dark-theme flag. Its handlers add a task, open a task for editing, save
an edit, toggle a task's completion and toggle the theme. A pure derivation gives the
tasks visible under the filter. The theme flag is the only value kept in the browser's
key-value store.

Layout:

- `wrappers.dfy` (`Wrappers`): `Option`, standing for JavaScript's `null`.
- `js_string.dfy` (`JsString`): `String.prototype.trim`, which is what the add guard tests.
- `task_list.dfy` (`TaskList`): the `Task` record and the list computations the handlers pass to `setTasks`. These are the spread-append, the two `tasks.map` rewrites and `tasks.filter`. All are pure functions over `seq<Task>`, with lemmas.
- `preference.dfy` (`Preference`): the stored-string parse and serialisation of the theme flag, and start-up as a pure function of the stored value.
- `todo_app.dfy` (`TodoApp`): class `App`, whose six fields are the component's state. It has one method per handler and per setter. Each method's `modifies` clause names only the fields it sets, so every other field is unchanged. In particular, only `SetFilter` changes `filter`, and `FilteredTasks` reads only `tasks` and `filter`.

Task ids come from `Date.now()`, so the caller supplies them as a parameter. The code
does not make ids unique: two adds in the same millisecond share one. So saving an edit
and toggling are specified over every task whose id matches. `DistinctIds` is an
optional invariant. It is kept when each add supplies an unused id, and under it each of
those operations touches exactly the one task with that id, and none when no task has it.

Two behaviours of the code are kept as written:

- `addTask` tests `newTask.trim()` but stores the untrimmed `newTask` (src/App.jsx:14-15).
- `saveEdit` stores the edit text verbatim, with no trim and no emptiness check (src/App.jsx:27-29). An empty text is accepted.

## Model

| member | source | states |
|---|---|---|
| `TodoApp.App.constructor` | src/App.jsx:5-10 | the initial state: no tasks, empty add-box and edit-box, nothing being edited, filter "all", light theme |
| `TodoApp.App.SetNewTask` | src/App.jsx:78 | the add-box text becomes the typed value; nothing else changes |
| `TodoApp.App.SetEditedText` | src/App.jsx:111 | the edit-box text becomes the typed value; nothing else changes |
| `TodoApp.App.SetFilter` | src/App.jsx:83-100 | the filter becomes the chosen value; it is the only method whose frame includes `filter` |
| `TodoApp.App.AddTask` | src/App.jsx:13-18 | a blank add-box leaves tasks and add-box unchanged; otherwise exactly one pending task with the untrimmed text and the given id is appended and the add-box is cleared; a fresh id keeps ids distinct |
| `TodoApp.App.StartEditing` | src/App.jsx:21-24 | the edited id and the edit text are overwritten; no task changes, so a previous unsaved edit is dropped without touching its task |
| `TodoApp.App.SaveEdit` | src/App.jsx:26-31 | the list becomes `WithText` of the old list with the edit text, verbatim; nothing is being edited afterwards |
| `TodoApp.App.ToggleCompletion` | src/App.jsx:34-38 | the list becomes `Toggled` of the old list; nothing else changes |
| `TodoApp.App.FilteredTasks` | src/App.jsx:41-45 | the visible tasks are `Filtered` of the tasks under the filter: an order-preserving subsequence of the tasks, holding exactly the tasks the filter shows, computed from `tasks` and `filter` only |
| `TodoApp.App.ToggleDarkMode` | src/App.jsx:48-50 | the theme flag is negated; nothing else changes |
| `TodoApp.App.Mount` | src/App.jsx:53-61 | at start-up the flag becomes what the store held, and the value written back loads to that flag (corrected effect order, see Findings) |
| `TodoApp.App.SavedPreference` | src/App.jsx:53-55 | the string the save effect writes loads back as the current flag |
| `JsString.TrimStart` | src/App.jsx:14 | the result is a suffix of the input, everything dropped is whitespace, it does not start with whitespace, and it is empty exactly when the input is blank |
| `JsString.TrimEnd` | src/App.jsx:14 | the result is a prefix of the input, everything dropped is whitespace, it does not end with whitespace, and it is empty exactly when the input is blank |
| `JsString.IsWhitespace` | src/App.jsx:14 | the characters `trim()` strips: the ECMAScript WhiteSpace and LineTerminator code points |
| `JsString.Trim` | src/App.jsx:14 | `trim()` is empty exactly when every character is whitespace; otherwise it is the slice of the input left after dropping a blank head and a blank tail, with non-whitespace ends |
| `JsString.TrimDropsOnlyEnds` | src/App.jsx:14 | stripping the head and then the tail leaves the middle slice of the input, and everything dropped on either side is whitespace |
| `TaskList.Ids` | src/App.jsx:15 | the ids of the tasks, position by position |
| `TaskList.Appended` | src/App.jsx:15 | the old tasks are kept as a prefix, and one task follows with the given id and text, not completed |
| `TaskList.AppendedFreshKeepsDistinct` | src/App.jsx:15 | appending with an id not in the list keeps ids pairwise distinct |
| `TaskList.WithText` | src/App.jsx:27-29 | same length; every task with a matching id gets the new text, ids and completion flags are kept, and other tasks are unchanged |
| `TaskList.WithTextKeepsIds` | src/App.jsx:27-29 | saving an edit keeps the id sequence, and hence keeps ids distinct |
| `TaskList.WithTextUnique` | src/App.jsx:27-29 | with distinct ids, saving rewrites the text of exactly the one task with that id |
| `TaskList.Toggled` | src/App.jsx:35-37 | same length; every task with a matching id has its completion negated, and ids, texts and other tasks are kept |
| `TaskList.ToggledKeepsIds` | src/App.jsx:35-37 | toggling keeps the id sequence, and hence keeps ids distinct |
| `TaskList.ToggledTwice` | src/App.jsx:35-37 | toggling the same id twice restores the original list |
| `TaskList.ToggledUnique` | src/App.jsx:35-37 | with distinct ids, toggling flips exactly the one task with that id |
| `TaskList.Shown` | src/App.jsx:42-44 | the filter callback: "completed" shows completed tasks, "pending" shows the others, and any other value shows every task |
| `TaskList.AbsentIdChangesNothing` | src/App.jsx:27-29 | saving an edit or toggling for an id that no task has leaves the list unchanged |
| `TaskList.Filtered` | src/App.jsx:41-45 | no longer than the list; a task is in the result exactly when it is in the list and the filter shows it |
| `TaskList.FilteredCounts` | src/App.jsx:41-45 | the filtered list holds each shown task as many times as the task list does, and no hidden task |
| `TaskList.FilteredIsSubsequence` | src/App.jsx:41-45 | the filtered list keeps the tasks' order: it is a subsequence of the list |
| `TaskList.FilteredShowsAll` | src/App.jsx:41-45 | under "all", or any value other than "completed" and "pending", the filtered list is the whole list |
| `TaskList.CompletedPendingPartition` | src/App.jsx:41-45 | the "completed" and "pending" views partition the list: their multisets add up to the list's, their lengths to its length, and no task is in both |
| `Preference.Loaded` | src/App.jsx:59 | the loaded flag is true exactly when the stored string is "true"; an absent key gives false |
| `Preference.Stored` | src/App.jsx:54 | the string written for a flag loads back as that flag |
| `Preference.MountAsWritten` | src/App.jsx:53-61 | as written, start-up always ends with the flag false and "false" stored, whatever was stored before |
| `Preference.MountAsWrittenLosesDarkTheme` | src/App.jsx:53-61 | a stored "true" does not survive start-up as written |
| `Preference.Mount` | src/App.jsx:53-61 | corrected start-up: the flag is what the store held, and the value written back encodes that flag |
| `Preference.MountRestoresSaved` | src/App.jsx:53-61 | after the correction a saved flag survives a reload, and mounting again changes nothing |

## Findings

| source | as written | input that shows it | evidently intended | confidence | as-written member | corrected member |
|---|---|---|---|---|---|---|
| src/App.jsx:53-61 | React runs a component's effects in declaration order, so on mount the save effect writes the initial `false` before the load effect reads the key back | stored value "true" (dark theme saved in an earlier session): start-up ends with the light theme and "false" stored | the saved theme is restored on load, as the comment at line 57 says | high; not executed | `Preference.MountAsWritten` | `Preference.Mount` |

The class method `TodoApp.App.Mount` follows the corrected order: it loads first and then returns the value to save.

## Left out

- JSX rendering and the CSS class choices (src/App.jsx:63-127): view output, with no state change.
- The browser's key-value store itself, and how React schedules effects. `Preference` models the value under the one key as an `Option<string>`. The store's failures (quota, disabled storage) are not modelled, because the source does not handle them.
- `Date.now()` (src/App.jsx:15): a clock read. The id is a parameter of `AddTask`, and its uniqueness is an assumption of the `DistinctIds` lemmas, not a guarantee.
- Key-press and change-event wiring (src/App.jsx:78-79, 111-112, 118-119): the handlers are modelled as methods called directly. The Enter-key test is not modelled.
- React's batching of setter calls within one handler: each handler sets distinct fields from the values read at its start, which is what the sequential methods do.
- JavaScript strings are UTF-16 code-unit sequences and Dafny's `string` is a sequence of Unicode scalar values. This makes no difference to `trim`, because every whitespace character lies in the Basic Multilingual Plane.
