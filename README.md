# Task manager CLI: a verified model of its core

The application is a command-line task list. A `Task` has:

- a title;
- a description;
- a `completed` flag;
- a creation time;
- an optional completion time.

A `TaskManager` keeps an ordered list of tasks, addressed by 1-based position. It can:

- add a task;
- complete or delete the task at a position;
- count the tasks;
- clear the list;
- import tasks from JSON records (each written by `Task.to_dict` and read back by `Task.from_dict`).

`TaskManagerApp` runs a menu loop. It reads a choice, runs the handler for that choice, and loops while its `running` flag is set. A `TimeoutManager` watchdog clears that flag once the user has been inactive for 180 seconds.

## Modules

- `wrappers.dfy`: `Option` and `Result`.
- `text.dfy`: the two Python string methods applied to what the user types:
  - `str.strip()`, using the exact set of characters `str.isspace()` accepts;
  - `str.lower()`.
- `iso_time.dfy`: `datetime` values and the text form written by `isoformat()` and read by `fromisoformat()`. That form is the extended date and time of section 5.4 of ISO 8601:2004, `YYYY-MM-DDTHH:MM:SS[.ffffff]`. The round trip is proved.
- `models.dfy`: the `models.py` part of the model:
  - `TaskData`, the value of a task;
  - the flat `Record` with `ToRecord` and `FromRecord`;
  - batch decoding, and the list operations on values;
  - the classes `Task` and `TaskManager`, whose methods update fields and the list in place. Each method is proved against the value functions.
- `timeout.dfy`: the `TimeoutManager` state machine on values. One `Poll` is one pass of the monitoring loop at an explicit time `now`.
- `menu.dfy`: the decisions of `TaskManagerApp` as functions on a `Session`:
  - the handlers;
  - the dispatch of `run`;
  - one pass of the loop, and a script of passes.
- `app.dfy`: the classes `TimeoutManager` and `TaskManagerApp`. Every method is proved against the matching function of `Timeout` or `Menu`.

Inputs are passed in already read. This covers:

- typed text;
- numbers, as `Option<int>` with None where `int()` raises;
- a file's records, as `Option<seq<Record>>` with None when the file is missing;
- the current time, as an integer for the watchdog and a `Timestamp` for tasks.

## Model

| member | source | states |
|---|---|---|
| Text.Strip | app.py:96-100 | the result is a contiguous slice of the input with only whitespace before and after it; it is empty exactly when the input is all whitespace, and otherwise starts and ends with a non-whitespace character |
| Text.Lower | app.py:169 | same length, each character lowered |
| IsoTime.Digits | models.py:31-32 | the zero-padded form of a number has exactly the requested width and only digits |
| IsoTime.ParseDigits | models.py:42 | reading a digit string succeeds exactly when every character is a decimal digit |
| IsoTime.DigitsRoundTrip | models.py:31-32 | a number that fits the width reads back from its zero-padded form |
| IsoTime.ParseDigitsCanonical | models.py:42 | a digit string is the zero-padded form of its value at its own width |
| IsoTime.TripleRoundTrip | models.py:31-32 | a date or time triple joined by its separator reads back as the same three numbers |
| IsoTime.TripleCanonical | models.py:42 | a triple that reads is exactly the text written for the numbers read |
| IsoTime.IsoFormat | models.py:31-32 | `isoformat()` writes 19 characters when the microseconds are zero, and 26 otherwise |
| IsoTime.FromIsoFormat | models.py:42-44 | a parsed timestamp comes from a string of 19 or 26 characters with `T` at position 10 whose fields read as the timestamp's fields; when parsing fails, no timestamp's fields read from the string |
| IsoTime.FromIsoFormatReads | models.py:42-44 | `fromisoformat` gives a timestamp exactly when the string has one of the two shapes and its fields read as that timestamp's fields |
| IsoTime.IsoFormatReadsAs | models.py:31-32 | the text `isoformat` writes has the expected shape and its fields read as the timestamp's fields |
| IsoTime.IsoRoundTrip | models.py:31-44 | `fromisoformat(t.isoformat()) == t` for every timestamp |
| IsoTime.FromIsoFormatCanonical | models.py:41-44 | every accepted string is what `isoformat` writes for the result, except that an explicit `.000000` is also accepted |
| IsoTime.IsoCanonical | models.py:41-44 | fields read from a string give back that same string through `isoformat` |
| IsoTime.IsoFormatInjective | models.py:31-32 | distinct timestamps are written as distinct text |
| Models.MarkedCompleted | models.py:15-18 | completed, with completion time `now` (also when already completed), other fields kept |
| Models.MarkedPending | models.py:20-23 | not completed, no completion time, other fields kept |
| Models.Task.constructor | models.py:8-13 | a new task is pending; its description defaults to ""; it keeps the given completion time; a missing creation time becomes `now` |
| Models.Task.MarkCompleted | models.py:15-18 | the task's fields become `MarkedCompleted` of their old value |
| Models.Task.MarkPending | models.py:20-23 | the task's fields become `MarkedPending` of their old value |
| Models.DecodeTime | models.py:41-44 | a timestamp field decodes exactly when it is absent, empty or parseable; it is absent exactly when the field is absent or empty, and otherwise it is what `fromisoformat` gives; a failure names the text |
| Models.EncodeTimeReadable | models.py:31-32 | a timestamp field written by `to_dict` is one `from_dict` reads |
| Models.ToRecord | models.py:25-33 | `to_dict` writes every key, writes a completion time exactly when the task has one, and writes both timestamps in a form `from_dict` reads |
| Models.FromRecord | models.py:36-53 | `from_dict` fails exactly when a timestamp cannot be parsed or the title is missing, with the creation-time error first, then the completion-time error, then the missing title; otherwise it keeps the title, the description defaults to "", the flag to false, the creation time is the parsed one or `now` when absent, and the completion time is the parsed one or none |
| Models.Task.FromDict | models.py:35-53 | a fresh task holding `FromRecord`'s value, or `FromRecord`'s error |
| Models.RecordRoundTrip | models.py:25-53 | `from_dict(to_dict(t))` gives back all five fields of `t`, whatever the current time |
| Models.PendingWithCompletionTime | models.py:46-52 | `from_dict` can build a pending task that still has a completion time |
| Models.DecodeAll | models.py:162 | decoding the batch succeeds exactly when every record decodes, and the results are in record order |
| Models.DecodeAllFirstError | models.py:162 | a failing batch fails with the error of its first record that does not decode |
| Models.DecodeAllPrefixError | models.py:162 | once a prefix fails, the whole batch fails with the same error |
| Models.FromDicts | models.py:162 | distinct fresh task objects in record order, holding the decoded values; or the batch's error |
| Models.WithCompleted | models.py:87-94 | the length is kept; only task `n` is marked completed, and only when `1 <= n <= len`; completion flags and times stay in step |
| Models.WithoutTask | models.py:96-103 | a valid `n` removes exactly the n-th task and shifts the later ones down by one (a permutation minus that task); an invalid `n` changes nothing |
| Models.AfterImport | models.py:152-167 | a missing file or a failing record changes nothing; otherwise the old tasks come first, followed by one decoded task per record in file order |
| Models.CountCompleted | models.py:108 | the number of completed tasks is at most the number of tasks |
| Models.CountIsCompletedPositions | models.py:108 | the count equals the number of positions holding a completed task |
| Models.CountConcat | models.py:108 | the count of a concatenation is the sum of the counts |
| Models.CountWithCompleted | models.py:87-110 | completing task n adds one to the count exactly when it was pending |
| Models.CountWithoutTask | models.py:96-110 | deleting task n removes one from the count exactly when it was completed |
| Models.TaskManager.constructor | models.py:64-67 | the list starts empty |
| Models.TaskManager.AddTask | models.py:69-74 | one new pending task with the given title and description is appended; the earlier tasks are unchanged |
| Models.TaskManager.CompleteTask | models.py:87-94 | the contents become `WithCompleted`, and `ok` says whether `n` was a position |
| Models.TaskManager.DeleteTask | models.py:96-103 | the contents become `WithoutTask`, and the removed task is returned exactly when `n` was a position |
| Models.TaskManager.GetTaskCount | models.py:105-110 | total is the length, completed is the number of completed positions, and pending is the difference |
| Models.TaskManager.ClearAllTasks | models.py:132-136 | the list is empty |
| Models.TaskManager.ImportTasks | models.py:152-167 | the contents become `AfterImport`; the outcome is file not found, the first error, or the number of records |
| Models.TaskManager.Extend | models.py:163 | the new task objects are appended after the old ones, and the objects stay distinct |
| Timeout.Initial | app.py:10-15 | not running, no thread, the given timeout, last activity `now` |
| Timeout.Reset | app.py:21-23 | only the time of the last activity moves |
| Timeout.Start | app.py:25-33 | a no-op while running; otherwise running with a polling thread and last activity `now` |
| Timeout.Stop | app.py:35-39 | always not running afterwards, also before any start; timeout and last activity are kept |
| Timeout.Poll | app.py:43-57 | the timeout fires exactly when the watchdog is watching and `now - last_activity >= timeout`; on firing, `is_running` stays set; otherwise nothing changes |
| Timeout.FiresIff | app.py:43-57 | over any sequence of events, the timeout fires exactly when some poll finds the watchdog watching and the session expired |
| Timeout.StalledStaysSilent | app.py:25-57 | after the timeout fires, no event other than a stop can restart the watchdog or fire it again |
| Timeout.FiresWithoutActivity | app.py:25-57 | a started watchdog with no activity fires at a poll a full timeout after the start |
| App.TimeoutManager.constructor | app.py:10-15 | the fields are `Initial(timeout, now)`, with the timeout defaulting to 180, and no application is bound |
| App.TimeoutManager.SetAppInstance | app.py:17-19 | the application is bound and the watchdog state is kept |
| App.TimeoutManager.ResetActivity | app.py:21-23 | the fields become `Reset` of their old value |
| App.TimeoutManager.StartTimeout | app.py:25-33 | the fields become `Start` of their old value |
| App.TimeoutManager.StopTimeout | app.py:35-39 | the fields become `Stop` of their old value |
| App.TimeoutManager.MonitorTick | app.py:41-57 | the fields and the fired flag are `Poll` of the old fields; a bound application's `running` is cleared exactly when the timeout fires |
| Menu.ActionOf | app.py:189-211 | choice 0 exits, and exactly the choices outside 0-9 are invalid |
| Menu.ConfirmsExactly | app.py:169-171 | the list is cleared exactly when the stripped answer is "y" or "yes" in any mix of cases |
| Menu.HandleAdd | app.py:94-104 | an all-whitespace title adds nothing; otherwise exactly one task is added, with the stripped title and description; activity is reset |
| Menu.HandleComplete | app.py:106-118 | nothing changes when there are no tasks; a non-number changes no task; a number goes to `complete_task` |
| Menu.HandleDelete | app.py:120-132 | nothing changes when there are no tasks; a non-number changes no task; a number goes to `delete_task` |
| Menu.HandleImport | app.py:158-165 | an all-whitespace file name imports nothing; otherwise the list becomes `AfterImport` |
| Menu.HandleClearAll | app.py:167-174 | the list is emptied exactly when the answer confirms; activity is reset |
| Menu.Dispatch | app.py:189-211 | `running` stays set exactly when it was set and the choice is not 0; listing, statistics, history and an invalid choice leave the session unchanged; export only resets activity; exit only clears `running` |
| Menu.Step | app.py:185-215 | after a pass, `running` is set exactly when it was set and the choice is not exit; activity is reset |
| Menu.NonNumericChoiceExits | app.py:84-92 | input that `int()` rejects becomes choice 0, which ends the session and changes no task |
| Menu.StepKeepsInStep | app.py:185-211 | a pass other than an import keeps every task's flag and completion time in step |
| Menu.StepCount | app.py:185-211 | a pass that neither completes, deletes, imports nor clears keeps the completed count, and adds one task exactly for a non-blank add |
| Menu.PollSession | app.py:52-57 | a poll never touches the tasks; it clears `running` exactly when the watchdog is watching and the session has expired, and otherwise keeps it; the watchdog moves as `Poll` says |
| Menu.PollAllRunning | app.py:43-57 | after any number of polls, `running` is still set exactly when it was set before and no poll fired |
| Menu.PollAllOnlyStops | app.py:43-57 | any number of polls leaves the tasks unchanged and can only clear `running` |
| Menu.StoppedStaysStopped | app.py:185 | once `running` is cleared, no later pass sets it again |
| App.TaskManagerApp.constructor | app.py:61-65 | an empty list, running, and a 180-second idle watchdog bound to this application |
| App.TaskManagerApp.GetUserChoice | app.py:84-92 | the number typed, or 0 when `int()` rejects it; activity is reset in both cases |
| App.TaskManagerApp.HandleAddTask | app.py:94-104 | the session becomes `HandleAdd` of the old session |
| App.TaskManagerApp.HandleCompleteTask | app.py:106-118 | the session becomes `HandleComplete` of the old session |
| App.TaskManagerApp.HandleDeleteTask | app.py:120-132 | the session becomes `HandleDelete` of the old session |
| App.TaskManagerApp.HandleImportTasks | app.py:158-165 | the session becomes `HandleImport` of the old session |
| App.TaskManagerApp.HandleClearAllTasks | app.py:167-174 | the session becomes `HandleClearAll` of the old session |
| App.TaskManagerApp.Dispatch | app.py:187-211 | the session becomes `Menu.Dispatch` of the old session |
| App.TaskManagerApp.Step | app.py:185-215 | the session becomes `Menu.Step` of the old session |
| App.TaskManagerApp.PollWhileWaiting | app.py:41-57 | the session becomes `PollAll` of the old session |
| App.TaskManagerApp.Pass | app.py:185-215 | the session becomes `PlayTurn` of the old session |
| App.TaskManagerApp.MenuLoop | app.py:185-215 | passes are played while `running` is set; the loop stops early only when a pass cleared it; the session is what the played passes give |
| App.TaskManagerApp.Run | app.py:176-218 | the watchdog is started; the loop runs while `running`; the watchdog is stopped at the end however the loop ended |

## Left out

- File and JSON input/output (`save_tasks`, `load_tasks`, `export_tasks`, and the file reading in `import_tasks`) is not modelled. An imported file arrives as `Option<seq<Record>>`. The `TaskManager` constructor therefore starts empty instead of loading the data file. Export only resets activity, and the generated export file name is not modelled. A failed save does not change the list, so leaving it out changes no state.
- Printing is not modelled: `show_menu`, `list_tasks`, `get_task_history`, `Task.__str__`, the statistics display with its completion-rate float, and the timeout message. Listing, statistics and history therefore leave the session unchanged.
- Threads are not modelled, nor `time.sleep` or the bounded `join`:
  - Monitor passes are explicit `Poll` steps, taken while the menu waits for a choice.
  - `Timeout.Stop` takes the join as completing, so a polling thread has returned afterwards.
  - Interleavings other than "polls, then one pass of the menu" are not modelled.
- Time is an integer number of seconds. `datetime.now()` is a `Timestamp` parameter, and one value is used per pass and per import.
- Python's `int()` grammar is not modelled: a typed number is given as `Option<int>`.
- `Text.Lower`: maps only the ASCII letters. No non-ASCII character lowers to "y", "e" or "s", so `Menu.ConfirmsExactly` holds for the full Unicode `lower()` as well.
- `IsoTime.FromIsoFormat`: models only the two shapes `isoformat()` writes (19 and 26 characters). The other forms `fromisoformat` accepts (time zones, other fraction lengths, a space separator) are treated as errors.
- Models.FromRecord: a title that is JSON null is rejected as `MissingTitle`. Python's `data['title']` returns `None` there and builds a task titled `None`. The model's titles are strings, so such a record fails the whole import in the model but not in Python.
- Record values have the types `to_dict` writes. A JSON null in `description` or `completed` is read like an absent key, as "" and false, where Python would store `None`. A record that is not an object is not modelled.

## Note on the timeout

One could read the intended design as the watchdog marking itself stopped when it fires. The code does not: `_timeout_monitor` clears only the application's `running` flag and returns (app.py:52-57). `is_running` stays set, so a later `start_timeout` does nothing until `stop_timeout` runs. The model follows the code: see `Timeout.Poll` and `Timeout.StalledStaysSilent`.
