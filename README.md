# zenith-cli, modelled in Dafny

zenith-cli is a terminal task tracker. Tasks have a title, a description,
a priority, an XP reward and an optional due date. Each task moves through
the statuses TODO, DOING and DONE. Completing a task adds its reward to a
single gamified profile, which levels up.

The application talks to a SQLite file through a small store layer. On
screen it has a splash page, a dashboard table, a three-column kanban
board, a focus countdown and a weekly analytics view.

This project models the core of that program:

- **The status codec and constructors of the records.** The status is
  written as "TODO"/"DOING"/"DONE" and read back (`models.dfy`).
- **The store** (`store.dfy`). The `tasks` table is a sequence of rows kept
  newest first, which is the order every listing returns. The
  `user_profile` row is a value. The model covers insert, listing, status
  and content updates, deletion, the XP award with its level-up rule, the
  weekly completion statistics and the completion streak.
- **The application state** (`app.dfy`). It is a class with the same fields
  as the source's `App`. Its methods reload the list through the search
  filter, save the form, start editing, move the dashboard and kanban
  cursors, cycle the views, toggle a task's status, delete a task, and run
  the focus countdown.
- **The key dispatch of the event loop** (`dispatch.dfy`). `Route` is a pure
  function from the state's mode, view and form field and one key event to
  the command it triggers. `Execute` runs a command on the App. `HandleKey`
  and `Step` are one turn of the loop, with a key or with the poll timing
  out.

The supporting modules model behaviour of the libraries the core leans on:

- `text.dfy`: Rust's `trim`, `join`, `lines`, `to_lowercase`, `contains` and
  `i32` parse and format.
- `dates.dfy`: chrono's `%Y-%m-%d` format and parse.
- `textarea.dfy`: the line editor's lines, cursor and key input.
- `keys.dfy`: key events.
- `form.dfy`: the task form.
- `search.dfy`: the filter.
- `navigation.dfy`: the cursors and views.
- `timer.dfy`: the countdown.

The invariant that ties the whole model together is `Application.App.Valid`:

- the store's rows all decode;
- identifiers are unique;
- the rows are newest first;
- a task has a completion time exactly when it is done;
- the on-screen list is exactly the filtered decoding of the rows, and the
  profile and the statistics are those of the store;
- the dashboard selection is in range whenever the list is not empty;
- the local state is well formed: the kanban column, the countdown's
  bounds, and cursors inside the form's texts.

Every state-changing method keeps this invariant, and every key the loop can
receive keeps it.

The state-changing methods also state their whole new state. `Application.StateOf`
gathers the store's tables, the query, the list and the screen fields into one
value. Each method gives the new value as an equation on the old one.
`Dispatch.Effect` defines what every command does to that value, so
`Dispatch.HandleKey` and `Dispatch.Step` say exactly what a key or a turn of the
loop does.

The clock and the UUID generator become parameters: `now` (milliseconds)
and `freshId`. The poll result is a parameter of `Step`.

## Model

| member | source | states |
|---|---|---|
| Models.StatusText | src/db/models.rs:14-29 | a status is written as one of the three stored texts |
| Models.StatusFromSql | src/db/models.rs:31-40 | exactly the three stored texts decode, each to the status that writes it; every other text is rejected |
| Models.StatusRoundTrip | src/db/models.rs:14-40 | decoding the written text of a status gives that status |
| Models.StatusTextInjective | src/db/models.rs:14-22 | distinct statuses are stored as distinct texts |
| Models.NewTask | src/db/models.rs:53-65 | a new task carries the given contents, is TODO, has no completion time, so it keeps the completion invariant, and is stamped with the given instant and identifier |
| Models.DefaultProfile | src/db/models.rs:75-84 | the default profile is profile 1 at level 1 with progress inside the first threshold |
| Store.DefaultProfileIsSeed | src/db/mod.rs:85-88 | the profile row seeded at creation equals `UserProfile::default` |
| Store.InsertedRow | src/db/mod.rs:105-121 | the inserted row holds the task's columns and the status as written; `completed_at` starts NULL |
| Store.DecodeRow | src/db/mod.rs:128-153 | a row decodes exactly when its status text is readable, and the task carries the row's columns |
| Store.InsertedRowRoundTrip | src/db/mod.rs:105-153 | a task without a completion time, inserted and read back, is the same task |
| Store.DecodeRows | src/db/mod.rs:156-160 | listing succeeds exactly when every row's status is readable, and gives one task per row |
| Store.DecodeRowsAt | src/db/mod.rs:156-160 | the k-th listed task is the decoding of the k-th row |
| Store.SameSkeletonKeepsOrder | src/db/mod.rs:163-196 | updates that keep every row's identifier and creation time keep the listing order and the uniqueness of identifiers |
| Store.InsertNewest | src/db/mod.rs:125 | an insert lengthens the table by one row |
| Store.InsertNewestSpec | src/db/mod.rs:105-125 | after an insert the rows are the old rows plus the new one, still newest first, and identifiers stay unique when the new one was free |
| Store.RemoveId | src/db/mod.rs:177-181 | a delete never lengthens the table |
| Store.RemoveIdMembers | src/db/mod.rs:177-181 | a delete removes exactly the rows with that identifier, and changes nothing when there is none |
| Store.RemoveIdSpec | src/db/mod.rs:177-181 | after a delete no row has the identifier, and the order and uniqueness are kept |
| Store.SetStatus | src/db/mod.rs:163-175 | the rows with the identifier take the new status, and a completion time exactly when it is done; every other row and every position is unchanged |
| Store.SetContent | src/db/mod.rs:183-196 | the rows with the identifier take the new title, description, priority and due date, and keep status, reward and times; every other row is unchanged |
| Store.ProfileAfterXp | src/db/mod.rs:234-249 | the profile keeps its identifier; the level rises by one exactly when progress plus the award reaches the threshold, and then the excess carries over and the threshold grows by half; otherwise the award is simply added |
| Store.GrowThreshold | src/db/mod.rs:241 | definition: the threshold times 1.5, the fraction truncated toward zero and the result saturated at the `i32` bounds, as the `f64` to `i32` cast computes it |
| Store.AddXpKeepsProgressBounded | src/db/mod.rs:234-249 | for an award no larger than the threshold, progress stays inside the new threshold and the level never drops |
| Store.SingleLevelUpLeavesExcess | src/db/mod.rs:236-242 | for any profile inside its threshold, the progress after one award reaches the new threshold exactly when the award covers the rest of the old threshold and all of the grown one: an award gives at most one level (from the seed profile, 250 points give level 2 with 150 of 150) |
| Store.CompletionDays | src/db/mod.rs:251-262 | the distinct completion days are listed strictly latest first, and a day is listed exactly when some row matching the status text was completed on it |
| Store.DayOf | src/db/mod.rs:200 | definition: the calendar day of an instant, the instant in milliseconds divided by 86400000 |
| Store.CountOn | src/db/mod.rs:198-205 | a day's count is positive exactly when it is a completion day, and never exceeds the number of rows |
| Store.CountEachAt | src/db/mod.rs:198-205 | each statistic pairs its day with that day's count |
| Store.WeeklyStats | src/db/mod.rs:198-215 | there are at most seven statistics |
| Store.WeeklyStatsSpec | src/db/mod.rs:198-215 | the statistics are the latest seven completion days, or all of them if fewer, strictly latest first, each with its count; any day not listed is older than all seven |
| Store.CountStreak | src/db/mod.rs:264-295 | the streak is 0 exactly when there is no completion day or the latest is neither today nor yesterday; otherwise it counts the run of consecutive days from the latest and stops at the first gap |
| Store.AsWrittenFindsNoDay | src/db/mod.rs:198-215 | with the 'Done' literal of the query, a readable table has no completion day and no weekly statistics |
| Store.AsWrittenMissesCompletedTask | src/db/mod.rs:198-215 | a table with one completed task gets no statistics with the literal as written, and one day with count 1 with the stored text |
| Store.CorrectedCountsEveryCompletion | src/db/mod.rs:251-262 | with the stored text for done, every completed row's day is a completion day with a count of at least 1 |
| Store.Database.constructor | src/db/mod.rs:16-91 | a new database has no tasks and the seeded profile, and satisfies the table invariants |
| Store.Database.CreateTask | src/db/mod.rs:105-121 | the insert fails, changing nothing, exactly when the identifier is taken; otherwise the row goes into its place in the listing order; the invariants are kept |
| Store.Database.GetAllTasks | src/db/mod.rs:123-161 | every row is decoded, newest first, and each task keeps the completion invariant when the table does |
| Store.Database.UpdateTaskStatus | src/db/mod.rs:163-175 | the table becomes `SetStatus` of the old table, keeping the invariants and the completion invariant |
| Store.Database.DeleteTask | src/db/mod.rs:177-181 | the table becomes `RemoveId` of the old table, keeping the invariants |
| Store.Database.UpdateTaskContent | src/db/mod.rs:183-196 | the table becomes `SetContent` of the old table, keeping the invariants |
| Store.Database.GetUserProfile | src/db/mod.rs:217-232 | the stored profile row is returned |
| Store.Database.AddXp | src/db/mod.rs:234-249 | the profile row becomes `ProfileAfterXp` of the old row |
| Store.Database.GetWeeklyStats | src/db/mod.rs:198-215 | the weekly statistics of the table, counted for the rows whose status is the text "DONE" that done tasks are stored with (the corrected query, see Findings) |
| Store.Database.GetStreak | src/db/mod.rs:251-296 | the streak over the completion days of the rows stored as "DONE" (the corrected query, see Findings), with the properties of `CountStreak` |
| Application.StatusCycle | src/app.rs:409-413 | three toggles restore a status, a toggle always changes it, and a toggle completes a task exactly when it was DOING |
| Application.NextStatus | src/app.rs:409-413 | definition: TODO goes to DOING, DOING to DONE and DONE back to TODO |
| Application.StatusToggled | src/app.rs:402-427 | definition of the effect of `toggle_status`: on the dashboard with a task selected, exactly that task's row takes the next status (with a completion time exactly when DONE), the profile gets the reward exactly when the new status is DONE, the selection is clamped to the reloaded list, and nothing else changes; otherwise nothing changes |
| Application.TaskDeleted | src/app.rs:429-449 | definition of the effect of `delete_current_task`: on the dashboard with a task selected, the rows with its identifier leave the store, the selection keeps its position, moves to the last entry, or goes; nothing else changes; otherwise nothing changes |
| Application.TaskSaved | src/app.rs:185-228 | definition of the effect of `save_task`: a blank title changes nothing; with a task being edited its row takes the submitted title, description, priority and due date; otherwise a new TODO row with the submitted content, the fresh identifier and the current instant is inserted, and nothing changes if that identifier is taken; a save that writes resets the form and the edited task and clamps the selection |
| Application.SavedEdit | src/app.rs:216-226 | a save of a task being edited whose form submits writes the submitted content back to that task's row and resets the form and the edited task |
| Application.SavedForm | src/app.rs:224-225 | after a save the form is either untouched or the default form |
| Application.App.Valid | src/app.rs:128-183 | definition of the invariant: the store's tables are well formed, the local state (kanban column, countdown bounds, form cursors) is well formed, the list, profile and statistics are those `refresh_state` computes from the store, and the selection is acceptable for the list |
| Application.App.constructor | src/app.rs:128-155 | a new App lists every task with the first one selected if any, starts on the splash view in normal mode with default form, countdown and kanban, and is valid (its statistics are the corrected ones, see Findings) |
| Application.App.RefreshState | src/app.rs:157-183 | the list becomes the filtered decoding of the store, the profile and statistics those of the store, and the selection is clamped into range; the store, the query and every other screen field are unchanged |
| Application.App.SaveTask | src/app.rs:185-228 | the App stays valid and moves exactly as `TaskSaved` defines; the save reports failure exactly when a new task's fresh identifier is already taken |
| Application.App.SaveEdited | src/app.rs:216-218 | the edited task's row takes the submitted content, the form and the edited task are reset and the selection clamped; nothing else changes, and the App is valid |
| Application.App.SaveNew | src/app.rs:219-226 | the task is inserted exactly when its identifier is new: then the row goes into its place in the listing order, the form and the edited task are reset and the selection clamped; otherwise nothing changes |
| Application.App.StartEditing | src/app.rs:230-255 | on the dashboard with a task selected, the form is prefilled from that task, its identifier recorded and editing started; otherwise nothing changes |
| Application.App.ToggleInspector | src/app.rs:257-261 | the inspector flips exactly on a non-empty dashboard |
| Application.App.NextDashboardTask | src/app.rs:279-294 | the selection steps down, wrapping to the first entry |
| Application.App.PreviousDashboardTask | src/app.rs:296-311 | the selection steps up, wrapping to the last entry |
| Application.App.NextKanbanItem | src/app.rs:313-338 | only the focused column's cursor steps down within that column's cards |
| Application.App.PreviousKanbanItem | src/app.rs:340-365 | only the focused column's cursor steps up within that column's cards |
| Application.App.NextItem | src/app.rs:263-269 | the dashboard selection or the kanban cursor steps down according to the view, nothing in the other views, and the selection stays acceptable |
| Application.App.PreviousItem | src/app.rs:271-277 | as `NextItem`, stepping up |
| Application.App.NextKanbanCol | src/app.rs:367-373 | the focused column moves right, wrapping, and nothing else in the board changes |
| Application.App.PrevKanbanCol | src/app.rs:375-381 | the focused column moves left, wrapping, and nothing else in the board changes |
| Application.App.CycleView | src/app.rs:392-400 | the view becomes the next one of the cycle |
| Application.App.ToggleStatus | src/app.rs:402-427 | the App stays valid and moves exactly as `StatusToggled` defines |
| Application.App.ToggleStatusAt | src/app.rs:409-425 | the task at the position moves to the next status with the reward on completion, the selection is clamped, nothing else changes, and the App stays valid |
| Application.App.DeleteCurrentTask | src/app.rs:429-449 | the App stays valid and moves exactly as `TaskDeleted` defines |
| Application.App.DeleteAt | src/app.rs:432-447 | the rows of the task at the position are removed, the list reloaded and the selection fixed up; nothing else changes, and the App stays valid |
| Application.App.Reselect | src/app.rs:437-446 | the selection becomes the given acceptable one and nothing else changes; the App is valid |
| Application.App.ToggleTimer | src/app.rs:451-458 | the countdown starts, anchored at the current instant, or pauses |
| Application.App.ResetTimer | src/app.rs:460-464 | the countdown stops with a full session remaining |
| Application.App.OnTick | src/app.rs:466-484 | the countdown becomes `Timer.SteadyTick` of the old one: the whole seconds elapsed are taken off and the anchor moves on by exactly those seconds (the corrected tick, see Findings) |
| Navigation.NextIndex | src/app.rs:279-294 | on a non-empty list the result is in range; it is the first entry exactly when there was no selection or it was the last, and otherwise the next entry |
| Navigation.PrevIndex | src/app.rs:296-311 | on a non-empty list: the first entry from none, the last entry from the first, otherwise the previous entry |
| Navigation.NextPrevInverse | src/app.rs:279-311 | stepping down then up, or up then down, returns to an in-range selection |
| Navigation.NextTimesWraps | src/app.rs:279-294 | k steps down move k entries on, modulo the length |
| Navigation.NextPeriod | src/app.rs:279-294 | length-many steps down come back to the start |
| Navigation.ClampSelection | src/app.rs:175-180 | a selection in range is kept; none becomes the first entry; one past the end becomes the last entry |
| Navigation.DeleteFixup | src/app.rs:437-446 | after a delete the selection is none exactly when the list is empty, keeps its position when that still exists, and is the last entry otherwise |
| Navigation.SelectionOkKept | src/app.rs:175-180 | clamping, the delete fix-up and both steps keep the selection acceptable |
| Navigation.SelectionOkSelects | src/app.rs:402-449 | on a non-empty list an acceptable selection names an entry |
| Navigation.StatusFromCol | src/app.rs:383-390 | column 1 is DOING, column 2 is DONE, and every other column is TODO |
| Navigation.CountStatus | src/app.rs:313-338 | a column is empty exactly when no task has its status |
| Navigation.ColumnsPartition | src/app.rs:313-365 | every task sits in exactly one of the three columns |
| Navigation.DefaultKanbanStart | src/app.rs:95-107 | `KanbanState::default` puts all three column cursors on their first card and focuses the To Do column, so the first Down moves to the second To Do card or stays on a single one |
| Navigation.KanbanNext | src/app.rs:313-338 | the focused column's cursor steps down with wrap-around among that column's cards; the other cursors and the focus are unchanged |
| Navigation.KanbanPrev | src/app.rs:340-365 | the focused column's cursor steps up with wrap-around; the other cursors and the focus are unchanged |
| Navigation.NextCol | src/app.rs:367-373 | right one column, wrapping from the last to the first |
| Navigation.PrevCol | src/app.rs:375-381 | left one column, wrapping from the first to the last |
| Navigation.ColumnCycle | src/app.rs:367-381 | the two column moves undo each other, and three of either come back |
| Navigation.NextView | src/app.rs:392-400 | the cycle never returns to the splash view, and the splash view leads to the dashboard |
| Navigation.NextViewPeriod | src/app.rs:392-400 | four steps come back to any non-splash view, and no fewer do |
| Timer.DefaultFocusValid | src/app.rs:77-86 | the default countdown is a stopped 25-minute session within its bounds |
| Timer.NumSeconds | src/app.rs:470 | the whole seconds of a duration in milliseconds, truncated toward zero like chrono's `num_seconds`; positive exactly from 1000 ms |
| Timer.Reset | src/app.rs:460-464 | stopped, no anchor, a full session remaining, within bounds |
| Timer.Toggle | src/app.rs:451-458 | running flips, and a running countdown is anchored at the current instant; the time remaining is kept and so are the bounds |
| Timer.Tick | src/app.rs:466-484 | as written: a stopped countdown is unchanged and an unanchored one is anchored; under 1000 ms elapsed nothing changes; otherwise the whole seconds elapsed are taken off, the anchor moves to the current instant, and when more time has elapsed than remained it stops at 0, while landing exactly on 0 keeps it running; the bounds are kept |
| Timer.SteadyTick | src/app.rs:466-484 | the corrected tick: running state, duration and time remaining are those of `Tick`, but the anchor moves on by exactly the whole seconds taken off, so the sub-second rest is kept; the bounds are kept |
| Timer.TicksLoseRemainder | src/app.rs:470-478 | as written, from a running 1500 s session anchored at 0, ticks at 1.5 s and 3 s leave 1498 s while one tick at 3 s leaves 1497 s |
| Timer.NumSecondsShift | src/app.rs:470 | taking whole seconds off a duration takes them off its whole seconds |
| Timer.ZeroStopsOnNextTick | src/app.rs:472-481 | for both ticks, a countdown that lands on 0 keeps running until a tick at least a second later, which stops it |
| Timer.TicksCoalesce | src/app.rs:466-484 | for the corrected tick, before the session runs out, two ticks give exactly the state one tick at the later instant gives |
| Timer.PauseResumeKeepsRemaining | src/app.rs:451-458 | pausing and resuming restores the running state and keeps the time remaining |
| Search.Select | src/app.rs:163-169 | filtering never lengthens the list |
| Search.Matches | src/app.rs:166-168 | definition: the lowercased title or the lowercased description contains the lowercased query |
| Search.SelectMembers | src/app.rs:163-169 | the filtered tasks are exactly the listed tasks whose lowercased title or description contains the query |
| Search.SelectKeepsOrder | src/app.rs:164-169 | filtering keeps the newest-first order |
| Search.SelectAppend | src/app.rs:164-169 | filtering distributes over concatenation |
| Search.SelectSingle | src/app.rs:166-168 | one task is kept exactly when it matches |
| Search.SelectIdempotent | src/app.rs:164-169 | filtering twice with the same query is filtering once |
| Search.FilterTasks | src/app.rs:160-170 | the empty query lists all tasks, and no result is longer than the input |
| Search.FilterTasksSpec | src/app.rs:160-170 | a task is listed exactly when it is stored and the query is empty or it matches the lowercased query; the order is kept |
| Search.EmptyQueryMatchesAll | src/app.rs:160-163 | the empty query would have matched every task anyway |
| Form.DefaultForm | src/app.rs:44-68 | the default form is well formed |
| Form.DefaultXpInserted | src/app.rs:52-54 | the default XP field is "10" inserted into an empty editor |
| Form.NextField | src/main.rs:122-131 | definition: Tab goes Title, Priority, XP, due date, description and back to Title |
| Form.PrevField | src/main.rs:132-140 | definition: BackTab goes the same round the other way |
| Form.PriorityLeft | src/main.rs:142-150 | definition: Left goes High, Medium, Low and back to High |
| Form.PriorityRight | src/main.rs:151-159 | definition: Right goes Low, Medium, High and back to Low |
| Form.FieldCycle | src/main.rs:122-140 | Tab and BackTab undo each other, and five Tabs, and no fewer, visit every field and come back |
| Form.PriorityCycle | src/main.rs:141-159 | Left and Right undo each other, three of either come back, and neither is the identity |
| Form.Prefill | src/app.rs:239-251 | the prefilled form holds the title as one line, the description split into its `lines()` (one empty line when there are none), the priority, the reward in decimal and the due date formatted or empty; every editor's cursor is at the start and the title field is active |
| Form.XpOf | src/app.rs:199-200 | the reward is the parsed trimmed field when that is an `i32`, and 10 otherwise |
| Form.DueDateOf | src/app.rs:202-214 | the due date is none when the trimmed joined field is empty, and otherwise exactly the result of parsing it, none when it is not a date |
| Form.Submit | src/app.rs:185-214 | the form submits nothing exactly when the title is blank; otherwise the trimmed joined title and description, the priority, the reward and the due date |
| Form.BlankTestsAgree | src/app.rs:186-190 | the blank test on the title joined with "" agrees with the title joined with " " |
| Form.SubmittedTitleNonEmpty | src/app.rs:186-190 | a submitted title is non-empty and trimmed |
| Form.DefaultFormSubmitsNothing | src/app.rs:44-68 | saving the default form creates nothing |
| Form.TitleRoundTrip | src/app.rs:190 | a trimmed non-empty title loaded into the editor is read back unchanged |
| Form.DescriptionRoundTrip | src/app.rs:240-241 | a trimmed description without carriage returns, split into lines and joined again, is read back unchanged |
| Form.XpRoundTrip | src/app.rs:243 | a reward written in decimal is parsed back as itself |
| Form.DueDateRoundTrip | src/app.rs:245-249 | a due date with a four-digit year, formatted into the editor, is parsed back as itself |
| Form.PrefillThenSubmit | src/app.rs:230-255 | editing a task and saving without a change gives back its title, description, priority, reward and due date |
| Text.TrimStart | src/app.rs:186 | the result is a suffix of the input that starts with a non-whitespace character, and everything dropped was whitespace |
| Text.IsWhitespace | src/app.rs:186 | definition: the characters of the Unicode White_Space property that `trim` removes |
| Text.TrimEnd | src/app.rs:186 | the result is a prefix of the input that ends with a non-whitespace character, and everything dropped was whitespace |
| Text.Trim | src/app.rs:186-202 | the result is trimmed, empty exactly when the input is all whitespace, equal to an already-trimmed input, and made of the input's characters |
| Text.JoinAllWhitespace | src/app.rs:186-190 | with a whitespace separator the join is blank exactly when every line is blank |
| Text.Join | src/app.rs:186-202 | definition: the lines with the separator between each two, and "" for no lines |
| Text.IndexOfNewline | src/app.rs:241 | the first line break, or the end |
| Text.Lines | src/app.rs:241 | definition: the text split at each line break, a carriage return before it dropped, no empty line after a final break, and no lines for "" |
| Text.JoinLines | src/app.rs:240-241 | splitting a text without carriage returns or a final line break into lines and joining with "\n" gives it back |
| Text.DropLast | src/main.rs:203-206 | `pop` of the query: empty stays empty; otherwise the removed character completes the result to the input |
| Text.Lower | src/app.rs:163-167 | lowercasing keeps the length and maps each character |
| Text.ContainsEmpty | src/app.rs:167 | the empty query occurs in every text |
| Text.Contains | src/app.rs:167 | definition: the query occurs in the text at some position as a contiguous piece |
| Text.NatDigits | src/app.rs:243 | the decimal spelling is non-empty and all digits, has the number's value, and has no leading zero |
| Text.IntToString | src/app.rs:243 | definition: a minus sign before the digits of a negative number, the digits alone otherwise |
| Text.ParseI32 | src/app.rs:200 | a parsed number is in the `i32` range and only an optional sign followed by at least one digit parses; digits alone, or after "+", parse exactly when their value fits and then to it; after "-" exactly when the negated value fits, and then to it |
| Text.ParseInt32OfToString | src/app.rs:200-243 | every `i32` written in decimal parses back to itself |
| Dates.Pad2 | src/app.rs:247 | two digits with the given value |
| Dates.Pad4 | src/app.rs:247 | four digits with the given value |
| Dates.Pad2OfDigits | src/app.rs:206 | two digits are the padded spelling of their value |
| Dates.Pad4OfDigits | src/app.rs:206 | four digits are the padded spelling of their value |
| Dates.FormatDate | src/app.rs:247 | definition: the year as chrono's `%Y` writes it, "-", the month in two digits, "-", the day in two digits |
| Dates.ParseDate | src/app.rs:206 | what is accepted is a real calendar date with a four-digit year, and only ten-character texts are accepted |
| Dates.FormatThenParse | src/app.rs:206-247 | formatting a date with a four-digit year and parsing it gives the date back |
| Dates.ParseThenFormat | src/app.rs:206-247 | every accepted text is exactly the formatted form of the date it gives |
| TextArea.EmptyAreaIsNew | src/app.rs:46-57 | the `TextArea::default` each form field starts from is a new editor with no lines: empty text, with the cursor at the start |
| TextArea.NewArea | src/app.rs:239-249 | a new editor holds the given lines, or one empty line, with the cursor at the start |
| TextArea.ContentSplit | src/app.rs:186-202 | the text before and after the cursor make up the whole text |
| TextArea.Input | src/main.rs:173-199 | an editing key keeps the editor well formed, and a key held with Control or Alt leaves it unchanged |
| TextArea.InsertCharEdit | src/main.rs:173-199 | a character goes in right before the cursor, and the text after the cursor is unchanged |
| TextArea.NewlineEdit | src/main.rs:173-199 | Enter puts a line break right before the cursor |
| TextArea.BackspaceEdit | src/main.rs:173-199 | Backspace removes the character before the cursor, if any |
| TextArea.BackspaceInLine | src/main.rs:173-199 | inside a line, Backspace removes one character of that line |
| TextArea.JoinWithPrevious | src/main.rs:173-199 | at the start of a line, Backspace joins the line to the previous one |
| TextArea.DeleteEdit | src/main.rs:173-199 | Delete removes the character after the cursor, if any |
| TextArea.MoveLeftEdit | src/main.rs:173-199 | Left moves the cursor back one character over the unchanged text |
| TextArea.MoveRightEdit | src/main.rs:173-199 | Right moves the cursor forward one character over the unchanged text |
| TextArea.InsertText | src/app.rs:54 | inserting a line-free text puts it right before the cursor |
| Dispatch.Route | src/main.rs:66-212 | a key is ignored exactly when it is not a press, and on the splash view every press either quits or leaves the splash |
| Dispatch.NormalKey | src/main.rs:85-119 | definition: the bindings of normal mode key by key, and nothing for any other key |
| Dispatch.EditingKey | src/main.rs:120-199 | definition: Esc, Tab and BackTab first; Left/h and Right/l cycle the priority only on the priority field; Enter saves except in the description; everything else goes to the field |
| Dispatch.SearchKey | src/main.rs:201-212 | definition: Enter and Esc end the search, Backspace pops, a character is pushed, and nothing for any other key |
| Dispatch.QuitKeys | src/main.rs:69-87 | a key quits exactly when it is a press of Ctrl+C or Ctrl+Q, or of 'q' on the splash view or in normal mode |
| Dispatch.SaveKeys | src/main.rs:160-172 | a key saves exactly when it is a press of Enter, in editing mode, off the splash view, on any field but the description |
| Dispatch.TypingGoesToField | src/main.rs:173-199 | in editing mode a plain character on a text field goes to that field |
| Dispatch.XpAccepts | src/main.rs:182-192 | definition: the XP field takes digits, Backspace and Delete, and no other key |
| Dispatch.FieldKey | src/main.rs:173-199 | the title, description and due-date fields take the key into their editor; the XP field takes it exactly when it accepts it and is unchanged otherwise; the priority field ignores it; the active field, the priority and every other field are kept |
| Dispatch.XpStaysNumeric | src/main.rs:182-192 | the keys the XP field accepts keep it made of digits only |
| Dispatch.FieldKeyKeepsXpNumeric | src/main.rs:182-193 | no typed key puts anything but digits into an XP field made of digits |
| Dispatch.DefaultXpIsNumeric | src/app.rs:52-54 | the default XP field is made of digits |
| Dispatch.ScreenStep | src/main.rs:76-200 | definition of what a view or form command does to the screen: the key bindings of normal mode and the `App` methods they call (next/previous item by view, columns, timer, inspector only on a non-empty dashboard, Esc only closing an open inspector, `n` a fresh form for a new task, `e` the selected task prefilled), the mode changes, the field and priority cycles and the typed key |
| Dispatch.Saved | src/main.rs:160-172 | definition: Enter in the form is `save_task` and then normal mode, whatever the save did |
| Dispatch.ToNormal | src/main.rs:171 | definition: the state with the input mode set back to normal |
| Dispatch.QueryEdited | src/main.rs:203-210 | definition: the query is edited, the list reloaded and the selection clamped; the store and the rest of the screen are untouched |
| Dispatch.Effect | src/main.rs:66-212 | definition of what each command does to the whole state: ignored, quitting and unbound keys nothing; status toggle, delete, save and query edits as their own definitions; every other command only its `ScreenStep` |
| Dispatch.Ticked | src/main.rs:62 | definition: the state after `on_tick`, only the countdown stepped by the corrected tick |
| Dispatch.LocalEffect | src/main.rs:76-200 | a view or form command changes exactly the screen, as `ScreenStep` says, and that is its `Effect` |
| Dispatch.SaveIsSaved | src/main.rs:160-172 | the effect of Enter in the form is `save_task` from the state set back to normal mode |
| Dispatch.StartEditingOpens | src/main.rs:94 | `e` on the dashboard with a task selected records its identifier, prefills the form from it and enters editing mode, and changes nothing else |
| Dispatch.LeavingKeepsDraft | src/main.rs:120-202 | Esc in the form and Enter or Esc on the search line only return to normal mode: draft, edited task and query are kept |
| Dispatch.OnlyStoreCommandsWrite | src/main.rs:85-212 | only the status toggle, the delete and the save change the store tables and the profile |
| Dispatch.SearchModeKeys | src/main.rs:201-212 | on the search line no key changes the store, the profile, the form, the edited task or the view |
| Dispatch.SearchPushThenPop | src/main.rs:203-210 | a character typed on the search line and erased again gives back the query, and the store is untouched |
| Dispatch.EditingKeepsXpNumeric | src/main.rs:120-200 | while the form is open, no key makes an XP field of digits hold anything else |
| Dispatch.DeleteRemovesSelected | src/main.rs:106-110 | deleting the selected task removes every row with its identifier and keeps every other row |
| Dispatch.EditThenSaveWritesBack | src/main.rs:94-171 | `e` then Enter on a task whose texts are as a save leaves them writes the task's own content back to its row, and returns to normal mode with no task being edited |
| Dispatch.RunView | src/main.rs:76-119 | the screen becomes `ScreenStep` of the old screen for the command; the store, the list, the query, the profile and the statistics are unchanged; the local state and the selection stay well formed |
| Dispatch.RunCursor | src/main.rs:95-98 | for j/k/Down/Up and l/h/Right/Left the screen becomes `ScreenStep` of the old screen: the selection or kanban cursor by view, or the kanban focus; nothing else changes and the local state and selection stay well formed |
| Dispatch.RunPanel | src/main.rs:76-117 | for the splash, `?`, Tab, `t`, `r`, Enter and Esc the screen becomes `ScreenStep` of the old screen; nothing else changes and the local state and selection stay well formed |
| Dispatch.RunMode | src/main.rs:84-202 | the screen becomes `ScreenStep` of the old screen for `n`, `e`, `/` and leaving the form or the search line; nothing else changes and the local state stays well formed |
| Dispatch.RunField | src/main.rs:122-199 | the form becomes that of `ScreenStep` for the field and priority cycles and the typed key; nothing else changes and the local state stays well formed |
| Dispatch.RunStore | src/main.rs:101-172 | the App stays valid and the state moves as `Effect` defines for the status toggle, the delete and the save |
| Dispatch.RunToggle | src/main.rs:101-105 | space keeps the App valid and moves the state as `Effect` defines for the status toggle |
| Dispatch.RunDelete | src/main.rs:106-110 | `d` and Delete keep the App valid and move the state as `Effect` defines for the delete |
| Dispatch.RunSave | src/main.rs:160-172 | the App stays valid, is in normal mode, and the state moves as `Saved` (and so `Effect` for Enter) defines |
| Dispatch.EditQuery | src/main.rs:201-211 | a typed character is appended to the query; Backspace drops its last character, if any |
| Dispatch.RunSearch | src/main.rs:203-211 | the query is edited, the list reloaded through it, and nothing else changes but the clamped selection, as `QueryEdited` defines |
| Dispatch.RunLocal | src/main.rs:85-200 | commands that only touch the screen keep the App valid, leave everything but the screen unchanged, and move the screen as `ScreenStep` defines |
| Dispatch.RunReload | src/main.rs:101-211 | commands that reload the list keep the App valid and move the state as `Effect` defines |
| Dispatch.Execute | src/main.rs:66-212 | every command keeps the App valid and moves the state as `Effect` defines; ignored keys, quit and unbound keys change nothing; commands that do not reload keep the store and the list |
| Dispatch.HandleKey | src/main.rs:66-212 | after any key the App is valid and the state has moved as `Effect` defines for the command the key routes to; the loop quits exactly when that is Quit; a key that is not a press changes nothing |
| Dispatch.Step | src/main.rs:59-212 | one turn of the loop: without a key only the countdown ticks and nothing quits; with a key the state moves as `Effect` defines from the ticked state, and the loop quits exactly when the key routes to Quit; the App stays valid |

## Left out

- The terminal I/O is left out: raw mode, the alternate screen, drawing, the 250 ms poll timeout, and the rendering in `src/ui/`. Whether a key arrived is a parameter of `Dispatch.Step`.
- The clock and the UUID generator are parameters: `now` in milliseconds, and `freshId` for new tasks.
- Instants are integers counting milliseconds since 1970-01-01 UTC, and a calendar day is an instant divided by 86400000. The RFC 3339 text of timestamps is not modelled, nor precision below a millisecond.
- A due date is kept as its calendar day. The source always stores 23:59:59 UTC of that day.
- The file handling of `Database::init` and `get_db_path` is left out, as is the migration that adds missing columns. The model starts from a created database.
- `get_tasks_today`, `get_setting` and `set_setting` are left out: nothing in the core calls them.
- Errors from the database driver are left out: a failed `?` and its `eprintln!`. The one store error the model keeps is the rejected insert of a taken identifier.
- `Store.Database.GetAllTasks`: requires every status to be readable. That is the table invariant; the source's `FromSql` error path is modelled by `Store.DecodeRows` returning None.
- `TaskPriority` and its SQL codec are not part of this model. `src/db/models.rs` declares neither `TaskPriority` nor the `priority` and `due_date` fields, and its `Task::new` takes three arguments. `src/app.rs:220` and `src/db/mod.rs:105-153` use five arguments and both fields. The model follows `src/app.rs` and `src/db/mod.rs`, and a priority is stored as itself.
- Ties in `created_at` are unordered in SQLite. The model puts a new row after every row that is strictly newer, which is one of the orders the query may return.
- Store.ProfileAfterXp: the `i32` overflow of `current_xp += xp` and `level += 1` is not modelled. The growth of the threshold by 1.5 is modelled as the cast computes it: truncated toward zero and saturated at the `i32` bounds.
- Rust's `to_lowercase` and `char::is_numeric` are modelled on ASCII letters and digits. Unicode case mapping and the other Unicode numeric characters are left out. `is_whitespace` follows the Unicode White_Space set.
- Form.DueDateOf: chrono's parser accepts more spellings than the model's fixed `YYYY-MM-DD` shape, for example unpadded fields and signed years. The model accepts only the ten-character form.
- TextArea.Input: the line editor's Control and Alt bindings, its undo history, word motions, Home, End and Tab are left out. A key held with Control or Alt, and any key other than a character, Enter, Backspace, Delete and the arrows, leaves the editor unchanged in the model. So Alt+b, Alt+f, Alt+h, Alt+d, Alt+< and Alt+>, which move or delete by word or jump to the top or bottom, change nothing in the model, and Enter, Backspace and Delete held with a modifier do not edit.
- The placeholder texts of the form and the styling of widgets are left out.
- Store.Database.GetWeeklyStats: counts the rows stored as "DONE", the corrected query of Findings. The source's literal 'Done' matches no row, so the source returns no statistics for a readable table; `Store.AsWrittenFindsNoDay` and `Store.AsWrittenMissesCompletedTask` state what the query as written gives.
- Store.Database.GetStreak: lists the completion days of the rows stored as "DONE", the corrected query of Findings. As written the streak is always 0 for a readable table, as `Store.AsWrittenFindsNoDay` shows.
- Application.App.constructor: the statistics it loads are the corrected ones of `Store.Database.GetWeeklyStats`, where the source's `get_weekly_stats` at `src/app.rs:132` gives none.
- Application.App.RefreshState: the statistics it reloads are the corrected ones of `Store.Database.GetWeeklyStats`, where the source's `get_weekly_stats` at `src/app.rs:173` gives none. The App's invariant `Application.App.Valid` uses the same corrected statistics.
- Application.App.OnTick: uses the corrected tick `Timer.SteadyTick` of Findings, which keeps the sub-second rest of the elapsed time. `Timer.Tick` models the tick as written.
- Dispatch.Step: the tick of each turn is the corrected one of `Application.App.OnTick` (and `Dispatch.Ticked`).
- Dispatch.Step: one instant `now` serves both the tick and the key of a turn. In the source, `on_tick`, `toggle_timer`, `update_task_status` and `Task::new` each read the clock themselves, so their readings can differ by up to the 250 ms poll.
- Navigation.KanbanNext: the column cursors are not clamped when tasks leave a column; the source does not clamp them either.

## Findings

| source | as written | input that shows it | evidently intended | confidence | as-written member | corrected member |
|---|---|---|---|---|---|---|
| src/db/mod.rs:202 | the weekly statistics select rows whose status is 'Done' | a store with one task stored as "DONE" with a completion time: the statistics are empty | count the tasks stored with status "DONE", the text `ToSql` writes | not executed | Store.AsWrittenMissesCompletedTask | Store.Database.GetWeeklyStats |
| src/db/mod.rs:255 | the streak query selects rows whose status is 'Done' | any readable store: there is no completion day, so the streak is always 0 | list the completion days of tasks stored as "DONE" | not executed | Store.AsWrittenFindsNoDay | Store.CorrectedCountsEveryCompletion |
| src/app.rs:470-478 | the tick takes off the whole seconds elapsed and re-anchors at the current instant, dropping the sub-second rest | a running 1500 s session anchored at 0 ms, ticked at 1500 ms and at 3000 ms, shows 1498 s; ticked once at 3000 ms it shows 1497 s | the countdown loses no time between ticks: the anchor moves on by the seconds taken off | not executed | Timer.TicksLoseRemainder | Timer.TicksCoalesce |

The App's invariant uses the corrected statistics, and the App's tick is the corrected one.

Two places where the code is followed rather than the description of the program:

- `add_xp` levels up at most once per award (`src/db/mod.rs:238-242`). A large award can leave progress at or above the new threshold, as `Store.SingleLevelUpLeavesExcess` shows.
- Pressing Enter on a blank title returns to normal mode without creating a task (`src/main.rs:171`).
