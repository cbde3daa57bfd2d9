# Productivity tracker: a Dafny model of its screen handlers

The Productivity Tracker is a React Native app. It tracks habits, daily
routines, goals with milestones, a password-protected journal, and a
countdown timer with a log of completed sessions. Every screen keeps its
records in device storage under one key per collection. Its logic lives in
the small handlers behind each button: toggle today's completion, add a
record, delete one, unlock the journal, start the timer, tick it down.

This project models those handlers and proves what they promise.

- **Records and storage.** The records are datatypes (`Records`). Device
  storage is one `Storage.Store` object with a field per key. A key that is
  missing reads as an empty list. Four keys are `Option`s instead. The
  categories screen seeds the built-ins when its key is missing, and the
  journal password and the timer state are checked for presence. The
  session log is read as empty when missing, but `clearAllSessions` removes
  its key (app/timer.jsx:253).
- **Screens.** Each screen is a class whose fields are its React state. A
  handler is a method that changes only the fields and storage keys it
  names.
- **Specifications.** The pure parts are functions with lemmas about them:
  filters, toggles, the accuracy and progress percentages, the note upsert,
  the password gate, the clock text, and the tick steps. Each method is
  specified by these functions.
- **Dates** are day numbers (`Calendar.Day`). "Today", record ids and the
  session start and end times are parameters.
- **Math.round.** `Math.round(100 * a / b)` is exact round-half-up on
  rationals (`Percent.RoundPercent`).
- **Blank input.** `String.prototype.trim` is modelled with the
  ECMAScript white-space and line-terminator code points (`Text.Trim`).

Modules, one per file:

- `common.dfy`: `Option`, an order-keeping filter, reversal, and removal at
  an index.
- `text.dfy`: trimming and blankness.
- `percent.dfy`: the rounded percentage.
- `calendar.dfy`: the 30-day date window.
- `records.dfy`: the stored records.
- `storage.dfy`: the stored keys.
- `habits.dfy`, `routines.dfy`, `goals.dfy`, `categories.dfy`: the list
  screens.
- `add_habit.dfy`, `add_routine.dfy`, `add_goal.dfy`, `add_note.dfy`: the
  forms.
- `notes.dfy`: the journal screen.
- `clock.dfy`: the `HH:MM:SS` and duration texts.
- `timer.dfy`: the countdown and its session log.

## Model

| member | source | states |
|---|---|---|
| Calendar.WindowDates | app/habits.jsx:8-14 | the strip has exactly n days; the first is today and each is one day before the previous |
| Calendar.WindowDatesShape | app/routines.jsx:9-15 | the strip strictly descends, so it has no duplicates, and it holds exactly the days in (today - n, today] |
| Habits.Visible | app/habits.jsx:35-37 | a habit is listed iff it is stored and started on or before the selected day |
| Habits.DoneDays | app/habits.jsx:44-46 | the days counted as done are history keys whose value is true, and all such keys |
| Habits.Accuracy | app/habits.jsx:40-49 | for a non-empty history, the nearest integer to 100 * done days / recorded days, halves rounded up; so at most 100, 0 when no day is done and 100 when every recorded day is; 0 for an empty history |
| Percent.RoundPercent | app/habits.jsx:48 | the result is round-half-up of 100 * part / whole: 2w*r <= 200p + w < 2w*(r+1) |
| Percent.RoundPercentBounds | app/goals.jsx:86-91 | for part <= whole the percentage lies in 0..100, with 0 at part 0 and 100 at part == whole |
| Percent.RoundPercentMonotone | app/habits.jsx:44-48 | more done days never lower the percentage |
| Habits.ToggleDay | app/habits.jsx:66-69 | the day becomes a key; its done flag flips, an absent day counting as not done; every other day keeps its value |
| Habits.ToggleHabits | app/habits.jsx:64-73 | same length; habits with another id are untouched; a habit with the id keeps every field but the history, which is toggled on the day |
| Habits.WithoutHabit | app/habits.jsx:87 | exactly the habits with another id remain |
| Habits.ToggleDayTwice | app/habits.jsx:66-69 | toggling twice restores whether the day is done; a present key comes back unchanged; an absent key comes back as false |
| Habits.ToggleTwiceGrowsDenominator | app/habits.jsx:43-48 | toggling a fresh day twice adds one key to the denominator and no done day |
| Habits.ToggleTwiceOnEmptyHistory | app/habits.jsx:41-48 | an empty history toggled twice on a day is {day: false}, with accuracy 0 |
| Habits.ToggleDayDoneCount | app/habits.jsx:44-46 | a toggle adds the day to the done days or removes it, by its old state |
| Habits.HabitsScreen.constructor | app/habits.jsx:17-20 | no habits; the selected day is today |
| Habits.HabitsScreen.FetchHabits | app/habits.jsx:23-30 | the screen shows the stored habits |
| Habits.HabitsScreen.SelectDate | app/habits.jsx:107 | the tapped day becomes selected |
| Habits.HabitsScreen.ToggleCompletion | app/habits.jsx:51-77 | allowed iff the selected day is today; refused changes nothing on screen or in storage; allowed toggles today on the habit and writes the list |
| Habits.HabitsScreen.DeleteHabit | app/habits.jsx:80-92 | shown and stored lists both drop exactly the habits with the id |
| Routines.Visible | app/routines.jsx:66-68 | a routine is listed iff it is stored and started on or before the selected day |
| Routines.ToggleTask | app/routines.jsx:87-93 | other days are kept; on the day every other task keeps its entry; the task's flag flips, absent counting as not done |
| Routines.ToggleRoutines | app/routines.jsx:85-97 | same length; other routines untouched; the routine with the id has only its history toggled |
| Routines.WithoutRoutine | app/routines.jsx:54-56 | exactly the routines with another id remain |
| Routines.ToggleTaskTwice | app/routines.jsx:89-91 | toggling a task twice restores whether it is done; other days and other tasks are untouched |
| Routines.RoutinesScreen.constructor | app/routines.jsx:18-21 | no routines; the selected day is today |
| Routines.RoutinesScreen.FetchRoutines | app/routines.jsx:41-47 | the screen shows the stored routines |
| Routines.RoutinesScreen.SelectDate | app/routines.jsx:115 | the tapped day becomes selected |
| Routines.RoutinesScreen.ToggleTaskCompletion | app/routines.jsx:70-101 | allowed iff the selected day is today; refused changes nothing; allowed toggles the task today and writes the list |
| Routines.RoutinesScreen.DeleteRoutine | app/routines.jsx:49-63 | shown and stored lists drop exactly the routines with the id |
| Goals.ToggleMilestones | app/goals.jsx:66-70 | same length; the milestones with the id flip their flag; every other milestone is unchanged |
| Goals.ToggleGoals | app/goals.jsx:64-81 | same length; other goals untouched; the goal with the id gets toggled milestones and a completed flag equal to "every milestone completed", all else kept |
| Goals.CompletedCount | app/goals.jsx:87-89 | the length of the list of completed milestones; so equal to the number of milestones iff all are completed, and 0 iff none is |
| Goals.Progress | app/goals.jsx:86-91 | defined iff there are milestones; then the nearest integer to 100 * completed / milestones, halves rounded up: at most 100, 100 when all are completed, 0 when none is |
| Goals.ProgressRoundsUpBeforeCompletion | app/goals.jsx:90 | 199 of 200 milestones already show 100% |
| Goals.CompletedGoals | app/goals.jsx:93 | exactly the completed goals |
| Goals.UncompletedGoals | app/goals.jsx:94 | exactly the goals not completed |
| Goals.GoalsPartition | app/goals.jsx:93-94 | the two sections together hold every goal once: a multiset and length partition |
| Goals.GoalsPartitionOrder | app/goals.jsx:93-94 | each section keeps the stored order |
| Goals.WithoutGoal | app/goals.jsx:54 | exactly the goals with another id remain |
| Goals.ToggleMilestonesTwice | app/goals.jsx:66-70 | toggling a milestone twice restores the list |
| Goals.ToggleGoalsTwice | app/goals.jsx:64-81 | on goals whose flag agrees with their milestones, toggling twice restores the list |
| Goals.ToggleGoalsKeepsConsistent | app/goals.jsx:71-78 | a toggle keeps every goal's flag in agreement with its milestones |
| Goals.GoalsScreen.constructor | app/goals.jsx:11 | no goals |
| Goals.GoalsScreen.FetchGoals | app/goals.jsx:33-37 | the screen shows the stored goals |
| Goals.GoalsScreen.ToggleMilestone | app/goals.jsx:63-84 | shown and stored goals become the toggled list |
| Goals.GoalsScreen.DeleteGoal | app/goals.jsx:49-61 | shown and stored goals drop exactly those with the id |
| Categories.NewCategory | app/categories.jsx:73-84 | refused iff the trimmed name is empty or no icon or colour is chosen; otherwise the trimmed name with the chosen icon and colour |
| Categories.WithoutCategory | app/categories.jsx:113-115 | exactly the categories with another name remain |
| Categories.SeedShape | app/categories.jsx:14-29 | fourteen built-in categories with distinct names |
| Categories.BuiltInsSurvive | app/categories.jsx:86-115 | once seeded, adding and deleting a custom name never lose a built-in category |
| Categories.OfferedDeleteNotBuiltIn | app/categories.jsx:152 | the delete button is offered for no built-in category |
| Categories.CategoriesScreen.constructor | app/categories.jsx:52-55 | no categories; empty form |
| Categories.CategoriesScreen.FetchCategories | app/categories.jsx:58-68 | a stored list is shown as is; without one the built-ins are shown and written |
| Categories.CategoriesScreen.AddCategory | app/categories.jsx:73-93 | added iff `NewCategory` accepts the form; refused changes nothing; added appends, writes and clears the form |
| Categories.CategoriesScreen.DeleteCategory | app/categories.jsx:95-126 | refused iff the name is a built-in one, whatever is stored; otherwise shown and stored lists drop every category with the name |
| Text.SkipLeading | app/categories.jsx:74 | the first position from a start that is not white space, with only white space skipped |
| Text.SkipTrailing | app/categories.jsx:74 | the end of the text before a position once its trailing white space is dropped, with only white space skipped |
| Text.Trim | app/categories.jsx:79 | a piece of the input with no white space at either end and only white space around it; empty iff the input is all white space |
| Text.TrimIdempotent | app/add-notes.jsx:41-60 | trimming twice is trimming once, so a fetched note's trimmed text is saved unchanged |
| Text.TrimUnchanged | app/add-notes.jsx:59-60 | text without white space at its ends is kept as is |
| AddHabit.NewHabit | app/add-habits.jsx:39-49 | the record copies the category's name, icon and colour, starts today and has no history |
| AddHabit.NewHabitShape | app/add-habits.jsx:47-48 | a new habit has 0% accuracy and is listed exactly from its start day on |
| AddHabit.AddHabitForm.constructor | app/add-habits.jsx:27-30 | no category; frequency Daily |
| AddHabit.AddHabitForm.SelectCategory | app/add-habits.jsx:77 | the tapped category is chosen |
| AddHabit.AddHabitForm.SelectFrequency | app/add-habits.jsx:115-118 | the tapped frequency is chosen |
| AddHabit.AddHabitForm.HandleAddHabit | app/add-habits.jsx:33-56 | saved iff the name is non-empty and a category is chosen; a refusal writes nothing; a save appends the new habit after the stored ones |
| AddRoutine.StoredTasks | app/add-routine.jsx:35 | same tasks in the same order, each not completed |
| AddRoutine.WithoutTask | app/add-routine.jsx:21-23 | exactly the tasks with another id remain |
| AddRoutine.NewRoutine | app/add-routine.jsx:31-39 | the routine holds the tasks not completed, no history, a Daily frequency, and starts today |
| AddRoutine.NewRoutineNothingDone | app/add-routine.jsx:35-37 | no task of a new routine is done on any day |
| AddRoutine.AddRoutineForm.constructor | app/add-routine.jsx:8-11 | empty form |
| AddRoutine.AddRoutineForm.HandleAddTask | app/add-routine.jsx:14-19 | blank input is ignored; otherwise the untrimmed text is appended as a task and the input cleared |
| AddRoutine.AddRoutineForm.HandleDeleteTask | app/add-routine.jsx:21-23 | the tasks with the id are dropped |
| AddRoutine.AddRoutineForm.HandleSaveRoutine | app/add-routine.jsx:25-46 | saved iff the name is non-empty and there is a task; a refusal writes nothing; a save appends the new routine |
| AddGoal.WithoutMilestone | app/add-goal.jsx:53-57 | exactly the milestones with another id remain |
| AddGoal.NewGoal | app/add-goal.jsx:65-74 | the goal holds the milestones, the category's name and the deadline, starts today, not completed |
| AddGoal.NewGoalConsistent | app/add-goal.jsx:60-74 | a goal saved with milestones, none completed, has a flag that agrees with them |
| AddGoal.AddGoalForm.constructor | app/add-goal.jsx:34-39 | empty form; the deadline is today |
| AddGoal.AddGoalForm.SelectCategory | app/add-goal.jsx:117 | the tapped category is chosen |
| AddGoal.AddGoalForm.PickDeadline | app/add-goal.jsx:154-156 | a picked day becomes the deadline; a dismissed picker keeps it |
| AddGoal.AddGoalForm.HandleAddMilestone | app/add-goal.jsx:43-51 | blank input is ignored; otherwise the untrimmed text is appended as a milestone not completed and the input cleared |
| AddGoal.AddGoalForm.HandleDeleteMilestone | app/add-goal.jsx:53-57 | the milestones with the id are dropped |
| AddGoal.AddGoalForm.HandleSaveGoal | app/add-goal.jsx:59-81 | saved iff a name, a category and a milestone are given; a refusal writes nothing; a save appends a goal whose flag agrees with its milestones |
| AddNote.FindNote | app/add-notes.jsx:41 | absent iff no note has the id; otherwise the first stored note with the id |
| AddNote.SavedNote | app/add-notes.jsx:57-62 | the editing id or a fresh one, trimmed heading and body, the given day or today |
| AddNote.Upsert | app/add-notes.jsx:64-67 | adding appends; editing keeps the length, replaces every note with the id and keeps the others in place |
| AddNote.UpsertMissingIdIsNoop | app/add-notes.jsx:66 | editing an id that is not stored changes nothing |
| AddNote.UpsertEditIdempotent | app/add-notes.jsx:66 | after an edit the note is found under its id, and saving it again changes nothing |
| AddNote.ResaveFetchedIsNoop | app/add-notes.jsx:37-67 | saving a just-saved note again, with the heading and body fetched back, leaves the notes unchanged |
| AddNote.NoteEditor.constructor | app/add-notes.jsx:17-19 | the editor holds its id and day and empty text |
| AddNote.NoteEditor.FetchNote | app/add-notes.jsx:37-49 | when editing a stored note, its heading and body are loaded; otherwise the text is kept |
| AddNote.SaveNote | app/add-notes.jsx:51-67 | saved iff the body is not blank; a refusal keeps the notes; a save upserts the built note |
| AddNote.NoteEditor.HandleSaveNote | app/add-notes.jsx:51-71 | the stored notes and the saved flag become what `SaveNote` says |
| Notes.CheckPassword | app/notes.jsx:63-76 | the modal shows; without a stored password it asks for a new one; with one it remembers it |
| Notes.Submit | app/notes.jsx:85-140 | blank input: refused, nothing changes; set-new mode: the untrimmed input becomes the password and the modal closes; verify mode: unlocked iff the input equals the password; non-blank input is cleared |
| Notes.SetThenVerify | app/notes.jsx:78-83 | after a password is set, the re-check asks for it, and exactly the same text unlocks |
| Notes.VerifyIsExact | app/notes.jsx:124 | a correct password with a leading space is refused |
| Notes.NotesOn | app/notes.jsx:240-242 | exactly the notes dated on the selected day |
| Notes.WithoutNote | app/notes.jsx:185 | exactly the notes with another id remain |
| Notes.RenderDateScroll | app/notes.jsx:193-206 | the list built by prepending and then reversed in place is the 30-day window from today back |
| Notes.NotesScreen.constructor | app/notes.jsx:18-25 | no notes; today selected; gate closed, no password known |
| Notes.NotesScreen.PasswordEffect | app/notes.jsx:62-83 | the notes load when the modal is closed and a password is known; the gate then moves as `CheckPassword` says |
| Notes.NotesScreen.TypePassword | app/notes.jsx:162 | the field holds the typed text |
| Notes.NotesScreen.DismissPasswordModal | app/notes.jsx:147 | the back button closes the gate without a password check; the notes are not loaded and the password state and typed text are kept |
| Notes.NotesScreen.HandlePasswordSubmit | app/notes.jsx:85-140 | the gate moves as `Submit` says; a new password is written; unlocking loads the stored notes |
| Notes.NotesScreen.SelectDate | app/notes.jsx:209 | the tapped day becomes selected |
| Notes.NotesScreen.DeleteNote | app/notes.jsx:180-191 | shown and stored notes drop exactly those with the id |
| Clock.Decimal | app/timer.jsx:306-310 | `toString` of a natural number: digits only, no leading zero except for 0; one digit iff under 10 |
| Clock.DecimalValue | app/timer.jsx:306-310 | the digits read back as the number |
| Clock.DecimalInjective | app/timer.jsx:184 | different numbers have different texts |
| Clock.PadStart2 | app/timer.jsx:307 | short text is padded with zeros to two characters; longer text is kept |
| Clock.PadKeepsValue | app/timer.jsx:307 | padding keeps the value of a digit string |
| Clock.FormatClock | app/timer.jsx:306-312 | the display has at least eight characters |
| Clock.Display | app/timer.jsx:304-313 | the clock shows iff time is left |
| Clock.ClockArithmetic | app/timer.jsx:306-312 | hours * 3600 + minutes * 60 + seconds of `t` is `t`, with minutes and seconds under 60 |
| Clock.FormatClockReadsBack | app/timer.jsx:306-312 | below 100 hours the display is `HH:MM:SS`, whose fields read back as t div 3600, (t mod 3600) div 60 and t mod 60 and add up to t |
| Clock.DurationText | app/timer.jsx:184 | the duration text ends with "s" |
| Clock.DurationInjective | app/timer.jsx:184 | the duration text determines hours, minutes and seconds |
| Timer.TotalSeconds | app/timer.jsx:162 | zero iff hours, minutes and seconds are all zero |
| Timer.StartDisplaysPicked | app/timer.jsx:162 | with picker values the countdown starts under a day, and its first display reads back as the picked time |
| Timer.TickStep | app/timer.jsx:123-131 | a running tick takes one second off positive time; at zero or below it stops at 0 and saves a session; time never goes negative |
| Timer.Ticks | app/timer.jsx:122-133 | k ticks save at most k sessions |
| Timer.StoppedStays | app/timer.jsx:134-136 | a stopped timer never moves |
| Timer.CountsDown | app/timer.jsx:131 | after k <= n ticks a countdown from n shows n - k and has saved nothing |
| Timer.CountdownSavesOnce | app/timer.jsx:123-131 | a countdown from n stops at 0 after n + 1 ticks with exactly one saved session, and stays so |
| Timer.BackgroundStep | app/timer.jsx:38-58 | acts only on a stored, running timer with time left; takes one second off; keeps running iff time is left; notifies iff it reaches 0 |
| Timer.BackgroundSteps | app/timer.jsx:32-63 | k runs send at most k notifications |
| Timer.BackgroundFinishes | app/timer.jsx:41-58 | from n > 0 seconds, n runs stop the stored timer at 0 with exactly one notification; later runs change nothing |
| Timer.BackgroundIdle | app/timer.jsx:41 | a stopped or missing stored timer is never changed |
| Timer.BackgroundTask | app/timer.jsx:32-63 | the stored timer state moves as `BackgroundStep` says |
| Timer.StoredSessions | app/timer.jsx:191-192 | a missing log reads as empty |
| Timer.NewSession | app/timer.jsx:182-189 | the title is "Untitled" when empty and never empty; the duration is the picked time's text |
| Common.Reverse | app/timer.jsx:212 | entry i of the result is entry n - 1 - i of the input |
| Common.ReverseInvolution | app/timer.jsx:212 | reversing twice restores the list |
| Common.RemoveAt | app/timer.jsx:229 | an index in range is dropped and the rest keep their order; an index out of range changes nothing |
| Timer.PersistedAfterDeleteAsWritten | app/timer.jsx:229-233 | the delete writes back one session fewer |
| Timer.DeleteAsWrittenFlipsOrder | app/timer.jsx:212-233 | as written, the log reloaded after a delete is shown in the opposite order |
| Timer.PersistedAfterDelete | app/timer.jsx:229-233 | the corrected delete writes back one session fewer |
| Timer.DeleteReloadKeepsDisplay | app/timer.jsx:212-233 | with the corrected write, the reloaded log is the one displayed after the delete |
| Timer.DeleteRemovesStoredEntry | app/timer.jsx:212-233 | deleting display entry i removes stored entry n - 1 - i and nothing else |
| Timer.SaveAfterDeleteShowsNewestFirst | app/timer.jsx:193-233 | with the corrected write, a session saved after a delete shows first, above the rest in order |
| Timer.DisplayAfterSave | app/timer.jsx:181-198 | corrected: after a save the new session is shown on top of the previous display |
| Timer.StaleDeleteLosesSaved | app/timer.jsx:181-233 | as written, a delete after an on-screen save writes back a log two sessions shorter, without the saved one |
| Timer.SaveThenDeleteKeepsOthers | app/timer.jsx:181-233 | corrected, the display after a save is the log newest first, and a later delete removes only the matching stored entry, so the saved session survives unless it is the one deleted |
| Timer.TimerScreen.constructor | app/timer.jsx:85-91 | untitled, 0:0:0, stopped, no time left, no sessions |
| Timer.TimerScreen.LoadTimerState | app/timer.jsx:107-117 | a stored timer state replaces the screen's; otherwise it is kept |
| Timer.TimerScreen.PickTime | app/timer.jsx:339-410 | the pickers hold hours under 24 and minutes and seconds under 60 |
| Timer.TimerScreen.Pomodoro | app/timer.jsx:432-436 | the preset picks 25 minutes |
| Timer.TimerScreen.Rest | app/timer.jsx:444-448 | the preset picks 5 minutes |
| Timer.TimerScreen.SetTitle | app/timer.jsx:320-321 | the title is the typed text |
| Timer.TimerScreen.StartTimer | app/timer.jsx:153-168 | started iff some picker is non-zero; refused changes nothing; started runs from the total seconds, under a day, which are stored, and the first display reads back as the picked time |
| Timer.TimerScreen.SaveSession | app/timer.jsx:181-198 | exactly one session is appended after the stored log (a missing log reads as empty); corrected, it is also shown on top, keeping the display in step with the log |
| Timer.TimerScreen.Tick | app/timer.jsx:120-139 | the state moves as `TickStep` says and is stored; only the tick that finds no time left appends a session and (corrected, see Findings) shows it; the display stays in step with the log |
| Timer.TimerScreen.ResetTimer | app/timer.jsx:171-178 | stopped with no time left, and stored so |
| Timer.TimerScreen.FetchSessions | app/timer.jsx:208-216 | the screen shows the stored log newest first, so display and log are in step |
| Timer.TimerScreen.DeleteSession | app/timer.jsx:219-239 | display entry `index` is dropped; the log is written back oldest first (corrected, see Findings), so display and log are in step; from a display in step, exactly stored entry n - 1 - index is removed |
| Timer.TimerScreen.ClearAllSessions | app/timer.jsx:242-258 | no sessions shown and none stored, which is in step |

## Left out

- Rendering, styling, navigation, and the alert and confirmation dialogs.
  Each destructive handler is modelled on its confirmed path. Cancelling
  changes nothing.
- Clocks and time zones. `toISOString` dates are UTC and `moment()` dates
  are local. Dates are day numbers and "today" is a parameter, so the
  model cannot show a UTC/local mismatch near midnight.
- Id generation from `Date.now()`. Ids are parameters, and their
  uniqueness is neither assumed nor guaranteed.
- Session start and end times from `toLocaleTimeString`. They are
  parameters.
- Storage serialisation and its swallowed errors (utils/storage.js). Each
  write is a field assignment and each read returns the last write.
- Concurrency:
  - interleaving of screens and of asynchronous writes;
  - the timing of React effects and of `setInterval`;
  - last-writer-wins races.
- Timer plumbing:
  - background-fetch registration and unregistration;
  - notification permissions;
  - scheduling of the notification itself. `Timer.BackgroundStep` returns
    only whether one is due.
- The stopwatch tab. It uses state that is never declared
  (app/timer.jsx:200-205).
- Welcome, settings, help, theme and authentication screens and contexts.
- Floating point. Percentages use exact integer round-half-up, which
  agrees with `Math.round` on these quotients apart from binary rounding.
- Frequency-aware (weekly or monthly) accuracy. The code has none, and
  frequency is only stored.
- Habits.Accuracy: an undefined `history` is not modelled. Every record
  built by the app carries a history map.
- Habits.Visible, Routines.Visible: `new Date(...)` string parsing is
  replaced by comparing day numbers.
- Timer.TimerScreen.Tick: the interval's `saveSession` sees the title and
  pickers captured when the timer started. The model uses the current
  fields, so edits made while the timer runs are not modelled.
- Timer.TimerScreen.Tick: the save effect's write of `{timeLeft,
  isRunning}` is folded into each method that changes them.
- Timer.TimerScreen.DeleteSession: as written, the source stores the
  displayed newest-first list. The method models the corrected write; the
  as-written one is `Timer.PersistedAfterDeleteAsWritten` (see Findings).
- Timer.TimerScreen.SaveSession: as written, the source does not refresh
  the displayed list after a save. The method models the corrected
  behaviour, which shows the saved session on top; the as-written loss is
  `Timer.StaleDeleteLosesSaved` (see Findings).
- Clock.FormatClockReadsBack: the read-back is proved below 100 hours
  only. Beyond that the hours field has more than two digits; the pickers
  stay under 24 hours.
- Notes.NotesScreen.PasswordEffect: it is an explicit call. The model does
  not say when React runs it (on mount and whenever `notesPassword`
  changes).
- AddNote.NoteEditor.FetchNote: `heading || ""` is not modelled. Stored
  notes always carry string fields.
- A `noteId` or `date` route parameter that is an empty string counts as
  absent in the source. Here it is an `Option`.

## Findings

| source | as written | input that shows it | evidently intended | confidence | as-written member | corrected member |
|---|---|---|---|---|---|---|
| app/timer.jsx:229-233 | `deleteSession` writes the displayed list, which `fetchSessions` reversed to newest first (app/timer.jsx:212), back to storage | log [a, b, c] is shown as [c, b, a]; deleting index 0 stores [b, a]; reopening the timer shows [a, b] | store the remaining sessions in their stored oldest-first order, so reopening shows the same list and later saves still append at the end | high; not executed | Timer.DeleteAsWrittenFlipsOrder | Timer.DeleteReloadKeepsDisplay |
| app/timer.jsx:181-198 | `saveSession` appends to the stored log but leaves the displayed list as `fetchSessions` loaded it on opening (app/timer.jsx:208-216), and `deleteSession` writes that stale list back (app/timer.jsx:229-233) | log [a] is shown as [a]; a countdown ends and saves b, so the log is [a, b] while [a] is shown; deleting index 0 stores an empty log, and b is lost | the saved session is shown on top of the list, so the display stays the log newest first and a delete removes only the chosen session | high; not executed | Timer.StaleDeleteLosesSaved | Timer.SaveThenDeleteKeepsOthers |
