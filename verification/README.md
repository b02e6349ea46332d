# FlexTrack core, modelled in Dafny

FlexTrack is a single-page fitness tracker. The user logs training sessions
set by set, and the app keeps, per exercise:

- a personal record and the history of every positive maximum lifted;
- counters (sessions saved, streak) that grow with each save.

Around that state sit derived views:

- the dashboard chart, record cards and tip cards;
- the record details screen;
- the exercise search;
- the CSV export of the history;
- the profile's energy estimates and backup file;
- the goals screen;
- the retry wrapper around the assistant service.

This project models that logic as pure functions over immutable datatypes
and proves what the app promises about it.

Modules, one per part of the program:

| module | models |
|---|---|
| `Types` | the records of the data model (sessions, logs, sets, goals, stats, profile) |
| `Catalog` | the static exercise catalog and the lookup by id |
| `Aggregator` | saving a session: per-log maxima, record replacement, history points, notifications, counters |
| `Notifications` | the transient notification queue: add, and expiry as an explicit event |
| `App` | the shell's state, defaults, loading and persisting, profile update, plan activation, import; the invariant tying each record to its history |
| `Logger` | the session builder: add exercise, edit a set, add or remove sets and logs, the rest timer, saving, the `m:ss` clock |
| `Goals` | goal progress, completion, the add form and deletion |
| `PRDetails` | best weight, start weight, gain and its percentage, the newest-first breakdown |
| `Dashboard` | the volume chart, the record cards, the streak counter |
| `Tips` | turning assistant text into at most three numbered-or-not tip cards |
| `Library` | the case-insensitive search combined with the category tabs |
| `History` | the CSV export (as written, and corrected) |
| `Profile` | basal and daily energy estimates, the backup bundle and file name, the fallback tips |
| `Gemini` | the retry wrapper as a sequence of attempt outcomes, and the avatar URL |
| `Text`, `Seqs` | string and sequence helpers (digits, split/join, filter, reverse) |

Things the code does that a reader might not expect, which the model keeps:

- **Every positive maximum adds a history point.** A history point is appended for every log whose maximum weight is positive, whether or not it beat the record. A repeated exercise in one session is compared with the record the earlier log already raised.
- **The completed flag of a set plays no part in the maximum.**
- **The streak goes up by one per save.** There is no reset for a gap in dates.
- **The daily energy figure is rounded from the unrounded basal figure.** It is not the rounded basal figure times the multiplier, so the two can differ by one (`Profile.DailyFromUnroundedBasal`).
- **Imported stats replace the current stats whole.** They are not merged with the defaults. Only stats loaded from storage are merged with the defaults.
- **A descending goal with a positive current value never shows complete when its target is positive.** For weight and body-fat goals, progress is the share of the current value above the target. It falls as the target is approached, and for a positive current value it reaches 100% only for a target of 0 or less (`Goals.DescendingCompletion`). A negative current value can still show complete: current −5 and target 10 give (−15)/(−5)×100 = 300, clamped to 100.
- **A corrupt stored stats value is not caught.** The stats text is parsed in the updater handed to `setStats`, which runs during rendering, outside the loader's `try`. The goals are still read, nothing is posted, and the render throws (see Findings).
- **Ascending progress has no lower clamp.** A negative current value shows a negative percentage (`Goals.ProgressExamples`).

Where the written description of the app differs from its code on these points, the model follows the code.

## Model

| member | source | states |
|---|---|---|
| Aggregator.MaxWeight | App.tsx:78 | no maximum exactly when the log has no sets; otherwise a weight of one of the sets that no set exceeds |
| Aggregator.LoggedMax | App.tsx:78-79 | a log counts exactly when one of its sets has a positive weight, and then it brings its maximum set weight |
| Aggregator.Step | App.tsx:79-86 | an ignored log (no positive set weight) changes nothing; a counted log's exercise is in both the records and the history afterwards |
| Aggregator.StepSpec | App.tsx:79-86 | for a counted log: its exercise gains a history point (date, max); the record is replaced iff absent or beaten; other exercises keep records and histories; one record notification iff replaced |
| Aggregator.Fold | App.tsx:77-87 | the session's logs folded in first to last; no record and no history entry is ever dropped |
| Aggregator.FoldKeys | App.tsx:77-87 | the records and the history gain exactly the exercises the session brings a positive weight for, and lose none |
| Aggregator.TouchedIff | App.tsx:77-79 | an exercise is among those the session touches iff one of its logs of that exercise has a positive maximum |
| Aggregator.FoldMonotone | App.tsx:80-81 | no record is removed or lowered by a save |
| Aggregator.FoldUntouched | App.tsx:77-87 | an exercise without a positive log in the session keeps its record and history exactly |
| Aggregator.FoldAtLeastEachLog | App.tsx:77-86 | after the save each exercise's record is at least the maximum of each of its logs in the session |
| Aggregator.FoldAttained | App.tsx:80-81 | every record after the save is its old value or the maximum of one of the session's logs of that exercise |
| Aggregator.FoldHistory | App.tsx:84-85 | an exercise's history after the save is its old history followed by one point per positive log of it, in log order |
| Aggregator.FoldHistoryAppendOnly | App.tsx:84-85 | the old history points stay in front, unchanged |
| Aggregator.FoldMessages | App.tsx:82 | the save only appends record notifications, at most one per log, each naming one of the session's positive logs |
| Aggregator.AddWorkout | App.tsx:72-98 | the session is prepended; counters rise by exactly one; profile, weight history, badges, plan and sync flag unchanged; record keys grow by the touched exercises; records never drop; the last notification is the saved message |
| Aggregator.SaveAllCounts | App.tsx:89-95 | after any number of saves the workout counter and the streak have risen by exactly that number, and the list holds the sessions newest first |
| Aggregator.SaveAllMonotone | App.tsx:77-95 | no sequence of saves lowers or removes a record |
| App.DefaultStats | App.tsx:16-34 | the default stats have no records, zero counters and satisfy the record/history invariant |
| App.StepKeepsRecords | App.tsx:77-86 | folding one log keeps every record equal to the best weight of a non-empty, all-positive history |
| App.FoldKeepsRecords | App.tsx:77-87 | the same across all the logs of a session |
| App.SaveWorkout | App.tsx:72-98 | saving through the shell keeps the goals, prepends the session, counts it, and preserves the record/history invariant |
| App.SavedSessionsAgree | App.tsx:89-95 | from a fresh start, after any saves, the invariant holds and the dashboard's streak and the workout count equal the number of sessions saved |
| App.CardsMatchDetails | components/DashboardView.tsx:43-49 | every record card shows the best weight its details screen computes, and that screen draws its chart iff the history has two points or more |
| App.UpdateProfile | App.tsx:100-107 | the profile is replaced, the sync flag only when one is given, nothing else changes, and "Profile evolved." is posted |
| App.UpdateProfileIdempotent | App.tsx:100-107 | submitting the same profile twice leaves the state of the first submit |
| App.ActivatePlan | App.tsx:133 | the plan becomes the active one, nothing else in the state changes, and "Routine activated!" is posted |
| App.ActivatePlanReplaces | App.tsx:133 | a newer plan replaces an older one outright |
| App.Import | App.tsx:109-118 | an unreadable payload changes nothing and reports an invalid file; otherwise each present part replaces the current one, each absent part is kept, and the import is reported |
| App.ExportImportRoundTrip | components/ProfileView.tsx:55-56 | importing an exported backup into any state restores exactly the state it was exported from |
| App.MergeStatsRoundTrip | App.tsx:59 | stats stored in full load back unchanged whatever the defaults, and an empty stored object loads as the defaults |
| App.MergeStats | App.tsx:59 | field by field, a stored field wins over the default and a missing one takes the default |
| App.MergeKeepsMissingDefaults | App.tsx:59 | stored stats lacking the history and plan fields load with an empty history and no plan |
| App.Load | App.tsx:52-64 | unreadable sessions are caught: the reading stops and the failure is posted; unreadable stats (after readable or absent sessions) are not caught and the render fails; otherwise the start is the one with every parse caught |
| App.LoadCaught | App.tsx:57-63 | with every parse inside the `try`: the first unreadable part stops the reading, keeps what was read before it and posts the failure; each readable part is the stored one, stats merged over the defaults |
| App.CorruptStatsLosesData | App.tsx:52-70 | as written, readable sessions beside unreadable stats fail the render; storage keeps the defaults written on mount, so the next start silently has no sessions and no goals |
| App.CaughtStatsKeepSessions | App.tsx:57-63 | with the parse caught, the same storage posts the failure and keeps the sessions, also in storage |
| App.PersistThenLoad | App.tsx:66-70 | what the persistence effect writes is what the next start reads back, silently, both as written and with every parse caught |
| App.FirstStart | App.tsx:52-64 | with nothing stored the app starts from the defaults with no notification |
| Notifications.Add | App.tsx:44-46 | one entry is appended with the given id, text and severity; earlier entries are kept in order |
| Notifications.AddInfo | App.tsx:44 | a message posted without a severity is queued as info |
| Notifications.Post | App.tsx:44-46 | a batch of messages is queued in order after the existing entries |
| Notifications.Expire | App.tsx:47-49 | exactly the entries with the expired id leave the queue; the rest keep their order |
| Notifications.ExpireUndoesAdd | App.tsx:44-50 | expiring a just-added entry with a fresh id gives back the queue from before the add |
| Notifications.ExpireCommutes | App.tsx:47-49 | expiries of two ids commute, and expiring an id twice is expiring it once |
| Notifications.ExpireCommutesRec | App.tsx:47-49 | the commutation, by induction over the queue |
| Goals.Progress | components/GoalsView.tsx:72-75 | a descending goal shows its raw share clamped to [0, 100], case by case (0 at or below 0, the share in between, 100 at or above 100); an ascending goal with a non-zero target shows current/target×100 below 100 and 100 from there on; target 0 gives 100 for a positive current value and no finite value otherwise |
| Goals.RawProgress | components/GoalsView.tsx:72-75 | the unclamped percentage: times the target it gives current×100 for an ascending goal; for a descending one, times the current value (1 when that is 0) it gives (current − target)×100 |
| Goals.IsComplete | components/GoalsView.tsx:85-86 | a goal is complete iff its progress is exactly 100, as progress never exceeds 100 |
| Goals.AscendingCompletion | components/GoalsView.tsx:72-86 | an ascending goal with a positive target is complete iff the current value has reached the target |
| Goals.DescendingCompletion | components/GoalsView.tsx:72-86 | a descending goal with a positive current value is complete iff its target is 0 or less |
| Goals.ProgressExamples | components/GoalsView.tsx:72-75 | worked values, including a negative ascending percentage and the 100 cap |
| Goals.InitialDraft | components/GoalsView.tsx:13-20 | the form starts with empty title, target 0, current 0, unit kg, a strength goal and today's date |
| Goals.EditsKeepCurrent | components/GoalsView.tsx:155-203 | no sequence of form edits changes the current value |
| Goals.Add | components/GoalsView.tsx:22-30 | an invalid draft (empty title or zero target) leaves the list unchanged; a valid one appends exactly one goal with the draft's fields and the fresh id |
| Goals.Delete | components/GoalsView.tsx:129 | exactly the goals with that id are removed, the others keep their order |
| Goals.DeleteUndoesAdd | components/GoalsView.tsx:129 | deleting a goal just added under a fresh id restores the list |
| Goals.FormGoalsStartAtZero | components/GoalsView.tsx:13-30 | a goal added through the form has current value 0, shows 0% progress and is not complete |
| Logger.AddExercise | components/WorkoutLogger.tsx:37-47 | one log is appended with the exercise's id and name, one empty uncompleted set "1" and no notes; earlier logs are kept |
| Logger.Merge | components/WorkoutLogger.tsx:60 | each field given by the edit replaces the set's; the others and the id are kept |
| Logger.UpdateSet | components/WorkoutLogger.tsx:49-67 | only matching sets of matching logs are merged; lengths, ids and other logs are kept; the timer is set to a running 90 s iff the edit completes a matching set not completed yet |
| Logger.ToggleTwice | components/WorkoutLogger.tsx:175 | pressing a set's check button twice gives back the logs as they were |
| Logger.AddSet | components/WorkoutLogger.tsx:185 | the log gains one uncompleted set copying the last set's weight and reps (0 when none); its earlier sets and every other log are unchanged |
| Logger.NextSet | components/WorkoutLogger.tsx:185 | the appended set has the fresh id, is not completed, and copies the last set's weight and reps, or 0 and 0 when there is no set |
| Logger.RemoveLog | components/WorkoutLogger.tsx:129 | exactly the logs with that id are removed, the others keep their order |
| Logger.RemoveUndoesAdd | components/WorkoutLogger.tsx:129 | removing a log just added under a fresh id restores the logs |
| Logger.UpdateNotes | components/WorkoutLogger.tsx:141 | same length; every log differs from the input at most in its notes; the logs with that id carry the new notes and all others are unchanged |
| Logger.UpdateNotesLastWins | components/WorkoutLogger.tsx:141 | of two edits of the same notes the last one wins |
| Logger.UpdateNotesUndo | components/WorkoutLogger.tsx:141 | writing back a log's previous notes undoes an edit, when the id names that log alone |
| Logger.Save | components/WorkoutLogger.tsx:70-80 | no session iff there are no logs; otherwise the session holds the logs, the name, empty notes and the elapsed whole minutes, rounded down |
| Logger.FormatTime | components/WorkoutLogger.tsx:82-86 | digits, a colon and exactly two digits; the digits before the colon read as seconds/60 and the two after as seconds mod 60 |
| Logger.FormatTimeRoundTrip | components/WorkoutLogger.tsx:82-86 | reading the clock back as minutes×60 + seconds gives the seconds shown |
| Logger.TimerTick | components/WorkoutLogger.tsx:27-35 | a running countdown goes down by one and stops exactly at 0; a stopped one is unchanged; it never goes below 0 |
| Logger.Settle | components/WorkoutLogger.tsx:31-33 | the remaining time is kept; a countdown not at 0 is untouched, and any countdown not below 0 comes out valid (stopped when at 0) |
| Logger.Skip | components/WorkoutLogger.tsx:242 | skipping leaves a stopped countdown at 0 |
| Logger.RestCountdown | components/WorkoutLogger.tsx:27-35 | a countdown started at s shows s−n after n seconds, then stops at 0 and stays there |
| Logger.Tick | components/WorkoutLogger.tsx:20-35 | one second advances the session clock by one and the rest countdown by exactly one `TimerTick`, leaving the logs and the name alone |
| Logger.TickBuilderAdvances | components/WorkoutLogger.tsx:20-35 | after n seconds the session clock is n further on and the countdown has taken n ticks, so `RestCountdown` gives its value |
| Text.Pad2 | components/WorkoutLogger.tsx:85 | the seconds are two digits that read back as the value |
| PRDetails.MaxPR | components/PRDetailsView.tsx:22 | at least 0 and every point's weight, and either 0 or the weight of some point |
| PRDetails.MaxPRSnoc | components/PRDetailsView.tsx:22 | appending a point raises the best weight to that point's weight when it is higher, else keeps it |
| PRDetails.StartPR | components/PRDetailsView.tsx:23 | the first point's weight, or 0 for no history |
| PRDetails.Gain | components/PRDetailsView.tsx:22-24 | never negative, and 0 iff the best weight is the start weight |
| PRDetails.GainPercent | components/PRDetailsView.tsx:106 | 0 iff there is no gain; never negative for a non-negative start; gain×100 when the start is 0, else the value that times the start gives gain×100 |
| PRDetails.Breakdown | components/PRDetailsView.tsx:114 | the history newest first, same length |
| PRDetails.ShowsChart | components/PRDetailsView.tsx:58 | the chart is drawn iff the breakdown below it lists at least two sessions |
| PRDetails.BreakdownReversible | components/PRDetailsView.tsx:114 | reversing the breakdown gives the stored history back |
| PRDetails.Title | components/PRDetailsView.tsx:37 | the catalog name for a known id with a non-empty name, the fixed title for an unknown id; never empty |
| Catalog.Find | components/DashboardView.tsx:47 | the first catalog entry with the id, and nothing exactly when no entry has it |
| Dashboard.SetsVolumeAppend | components/DashboardView.tsx:39 | the volume of sets taken together is the sum of their volumes |
| Dashboard.LogsVolumeAppend | components/DashboardView.tsx:39 | a session's volume adds up log by log |
| Dashboard.SetsVolumeNonNegative | components/DashboardView.tsx:39 | sets with no negative weight or reps have a volume of at least 0 |
| Dashboard.SetsVolume | components/DashboardView.tsx:39 | one set's volume is its weight times its reps; `SetsVolumeAppend` extends this to any list |
| Dashboard.LogsVolume | components/DashboardView.tsx:39 | one log's volume is the volume of its sets; `LogsVolumeAppend` extends this to any session |
| Dashboard.ShownStreak | components/DashboardView.tsx:24 | the loaded streak, or 0 when no stats are loaded |
| Dashboard.ChartData | components/DashboardView.tsx:35-41 | at most seven points, the newest sessions, oldest of them first, the newest session last |
| Dashboard.ChartAfterSave | components/DashboardView.tsx:35-41 | saving a session adds its point on the right and drops the leftmost once seven are shown |
| Dashboard.DisplayName | components/DashboardView.tsx:47 | the catalog name when known and non-empty, else "Exercise #" and the id; never empty |
| Dashboard.RecentPRs | components/DashboardView.tsx:43-49 | at most three cards; card i is the i-th entry of the entry order, with that record's weight and display name; no id twice |
| Dashboard.RecentPRsComplete | components/DashboardView.tsx:43-49 | with three records or fewer every record has a card |
| Tips.LeadingDigits | components/DashboardView.tsx:110 | the length of the longest all-digit prefix |
| Tips.StripNumbering | components/DashboardView.tsx:110 | the result is a suffix of the line; when anything is removed it is a digit-led prefix of at least two characters and the rest starts with no whitespace |
| Tips.StripsExactlyNumbering | components/DashboardView.tsx:110 | a line loses a prefix iff it starts with digits and a full stop |
| Tips.NumberedAt | components/DashboardView.tsx:110 | a full stop after digits is where the leading digit run ends |
| Tips.StripNumberingOf | components/DashboardView.tsx:110 | "n." followed by any whitespace and a tip is stripped to the tip |
| Tips.StripDigitsDot | components/DashboardView.tsx:110 | digits followed by a full stop are removed together with the whitespace after them |
| Tips.Lines | components/DashboardView.tsx:108 | the lines of the text split at line feeds with the blank ones filtered out, in order; none holds a line feed or is blank |
| Tips.Cards | components/DashboardView.tsx:108-110 | the first three lines (all when fewer), card i being line i with its numbering stripped |
| Tips.DisplayTips | components/DashboardView.tsx:108-110 | at most three cards, as many as there are non-blank lines up to three; card i is the i-th non-blank line with its numbering stripped, and none holds a line feed |
| Tips.LinesOfJoin | components/DashboardView.tsx:108 | non-blank lines joined with line feeds split back into those lines |
| Tips.DisplayTipsOfLines | components/DashboardView.tsx:108-110 | text written as unnumbered lines shows its first three lines unchanged |
| Tips.DisplayTipsOfNumbered | components/ProfileView.tsx:304-307 | a numbered list "1. tip", "2. tip", … shows its first three tips without the numbering |
| Library.FilterExercises | components/ExerciseLibrary.tsx:19-23 | an exercise is shown iff it is listed, its lower-cased name contains the lower-cased term and it is in the tab's category; the result keeps list order |
| Library.ShowsAllInitially | components/ExerciseLibrary.tsx:20-21 | an empty search on the All tab shows the whole list |
| Library.SearchThenCategory | components/ExerciseLibrary.tsx:19-23 | searching and then picking a tab equals applying both tests at once |
| Library.SearchIgnoresCase | components/ExerciseLibrary.tsx:20 | a term and its lower-cased form find the same exercises |
| Library.FilterTwice | components/ExerciseLibrary.tsx:19-23 | filtering the result again changes nothing |
| History.Content | components/WorkoutHistory.tsx:21 | the export starts with the CSV data-URI prefix |
| History.Row | components/WorkoutHistory.tsx:14-19 | four fields, one per header: the rendered date, the session name, the duration as decimal text and the exercise names (empty for no logs, the one name for one log) |
| History.ExportAsWritten | components/WorkoutHistory.tsx:13-21 | with the source's ", " separator: the prefix, then, when no field holds a line feed, the header line and one line per session |
| History.Export | components/WorkoutHistory.tsx:13-21 | the same with the "; " separator, whose lines read back as four fields (`ExportColumns`) |
| History.HeaderAndEmptyField | components/WorkoutHistory.tsx:14-19 | the first line reads back as the four column names, and a session without logs has an empty exercises field |
| History.ExportLines | components/WorkoutHistory.tsx:15-21 | after the prefix, the text splits into the header line and one line per session in list order |
| History.AsWrittenColumns | components/WorkoutHistory.tsx:19-21 | as written, a comma-free session's line has 3 fields plus one per exercise (at least one) |
| History.AsWrittenTwoExercises | components/WorkoutHistory.tsx:19-21 | a two-exercise session gives five fields under a four-column header |
| History.ExportColumns | components/WorkoutHistory.tsx:19-21 | corrected, a comma-free session's line reads back as exactly its four fields |
| Profile.Round | components/ProfileView.tsx:50-51 | the nearest integer, halves up: within half a unit below and strictly less than half above |
| Profile.Multiplier | components/ProfileView.tsx:48 | between 1.2 and 1.9, and 1.2 for any level outside the five |
| Profile.MultiplierIncreases | components/ProfileView.tsx:48 | each listed level has a strictly larger multiplier than the ones before it |
| Profile.ComputeBiometrics | components/ProfileView.tsx:44-53 | each figure is within half a unit of its exact value; a non-negative basal estimate gives a daily figure at least as large |
| Profile.GenderGap | components/ProfileView.tsx:46-47 | "Male" and any other gender text are 166 kcal apart before rounding |
| Profile.DailyFromUnroundedBasal | components/ProfileView.tsx:50-51 | a profile whose daily figure (1562) differs from the rounded basal figure times the multiplier (1561) |
| Profile.BackupFileName | components/ProfileView.tsx:61 | the name is the prefix, a text with no 'T', and ".json" |
| Profile.BackupFileNameOfIso | components/ProfileView.tsx:61 | for a timestamp "dayTtime" the name carries exactly the day |
| Profile.FallbackFillsCards | components/ProfileView.tsx:33-42 | a failed request still fills three cards with the fallback lines unchanged |
| Profile.MakeBackup | components/ProfileView.tsx:54-55 | the backup holds the sessions, the stats and the goals unchanged, and the export time; `App.ExportImportRoundTrip` restores them |
| Gemini.RetryFrom | services/geminiService.ts:7-14 | at most retries+1 attempts; the outcome is the last attempt made; every earlier attempt threw; an error surfaces only after all attempts |
| Gemini.RetrySucceedsIffSomeAttemptReturns | services/geminiService.ts:7-14 | a request succeeds iff one of its three attempts returns, with the value of the first that did |
| Gemini.RetryGivesUp | services/geminiService.ts:11-12 | three failures surface the third error after three calls |
| Gemini.RetryOnce | services/geminiService.ts:11-12 | with no retries the wrapper is a single call |
| Gemini.FirstInline | services/geminiService.ts:105 | the index of the first part with inline data, none exactly when no part has it |
| Gemini.AvatarUrl | services/geminiService.ts:96-111 | a URL exactly when the request returned a first candidate with an inline part; the URL carries the PNG data prefix |
| Gemini.AvatarUrlCarriesData | services/geminiService.ts:106 | after the prefix the URL is the data of the first inline part |
| Gemini.AvatarNeverLost | components/ProfileView.tsx:85-90 | the form takes the new image when there is one and otherwise keeps its avatar |

## Left out

- Rendering, layout, icons and charts are presentation only. So are the navigation bar, the planner screen (it only produces the plan that `App.ActivatePlan` stores) and the view switching.
- The browser's storage is not modelled. JSON parsing and serialisation are not modelled either. A stored value is taken after parsing: absent, unparsable or parsed. Serialisation is the identity. A stored `null` is not modelled.
- The assistant service's requests are parameters. This covers prompts, model names, the plan schema and the exercise-tips and quote requests. Only their outcome is modelled: an attempt that returns or throws. A response whose text is undefined is not modelled.
- Gemini.AvatarUrl: a first candidate without `content` or `parts` makes services/geminiService.ts:105 throw, and the `catch` turns that into no avatar. The response shape in the model always has both, so this throwing path cannot be expressed. It ends in the same no-avatar result as a candidate without an inline part.
- The camera, canvas, file download, file reading, `alert` and `encodeURI` are browser I/O and are not modelled.
- Timers are explicit events. `Logger.Tick` is one second. `Notifications.Expire` stands for the 4-second timeout.
- Clocks, random ids and locale date formatting are parameters of the functions that use them. This covers `Date.now`, `Math.random`, `toISOString` and `toLocaleDateString`.
- Floating point is not modelled. Weights, repetitions, body measures and goal values are exact reals, and `Math.round` is floor(x + 0.5). NaN and the infinities appear only in goal progress, as `None`.
- Number parsing of form inputs is not modelled. The inputs arrive as numbers.
- `toLowerCase` is modelled for ASCII letters only. Other characters keep their case.
- The order in which `Object.entries` lists the records is a parameter. Its requires demands that it list each key once.
- Profile.Multiplier: the source reads the level from an object literal, so a level named like an inherited property (`toString`) would read that property. The model gives 1.2 for every text outside the five levels.
- Aliasing of the shared history arrays is not modelled. Neither is the `stats` value the save handler reads from its closure. The model is purely functional: each save reads the state it is given.
- A missing `sets` or `logs` array is the empty sequence. In every use the model covers the two behave the same.
- Import checks each part for truthiness. The model treats a part as present or absent, and takes an unreadable payload (`null`) as the error path.
- The goal form's visibility is UI state and not modelled. So are the logger's exercise picker and note toggle, the session name editor, and the library's tips and playback speed.
- The profile form's field edits are not modelled. Only the avatar result applied to it is.
- Logger.TimerTick: requires a valid countdown (never negative, stopped at 0). Every countdown the screen can reach is one.
- Dashboard.RecentPRs: requires the entry order to list each record key exactly once, as `Object.entries` does.
- Notifications.Post: requires one id per message. The ids stand for the random ids the notifier draws, and they are not assumed distinct.
- Text.Pad2: requires a value below 100. `seconds % 60` always is one.

## Findings

| source | as written | input that shows it | evidently intended | confidence | as-written member | corrected member |
|---|---|---|---|---|---|---|
| components/WorkoutHistory.tsx:19 | the exercise names of a session are joined with ", " inside a comma-separated line, with no quoting | a session holding "Bench Press" and "Squat": its line has five comma-separated fields under the four-column header | all the names in the one Exercises column, joined with a separator that holds no comma | high; not executed | History.AsWrittenTwoExercises | History.ExportColumns |
| App.tsx:59 | the stored stats text is parsed inside the updater passed to `setStats`; React runs that updater while rendering, after the `try` around it has been left, and no error boundary catches it | stored sessions that parse, with stored stats `{`: no failure is posted, the render throws, and the persistence effect has already written the defaults on mount, so the next start has no sessions and no goals | the parse caught like the other two: the failure posted, the sessions kept | medium (depends on when React runs queued updaters); not executed | App.CorruptStatsLosesData | App.CaughtStatsKeepSessions |
