# Gym-Bot core in Dafny

Gym-Bot is a Telegram bot. A user sends a weekly training program as free
text. The bot parses it into days of exercises and stores it. It then walks
the user through a session set by set, offering the weight recorded last
time. A second mode lets the user build numbered "button workouts": each
exercise has a list of planned sets, and sessions and results are kept per
workout.

This project models the bot's core and proves properties of it:

- **Strings.** `Text` models the Python string primitives the parsers use:
  `str.strip` with Python's whitespace set, `str.split` and `re.split` on a
  set of characters, `str.upper` over the Cyrillic alphabet (including
  `Ё`/`ё` and the old Cyrillic forms that `re.IGNORECASE` folds), digit
  runs, `int`, and `str(n)`.
- **Free-text parser** (`parser.py`). `Schedule` holds the shared
  `DAY_MAPPING` and the current weekday, with the weekday passed in.
  `FreeParser` models day recognition, set-count inference, exercise-line
  splitting, and the two passes of `parse_program`. Each regular expression
  is a hand-written scanner. Where `re`'s backtracking matters, the scanner
  is proved to find the same leftmost, lazy or greedy match.
- **Strict parser** (`workout_bot/parser.py`). `StrictParser` models the
  `ДЕНЬ: название NxM, ...` grammar. The result is a `Result` whose error
  carries the offending block or item.
- **Store** (`database.py`, `workout_bot/database.py`). `Store` models every
  SQLite table as a sequence of rows in one `Database` class. The two files
  share the first six operations word for word, so one model serves both.
  Each SQL statement is a function on rows, and each operation is a method
  proved against that function. `Dicts` models Python's insertion-ordered
  `dict` and the "group rows by key" loop. `Sorting` models `ORDER BY`.
- **Guided sessions** (`handlers/training.py`). `Training` models the
  `training_sessions` map as a `TrainingEngine` class. It holds the cursor
  arithmetic of `move_to_next_set` and the decisions the weight handlers
  make.
- **Button workouts** (`handlers/button_workouts.py`). `ButtonWorkouts`
  models the `button_training_sessions` and `workout_creation_sessions` maps
  as a `ButtonEngine` class. It also models the exercise-line filter, the
  preview formatter, and the 0-based set cursor.

The interfaces are passed in as parameters:

- The current weekday is a parameter (`weekday: nat`, Monday = 0).
- Every timestamp is a `date: nat` parameter.
- A parsed weight is an `Option<real>`, which is `None` when the text is not
  a number.
- Whether a button session is active is a `buttonActive` flag passed to the
  guided-session handlers, because that state lives in the other engine.
- Whether the FSM is waiting for an explicit weight is a `waiting` flag.
- The workout number and name kept in FSM state data are parameters.

The source and its docstrings disagree in several places. The model follows
the code:

- `get_stats` is documented as the latest weights, but it computes the
  maximum (`Store.StatsNotLatest`).
- `"hello"` is not rejected by the free-text parser; it becomes a one-set
  exercise for today (`FreeParser.FreeParseHello`).
- `"присед 4"` gives one set, not four (`FreeParser.ExerciseLineBareNumber`).
- A bare `"ПН:"` gives Monday with no exercises in both parsers
  (`FreeParser.FreeParseHeaderOnly`, `StrictParser.StrictParseHeaderOnly`).
- Guided sessions started from the stored program carry no `exercise_id`,
  so every record path refuses them (`Training.ProgramSessionsRefuse`).

## Model

| member | source | states |
|---|---|---|
| Schedule.LookupDay | parser.py:12-27 | a word is a day exactly when it is one of the 14 upper-case keys of the mapping; the day is one of the 7 canonical names and the key has at least two letters |
| Schedule.CurrentDay | parser.py:291-306 | the weekday index always yields one of the 7 canonical day names |
| Schedule.PutCanonical | parser.py:249-250 | assigning a canonical day keeps every key of the program canonical |
| Text.Strip | parser.py:197 | the result has no Python whitespace at either end, and is the slice of the input between its leading and its trailing whitespace |
| Text.SplitPiecesClean | workout_bot/parser.py:47 | no piece of a split contains a separator |
| Text.SplitCount | workout_bot/parser.py:47 | the number of pieces is the separator count plus one |
| Text.NatDigitsRoundTrip | workout_bot/parser.py:80-85 | `int` of the decimal digits of `n` is `n` |
| Text.StrLeTotal | database.py:367 | code-point string order is total |
| Text.StrLeTrans | database.py:367 | code-point string order is transitive |
| Text.StrLeAntisym | database.py:367 | code-point string order is antisymmetric |
| Dicts.Get | database.py:188 | a lookup succeeds exactly when the key is present, and the value found is paired with that key in the dict |
| Dicts.Put | parser.py:250 | `d[k] = v` keeps the keys of `d` in their order, adds `k` at the end when it is new, and never shrinks the dict |
| Dicts.PutGet | parser.py:250 | after `d[k] = v`, `d[k]` reads `v` and every other key reads as before |
| Dicts.PutPut | workout_bot/parser.py:71 | a second assignment to the same key overrides the first |
| Dicts.PutDistinct | parser.py:250 | assignment keeps the keys distinct |
| Dicts.GroupGet | database.py:185-195 | grouping rows gives, under each key that occurs, exactly its values in row order; a key that does not occur is absent |
| Dicts.GroupShape | database.py:185-195 | grouped keys are distinct and every group is non-empty |
| Dicts.GroupPermutes | database.py:185-195 | grouping neither loses nor invents a row: the flattened groups are a permutation of the rows |
| Dicts.GroupFlatten | database.py:185-195 | grouping the rows of a dict gives back its non-empty entries |
| Dicts.GroupRows | database.py:185-193 | the grouping loop computes the grouping function |
| Dicts.ValuesOfOrdered | database.py:374-382 | rows sorted by a preorder give groups whose values stay sorted |
| Dicts.GroupKeysOrdered | database.py:374-382 | rows sorted by key give groups in key order |
| Sorting.SortBy | database.py:339 | `ORDER BY` returns a permutation of its input |
| Sorting.SortBySorted | database.py:339 | `ORDER BY` returns a list sorted by the given total preorder |
| Sorting.InsertSorted | database.py:339 | inserting one element into a sorted list keeps it sorted |
| Sorting.SortByOrdered | database.py:367 | a list that is already sorted is returned unchanged |
| FreeParser.RemoveBullets | parser.py:42 | no bullet character is left, and the text never gets longer |
| FreeParser.ExtractDay | parser.py:30-60 | a recognised day is always canonical |
| FreeParser.ExtractDayCharacterised | parser.py:42-60 | after removing bullets and stripping, a day is recognised exactly when the leading run of at least two Cyrillic letters, upper-cased, is a mapping key and is followed by end of text, whitespace, `:`, `—` or `-`; the result is that key's day |
| FreeParser.ExtractDayNoLetter | parser.py:46-50 | a text opening with neither a bullet, a blank nor a Cyrillic letter names no day |
| FreeParser.StripParens | parser.py:81 | removing parenthesised text never lengthens the text or adds characters |
| FreeParser.FindTimes | parser.py:84-86 | the search finds the leftmost `N x M` (Latin or Cyrillic x, either case) or reports that none exists |
| FreeParser.SetsFrom | parser.py:63-100 | the set count is never negative |
| FreeParser.SetsFromWithoutTimes | parser.py:90-100 | with no `N x M`, a digit-dash-digit pair makes the count the number of all digit runs (at least two), and otherwise the count is 1 |
| FreeParser.DashPairRuns | parser.py:90-97 | a digit-dash-digit pair implies at least two digit runs |
| FreeParser.SetsFromDashes | parser.py:90-97 | "20-16-14-12" gives 4 sets |
| FreeParser.SetsFromTimes | parser.py:84-86 | "4х10" with the Cyrillic х gives 4 sets |
| FreeParser.SetsFromMax | parser.py:84-100 | "3xмакс" has no `N x M` and no dash pair, so it gives 1 set |
| FreeParser.SetsFromNoDigits | parser.py:100 | a text without digits gives 1 set |
| FreeParser.SetsFromNumber | parser.py:100 | a bare number gives 1 set, whatever its value |
| FreeParser.LeadStrip | parser.py:123 | after removing the leading decoration run, the text does not start with a bullet, dash or blank |
| FreeParser.FindNameEnd | parser.py:140-145 | the lazy name group stops at the smallest position where a blank and a number follow, or reports that there is none |
| FreeParser.FindTrailing | parser.py:148-154 | the trailing-number search finds the leftmost start of a number that runs to the end of the line, or reports that there is none |
| FreeParser.CleanLine | parser.py:118-123 | the cleaned line is stripped and does not start with a decoration |
| FreeParser.ExerciseLine | parser.py:103-166 | an accepted line has a non-empty, stripped name and a non-negative set count |
| FreeParser.ParseExerciseLine | parser.py:103-166 | the separator loop computes the exercise-line function |
| FreeParser.SplitAtFirst | parser.py:127-137 | the line is split at the first occurrence of the first separator, in the order em dash, en dash, hyphen, that occurs |
| FreeParser.SplitNameNonEmpty | parser.py:127-137 | a line that does not open with a separator gives a non-empty name |
| FreeParser.SeparatedLine | parser.py:127-161 | a line `name — desc`, its name free of em dashes and leading decorations, is the exercise `name` with the sets read from `desc` |
| FreeParser.HackSquatLine | parser.py:127-161 | "Гакк-присед — 20-16-14-12", a line of the example the bot shows, is four sets of "Гакк-присед" |
| FreeParser.ExerciseLineSeparated | parser.py:127-161 | with a separator present, the name is the stripped text before its first occurrence and the sets come from the text after it |
| FreeParser.ExerciseLineSome | parser.py:157-158 | a cleaned line opening with neither a digit nor a dash always gives an exercise |
| FreeParser.ExerciseLineNoNumber | parser.py:157-161 | a cleaned line with no digit and no separator is a one-set exercise named by the whole line |
| FreeParser.NameNumberAtBlank | parser.py:140-145 | pattern A cuts `name N` into the name and the number |
| FreeParser.ExerciseLineBareNumber | parser.py:140-161 | `name N` gives one set, not N |
| FreeParser.BlockHeader | parser.py:262-270 | a fallback block header names a canonical day, and the match lies within the block |
| FreeParser.FreeParse | parser.py:285-288 | the parse fails exactly when both passes produce nothing |
| FreeParser.ParseProgram | parser.py:169-288 | the loops over lines, blocks and pieces compute the parse function |
| FreeParser.RunSinglePass | parser.py:191-250 | the loop over lines computes the single pass |
| FreeParser.RunLinesFrom | parser.py:196-246 | the loop over the lines applies the single-pass step to every line, in order |
| FreeParser.ParseLine | parser.py:197-246 | one iteration of the line loop computes one single-pass step: blank lines change nothing, a day header saves the day collected so far and opens a new one, any other line that parses is collected |
| FreeParser.RunFallback | parser.py:253-283 | the loop over `;`-blocks computes the fallback |
| FreeParser.ParseBlock | parser.py:256-283 | one iteration of the block loop computes one fallback block step |
| FreeParser.FillDay | parser.py:273-283 | a matched block sets its day to the exercises of the comma-separated pieces that parse, in order, even when there are none |
| FreeParser.DayLineStep | parser.py:202-211 | a day-header line is consumed whole; the day before it is saved only if it collected something, replacing any earlier block of that day; every other day is kept |
| FreeParser.LineStepNoDay | parser.py:241-246 | a non-header line appends its exercise, if it parses, and opens today's day when no day has been seen |
| FreeParser.SinglePassNoDay | parser.py:241-250 | text without any day header is filed whole under the current weekday |
| FreeParser.FlushInvariant | parser.py:249-250 | saving the last day keeps the keys canonical and distinct and every day non-empty |
| FreeParser.SinglePassShape | parser.py:191-250 | the single pass yields distinct canonical days, each with at least one exercise |
| FreeParser.SinglePassEmpty | parser.py:191-250 | the single pass finds nothing exactly when no line is collected |
| FreeParser.FallbackEmpty | parser.py:253-283 | the fallback finds nothing exactly when no `;`-block opens with a day header |
| FreeParser.RunBlocksShape | parser.py:253-283 | the fallback keeps the keys canonical and distinct |
| FreeParser.FreeParseCanonical | parser.py:285-288 | a successful parse is a non-empty program with distinct canonical days |
| FreeParser.HeaderLineIsDay | parser.py:213-238 | a stripped line with a fallback-style header is already a day header for the single pass, so the branch at these lines never runs |
| FreeParser.FreeParseHello | parser.py:241-246 | "hello" parses as today's single one-set exercise and raises nothing |
| FreeParser.FreeParseHeaderOnly | parser.py:253-283 | "ПН:" gives nothing in the single pass and Monday with no exercises in the fallback |
| FreeParser.MondayHeader | parser.py:262-267 | "ПН:" is a Monday header for both passes |
| StrictParser.DayHeader | workout_bot/parser.py:55-57 | a block header is a non-empty run of Cyrillic letters immediately followed by `:`; otherwise there is none |
| StrictParser.LazyName | workout_bot/parser.py:76-85 | the lazy name group stops at the first position where the rest matches, and never crosses a newline |
| StrictParser.StrictExercise | workout_bot/parser.py:73-93 | an accepted item has a stripped name, non-empty when the item starts with a non-blank, and a non-negative set count |
| StrictParser.SetsRepsDecomposed | workout_bot/parser.py:76 | `name NxM` parses to the name with N sets |
| StrictParser.SetsDecomposed | workout_bot/parser.py:80-85 | `name N` parses to the name with N sets |
| StrictParser.StrictExerciseRoundTrip | workout_bot/parser.py:76 | writing an exercise as `name Nx<reps>` and parsing it gives it back |
| StrictParser.StrictExerciseSetsOnly | workout_bot/parser.py:80-85 | writing an exercise as `name N` and parsing it gives it back |
| StrictParser.StrictExerciseCyrillicTimes | workout_bot/parser.py:76-85 | "жим 3х10" with the Cyrillic х is rejected |
| StrictParser.StrictExerciseBench | workout_bot/parser.py:76 | "жим лёжа 3x10" is three sets of "жим лёжа" |
| StrictParser.StrictExercisePullUps | workout_bot/parser.py:76 | "подтягивания 3xмакс" is three sets |
| StrictParser.StrictExerciseSquat | workout_bot/parser.py:76 | "присед 4x8" is four sets of "присед" |
| StrictParser.ItemsFromOk | workout_bot/parser.py:66-93 | a block's items parse exactly when every item parses; the exercises then follow the items in order |
| StrictParser.ItemsFromFirstError | workout_bot/parser.py:80-85 | the error names the first item that does not parse |
| StrictParser.ItemsNamed | workout_bot/parser.py:69-93 | parsed non-blank items give one exercise each, with a non-empty name |
| StrictParser.BlockParseParts | workout_bot/parser.py:55-71 | a parsed day block has a `ДЕНЬ:` header whose upper-cased word is a mapping key naming the day, and its items after the colon parse to the exercises |
| StrictParser.BlocksFromOk | workout_bot/parser.py:47-93 | the blocks parse exactly when every block parses |
| StrictParser.BlocksFromFirstError | workout_bot/parser.py:55-85 | the error is that of the first block that does not parse |
| StrictParser.BlocksFromGet | workout_bot/parser.py:71 | a day repeated in several blocks keeps the exercises of its last block |
| StrictParser.BlocksFromShape | workout_bot/parser.py:47-93 | parsed blocks keep the keys distinct and canonical, and the program stays empty exactly when no block names a day |
| StrictParser.StrictParseSpec | workout_bot/parser.py:28-98 | the parse succeeds exactly when every block parses and some block names a day; the result is then non-empty, its days distinct and canonical, and each day holds the exercises of its last block |
| StrictParser.StrictParseError | workout_bot/parser.py:28-98 | on failure the error is that of the first bad block |
| StrictParser.ParseProgram | workout_bot/parser.py:28-98 | the loop over blocks, with its exit at the first error and the empty-result error, computes the parse function |
| StrictParser.ApplyBlock | workout_bot/parser.py:50-93 | one iteration of the block loop skips a blank block, raises on a missing or unknown day, and otherwise resets and fills the day |
| StrictParser.FillDay | workout_bot/parser.py:71-93 | `program[day] = []` followed by the appends sets the day to the parsed items, or raises on the first bad item |
| StrictParser.StrictParseNoDay | workout_bot/parser.py:55-57 | "hello" raises the missing-day error naming "hello" |
| StrictParser.StrictParseHeaderOnly | workout_bot/parser.py:71 | "ПН:" is Monday with no exercises |
| StrictParser.TwoItemBlock | workout_bot/parser.py:47-93 | a one-block text of a day header, a blank and two comma-separated items that each parse gives that day alone, holding the two exercises in order |
| StrictParser.StrictParseDocExample | workout_bot/parser.py:28-98 | "ПН: жим лёжа 3x10, присед 4x8", the first block of the documented example, is Monday with three sets of "жим лёжа" followed by four sets of "присед" |
| Store.WithUser | database.py:119-125 | after `add_user` the id is known; a new id is appended with its name, and a known id leaves the table as it was |
| Store.WithUserIdempotent | workout_bot/database.py:80-86 | adding a known id again, under any name, changes nothing |
| Store.Database.AddUser | database.py:107-128 | the users table becomes the `add_user` result and no other table changes |
| Store.Database.SaveProgram | database.py:143-151 | every row of the user is deleted, then one row per exercise is appended in program order; no other table changes |
| Store.SelectedOtherUsers | workout_bot/database.py:104 | deleting a user's rows hides exactly that user's rows from every query |
| Store.SelectedOwn | workout_bot/database.py:132-141 | reading back a user's freshly written rows gives the written pairs, restricted to the day when one is given |
| Store.SelectedForeign | database.py:171-180 | rows written for one user are invisible to another |
| Store.SaveThenLoad | database.py:143-195 | saving a program and reading it back gives its non-empty days, or only the requested day when it is stored and non-empty |
| Store.SaveKeepsOthers | workout_bot/database.py:104-112 | saving one user's program leaves every other user's program as it was |
| Store.Database.GetProgram | database.py:171-195 | the result is the user's rows, filtered by the day when one is given, grouped by day |
| Store.Database.SaveResult | database.py:212-218 | exactly one row is appended to the results table and nothing else changes |
| Store.Latest | database.py:239-249 | the most recent matching row, or `None` exactly when no row matches |
| Store.LatestAfterSave | database.py:239-249 | a matching row saved no earlier than every other is what the next lookup finds |
| Store.LatestAfterOther | database.py:239-249 | a row that does not match leaves the answer as it was |
| Store.LastWeightOf | database.py:224-249 | the weight of a latest-dated row for (user, exercise, set number), across all days; `None` exactly when there is no such row |
| Store.SaveResultThenLast | workout_bot/database.py:173-210 | after a save with the newest time stamp, that (user, exercise, set number) reads the saved weight and every other key reads as before |
| Store.MaxWeightsSpec | database.py:266-280 | the statistics have distinct keys; an exercise appears exactly when the user has a result for it, with the heaviest weight over all its rows |
| Store.StatsNotLatest | workout_bot/database.py:227-241 | 100 kg then 80 kg: the statistics report 100 while the last weight is 80 |
| Store.ReplaceWorkout | database.py:297-300 | `INSERT OR REPLACE` keeps (user, number) unique, holds the new row, drops only the old row for that pair, and adds nothing else |
| Store.WorkoutsOfSpec | database.py:335-346 | the list holds exactly the user's workouts, by strictly increasing number |
| Store.WorkoutsOfMembers | database.py:335-346 | the list holds a workout exactly when it is one of the user's |
| Store.WorkoutsOfOrdered | database.py:335-346 | with workout numbers unique per user, the list is ordered by strictly increasing number |
| Store.Database.SaveButtonWorkout | database.py:297-316 | the workout row is upserted; that workout's exercise rows are replaced by one row per set, exercise by exercise; other tables are unchanged |
| Store.Database.GetButtonWorkoutExercises | database.py:363-391 | the grouping loop returns the exercise function of the stored rows |
| Store.ExercisesOfOrdered | database.py:363-391 | exercises come back by strictly increasing name (same-named rows merged), each with at least one set, with sets by increasing set number |
| Store.InWorkoutAfterSave | database.py:303-316 | after a save, the workout's rows are exactly the ones written |
| Store.SaveThenReadExercises | database.py:297-391 | saving a workout whose exercises are already in read-back order and reading it back gives the same exercises |
| Store.EntriesRoundTrip | database.py:374-391 | exercises with distinct names and non-empty sets survive flattening into rows and grouping back |
| Store.Database.SaveButtonWorkoutResult | database.py:409-415 | exactly one row is appended to the button results table and nothing else changes |
| Store.LastButtonWeightOf | database.py:438-447 | the last weight within one workout number: latest-dated matching row, `None` exactly when none matches |
| Store.SaveButtonResultThenLast | database.py:409-447 | after a save with the newest time stamp, that key reads the saved weight and every other key reads as before |
| Training.SetsOf | handlers/training.py:329-336 | an exercise takes `sets` records, and at least one |
| Training.Fresh | handlers/training.py:56-61 | a new session's cursor is at the first exercise and set 1, within bounds |
| Training.Advance | handlers/training.py:324-347 | the next set of the same exercise, else set 1 of the next exercise; the cursor only moves forward and stays in bounds; the session ends exactly after the last set of the last exercise |
| Training.AdvanceRemaining | handlers/training.py:324-347 | every advance takes exactly one off the remaining records, and the last one ends the session |
| Training.FreshRemaining | handlers/training.py:56-61 | a new session has every set of every exercise ahead of it |
| Training.RunToEnd | handlers/training.py:311-347 | exactly `Remaining` records end a session |
| Training.SessionLength | handlers/training.py:311-347 | a session ends after exactly the sum over its exercises of `max(sets, 1)` records |
| Training.AfterAdvance | handlers/training.py:311-347 | advancing one user keeps every cursor in bounds |
| Training.Suggested | handlers/training.py:84-96 | the offered weight is a stored, non-zero weight for (user, exercise, set number); there is none exactly when the last weight is missing or 0 |
| Training.SuggestedKey | handlers/training.py:94 | the offer depends only on the exercise name and set number, not on the day or program |
| Training.SuggestedAfterSave | handlers/training.py:192-204 | after a positive weight is saved with the newest time stamp, the next offer for that set is that weight |
| Training.SavedPositive | handlers/training.py:232-238 | only a positive weight is ever saved, on all three record paths; for the confirm path, when every stored weight is positive |
| Training.ProgramSessionsRefuse | handlers/training.py:183-189 | a session without exercise ids refuses every record path |
| Training.StoredDay | handlers/training.py:44-53 | a day starts exactly when the stored program has it; its exercises are then non-empty, without ids |
| Training.ProgramDayNonEmpty | handlers/training.py:46 | a day present in the stored program has exercises |
| Training.TrainingEngine.StartSession | handlers/training.py:40-61 | a session starts exactly when the requested day (today by default) is stored; it replaces the user's cursor, and otherwise nothing changes |
| Training.TrainingEngine.StartWithProgram | handlers/training.py:402-408 | a program's non-empty day replaces the user's cursor with a fresh one; an empty day changes nothing |
| Training.TrainingEngine.Record | handlers/training.py:199-204 | one result row (user, day, exercise name, current set number, weight, date) is appended, the cursor advances or the session ends, and every other table is unchanged; this is the evidently intended call, and lines 250-255 and 303-308 make the same one |
| Training.TrainingEngine.SaveCall | handlers/training.py:199 | the call binds exactly when it passes as many arguments as `save_result` has parameters (database.py:198); a bound call records as `Record` does, an unbound one changes no table and no session |
| Training.TrainingEngine.RecordAsWritten | handlers/training.py:199 | the handlers' six-argument call raises `TypeError`: no row is stored, the cursor stays, and no table changes |
| Training.HandlerSaveArity | handlers/training.py:199 | the handlers pass one argument more than `save_result` takes, and dropping the extra `exercise_id` gives the intended five-argument call |
| Training.TrainingEngine.MoveToNextSet | handlers/training.py:311-347 | the user's cursor advances, or the session is deleted after its last set |
| Training.TrainingEngine.ConfirmWeight | handlers/training.py:163-204 | refuses when a button session is active, with no session, without an exercise id, or without a previous weight, changing nothing; otherwise saves the offered weight and advances; no other table changes and the store stays valid |
| Training.TrainingEngine.ProcessWeightInput | handlers/training.py:219-256 | a missing or non-positive weight, no session, or no exercise id changes nothing; otherwise the weight is saved and the cursor advances; no other table changes and the store stays valid |
| Training.TrainingEngine.ProcessWeightDirect | handlers/training.py:260-308 | yields to a button session and to the explicit-entry state; ignores bad weights; otherwise saves and advances as manual entry does; no other table changes and the store stays valid |
| Training.TrainingEngine.End | handlers/training.py:142-159 | yields to an active button session; otherwise removes the cursor if present, is harmless if absent, and reports the training as ended in both cases |
| ButtonWorkouts.Settle | handlers/button_workouts.py:332-350 | past the last set of an exercise the cursor moves to index 0 of the next one, crossing one boundary at most; the session ends exactly past the last set of the last exercise |
| ButtonWorkouts.Step | handlers/button_workouts.py:332-350 | a record moves the set index forward by one, or to the next exercise, keeping the cursor in bounds |
| ButtonWorkouts.StepLeft | handlers/button_workouts.py:332-350 | every record takes exactly one off the sets left, and the last one ends the session |
| ButtonWorkouts.Started | handlers/button_workouts.py:295-301 | a selected workout starts at its first set with every planned set ahead |
| ButtonWorkouts.StepsToEnd | handlers/button_workouts.py:319-350 | exactly `Left` records end a session |
| ButtonWorkouts.WorkoutLength | handlers/button_workouts.py:292-350 | a selected workout ends after exactly as many records as it has planned sets |
| ButtonWorkouts.AfterStep | handlers/button_workouts.py:332-350 | stepping one user keeps every cursor in bounds |
| ButtonWorkouts.SuggestedFor | handlers/button_workouts.py:355-361 | the offered weight is a stored, non-zero weight for (user, workout, exercise, set number); there is none exactly when the last weight is missing or 0 |
| ButtonWorkouts.WeightOutcome | handlers/button_workouts.py:380-392 | a weight is saved exactly when there is a session and the weight parsed and is positive |
| ButtonWorkouts.ConfirmSavesPositive | handlers/button_workouts.py:430-448 | confirming saves only a positive weight when every stored weight is positive |
| ButtonWorkouts.WorkoutName | handlers/button_workouts.py:291-292 | the name of the first listed workout with that number, else "Тренировка N" |
| ButtonWorkouts.CollectedFrom | handlers/button_workouts.py:143-157 | every collected exercise is the parse of a kept, stripped line |
| ButtonWorkouts.CollectedConcat | handlers/button_workouts.py:143-157 | collecting from two runs of lines is collecting from each, in order |
| ButtonWorkouts.SkippedLine | handlers/button_workouts.py:146-153 | a blank line, or one mentioning a weekday anywhere, adds nothing wherever it stands |
| ButtonWorkouts.StandingCalfRaiseDropped | handlers/button_workouts.py:152-153 | "Вставание на носки — 3х15" contains "ВС" once upper-cased, so it is dropped |
| ButtonWorkouts.CollectExercises | handlers/button_workouts.py:135-157 | the filtering loop computes the collected exercises |
| ButtonWorkouts.CollectLines | handlers/button_workouts.py:146-157 | the loop keeps, in order, what the line parser makes of each non-blank line that names no weekday |
| ButtonWorkouts.SetLineCount | handlers/button_workouts.py:204-210 | each set line is one line |
| ButtonWorkouts.HeaderCount | handlers/button_workouts.py:196 | the header is two lines |
| ButtonWorkouts.PreviewLineCount | handlers/button_workouts.py:196-214 | with no line break inside the names, the preview is the two header lines, then per exercise its name line, one line per set and a blank line |
| ButtonWorkouts.FormatSets | handlers/button_workouts.py:204-210 | the inner loop computes the set lines |
| ButtonWorkouts.FormatBlock | handlers/button_workouts.py:198-212 | one exercise's text is its name, its set lines and a blank line |
| ButtonWorkouts.PreviewSection | handlers/button_workouts.py:196-214 | the preview is "Ваша тренировка - " and the name, a blank line, then for each exercise in order its name on a line, its set lines and a blank line |
| ButtonWorkouts.SetLinesSection | handlers/button_workouts.py:204-210 | an exercise's set lines are the lines of its sets in order |
| ButtonWorkouts.FormatPreview | handlers/button_workouts.py:185-214 | the nested loop computes the preview |
| ButtonWorkouts.ButtonEngine.ProcessExercises | handlers/button_workouts.py:130-183 | nothing collected leaves the draft alone; otherwise the draft is stored and the preview returned |
| ButtonWorkouts.ButtonEngine.ConfirmWorkout | handlers/button_workouts.py:218-245 | without a draft nothing is saved; otherwise the draft is saved as the workout and deleted; the users, programs and both result tables are unchanged |
| ButtonWorkouts.ButtonEngine.SelectWorkout | handlers/button_workouts.py:274-301 | a workout without stored exercises starts nothing; otherwise a fresh cursor replaces the user's |
| ButtonWorkouts.ButtonEngine.Record | handlers/button_workouts.py:394-409 | saves (user, workout, exercise, planned set number, weight) and steps the cursor; every other table is unchanged |
| ButtonWorkouts.ButtonEngine.ProcessWeight | handlers/button_workouts.py:376-409 | no session or a missing or non-positive weight changes nothing; otherwise the weight is saved and the cursor steps; every other table is unchanged |
| ButtonWorkouts.ButtonEngine.ConfirmWeight | handlers/button_workouts.py:413-448 | without a session the callback is left to the guided engine and nothing changes; without a previous weight nothing changes; otherwise it saves that weight and steps; every other table is unchanged |
| ButtonWorkouts.ButtonEngine.End | handlers/button_workouts.py:452-462 | deletes the user's cursor if present |

## Left out

- aiogram transport: routers, replies, keyboards, FSM state and the order in which handlers are dispatched. The handler bodies are plain methods.
- `utils/keyboards.py`, `main.py`, `config.py` and `handlers/start.py` are UI and start-up code. The missing `CallbackQuery` import in `handlers/start.py` is not part of this model.
- Float parsing: `float(text.replace(',', '.'))` and the `^\d+([.,]\d+)?$` gate. A parsed weight is an `Option<real>` parameter. Python's `float` also accepts "nan", "inf" and "infinity" in any case. A NaN weight passes the `weight <= 0` test, since every comparison with NaN is false. `process_weight_input` (handlers/training.py:232-238) has no digit gate, so it would pass a NaN or infinite weight on.
- Training.SavedPositive: "only a positive weight is ever saved" is proved for real-valued weights only. A NaN weight from the typed-weight path would reach the save call as written, and NaN and infinity are outside the model.
- `\d` is modelled as the ASCII digits only. Python also accepts other Unicode decimal digits.
- `$` also matching before a trailing newline is not modelled. Every line handled here has been stripped or split at newlines first.
- SQLite: connections, commits and row ids. `get_program` has no `ORDER BY`, so rows are assumed to come back in insertion order. `get_stats`' `GROUP BY` output order is taken to be first appearance; only the keys and values are stated.
- System time: `datetime.now()` becomes a `date: nat` parameter. Of two rows with the same date, the later-inserted one counts as the most recent; SQL leaves that tie unspecified.
- Store.ExercisesOf, Store.SaveThenReadExercises, Sorting.SortByOrdered: rows of a button workout that are equal in (`exercise_name`, `set_number`) keep their insertion order, because `SortBy` is a stable sort. `ORDER BY exercise_name, set_number` (database.py:367) leaves the order of such rows unspecified. So the read-back order of two sets with the same number (for example reps 10 then 8), and of the sets of same-named exercises merged into one group, is the model's choice and not something SQLite promises.
- `parse_exercise_with_reps` does not exist in `parser.py`. `handlers/button_workouts.py:17` imports it at module level, so as written that module fails with `ImportError` and none of its handlers load. The model gives its handlers as if the import succeeded, and the line parser is a parameter of `CollectExercises` and `ProcessExercises`.
- `get_program_by_id` does not exist in `database.py`. `handlers/training.py:9` imports it at module level, so as written that module fails with `ImportError` and none of its handlers load. The model gives its handlers as if the import succeeded, and `StartWithProgram` takes that day's exercises as input.
- The `save_result` calls at `handlers/training.py:199`, `:250` and `:303`: `ConfirmWeight`, `ProcessWeightInput` and `ProcessWeightDirect` record through the evidently intended five-argument `save_result` call (`Record`). As written, each handler's six-argument call raises `TypeError`: nothing is stored and `move_to_next_set` never runs. `RecordAsWritten` models that; see "## Findings".
- The branch at `parser.py:213-238` is left out. `FreeParser.HeaderLineIsDay` proves it can never run.
- `process_weight_input` does not check for an active button session. It is modelled as written.
- Training.ConfirmOutcome, Training.InputOutcome and Training.DirectOutcome: the decision functions carry no contract of their own. What they decide is stated by the engine methods that use them and by `SavedPositive` and `ProgramSessionsRefuse`.
- ButtonWorkouts.ConfirmOutcome: likewise stated by `ButtonEngine.ConfirmWeight` and `ConfirmSavesPositive`.
- The text shown by `select_workout`, the prompts of `ask_for_weight` and `ask_for_button_workout_weight`, and the session summaries are presentation only.
- `reject_workout`, the workout-count and workout-name prompts, and `save_program_callback`'s temporary store are FSM glue around operations modelled here.
- Row ids chosen by `INSERT OR REPLACE` are not modelled; only the table contents are.
- Worked examples of the free-format parser: the docstring examples of `parser.py` are not worked through as whole texts by `FreeParse`. That covers the one-line "ПН: жим лёжа 3x10, присед 4x8" (parser.py:4), the three formats of parser.py:175-177 (the two-block strict text, the "🔹 ПТ Ноги" text and the three-line "ПТ Ноги" text) and the bullet line of parser.py:5. One exercise line of them is worked through (`FreeParser.HackSquatLine`). For the rest, the general properties of the single pass and the fallback (`FreeParseCanonical`, `SinglePassShape`, `RunBlocksShape`, `ExerciseLineSeparated`) apply.
- Worked examples of the strict parser: `StrictParseDocExample` works through only the first block of the documented example. The full text "ПН: жим лёжа 3x10, присед 4x8; ВТ: подтягивания 3xмакс" (workout_bot/parser.py:3) and its longer form with ", тяга 4x10" (workout_bot/parser.py:33) are not worked through as whole texts. Their items are (`StrictExerciseBench`, `StrictExerciseSquat`, `StrictExercisePullUps`), and `StrictParseSpec` gives the result of any text in terms of its blocks.

## Findings

| source | as written | input that shows it | evidently intended | confidence | as-written member | corrected member |
|---|---|---|---|---|---|---|
| handlers/training.py:199 | `save_result(user_id, exercise_id, session['day'], exercise_name, set_number, weight)` passes six arguments to the five-parameter `save_result` of database.py:198; the same call is at lines 250 and 303 | any confirmed, typed or directly sent positive weight in a session whose exercise has an id: the call raises `TypeError`, no row is stored and the cursor never advances | `save_result(user_id, session['day'], exercise_name, set_number, weight)`, storing the row and then calling `move_to_next_set` | high (not executed) | Training.TrainingEngine.RecordAsWritten | Training.TrainingEngine.Record |
