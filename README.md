# PMP/FCE exam practice — bookkeeping model

This project models, in Dafny, the state handling behind a Next.js app for practising for the PMP and FCE exams. The modelled parts are:

- the achievement engine: leveled streak counters, a score-threshold counter, unlock flags and the app-usage day rule;
- the daily-question record list;
- the shared test-result history;
- the local-storage adapter that mirrors a stored JSON value;
- the pure scoring and formatting helpers;
- the small state machines of the setup screen, the simulator, the timer, the flashcards page, the threshold editor, the home page, the daily-question card and its calendar.

How the browser pieces are represented:

- **Local storage** is a class `Store.Storage` holding a `map<string, string>`. Every component works on the same store object.
- **JSON** is an abstract `Format<V>`, a pair of encode and decode functions. The law `Lawful` says that decoding an encoding gives the value back. Stored test results are the JSON values themselves (`Json.Json`), because validating them is part of what the code does.
- **Dates** are integer day numbers and timestamps are integer milliseconds. The calendar converts a civil year, month and day to a day number since 1970-01-01.
- **Window events** (`dailyQuestionCorrect`, `testResultSaved`) are direct method calls that carry the same payload.
- **The achievements engine** stands for one `useAchievements` instance: the one the home page mounts (app/page.tsx:21), which stays mounted while an exam runs and its results are shown. The achievements panel (components/achievements/achievements-panel.tsx:30) mounts a second instance with its own listeners, `newlyUnlocked` list and slot states over the same store; that second instance is not modelled.
- **Fetched data** (the daily question, the flashcards) is passed in as a parameter.

Module layout, one module per file:

- `Common`: Option, Format, the run-state keys and the default exam "pmp".
- `Store`: the storage class.
- `Seqs`: filter, distinct, a stable descending sort, join and split.
- `Text`: decimal text, `parseInt`, `hh:mm:ss` and "Hh Mm".
- `Json`: JSON values and the history entry shape.
- `LocalStorage`: useLocalStorage.
- `Achievements` and `AchievementsEngine`: useAchievements.
- `DailyQuestion`: useDailyQuestion.
- `TestHistory`: useTestHistory.
- `Results`, `ExamSetup`, `ExamSimulator`, `Timer`, `AchievementCard`, `ThresholdSetting`, `Flashcards`, `ResultsPage`, `HomePage`, `DailyQuestionCard`, `Calendar`: the components and pages of the same names.

Integer arithmetic stands in for JavaScript's rounding:

- `Math.round(100·c/n)` becomes `(200c + n) / (2n)`.
- The time budget `round(count·240/180)` becomes `(8·count + 3) / 6`.
- The average `round(sum/n)` becomes `(2·sum + n) / (2n)`.

## Model

| member | source | states |
|---|---|---|
| Achievements.LevelOfSpec | hooks/use-achievements.tsx:10 | the level is the number of thresholds of [3,5,8,13,21,34] at most the value; the next level is the least threshold above it, or 34 once all are reached |
| Achievements.LevelOfMonotone | hooks/use-achievements.tsx:311-321 | a larger value never has a lower level |
| Achievements.ComputeLevel | hooks/use-achievements.tsx:311-321 | the threshold-walking loop returns exactly LevelOf and NextLevelOf of the value |
| Achievements.Reached | hooks/use-achievements.tsx:311-321 | the count of reached thresholds never exceeds the table length |
| Achievements.ReachedPrefix | hooks/use-achievements.tsx:311-321 | all counted thresholds are at most the value, and the first uncounted one is above it |
| Achievements.StreakStep | hooks/use-achievements.tsx:304-343 | re-lap (stored 3, new > 3) stores 1 and adds one completed level, otherwise the new value is stored with completed levels unchanged; level and next level follow the table; completed iff value ≥ 3; an unlock fires iff the level rose, a re-lap happened or the value reached 3 while not completed; lastUnlocked becomes now exactly when the level rose or a re-lap happened, and is kept otherwise; id, name, description, maxLevel and the counts are unchanged |
| Achievements.ComputeStreakStep | hooks/use-achievements.tsx:304-343 | the update with its level loop gives exactly StreakStep |
| Achievements.ThresholdStep | hooks/use-achievements.tsx:387-407 | value and currentCount become n (no wrap-around); completed iff n ≥ 3; fires iff it was not completed and n ≥ 3; lastUnlocked moves only when it fires; nothing else changes, completedLevels included |
| Achievements.ThresholdFiresOnce | hooks/use-achievements.tsx:387-407 | once the threshold achievement has fired, no later update fires again |
| Achievements.AppUsageValueSpec | hooks/use-achievements.tsx:167-200 | same day: no update; no stored date: 1; the next day: previous value + 1; a longer gap: 1; an earlier date: no update |
| Achievements.AppUsageStaysSmall | hooks/use-achievements.tsx:167-200 | from a value in 0..3, every day-rule update lands in 1..3 |
| AchievementsEngine.CountAtLeast | hooks/use-achievements.tsx:223-245 | the number of tests scoring at least the threshold is at most the number of tests |
| AchievementsEngine.CountAtLeastAntitone | hooks/use-achievements.tsx:223-245 | raising the threshold never raises the count |
| AchievementsEngine.TestOutcome | hooks/use-achievements.tsx:269-301 | a result is ignored iff the achievement is done, the score is missing or the id equals the last processed id; another exam's result only records the id; otherwise it counts iff score ≥ threshold |
| AchievementsEngine.DuplicateIgnored | hooks/use-achievements.tsx:269-301 | a result carrying an id is ignored the second time, whatever the state |
| AchievementsEngine.HeardUncounted | hooks/use-achievements.tsx:269-301 | a result that does not count leaves the live record, fires nothing and writes nothing |
| AchievementsEngine.HeardCounted | hooks/use-achievements.tsx:288-291 | a counted result steps the captured record with its count plus one and writes it under the exam's key |
| AchievementsEngine.ListenerCountStuck | hooks/use-achievements.tsx:269-301 | two counted results heard by the same registration store the same count, the captured count plus one, whatever happened in between |
| AchievementsEngine.Engine.constructor | hooks/use-achievements.tsx:80-93 | on mount the exam selection is still null, so the exam type is "pmp" and each record and the threshold come from the "pmp" keys or the defaults; both listeners hold the records just read; nothing is unlocked yet |
| AchievementsEngine.Engine.Signal | hooks/use-achievements.tsx:323-333 | firing appends the id to newlyUnlocked and sets the unlocked and type-unlocked flags under the prefix; nothing else changes |
| AchievementsEngine.Engine.UpdateStreak | hooks/use-achievements.tsx:304-385 | the step starts from the record the caller's render held; the slot holds StreakStep's record, newlyUnlocked and the flags follow its firing, and the record's encoding is stored unless it equals the slot's current value |
| AchievementsEngine.Engine.UpdateThreshold | hooks/use-achievements.tsx:387-407 | from the caller's record, the score-threshold record becomes ThresholdStep's; flags and newlyUnlocked follow its firing; the store is written unless the record is unchanged |
| AchievementsEngine.Engine.CheckAppUsage | hooks/use-achievements.tsx:167-200 | runs at most once; if it was already run, or the stored last-usage date is today, nothing changes; otherwise the date becomes today and the day rule's value, if any, goes through the streak update under the "global" prefix |
| AchievementsEngine.Engine.RecountDailyStreak | hooks/use-achievements.tsx:203-220 | a non-empty history sets the daily streak to the run of correct answers from the newest record; an empty one changes nothing |
| AchievementsEngine.Engine.OnDailyQuestionCorrect | hooks/use-achievements.tsx:248-267 | exactly when the payload's streak is a number and its exam is the active one, the daily streak steps to it from the record the listener closed over when it was registered; otherwise nothing changes |
| AchievementsEngine.Engine.RecountScoreThreshold | hooks/use-achievements.tsx:223-245 | runs once, and only while the achievement is not done and the history is non-empty; a count of zero changes nothing; otherwise the count becomes the number of tests at or above the threshold |
| AchievementsEngine.Engine.OnTestResultSaved | hooks/use-achievements.tsx:269-301 | judged against the record the listener closed over: the id is recorded unless the result is ignored; a counted result stores that record's count plus one through ThresholdStep; anything else leaves the record, the flags and the store alone |
| AchievementsEngine.Engine.CountTest | hooks/use-achievements.tsx:275-291 | a counted result records its id and steps the captured record with its count plus one, as Heard says |
| AchievementsEngine.Engine.StepCaptured | hooks/use-achievements.tsx:279-291 | the id becomes the last processed one and the score-threshold record becomes ThresholdStep of the captured record with its count plus one |
| AchievementsEngine.Engine.SkipTest | hooks/use-achievements.tsx:271-286 | an ignored result changes nothing; a result of another exam, or below the threshold, only records its id |
| AchievementsEngine.Engine.SetScoreThreshold | hooks/use-achievements.tsx:93 | the threshold becomes the value and is persisted; the score-threshold achievement is not reset; a changed value registers the testResultSaved listener again, over the current record |
| AchievementsEngine.Engine.ChangeExam | hooks/use-achievements.tsx:80-93 | the exam type follows the selection; a new exam reloads each per-exam slot from its key unless that is the key it last loaded; the listeners then hold the old exam's records, except that a changed threshold registers the testResultSaved listener over the reloaded record; the same exam changes nothing |
| AchievementsEngine.Engine.Rekey | hooks/use-achievements.tsx:80-93 | the per-exam slots are rendered with the new exam's keys, each reloaded unless the key is the one it last loaded; the listeners and run flags are kept |
| DailyQuestion.CorrectRunIsLongestRun | hooks/use-daily-question.tsx:89-98 | the streak counts the leading answered-and-correct records and stops at the first other one |
| DailyQuestion.CountStreak | hooks/use-daily-question.tsx:91-98 | the counting loop returns exactly the leading correct run |
| DailyQuestion.CorrectRun | hooks/use-daily-question.tsx:89-98 | the run is no longer than the history |
| DailyQuestion.FindDay | hooks/use-daily-question.tsx:101-112 | finds the first record dated that day, or reports that none exists |
| DailyQuestion.QuestionIds | hooks/use-daily-question.tsx:128-134 | lists the history's question ids in order |
| DailyQuestion.ExcludeListRoundTrip | hooks/use-daily-question.tsx:128-134 | with a non-empty history the URL is the endpoint plus "&exclude=" and the ids joined by ",", and splitting that part gives the ids back |
| DailyQuestion.EmptyHistoryUrl | hooks/use-daily-question.tsx:128-134 | an empty history adds no exclude parameter |
| DailyQuestion.MarkAnswered | hooks/use-daily-question.tsx:208-217 | records dated today become answered with that correctness; all others and the length are unchanged |
| DailyQuestion.MarkAnsweredKeepsDates | hooks/use-daily-question.tsx:208-217 | answering keeps every date, so one record per day is preserved |
| DailyQuestion.DailyQuestionHook.constructor | hooks/use-daily-question.tsx:26-34 | starts loading with no question, no error, an empty history and streak 0 |
| DailyQuestion.DailyQuestionHook.ReadStored | hooks/use-daily-question.tsx:84-118 | reads the stored history, dropping it from the store when it cannot be parsed, sets the streak from it and exposes today's record if there is one |
| DailyQuestion.DailyQuestionHook.Load | hooks/use-daily-question.tsx:38-195 | the streak is that of the parsed history; with a record for today, that record is shown with its answer and outcome and nothing is fetched or stored; otherwise the exclude URL is requested and today is unanswered; a reply appends exactly one unanswered record for today and stores the history; an aborted request leaves loading without an error; a failed one records its error and stops loading |
| DailyQuestion.DailyQuestionHook.AnswerQuestion | hooks/use-daily-question.tsx:198-242 | without a question, or when today is answered, returns false and changes nothing; otherwise returns answer == correct answer, marks only today's record, sets the streak to old + 1 or 0 and stores the history; one record per day is preserved |
| DailyQuestion.DailyQuestionHook.RefreshQuestion | hooks/use-daily-question.tsx:245-339 | succeeds iff the reply holds a question; then today's record is replaced in place, or appended, today is unanswered and the history is stored; on failure nothing but loading and error changes, and an abort sets no error |
| DailyQuestion.LoadKeepsOnePerDay | hooks/use-daily-question.tsx:124-174 | appending today's record to a history without one keeps one record per day |
| DailyQuestion.Refreshed | hooks/use-daily-question.tsx:289-311 | with a record for today the length is kept; without one a new record is appended |
| DailyQuestion.RefreshedOnlyToday | hooks/use-daily-question.tsx:289-311 | only today's record changes, to the new question unanswered, at the same index |
| DailyQuestion.RefreshedKeepsOnePerDay | hooks/use-daily-question.tsx:289-311 | refreshing keeps every date and one record per day |
| TestHistory.AfterReset | hooks/use-test-history.tsx:27-31 | a "true" reset flag removes both the history and the flag; otherwise nothing changes |
| TestHistory.LoadedHistoryValid | hooks/use-test-history.tsx:39-54 | every loaded entry has the validated shape |
| TestHistory.LoadStable | hooks/use-test-history.tsx:23-72 | loading a second time changes neither the store nor the history |
| TestHistory.ResetThenLoad | hooks/use-test-history.tsx:172-181 | after a reset request, loading yields an empty history and removes both keys |
| TestHistory.SaveThenLoad | hooks/use-test-history.tsx:41-54 | loading a stored array keeps exactly its well-formed entries, in order |
| TestHistory.NewResult | hooks/use-test-history.tsx:83-92 | the saved result is the input plus id, date and examType, the selected exam or "pmp" |
| TestHistory.NewResultId | hooks/use-test-history.tsx:86 | the id is the decimal text of the timestamp |
| TestHistory.NewResultForExam | hooks/use-test-history.tsx:89 | the new result is filtered under the exam it was saved for |
| TestHistory.ClearPartition | hooks/use-test-history.tsx:142-169 | clearing splits the history into this exam's entries and the others, with nothing lost or duplicated, and the kept part holds none of this exam |
| TestHistory.TestHistoryHook.constructor | hooks/use-test-history.tsx:19-20 | starts with an empty, not-yet-loaded history |
| TestHistory.TestHistoryHook.Load | hooks/use-test-history.tsx:23-72 | loads once: the history and store become those of the load rule |
| TestHistory.TestHistoryHook.ChangeExam | hooks/use-test-history.tsx:75-80 | switching to a different selected exam marks the history for reloading |
| TestHistory.TestHistoryHook.SaveTestResult | hooks/use-test-history.tsx:83-127 | returns the new result; the stored array, or an empty one, gets exactly that result appended and is written back |
| TestHistory.TestHistoryHook.FilteredHistory | hooks/use-test-history.tsx:130-139 | the whole list when no exam is selected, else exactly that exam's entries in order |
| TestHistory.TestHistoryHook.ClearTestHistory | hooks/use-test-history.tsx:142-169 | with an exam selected, keeps exactly the other exams' entries and stores them; without one, empties the list and removes the key; either way the filtered history is empty |
| TestHistory.TestHistoryHook.ResetTestHistory | hooks/use-test-history.tsx:172-181 | sets the reset flag to "true" and nothing else |
| Json.EffectiveExam | hooks/use-test-history.tsx:135-136 | an entry without a truthy examType counts as "pmp" |
| LocalStorage.ReadKey | hooks/use-local-storage.tsx:7-21 | a missing or empty entry, a parsed value, or a parse failure |
| LocalStorage.ReadWritten | hooks/use-local-storage.tsx:100-108 | reading back a written value gives that value |
| LocalStorage.Slot.constructor | hooks/use-local-storage.tsx:7-21 | the state is the stored value, or the default when it is missing or unparseable |
| LocalStorage.Slot.Render | hooks/use-local-storage.tsx:34-82 | an unchanged key keeps the state; after a key change the state is reloaded from the new key, or the initial value, and prevKey advances unless the parse failed |
| LocalStorage.Slot.SetValue | hooks/use-local-storage.tsx:86-112 | the state becomes the value; the store is written only when the encoding differs from the mirror |
| LocalStorage.Slot.Update | hooks/use-local-storage.tsx:89 | a function argument is applied to the current state first |
| LocalStorage.Slot.StorageEvent | hooks/use-local-storage.tsx:115-136 | the state changes only for the hook's own key with a non-null, parseable new value |
| Common.EncodingInjective | hooks/use-local-storage.tsx:91-98 | equal encodings mean equal values, so comparing JSON text detects a no-op write |
| Common.ExamOrDefault | hooks/use-achievements.tsx:82 | the selected exam when non-empty, else "pmp" |
| Common.WithoutRun | app/page.tsx:165-195 | none of the four run keys of the exam remain; every other entry is unchanged |
| Results.TallyOf | components/results.tsx:39-43 | correct + incorrect + unanswered is the number of questions, and each count is the matching filter |
| Results.TallySplit | components/results.tsx:39-43 | correctly answered, wrongly answered and open questions partition the questions |
| Results.Percent | components/results.tsx:45 | the score is 100·correct/n rounded half up (0 without questions), within 0..100 |
| Results.PercentRange | components/results.tsx:45 | the rounding bracket of the score and its range 0..100 |
| Results.PassedIff | components/results.tsx:45-48 | the score passes (≥ 70) exactly when 200·correct ≥ 139·total, that is, when the exact share rounds to at least 70 |
| Results.BuildTagStats | components/results.tsx:51-65 | the nested loops build exactly the tag table of the (tag, correct) pairs |
| Results.CountTags | components/results.tsx:56-63 | the inner loop adds one question's tags to the table |
| Results.TableRowsBounded | components/results.tsx:51-65 | every tag row has correct ≤ total |
| Results.TableTotals | components/results.tsx:51-65 | the row totals add up to the number of (question, tag) pairs |
| Results.TableRowTags | components/results.tsx:51-65 | the table has one row per distinct tag, in first-seen order |
| Results.AddPairRowTags | components/results.tsx:56-63 | adding a pair appends its tag as a new row only when the tag has no row yet |
| Results.AddPairTotals | components/results.tsx:56-63 | adding a pair raises the total of totals by one |
| Results.SavedTagsAreRows | components/results.tsx:85 | the tags saved with the result are exactly the distinct tags of the table |
| Results.Categories | components/results.tsx:179-188 | each category keeps its tag's counts, with its rounded percentage |
| Results.SortedCategoriesSpec | components/results.tsx:179-188 | categories come out in non-increasing percentage order and are a permutation of the table |
| Results.TimeDisplaySpec | components/results.tsx:163-176 | test mode shows the remaining time max(0, total − elapsed), or "Time's up" exactly when none remains; practice shows the elapsed time |
| Results.StoredThresholdAgrees | components/results.tsx:102-104 | a stored threshold reads back as written; a missing one reads as 60 |
| Results.ResultEvent | components/results.tsx:108-119 | the event carries the saved id, the score and the exam |
| Results.SaveAndDispatch | hooks/use-test-history.tsx:83-127 | the result is appended and stored, then the engine hears it as its testResultSaved listener does |
| Results.UnlockFlagsAtTwo | components/results.tsx:123-137 | with a stored count of 1, a qualifying test leaves the stored count at 2 and still raises the score-threshold unlock flags |
| Results.MarkCompleted | components/results.tsx:95-137 | writes the completed flag, then raises the unlock flags exactly when the check on the written store holds |
| Results.Record | components/results.tsx:85-119 | saves and dispatches, marks the exam completed, runs the unlock check and returns the payload |
| Results.ResultsScreen.constructor | components/results.tsx:35-36 | nothing has been saved or dispatched |
| Results.ResultsScreen.SaveOnce | components/results.tsx:79-148 | once per screen and only with an exam selected: saves the result with the distinct tags, and the engine hears it synchronously (hooks/use-test-history.tsx:120) before the completed mark is written; returns the event payload; the unlock flags are set only when score ≥ the stored threshold, the stored count (already stepped) + 1 ≥ 3 and the record is not completed; otherwise nothing changes |
| Results.ResultsScreen.Save | components/results.tsx:81-146 | past the guard: the saved, heard, marked and checked store, the payload, and both flags set |
| Results.ResultsScreen.Reset | components/results.tsx:191-206 | removes the exam's completed flag and allows a new event |
| ExamSetup.EstimatedMinutes | components/exam-setup.tsx:68-70 | the budget is count·240/180 rounded half up |
| ExamSetup.EstimatedMinutesRange | components/exam-setup.tsx:68-70 | the budget rises with the count, from 7 at 5 questions to 240 at 180 |
| ExamSetup.AfterClick | components/exam-setup.tsx:115-143 | "All" gives ["All"]; a tag replaces "All"; a selected tag is removed, falling back to ["All"]; an unselected one is appended |
| ExamSetup.AfterClickWellFormed | components/exam-setup.tsx:115-143 | the selection stays either exactly ["All"] or a non-empty list of distinct tags without "All" |
| ExamSetup.AfterClickToggles | components/exam-setup.tsx:123-138 | after a click a tag is selected iff it was not, or "All" was |
| ExamSetup.AfterClickTwice | components/exam-setup.tsx:123-138 | clicking an unselected tag twice restores the selection |
| ExamSetup.Lower | components/exam-setup.tsx:164-165 | lower-casing maps each letter A–Z to a–z and keeps other characters |
| ExamSetup.TagsToPass | components/exam-setup.tsx:164-165 | test mode or "All" passes no tags; otherwise the selected tags lower-cased in order |
| ExamSetup.SetupScreen.constructor | components/exam-setup.tsx:57-66 | count 5, practice mode, ["All"]; the exam's run keys are cleared |
| ExamSetup.SetupScreen.ChangeExam | components/exam-setup.tsx:81-103 | a different exam resets the selection to ["All"] and clears its run keys |
| ExamSetup.SetupScreen.ChangeTestType | components/exam-setup.tsx:95-113 | a null or unchanged mode is ignored; a new mode resets the count to 5 |
| ExamSetup.SetupScreen.ChangeQuestionCount | components/exam-setup.tsx:105-107 | the count becomes the slider value |
| ExamSetup.SetupScreen.TagClick | components/exam-setup.tsx:115-143 | the selection becomes AfterClick, and a tag other than "All" resets the card index and flip |
| ExamSetup.SetupScreen.Start | components/exam-setup.tsx:145-169 | passes the count, the mode and TagsToPass; the count lies within the mode's bounds; the run keys are cleared |
| ExamSetup.ClearRun | components/exam-setup.tsx:81-92 | removes exactly the four run keys |
| ExamSimulator.TotalExamTime | components/exam-simulator.tsx:52-60 | test mode gives the budget in seconds (7 to 240 minutes for 5..180 questions); practice gives 0 |
| ExamSimulator.Simulator.constructor | components/exam-simulator.tsx:43-49 | an empty, unsubmitted run at question 0; the completed flag is removed |
| ExamSimulator.Simulator.StartClock | components/exam-simulator.tsx:63-73 | the start time is set once, when questions exist |
| ExamSimulator.Simulator.SelectAnswer | components/exam-simulator.tsx:89-96 | after submission nothing changes; before it only that question's answer changes |
| ExamSimulator.Simulator.NextQuestion | components/exam-simulator.tsx:138-142 | moves forward only below the last index |
| ExamSimulator.Simulator.PrevQuestion | components/exam-simulator.tsx:144-148 | moves back only above 0 |
| ExamSimulator.Simulator.AnsweredCount | components/exam-simulator.tsx:150 | zero exactly when no answer is recorded, which disables Submit |
| ExamSimulator.Simulator.Submit | components/exam-simulator.tsx:98-110 | sets submitted and the completed flag "true" |
| ExamSimulator.Simulator.TimeExpired | components/exam-simulator.tsx:79-87 | submits and alerts only when not yet submitted |
| ExamSimulator.Simulator.ClockTick | components/exam-simulator.tsx:75-87 | the elapsed and remaining time follow the timer; the run is submitted exactly when time is up |
| ExamSimulator.Simulator.Reset | components/exam-simulator.tsx:112-136 | once submitted, or on confirmation, clears answers, submitted, start time, index and the completed flag; otherwise nothing changes |
| Timer.Elapsed | components/timer.tsx:33 | whole seconds since the start, rounded down |
| Timer.Remaining | components/timer.tsx:38 | max(0, total − elapsed), never negative, zero exactly when time is up |
| Timer.Reading | components/timer.tsx:28-64 | a countdown expires exactly when total ≤ elapsed; counting up never expires |
| Timer.ExpiryPersists | components/timer.tsx:45-47 | once expired, every later reading is expired, so the expiry fires on each tick |
| Timer.TimerColor | components/timer.tsx:79-87 | counting up is white; a countdown is red at ≤ 10% remaining, orange at ≤ 25%, else white |
| Timer.TimerColorMonotone | components/timer.tsx:79-87 | less time left never lightens the colour |
| Timer.TimerDisplay.constructor | components/timer.tsx:25-26 | nothing elapsed, everything remaining |
| Timer.TimerDisplay.Calculate | components/timer.tsx:28-64 | without a start time nothing changes; otherwise elapsed and remaining become the reading and the expiry is reported |
| Text.ClockRoundTrip | components/timer.tsx:66-76 | hh:mm:ss reads back as the same number of seconds |
| Text.Clock | components/timer.tsx:66-76 | three colon-separated fields of digits, the last two of two characters; eight characters in all below 100 hours |
| Text.ClockReads | components/timer.tsx:66-76 | "h:m:s" with digit fields reads as h·3600 + m·60 + s |
| Text.DurationRoundTrip | components/exam-setup.tsx:69-78 | "Hh Mm" or "Mm" reads back as the same number of minutes |
| Text.Duration | components/exam-setup.tsx:69-78 | ends in "m"; below an hour it is the minutes alone, at most three characters |
| Text.DurationShowsHours | components/exam-setup.tsx:69-78 | an hours part is shown exactly from 60 minutes on |
| Text.DurationReadsHours | components/exam-setup.tsx:69-78 | "Hh Mm" with digit fields reads as H·60 + M |
| Text.ParseIntIntText | components/achievements/score-threshold-setting.tsx:68-73 | parseInt of an integer's decimal text gives the integer |
| Text.ParseIntNatText | components/achievements/score-threshold-setting.tsx:68-73 | parseInt of a natural number's text, with or without a minus sign, gives the number or its negation |
| Text.ParseIntDigits | components/results.tsx:104 | parseInt of a run of digits gives its decimal value |
| Text.ParseIntNegDigits | components/results.tsx:104 | parseInt of a minus sign and a run of digits gives the negated value |
| Text.ParseInt | components/achievements/score-threshold-setting.tsx:68-73 | text without digits does not parse |
| AchievementCard.Progress | components/achievements/achievement-card.tsx:56-72 | never above 100; the threshold card shows min(100, count/target·100); a completed streak shows 100; an incomplete streak has no figure exactly when its level entry is undefined or the quotient is NaN or minus infinity (an empty level range with a value not above it); a positive value over an empty range shows 100 |
| AchievementCard.ProgressOfStoredRecords | components/achievements/achievement-card.tsx:64-71 | an incomplete streak record shows min(100, value/3·100) |
| AchievementCard.ThresholdProgress | components/achievements/achievement-card.tsx:58-62 | count/3 as a percentage below three tests, 100 from three on |
| AchievementCard.LabelRoundTrip | components/achievements/achievement-card.tsx:77-90 | the label splits at "/" into the count and the target, or the value and the next level |
| AchievementCard.Confetti | components/achievements/achievement-card.tsx:40-53 | confetti starts iff the card is newly unlocked and no confetti flag is stored; starting it stores the flag |
| AchievementCard.ConfettiOnce | components/achievements/achievement-card.tsx:40-53 | confetti plays at most once per achievement |
| AchievementCard.ShowConfetti | components/achievements/achievement-card.tsx:40-53 | the effect on the store is exactly Confetti's |
| ThresholdSetting.Clamp | components/achievements/score-threshold-setting.tsx:68-73 | values are clamped to 10..100 |
| ThresholdSetting.Typed | components/achievements/score-threshold-setting.tsx:68-73 | non-numeric input keeps the value; numeric input is clamped |
| ThresholdSetting.TypedRoundTrip | components/achievements/score-threshold-setting.tsx:68-73 | typing an in-range value sets exactly that value |
| ThresholdSetting.ThresholdEditor.constructor | components/achievements/score-threshold-setting.tsx:22-29 | not editing, no alert, value and original equal the threshold |
| ThresholdSetting.ThresholdEditor.StartEditing | components/achievements/score-threshold-setting.tsx:181 | the "Change" button enters editing and keeps the value, the original and the alert |
| ThresholdSetting.ThresholdEditor.Sync | components/achievements/score-threshold-setting.tsx:36-62 | a changed exam or threshold resets value and original to the threshold |
| ThresholdSetting.ThresholdEditor.SliderChange | components/achievements/score-threshold-setting.tsx:64-66 | the value becomes the slider position |
| ThresholdSetting.ThresholdEditor.InputChange | components/achievements/score-threshold-setting.tsx:68-73 | the value becomes Typed of the input |
| ThresholdSetting.ThresholdEditor.Save | components/achievements/score-threshold-setting.tsx:75-82 | an unchanged value leaves editing; a changed one shows the reset alert and keeps editing |
| ThresholdSetting.ThresholdEditor.Confirm | components/achievements/score-threshold-setting.tsx:84-92 | reports the new value exactly when it differs from the original; then original = value, no alert, not editing |
| ThresholdSetting.ThresholdEditor.CancelAlert | components/achievements/score-threshold-setting.tsx:94-96 | only hides the alert |
| ThresholdSetting.ThresholdEditor.CancelEditing | components/achievements/score-threshold-setting.tsx:160-166 | restores the original value and leaves editing |
| Flashcards.Categories | app/flashcards/page.tsx:81 | the distinct categories of the cards |
| Flashcards.Shown | app/flashcards/page.tsx:101-107 | all cards when showing all, else exactly the cards of selected categories |
| Flashcards.NothingSelectedShowsNothing | app/flashcards/page.tsx:101-107 | no selected category and show-all off shows no card |
| Flashcards.ShownCard | app/flashcards/page.tsx:109 | a valid index is its own remainder and picks a loaded card |
| Flashcards.NextIndex | app/flashcards/page.tsx:111-116 | (i + 1) mod n |
| Flashcards.PrevIndex | app/flashcards/page.tsx:118-123 | n − 1 from 0, else i − 1 |
| Flashcards.NextPrevInverse | app/flashcards/page.tsx:111-123 | next and previous undo each other |
| Flashcards.Toggled | app/flashcards/page.tsx:129-158 | "all" flips show-all and clears the selection; a category while showing all becomes the only one; a selected one is removed, re-enabling show-all when none remain; an unselected one is appended |
| Flashcards.ToggledTwice | app/flashcards/page.tsx:129-158 | toggling twice restores the filter |
| Flashcards.FlashcardsPage.CurrentCard | app/flashcards/page.tsx:109 | none exactly when the filtered list is empty, else the filtered card at the index |
| Flashcards.FlashcardsPage.constructor | app/flashcards/page.tsx:39-47 | no cards, show all, index 0, not flipped |
| Flashcards.FlashcardsPage.Loaded | app/flashcards/page.tsx:55-98 | clears any earlier error, keeps the loaded cards and their distinct categories, and resets the index, flip and filter to show all |
| Flashcards.FlashcardsPage.LoadFailed | app/flashcards/page.tsx:55-98 | records the error and changes nothing else |
| Flashcards.FlashcardsPage.NextCard | app/flashcards/page.tsx:111-116 | advances cyclically and unflips; an empty list keeps the index |
| Flashcards.FlashcardsPage.PrevCard | app/flashcards/page.tsx:118-123 | moves back cyclically and unflips; an empty list keeps the index |
| Flashcards.FlashcardsPage.Flip | app/flashcards/page.tsx:125-127 | only flips the card |
| Flashcards.FlashcardsPage.ToggleCategory | app/flashcards/page.tsx:129-158 | the filter becomes Toggled; index 0, unflipped |
| ResultsPage.EveryPerfect | app/results/page.tsx:52-56 | true exactly when every entry scores 100 |
| ResultsPage.SuspicionOfArray | app/results/page.tsx:45-67 | a stored array without nulls is wiped iff it has more than 100 entries or is non-empty with every score 100 |
| ResultsPage.NoNullNoThrow | app/results/page.tsx:52-56 | without null entries the all-perfect check cannot throw |
| ResultsPage.OwnHistoryKept | app/results/page.tsx:45-67 | up to 100 entries with one score below 100 are kept |
| ResultsPage.CleanUp | app/results/page.tsx:45-67 | removes the history key exactly when it is judged suspicious, and changes nothing else |
| ResultsPage.Scores | app/results/page.tsx:84-88 | the scores of the entries, in order |
| ResultsPage.Average | app/results/page.tsx:84-85 | sum/n rounded half up, 0 for an empty history |
| ResultsPage.Best | app/results/page.tsx:88 | the largest score, 0 for an empty history |
| ResultsPage.AverageAtMostBest | app/results/page.tsx:84-88 | with scores in 0..100, 0 ≤ average ≤ best ≤ 100 |
| ResultsPage.SumBounds | app/results/page.tsx:84-85 | the sum lies between n·low and n·high |
| ResultsPage.RoundedMeanBounds | app/results/page.tsx:84-85 | a rounded mean of values in 0..b lies in 0..b |
| ResultsPage.Recent | app/results/page.tsx:302-304 | at most 10 entries, and no more than the history holds |
| ResultsPage.RecentSpec | app/results/page.tsx:302-304 | newest first and taken from the history; all of it when at most 10 entries, else exactly 10, and no entry left out is newer than the tenth: the ten newest |
| ResultsPage.PrefixIsNewest | app/results/page.tsx:302-304 | the first n entries of a newest-first list are as new as any entry after them |
| ResultsPage.ClearDialog.constructor | app/results/page.tsx:36 | closed |
| ResultsPage.ClearDialog.Open | app/results/page.tsx:90-92 | opens |
| ResultsPage.ClearDialog.Confirm | app/results/page.tsx:94-97 | clears this exam's history as clearTestHistory does and closes |
| ResultsPage.ClearDialog.Cancel | app/results/page.tsx:99-101 | only closes |
| HomePage.Lookup | app/page.tsx:117-124 | the stored value, if the key is present |
| HomePage.TakeFlags | app/page.tsx:97-163 | a raised exam flag yields its type and removes both exam keys, leaving the global ones; otherwise a raised global flag yields the global type and removes both global keys; otherwise nothing |
| HomePage.SignalThenTake | app/page.tsx:117-124 | an exam-level signal is read back with its id and both exam keys removed |
| HomePage.GlobalSignalThenTake | app/page.tsx:146-152 | a global signal, with no exam signal pending, is read back with its id and both global keys removed |
| HomePage.PrefixKeysDistinct | app/page.tsx:117-152 | different prefixes give different flag keys, so consuming one set never touches another |
| HomePage.TakeFlagsDrains | app/page.tsx:97-163 | two consumptions drain both flag sets, so a third announces nothing |
| HomePage.Home.constructor | app/page.tsx:16-26 | not started, not submitted, count 5, practice mode, no unlocked type; pageLoaded starts truthy |
| HomePage.Home.Mount | app/page.tsx:32-34 | marks the page mounted |
| HomePage.Home.Redirects | app/page.tsx:36-41 | the redirect to exam selection happens when the page is mounted and loaded with no exam selected |
| HomePage.Home.Shown | app/page.tsx:228-260 | while redirecting a spinner is shown; the simulator only for a mounted, started exam |
| HomePage.Home.CheckCompleted | app/page.tsx:44-56 | a stored completed flag "true" marks the exam submitted |
| HomePage.Home.ClearWhenIdle | app/page.tsx:75-91 | with no exam running, the selected exam's run keys are removed |
| HomePage.Home.CheckUnlockFlags | app/page.tsx:97-163 | flags are consumed only when no exam runs, the page has loaded and an exam is selected; then the store and the unlocked type follow TakeFlags |
| HomePage.Home.OnNewlyUnlocked | app/page.tsx:59-72 | the first newly unlocked achievement becomes the unlocked type |
| HomePage.Home.NoticeExpired | app/page.tsx:59-72 | the unlocked type is cleared |
| HomePage.Home.StartExam | app/page.tsx:165-195 | started, not submitted, in progress; the chosen settings are kept and the run keys removed |
| HomePage.Home.ResetExam | app/page.tsx:198-218 | neither started nor submitted; the run keys removed |
| HomePage.Home.ExamSubmitted | app/page.tsx:220-222 | submitted, so no longer in progress |
| DailyQuestionCard.OptionToneSpec | components/daily-question/daily-question.tsx:213-248 | once answered, the right option is green and a wrongly chosen one red; before, all are plain |
| DailyQuestionCard.RightAnswerNoError | components/daily-question/daily-question.tsx:213-248 | a right answer colours no option red |
| DailyQuestionCard.Card.constructor | components/daily-question/daily-question.tsx:44-48 | no selection, question tab, remembers the exam |
| DailyQuestionCard.Card.ExamChanged | components/daily-question/daily-question.tsx:51-60 | a different exam clears the selection and returns to the question tab |
| DailyQuestionCard.Card.SyncTab | components/daily-question/daily-question.tsx:63-80 | once loading ends, the calendar tab is active iff today is answered |
| DailyQuestionCard.Card.ChangeAnswer | components/daily-question/daily-question.tsx:82-85 | ignored once today is answered |
| DailyQuestionCard.Card.ChangeTab | components/daily-question/daily-question.tsx:125-128 | selects the tab |
| DailyQuestionCard.Card.Submit | components/daily-question/daily-question.tsx:87-123 | no selection, or already answered: nothing happens; otherwise the calendar tab opens; a right answer sets the exam's unlocked flag and announces the hook's new streak, previous + 1; a wrong one, or a submission while no question is loaded, announces nothing and leaves the history, the streak and the store alone |
| DailyQuestionCard.Card.Refresh | components/daily-question/daily-question.tsx:130-137 | refreshes through the hook, clears the selection and returns to the question tab |
| Calendar.Prev | components/daily-question/calendar.tsx:51-53 | the previous month, rolling to December of the previous year |
| Calendar.Next | components/daily-question/calendar.tsx:56-58 | the next month, rolling to January of the next year |
| Calendar.PagingInverse | components/daily-question/calendar.tsx:51-58 | previous and next undo each other |
| Calendar.DaysInMonth | components/daily-question/calendar.tsx:28-29 | a month has 28 to 31 days |
| Calendar.MonthsAdjoin | components/daily-question/calendar.tsx:26-29 | day 1 of the next month follows the last day of this one |
| Calendar.DaysConsecutive | components/daily-question/calendar.tsx:38-45 | consecutive days of a month have consecutive day numbers |
| Calendar.DayNumberAnchors | components/daily-question/calendar.tsx:26-32 | 1970-01-01 is day 0 and 2000-03-01 is day 11017 |
| Calendar.MarchYear | components/daily-question/calendar.tsx:26-29 | a year from March on has 365 days, or 366 when the next year is a leap year |
| Calendar.LaterMonthLater | components/daily-question/calendar.tsx:51-58 | every day of a later month comes after every day of an earlier one |
| Calendar.Weekday | components/daily-question/calendar.tsx:31-32 | the weekday is in 0..6 |
| Calendar.ShiftWeekday | components/daily-question/calendar.tsx:31-32 | k days later the weekday advances by k mod 7 |
| Calendar.GridColumns | components/daily-question/calendar.tsx:22-48 | first the weekday of day 1 in empty cells, then days 1..n with day d at that offset + d − 1, each in its weekday's column |
| Calendar.BuildGrid | components/daily-question/calendar.tsx:38-45 | the two push loops build exactly the grid |
| Calendar.IsTodaySameDay | components/daily-question/calendar.tsx:78-85 | matching day, month and year is the same calendar day |
| Calendar.IsToday | components/daily-question/calendar.tsx:78-85 | day, month and year all match today's |
| Calendar.DayStatus | components/daily-question/calendar.tsx:66-75 | a status comes from an answered record of that date; no record means no status |
| Calendar.FindDaySameDates | components/daily-question/calendar.tsx:66-75 | the first match depends only on the dates |
| Calendar.AnsweredDayStatus | components/daily-question/calendar.tsx:66-75 | answering today's record shows today's outcome and leaves other days' statuses alone |
| Calendar.MonthView.constructor | components/daily-question/calendar.tsx:18-19 | shows the current month |
| Calendar.MonthView.Regenerate | components/daily-question/calendar.tsx:22-48 | the days become the month's grid |
| Calendar.MonthView.PrevMonth | components/daily-question/calendar.tsx:51-53 | moves to the previous month |
| Calendar.MonthView.NextMonth | components/daily-question/calendar.tsx:56-58 | moves to the next month |
| Seqs.Filter | hooks/use-test-history.tsx:130-139 | keeps exactly the elements passing the test, in order |
| Seqs.FilterPartition | hooks/use-test-history.tsx:142-169 | an element set and its complement partition the list |
| Seqs.Distinct | components/results.tsx:85 | the distinct elements, each once |
| Seqs.SortDescSpec | app/results/page.tsx:302 | the sort orders by decreasing key and is a permutation |
| Seqs.SplitJoin | hooks/use-daily-question.tsx:133 | joining ids without the separator and splitting again gives them back |

## Left out

- Network requests are not modelled. The daily-question fetch and the flashcards fetch arrive as a parameter (`Reply`, or `Loaded`/`LoadFailed`), and an aborted request changes nothing but loading. The exam-question fetch of useExamData arrives as the simulator's constructor argument.
- Timers are not modelled.
  - The 5 s reset of useAchievements' newlyUnlocked list is left out, so the list only grows.
  - The home page's one-second notice timer is the separate method `HomePage.Home.NoticeExpired`.
  - The 500 ms processing latch is taken as elapsed. A second payload inside that window is dropped by the source; the model only drops a repeated id, which covers the delayed copy of the results screen's event.
  - The 100 ms local-storage key-change delay, the 100 ms event delay and the 300 ms threshold sync are taken as immediate.
  - The timer's one-second interval is one `Calculate` call per tick.
- The description-rewrite effect of useAchievements only changes display text and is left out.
- Window events are direct method calls with the same payload. Page reloads and router navigation are not modelled; the redirect appears only as the predicate `HomePage.Home.Redirects`.
- Date library behaviour is left out.
  - Dates are integer day numbers and timestamps integer milliseconds.
  - The UTC date string against the local calendar day is not distinguished.
  - The ISO date string of a saved result is a parameter.
- Floating-point rounding is replaced by exact rational rounding. JavaScript's `Math.round((c/n)*100)` can differ at float ties; for example c = 57, n = 200 gives 28 there and 29 here.
- `AchievementCard.Progress`: the non-numbers NaN and minus infinity both become `None`; which of the two the source would produce is not distinguished.
- `ExamSetup.SetupScreen.ChangeQuestionCount`: requires a count within the slider's bounds, which the slider itself guarantees; its step snapping is not modelled.
- `ThresholdSetting.ThresholdEditor.SliderChange`: requires a value within 10..100, which the slider guarantees.
- `ExamSimulator.Simulator.ClockTick`: requires test mode and a start time, the only case in which the timer is rendered.
- JSON encoding is an abstract `Format` whose only law is that decoding an encoding gives the value back. Non-integer JSON numbers are not represented.
- Results page: a stored non-array value with a `length` property is treated as kept.
- `ResultsPage.Recent`: returns a sorted copy; the in-place reordering of the hook's array is not modelled.
- The alert and confirm dialogs and the `onSubmit`, `onReset` and `onUpdateThreshold` callbacks are parameters or return values.
- Presentation is left out: styling, the streak label text, progress-bar widths and the motivational quotes.
- Console logging is left out.
- The broken wiring in achievements-panel.tsx is not part of this model.
- The achievements panel's own `useAchievements` instance is not modelled: its listeners would hear the same events and write the same keys from their own captured records.
