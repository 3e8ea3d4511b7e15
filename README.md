# Dyslexia screening: scoring and risk classification

This project models the scoring core of a browser-based dyslexia screening
application. The application shows a child or adult a series of short tests.
Each test page grades the answers, computes a summary, stores one record under
the storage key `testResults`, and hands over to a results view that reads the
record back.

Two families of pages are modelled.

- **The general tests**: reading, phonological awareness, spelling, working
  memory and sequencing. Each page records one result per question: the
  verdict, the seconds spent and the authored difficulty. A classifier
  (`calculateDyslexiaRisk`) then turns the list into an accuracy, a time
  score, a list of risk-factor messages pushed in a fixed order, and a level
  (Low, Moderate or High).
- **The age-group pages**: memory match 6-9, reading 6-9, sound games 6-9 and
  reading 9-12. They count answers against a key. Two of them store a summary
  with a level; the other two store a score and a recommendation.

Each page is a Dafny module:

- `ReadingTest`, `PhonologicalTest`, `SpellingTest`, `MemoryTest`, `SequencingTest`
- `MemoryTest6to9`, `ReadingTest6to9`, `PhonologicalTest6to9`, `ReadingTest9to12`

In every page module:

- The question bank is a constant.
- Scoring and classification are functions, and each loop of the page is a
  method proved equal to its function.
- The page's React state is a `Session` class. Each handler is a method whose
  `modifies this` and `ensures` give the whole new state. A `Valid()`
  invariant ties the stored record to the answers collected.

Shared modules:

- `Scoring`: counts, quotients, factor pushing and the stored-record layouts.
- `Text`: `trim`, `toLowerCase`, `split`/`join`.
- `Json`: the stored value.
- `Results`: the results view's acceptance check and its level-dependent
  rendering.

A division such as `correct / total * 100` is kept as a `Quotient`
(numerator, denominator). Comparing it with a threshold is then exact, and a
zero denominator (JavaScript's `NaN` or `Infinity`) compares false both
ways, as JavaScript does.

Each page scores on its own terms:

- There is no shared scoring engine. Each page has its own time limits,
  factor rules and level cascade.
- The memory page scores an item typed in the wrong position as a miss.
- The memory page's recall task counts a repeated word each time it is typed.
- An empty result list is not rejected by the classifiers. It divides by zero,
  the accuracy is stored as null, and the results view then rejects the record.

Several properties of the code as written are proved as they are:

- `ReadingTest9to12` can never store Low: its threshold of 4 is above its
  three questions.
- The records of the 6-9 reading and sound pages and of the sequencing page
  have no `accuracy` field, so the results view rejects them.
- The memory page's two mount effects run against the first render's state.
  The first task therefore starts directly in the recall phase, with the clock
  started.
- Typing into a box past the end of the memory page's input row leaves holes.
  Its spread copy turns these into `undefined`, and the blank filter then
  throws a `TypeError`.

## Model

| member | source | states |
|---|---|---|
| Json.Strings | src/pages/ReadingTest6to9.tsx:76 | the stored answers array has one string per answer, in order |
| Text.Lower | src/pages/SpellingTest.tsx:152 | lower-cases A to Z, one character at a time, leaving every other character as it is |
| Text.TrimIgnoresPadding | src/pages/SpellingTest.tsx:152 | white space around a string never changes what `trim` returns |
| Text.TrimIdempotent | src/pages/SpellingTest.tsx:152 | trimming twice is trimming once; the result neither starts nor ends with white space |
| Text.TrimStartShape | src/pages/SpellingTest.tsx:152 | the start trim removes exactly a white-space prefix and stops at the first other character |
| Text.TrimEndShape | src/pages/SpellingTest.tsx:152 | the end trim removes exactly a white-space suffix and stops at the last other character |
| Text.TrimStartSkipsSpace | src/pages/SpellingTest.tsx:152 | leading white space does not survive the start trim |
| Text.TrimEndSkipsSpace | src/pages/SpellingTest.tsx:152 | trailing white space does not survive the end trim |
| Text.TrimStartKeeps | src/pages/SpellingTest.tsx:152 | a string not starting with white space is left alone |
| Text.TrimEndKeeps | src/pages/SpellingTest.tsx:152 | a string not ending with white space is left alone |
| Text.TrimStartAppend | src/pages/SpellingTest.tsx:152 | the start trim of a non-blank string is unaffected by what follows it |
| Text.LowerCharKeepsSpace | src/pages/SpellingTest.tsx:152 | lower-casing neither creates nor removes white space |
| Text.LowerTrimCommute | src/pages/MemoryTest.tsx:112-125 | `trim().toLowerCase()` equals `toLowerCase().trim()` |
| Text.LowerTrimStart | src/pages/MemoryTest.tsx:112-125 | lower-casing commutes with the start trim |
| Text.LowerTrimEnd | src/pages/MemoryTest.tsx:112-125 | lower-casing commutes with the end trim |
| Text.LowerIdempotent | src/pages/SpellingTest.tsx:152 | lower-casing twice is lower-casing once |
| Text.BlankIffTrimEmpty | src/pages/MemoryTest.tsx:107 | an entry is blank exactly when `trim` leaves nothing |
| Text.Split | src/pages/MemoryTest6to9.tsx:78 | splitting always yields at least one piece |
| Text.SplitNoSeparator | src/pages/MemoryTest6to9.tsx:78 | a string without the separator splits into itself alone |
| Text.SplitAtSeparator | src/pages/MemoryTest6to9.tsx:78 | splitting cuts at the first separator and continues on the rest |
| Text.SplitJoin | src/pages/MemoryTest6to9.tsx:68-78 | splitting a joined list gives the list back when no entry holds the separator |
| Text.SplitJoinEmpty | src/pages/MemoryTest6to9.tsx:68-78 | an empty selection joins to "" and splits back into one empty piece, not into nothing |
| Scoring.CountCorrect | src/pages/ReadingTest.tsx:90 | the correct count never exceeds the number of results |
| Scoring.CountSlow | src/pages/ReadingTest.tsx:104-106 | the slow count never exceeds the number of results |
| Scoring.CountEasyErrors | src/pages/ReadingTest.tsx:127-129 | easy errors are bounded by the wrong answers |
| Scoring.AllCorrect | src/pages/ReadingTest.tsx:89-91 | with every answer right the correct count is the length and there is no easy error |
| Scoring.NoneSlow | src/pages/ReadingTest.tsx:104-106 | with no answer over its limit the slow count is zero |
| Scoring.NumberValue | src/pages/ReadingTest.tsx:181-188 | a quotient is stored as a number exactly when its denominator is positive, and otherwise as null |
| Scoring.CompareQuotient | src/pages/ReadingTest.tsx:111-140 | with a positive denominator, the cross-multiplied comparisons are the comparisons of the real quotient |
| Scoring.Percent | src/pages/ReadingTest.tsx:91 | a share of at most the whole lies in 0..100, and the whole share is not below 100 |
| Scoring.PercentValue | src/pages/ReadingTest.tsx:91 | the percentage is `k / n * 100` |
| Scoring.Accuracy | src/pages/ReadingTest.tsx:89-91 | accuracy lies in 0..100 over the number of results |
| Scoring.TimeScore | src/pages/ReadingTest.tsx:104-108 | the time score lies in 0..100 over the number of results |
| Scoring.CountTrue | src/pages/ReadingTest.tsx:111-133 | at most one factor per rule |
| Scoring.CountTrueMonotone | src/pages/ReadingTest.tsx:111-133 | fewer rules firing never gives more factors |
| Scoring.AddIf | src/pages/ReadingTest.tsx:111-113 | a conditional push appends the message exactly when its rule holds |
| Scoring.KeepShape | src/pages/ReadingTest.tsx:111-133 | the factor list has one message per rule that fired, in push order, each one of the page's messages |
| Scoring.KeepHas | src/pages/ReadingTest.tsx:111-133 | a message is in the factor list exactly when its own rule fired |
| Scoring.Keep3 | src/pages/PhonologicalTest.tsx:107-125 | the factor list equals three conditional pushes in order |
| Scoring.Keep4 | src/pages/ReadingTest.tsx:111-133 | the factor list equals four conditional pushes in order |
| Scoring.AnalysisRecord | src/pages/ReadingTest.tsx:181-188 | the stored record carries the test name, the accuracy and the level name |
| Scoring.FasterAnswer | src/pages/ReadingTest.tsx:89-108 | answering one question faster keeps the correct and easy-error counts and never raises the slow count or the total time |
| Scoring.TotalTimeNonNegative | src/pages/ReadingTest.tsx:94-95 | a sum of non-negative times is non-negative |
| Scoring.Matches | src/pages/ReadingTest9to12.tsx:51-53 | at most one point per question |
| Scoring.MatchesSelf | src/pages/ReadingTest9to12.tsx:51-53 | the key scores every question against itself |
| Scoring.MatchesAll | src/pages/ReadingTest9to12.tsx:51-53 | a full score means every answer equals its key, and conversely |
| Scoring.MatchesNone | src/pages/ReadingTest9to12.tsx:51-53 | a zero score means no answer equals its key, and conversely |
| Scoring.MatchFlags | src/pages/ReadingTest9to12.tsx:54-59 | one flag per question, set exactly when the answer equals its key |
| Scoring.MatchFlagsCount | src/pages/ReadingTest9to12.tsx:51-59 | the flags set number exactly the score |
| Scoring.SummaryRecord | src/pages/ReadingTest9to12.tsx:61-72 | the summary record carries the test name, the percentage and the level name |
| Scoring.ScoreRecord | src/pages/ReadingTest6to9.tsx:72-78 | the score record carries the score and has neither a test name nor an accuracy |
| Results.Load | src/pages/Results.tsx:31-48 | after loading, results are present exactly when the stored text parsed to an object with a string `test` and a numeric `accuracy`, and then they are that object |
| Results.NextStepsBlock | src/pages/Results.tsx:230-250 | the extra recommendation block appears exactly for "High" and "Moderate" |
| Results.PaceBadge | src/pages/Results.tsx:208-212 | "Slow" exactly above 30 seconds, "Good pace" otherwise |
| Results.RenderingFollowsShownLevel | src/pages/Results.tsx:50-84 | colour, icon and headline depend only on the level the view reads the string as; unknown strings render as Low |
| Results.LevelsRenderDistinctly | src/pages/Results.tsx:50-84 | each stored level reads back as itself, and the three levels get distinct colours, icons, headlines and blocks |
| Results.AnalysisRecordAccepted | src/pages/Results.tsx:36-41 | a general test's record is accepted exactly when its accuracy is a number, that is when there was a result |
| Results.SummaryRecordAccepted | src/pages/Results.tsx:36-41 | an age-group summary record is always accepted and shows the level it carries |
| Results.ScoreRecordRejected | src/pages/Results.tsx:36-41 | a score record is never accepted, so the view shows no results |
| ReadingTest.FactorsDistinct | src/pages/ReadingTest.tsx:111-133 | the four factor messages are distinct |
| ReadingTest.Analyze | src/pages/ReadingTest.tsx:88-151 | the counts and percentages are taken over all results, and accuracy and time score lie in 0..100 |
| ReadingTest.CalculateDyslexiaRisk | src/pages/ReadingTest.tsx:88-151 | the step-by-step classifier returns the analysis |
| ReadingTest.FactorRules | src/pages/ReadingTest.tsx:111-133 | each factor is present exactly when its rule holds: accuracy under 60%, time score under 60%, average over 30 s, two easy errors |
| ReadingTest.LevelRules | src/pages/ReadingTest.tsx:135-140 | High iff three factors or both percentages under 50%; Low iff under two factors and both at 65% or more |
| ReadingTest.LowMeansAccurateAndPrompt | src/pages/ReadingTest.tsx:111-140 | a Low result has neither the accuracy nor the speed factor, and at most one factor |
| ReadingTest.FasterNeverRaisesRisk | src/pages/ReadingTest.tsx:88-151 | answering one question faster never adds a factor or raises the level |
| ReadingTest.PerfectAndPromptIsLow | src/pages/ReadingTest.tsx:88-151 | every answer right and none slow gives Low |
| ReadingTest.RecordAccepted | src/pages/ReadingTest.tsx:181-188 | the stored record is accepted exactly when there was a result |
| ReadingTest.Session.constructor | src/pages/ReadingTest.tsx:27-32 | the page starts at question 1 with nothing selected or recorded |
| ReadingTest.Session.Mount | src/pages/ReadingTest.tsx:79-82 | the mount effect starts the clock and changes nothing else |
| ReadingTest.Session.SelectOption | src/pages/ReadingTest.tsx:84-86 | selecting an option records it |
| ReadingTest.Session.NextQuestion | src/pages/ReadingTest.tsx:153-190 | one result per question with the verdict and the time; the next question, or the accepted record at the end; nothing before the clock starts |
| PhonologicalTest.FactorsDistinct | src/pages/PhonologicalTest.tsx:107-125 | the three factor messages are distinct |
| PhonologicalTest.Analyze | src/pages/PhonologicalTest.tsx:84-143 | the counts and percentages are taken over all results and lie in 0..100 |
| PhonologicalTest.CalculateDyslexiaRisk | src/pages/PhonologicalTest.tsx:84-143 | the step-by-step classifier returns the analysis |
| PhonologicalTest.FactorRules | src/pages/PhonologicalTest.tsx:107-125 | each factor is present exactly when its rule holds |
| PhonologicalTest.LevelRules | src/pages/PhonologicalTest.tsx:127-132 | the level cascade stated on the counts, both ways |
| PhonologicalTest.AllFactorsMeansEveryRule | src/pages/PhonologicalTest.tsx:107-132 | three factors, which alone make the level High, means every rule held |
| PhonologicalTest.FasterNeverRaisesRisk | src/pages/PhonologicalTest.tsx:84-143 | answering faster never adds a factor or raises the level |
| PhonologicalTest.PerfectAndPromptIsLow | src/pages/PhonologicalTest.tsx:84-143 | every answer right and none slow gives Low with no factor |
| PhonologicalTest.RecordAccepted | src/pages/PhonologicalTest.tsx:168-180 | the stored record is accepted exactly when there was a result |
| PhonologicalTest.Session.constructor | src/pages/PhonologicalTest.tsx:28-33 | the page starts at question 1 with nothing selected or recorded |
| PhonologicalTest.Session.Mount | src/pages/PhonologicalTest.tsx:75-78 | the mount effect starts the clock and changes nothing else |
| PhonologicalTest.Session.SelectOption | src/pages/PhonologicalTest.tsx:80-82 | selecting an option records it |
| PhonologicalTest.Session.NextQuestion | src/pages/PhonologicalTest.tsx:145-182 | one result per question; the next question, or the accepted record at the end |
| SpellingTest.FactorsDistinct | src/pages/SpellingTest.tsx:109-126 | the three factor messages are distinct |
| SpellingTest.GradeIgnoresPaddingAndCase | src/pages/SpellingTest.tsx:152 | the grade ignores white space around the answer and the case of its letters |
| SpellingTest.WordIsAccepted | src/pages/SpellingTest.tsx:152 | each word of the bank, typed as written, is accepted |
| SpellingTest.BlankIsWrong | src/pages/SpellingTest.tsx:152 | a blank answer is never correct |
| SpellingTest.Analyze | src/pages/SpellingTest.tsx:90-143 | the counts and percentages are taken over all results and lie in 0..100 |
| SpellingTest.CalculateDyslexiaRisk | src/pages/SpellingTest.tsx:90-143 | the step-by-step classifier returns the analysis |
| SpellingTest.FactorRules | src/pages/SpellingTest.tsx:109-126 | each factor is present exactly when its rule holds, including a single easy error |
| SpellingTest.LevelRules | src/pages/SpellingTest.tsx:128-132 | the level cascade stated on the counts, both ways |
| SpellingTest.LowMeansEasyWordsRight | src/pages/SpellingTest.tsx:109-132 | a Low result has at most the easy-word factor, and neither the accuracy nor the speed factor |
| SpellingTest.FasterNeverRaisesRisk | src/pages/SpellingTest.tsx:90-143 | answering faster never adds a factor or raises the level |
| SpellingTest.PerfectAndPromptIsLow | src/pages/SpellingTest.tsx:90-143 | every word right and none slow gives Low with no factor |
| SpellingTest.RecordAccepted | src/pages/SpellingTest.tsx:172-179 | the stored record is accepted exactly when there was a result |
| SpellingTest.Session.constructor | src/pages/SpellingTest.tsx:27-32 | the page starts at word 1 with an empty input |
| SpellingTest.Session.Mount | src/pages/SpellingTest.tsx:73-76 | the mount effect starts the clock and changes nothing else |
| SpellingTest.Session.InputChange | src/pages/SpellingTest.tsx:78-80 | typing replaces the input |
| SpellingTest.Session.Check | src/pages/SpellingTest.tsx:145-181 | one graded result per word; the next word with a cleared input, or the accepted record at the end |
| MemoryTest.Expected | src/pages/MemoryTest.tsx:109 | without an explicit answer the expected list is the items shown |
| MemoryTest.Spread | src/pages/MemoryTest.tsx:94-98 | copying the input row keeps every read and turns holes into undefined |
| MemoryTest.WriteAt | src/pages/MemoryTest.tsx:94-98 | writing past the end grows the row and leaves holes between |
| MemoryTest.AddAnswerTo | src/pages/MemoryTest.tsx:100-104 | a new empty box is added only when there is none or the last one is filled in |
| MemoryTest.AddAnswerIdempotent | src/pages/MemoryTest.tsx:100-104 | pressing "Add Another Word" twice without typing adds one box |
| MemoryTest.Clean | src/pages/MemoryTest.tsx:107 | the blank filter keeps only non-blank entries, and throws exactly when an entry is undefined |
| MemoryTest.CleanAppend | src/pages/MemoryTest.tsx:107 | filtering a concatenation is filtering its parts |
| MemoryTest.SequenceMatches | src/pages/MemoryTest.tsx:108-120 | at most one point per position |
| MemoryTest.LowerAll | src/pages/MemoryTest.tsx:122 | every item is lower-cased in place |
| MemoryTest.RecallMatches | src/pages/MemoryTest.tsx:121-131 | at most one point per answer |
| MemoryTest.Score | src/pages/MemoryTest.tsx:106-135 | scoring throws exactly when an entry is undefined |
| MemoryTest.CountSequence | src/pages/MemoryTest.tsx:108-120 | the positional loop counts the matching positions up to the shorter list |
| MemoryTest.CountRecall | src/pages/MemoryTest.tsx:121-131 | the recall loop counts the answers found among the items |
| MemoryTest.CalculateScore | src/pages/MemoryTest.tsx:106-135 | the method returns the scoring outcome |
| MemoryTest.BlankEntryIgnored | src/pages/MemoryTest.tsx:107 | a blank box anywhere does not change the verdict |
| MemoryTest.TidyMatches | src/pages/MemoryTest.tsx:112-125 | an item without surrounding white space, typed as written, survives trimming and lower-casing |
| MemoryTest.Texts | src/pages/MemoryTest.tsx:94-98 | typed words fill the boxes one by one |
| MemoryTest.CleanTidy | src/pages/MemoryTest.tsx:107 | non-blank typed words pass the filter unchanged |
| MemoryTest.SequenceMatchesSelf | src/pages/MemoryTest.tsx:108-120 | a list matches itself at every position |
| MemoryTest.ExpectedSequencePasses | src/pages/MemoryTest.tsx:106-135 | typing the expected sequence back passes |
| MemoryTest.BankExpectations | src/pages/MemoryTest.tsx:39-69 | the reverse task expects the items reversed; the bank's sequence tasks pass when answered as expected |
| MemoryTest.DisabledCheckWithholdsNoPass | src/pages/MemoryTest.tsx:347 | the Check button, disabled for no entry or a single empty one, only withholds rows that would score a fail or throw |
| MemoryTest.RepeatsCount | src/pages/MemoryTest.tsx:121-131 | a remembered word typed k times counts k times |
| MemoryTest.RecallMatchesPrefix | src/pages/MemoryTest.tsx:121-131 | the recall count over the first answers depends only on them |
| MemoryTest.RepeatedWordPassesRecall | src/pages/MemoryTest.tsx:121-131 | one remembered word typed four times passes the seven-word recall task |
| MemoryTest.SkippedBoxesThrow | src/pages/MemoryTest.tsx:94-107 | a skipped box grades, but after a second write the hole becomes undefined and scoring throws |
| MemoryTest.FactorsDistinct | src/pages/MemoryTest.tsx:159-173 | the three factor messages are distinct |
| MemoryTest.Analyze | src/pages/MemoryTest.tsx:137-190 | the counts and percentages are taken over all results and lie in 0..100 |
| MemoryTest.CalculateDyslexiaRisk | src/pages/MemoryTest.tsx:137-190 | the step-by-step classifier returns the analysis |
| MemoryTest.FactorRules | src/pages/MemoryTest.tsx:159-173 | each factor is present exactly when its rule holds |
| MemoryTest.LevelRules | src/pages/MemoryTest.tsx:175-179 | the level cascade stated on the counts, both ways |
| MemoryTest.LowIffNoFactors | src/pages/MemoryTest.tsx:159-179 | the level is Low exactly when no factor was pushed |
| MemoryTest.FasterNeverRaisesRisk | src/pages/MemoryTest.tsx:137-190 | answering faster never adds a factor or raises the level |
| MemoryTest.RecordAccepted | src/pages/MemoryTest.tsx:192-227 | the stored record is accepted exactly when there was a result |
| MemoryTest.Session.constructor | src/pages/MemoryTest.tsx:30-37 | the page starts at task 1 in the memorize phase with no input |
| MemoryTest.Session.Mount | src/pages/MemoryTest.tsx:71-92 | both mount effects, run against the first render, leave task 1 in the recall phase with the clock started |
| MemoryTest.Session.Tick | src/pages/MemoryTest.tsx:76-86 | one second off while memorizing; at zero, recall starts with an empty row |
| MemoryTest.Session.WordInput | src/pages/MemoryTest.tsx:94-98 | typing, possible only in the recall phase, writes into the chosen box |
| MemoryTest.Session.AddAnswer | src/pages/MemoryTest.tsx:100-104 | the add button, shown only in the recall phase, applies the add rule |
| MemoryTest.Session.Check | src/pages/MemoryTest.tsx:192-227 | a throwing score changes nothing; otherwise one result per task, then the next task or the accepted record |
| MemoryTest.Session.Submit | src/pages/MemoryTest.tsx:200-226 | the graded result is appended, then the next task's memorize phase or the record |
| SequencingTest.ExpectedOrder | src/pages/SequencingTest.tsx:95 | the expected order lists the items named by the right indices |
| SequencingTest.BankIsWellFormed | src/pages/SequencingTest.tsx:37-74 | every task shows five items and indexes only those |
| SequencingTest.MovedShape | src/pages/SequencingTest.tsx:84-92 | a drag keeps every item and puts the dragged one at the destination |
| SequencingTest.MoveBack | src/pages/SequencingTest.tsx:84-92 | dragging back undoes a move |
| SequencingTest.PositionMatches | src/pages/SequencingTest.tsx:94-106 | at most one point per position |
| SequencingTest.PositionMatchesSelf | src/pages/SequencingTest.tsx:94-106 | the right order matches at every position |
| SequencingTest.CalculateScore | src/pages/SequencingTest.tsx:94-106 | the loop returns the share of items in their right position, in 0..100 |
| SequencingTest.RightOrderScoresFull | src/pages/SequencingTest.tsx:94-106 | the right order scores 100% |
| SequencingTest.GroupCount | src/pages/SequencingTest.tsx:128-129 | a difficulty group is no larger than the results |
| SequencingTest.FactorsDistinct | src/pages/SequencingTest.tsx:119-143 | the four factor messages are distinct |
| SequencingTest.Analyze | src/pages/SequencingTest.tsx:108-158 | the averages are taken over all results |
| SequencingTest.CalculateDyslexiaRisk | src/pages/SequencingTest.tsx:108-158 | the step-by-step classifier returns the analysis |
| SequencingTest.FactorRules | src/pages/SequencingTest.tsx:119-143 | each factor is present exactly when its rule holds, an empty group counting as 100 |
| SequencingTest.LevelRules | src/pages/SequencingTest.tsx:146-150 | the level cascade stated on the score total, both ways |
| SequencingTest.PerfectAndPromptIsLow | src/pages/SequencingTest.tsx:108-158 | every task at 100% within 45 s on average gives Low with no factor |
| SequencingTest.NoRuleFires | src/pages/SequencingTest.tsx:119-143 | under the same assumption none of the four rules fires |
| SequencingTest.FullAverages | src/pages/SequencingTest.tsx:110-137 | with every score at 100 no average is under its threshold |
| SequencingTest.NoFlagsNoFactors | src/pages/SequencingTest.tsx:119-150 | no rule firing means no factor and Low |
| SequencingTest.AllFull | src/pages/SequencingTest.tsx:110-134 | with every score at 100 each sum is 100 times its count |
| SequencingTest.SeqRecord | src/pages/SequencingTest.tsx:185-197 | the record carries a test name but no accuracy |
| SequencingTest.RecordRejected | src/pages/SequencingTest.tsx:185-197 | the results view never accepts this page's record |
| SequencingTest.Session.constructor | src/pages/SequencingTest.tsx:29-34 | the page starts at task 1 with nothing shown or recorded |
| SequencingTest.Session.ShowQuestion | src/pages/SequencingTest.tsx:76-82 | showing a task starts the clock and lays out its items |
| SequencingTest.Session.DragEnd | src/pages/SequencingTest.tsx:84-92 | a drop outside changes nothing; a drop moves one item; the items are always a permutation |
| SequencingTest.Session.Check | src/pages/SequencingTest.tsx:160-199 | one scored result per task; the next task, or the record at the end |
| SequencingTest.Session.Submit | src/pages/SequencingTest.tsx:167-198 | the result is appended, then the next task is shown or the record stored |
| MemoryTest6to9.BankFacts | src/pages/MemoryTest6to9.tsx:17-39 | each game expects three distinct items, all offered, none containing the separator |
| MemoryTest6to9.NoSeparatorInOptions | src/pages/MemoryTest6to9.tsx:17-39 | no offered item contains ", " |
| MemoryTest6to9.Without | src/pages/MemoryTest6to9.tsx:61 | removing an item drops it, keeps the others and keeps them distinct |
| MemoryTest6to9.WithoutAbsent | src/pages/MemoryTest6to9.tsx:61 | removing an absent item changes nothing |
| MemoryTest6to9.Toggle | src/pages/MemoryTest6to9.tsx:59-65 | an item ends selected exactly when it was not and fewer than three were; others stay; at most three, distinct |
| MemoryTest6to9.ToggleUndoesPick | src/pages/MemoryTest6to9.tsx:59-65 | toggling an item twice from unselected restores the selection |
| MemoryTest6to9.ToggleUndoesUnpick | src/pages/MemoryTest6to9.tsx:59-65 | toggling a selected item twice restores the set of items selected |
| MemoryTest6to9.Hits | src/pages/MemoryTest6to9.tsx:78-80 | at most one hit per expected item |
| MemoryTest6to9.HitsAll | src/pages/MemoryTest6to9.tsx:78-80 | all expected items hit exactly when each is among the picks |
| MemoryTest6to9.HitsNone | src/pages/MemoryTest6to9.tsx:78-80 | no hit exactly when none is among the picks |
| MemoryTest6to9.CreditRange | src/pages/MemoryTest6to9.tsx:76-81 | credit lies in 0..1, is 1 exactly when every expected item is picked, and is at most 0.66 otherwise |
| MemoryTest6to9.ScoreRange | src/pages/MemoryTest6to9.tsx:76-81 | the score lies in 0..number of games |
| MemoryTest6to9.FullScoreIffAllRight | src/pages/MemoryTest6to9.tsx:76-81 | the score is 3 exactly when every game has full credit |
| MemoryTest6to9.ThreeCredits | src/pages/MemoryTest6to9.tsx:76-81 | three credits of at most 1 sum to 3 only when each is 1 |
| MemoryTest6to9.PickedOptionsCredit | src/pages/MemoryTest6to9.tsx:68-81 | after join and split, a selection earns full credit exactly when it holds every expected item |
| MemoryTest6to9.EmptySelectionScoresZero | src/pages/MemoryTest6to9.tsx:68-81 | an empty selection earns no credit |
| MemoryTest6to9.IsCorrectIffFullCredit | src/pages/MemoryTest6to9.tsx:88 | a game is marked correct exactly when it earned full credit |
| MemoryTest6to9.LevelRules | src/pages/MemoryTest6to9.tsx:97-105 | Low exactly when every credit is 1, exactly when the percentage is 100; the percentage lies in 0..100 |
| MemoryTest6to9.Details | src/pages/MemoryTest6to9.tsx:84-93 | one entry per game |
| MemoryTest6to9.RecordAccepted | src/pages/MemoryTest6to9.tsx:99-109 | the results view accepts the record and shows its level |
| MemoryTest6to9.RecommendationFollowsLevel | src/pages/MemoryTest6to9.tsx:117-125 | each recommendation tier matches the level |
| MemoryTest6to9.Session.constructor | src/pages/MemoryTest6to9.tsx:10-41 | the page starts at game 1 with the items shown for three seconds |
| MemoryTest6to9.Session.Tick | src/pages/MemoryTest6to9.tsx:43-50 | one second off while the items show; at zero they are hidden |
| MemoryTest6to9.Session.QuestionChanged | src/pages/MemoryTest6to9.tsx:52-57 | a new game shows its items again with a cleared selection |
| MemoryTest6to9.Session.AnswerToggle | src/pages/MemoryTest6to9.tsx:59-65 | a click toggles the item within the three-pick limit |
| MemoryTest6to9.Session.Next | src/pages/MemoryTest6to9.tsx:67-114 | the joined selection is kept; the next game, or the accepted record at the end |
| ReadingTest9to12.KeysAreCorrect | src/pages/ReadingTest9to12.tsx:15-37 | each key is the question's right option and one of the offered options |
| ReadingTest9to12.ScoreRange | src/pages/ReadingTest9to12.tsx:51-53 | the score lies in 0..3 and is 3 exactly when every answer is right |
| ReadingTest9to12.DetailsAgreeWithScore | src/pages/ReadingTest9to12.tsx:51-59 | each detail flag says whether its answer is right, and they number the score |
| ReadingTest9to12.NeverLow | src/pages/ReadingTest9to12.tsx:67 | the level is never Low; it is Moderate exactly from two right answers |
| ReadingTest9to12.PercentageValues | src/pages/ReadingTest9to12.tsx:63 | the accuracy is 0, 33, 67 or 100, and 100 exactly for a perfect run |
| ReadingTest9to12.RecordAccepted | src/pages/ReadingTest9to12.tsx:61-72 | the results view accepts the record and shows its level |
| ReadingTest9to12.RecommendationVersusLevel | src/pages/ReadingTest9to12.tsx:67-85 | below 3 the tiers agree with the level; a perfect run earns the top tier beside Moderate |
| ReadingTest9to12.RecommendationExtremes | src/pages/ReadingTest9to12.tsx:77-85 | a perfect run earns the top tier and a run without a right answer the lowest |
| ReadingTest9to12.Session.constructor | src/pages/ReadingTest9to12.tsx:10-12 | the page starts at question 1 with no selection |
| ReadingTest9to12.Session.AnswerSelect | src/pages/ReadingTest9to12.tsx:39-41 | selecting an option records it |
| ReadingTest9to12.Session.Next | src/pages/ReadingTest9to12.tsx:43-75 | the answer is kept and the selection cleared; the next question, or the record at the end |
| ReadingTest6to9.KeysAreCorrect | src/pages/ReadingTest6to9.tsx:16-52 | each key is the question's right option and one of the offered options |
| ReadingTest6to9.ScoreRange | src/pages/ReadingTest6to9.tsx:68-70 | the score lies in 0..5 and is 5 exactly when every answer is right |
| ReadingTest6to9.RecommendationExtremes | src/pages/ReadingTest6to9.tsx:84-92 | a perfect run earns the top tier and a run without a right answer the lowest |
| ReadingTest6to9.RecordRejected | src/pages/ReadingTest6to9.tsx:72-78 | the record carries the score, but the results view rejects it |
| ReadingTest6to9.Session.constructor | src/pages/ReadingTest6to9.tsx:10-14 | the page starts at question 1 with no selection |
| ReadingTest6to9.Session.AnswerSelect | src/pages/ReadingTest6to9.tsx:54-56 | selecting an option records it |
| ReadingTest6to9.Session.Next | src/pages/ReadingTest6to9.tsx:58-82 | the answer is kept; the next question, or completion with the record |
| PhonologicalTest6to9.FirstCorrect | src/pages/PhonologicalTest6to9.tsx:75 | a text is found exactly when some option is flagged, and it is the text of the first flagged one |
| PhonologicalTest6to9.FlaggedKey | src/pages/PhonologicalTest6to9.tsx:15-60 | in each game exactly the key's option is flagged, so the lookup finds the key |
| PhonologicalTest6to9.HitsAreMatches | src/pages/PhonologicalTest6to9.tsx:74-77 | comparing with the flagged text is comparing with the key |
| PhonologicalTest6to9.ScoreIsMatchCount | src/pages/PhonologicalTest6to9.tsx:74-77 | the score is the match count, in 0..4, and 4 exactly when every answer is the key |
| PhonologicalTest6to9.RecommendationExtremes | src/pages/PhonologicalTest6to9.tsx:91-99 | a perfect run earns the top tier and a run without a right answer the lowest |
| PhonologicalTest6to9.RecordRejected | src/pages/PhonologicalTest6to9.tsx:79-85 | the record carries the score, but the results view rejects it |
| PhonologicalTest6to9.Session.constructor | src/pages/PhonologicalTest6to9.tsx:10-12 | the page starts at game 1 with no selection |
| PhonologicalTest6to9.Session.AnswerSelect | src/pages/PhonologicalTest6to9.tsx:62-64 | choosing a picture records its text |
| PhonologicalTest6to9.Session.Next | src/pages/PhonologicalTest6to9.tsx:66-89 | the answer is kept; the next game, or the record at the end |

## Left out

- Clocks: `Date.now()` differences enter as the `timeSpent` parameter of each handler. A `started` flag stands for the presence of a start time.
- Storage and serialisation: `localStorage` is modelled by the `stored` field of each session, holding the JSON value. The text round trip through `JSON.stringify`/`JSON.parse` is taken as the identity. `JSON.parse` failures enter `Results.Load` as the `Unparsable` case.
- The `questions` field: the reading, phonological and sequencing records store the question bank itself. That field is left out of the modelled records, and nothing reads it.
- Text.Lower: maps only the letters A to Z, while `toLowerCase` maps all of Unicode. Verdicts therefore differ only on typed input whose Unicode lower case is ASCII, such as U+212A KELVIN SIGN, which the pages would accept for "k". Characters whose lower case is longer, such as U+0130, are not expanded either.
- Floating point: scores, percentages and times are exact reals. For these banks every percentage and average-score comparison gives the same verdict on doubles as on reals. `Math.round` is modelled as rounding halves up.
- ReadingTest.FactorRules: compares the average time with 30 s as an exact real. The page sums the times in doubles, so at an exact average of 30 s it may push the extended-processing factor that the model leaves out (six times of 48.286, 53.548, 15.992, 39.741, 7.699 and 14.734 s average 30.000000000000004 in doubles).
- SequencingTest.FactorRules: compares the average time with 45 s as an exact real. The page sums the times in doubles, so at an exact average of 45 s it may push the slower-processing factor that the model leaves out (times of 77.016, 73.243, 14.667 and 15.074 s average 45.00000000000001 in doubles).
- Navigation, the speech-synthesis effects of the 6-9 pages, toasts, and every rendering detail beyond the results view's level-dependent helpers and the pace badge. Navigation is recorded only as the `navigated` or `isTestComplete` flag.
- `setTimeout` delays of the memory pages: each is modelled as an explicit `Tick` step.
- `MemoryTest6to9`: the page's unused `selectedAnswer` state is left out.
- SequencingTest.ExpectedOrder: requires every right index to name an item. The bank satisfies this (`SequencingTest.BankIsWellFormed`); for a malformed task the page would compare against `undefined`.
- SequencingTest.BankIsWellFormed: the bank's right orders are not proved to be permutations of the items shown; only that they index them.
- ReadingTest6to9.Session.Next: requires a non-empty selection, because the page's Next button is disabled without one. `ReadingTest9to12.Session.Next` and `PhonologicalTest6to9.Session.Next` carry the same guard.
- MemoryTest6to9.Session.Next: modelled without the button's guard of exactly three picks, so it also covers selections the page would not submit.
- The accessibility, routing, authentication and age-selection pages of the application are not part of this model.
