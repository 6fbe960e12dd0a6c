# Error Spotter: grading and progress tracking

This project is a Dafny model of the answer-grading and progress-tracking core
of an exam-style "spot the error" quiz. A learner is shown a short program in
OCR Exam Reference Language. They must name three things: the line that holds
the error, its kind (syntax or logic), and a corrected version of that line.

The model covers four parts:

- **The quiz round.** How the component grades the three parts, picks the
  question pool from the selected topic categories, and moves between
  answering, feedback and the next question.
- **Points.** How a score of 0 to 3 becomes earned and possible points at the
  category's difficulty level.
- **The score tracker.** How `ScoreManager` keeps attempts, points, streaks and
  per-category records, loads and saves them, derives a level from its
  threshold table, and draws a streak as emoji.
- **The question record type.** Its well-formedness conditions, checked on
  sample entries of the question bank.

Modules, one per file:

- `Wrappers`: `Option`.
- `JsText`: the JavaScript string built-ins that grading uses:
  - the white-space class shared by `\s`, `trim()` and `parseInt`;
  - `toLowerCase` on ASCII letters;
  - `trim()`;
  - `replace(/\s+/g, " ")`;
  - `replace(/'/g, '"')`;
  - `parseInt(s, 10)`.
- `QuestionData`: the `Category` set, the question and answer records, the mode
  table, and a sample of the question bank.
- `ScoreModel`: `calculatePoints`, the level table and the level search,
  accuracy, the statistics values, the value that `recordScore` computes, the
  load merge, and the greedy streak decomposition.
- `ScoreTracker`: local storage as a `Storage` object, and `ScoreManager` as a
  class whose `scores` field its methods update and write through.
- `ScoreAliasing`: category records as shared objects, kept only to exhibit the
  finding below.
- `Grader`: the grading inside `checkAnswer`. It covers both normalisations,
  the three part predicates, the score, and the feedback for each part.
- `Quiz`: the `CATEGORIES` table and the difficulty lookup, the pool, the
  category toggle, the feedback colour, and a `QuizRound` class holding the
  component's state.

Modelling choices:

- Multipliers are integers in quarters. 1.0, 1.25, 1.5 and 1.75 are k/4 for
  k = 4 to 7, so `Math.ceil(n * m)` becomes `(n * k + 3) / 4`.
- Accuracy is an exact `real`.
- Storage can fail in two ways, as a browser's can: it is unreachable (reads
  and writes throw), or it is reachable but full (only writes throw).
- Local storage holds already-parsed values: a `Blob` is either unreadable or
  the stored object's top-level fields.
- `Math.random` becomes a `choice` index parameter into the pool.
- Each call of `onScoreUpdate` is appended to a `reports` log.
- `Consistent` (correct ≤ attempts and streak ≤ record streak) is not part of
  `ScoreManager.Valid()`. Stored records are loaded as they are and may break
  it. So `RecordScore` and `ResetStreak` promise it only when it held before.

## Model

| member | source | states |
|---|---|---|
| JsText.Lower | src/components/ErrorSpotterQuiz.tsx:173-174 | lower-casing keeps the length, leaves no upper-case letter and lowers each character on its own |
| JsText.LowerAppend | src/components/ErrorSpotterQuiz.tsx:173-174 | lower-casing distributes over concatenation |
| JsText.LowerOfNoUpper | src/components/ErrorSpotterQuiz.tsx:173-174 | a string with no upper-case letter is unchanged by lower-casing |
| JsText.Trim | src/components/ErrorSpotterQuiz.tsx:175 | `trim()` is the slice between the leading and the trailing white-space runs, and has no white space at either end |
| JsText.TrimOfTrimmed | src/components/ErrorSpotterQuiz.tsx:175 | trimming a string with no outer white space changes nothing |
| JsText.TrimEmpty | src/components/ErrorSpotterQuiz.tsx:175 | trimming yields the empty string exactly when the input is all white space |
| JsText.TrimPadded | src/components/ErrorSpotterQuiz.tsx:175 | a trimmed word with white space on both sides trims to the word |
| JsText.CollapseSpaces | src/components/ErrorSpotterQuiz.tsx:176 | collapsing white-space runs gives the empty string only for the empty string and keeps a leading non-space character |
| JsText.CollapseIsCollapsed | src/components/ErrorSpotterQuiz.tsx:176 | after the collapse every white-space character is a plain space and no two are adjacent |
| JsText.CollapseOfCollapsed | src/components/ErrorSpotterQuiz.tsx:176 | collapsing an already collapsed string changes nothing |
| JsText.CollapsePrefix | src/components/ErrorSpotterQuiz.tsx:176 | a collapsed prefix that ends in a non-space passes through the collapse unchanged |
| JsText.CollapseRun | src/components/ErrorSpotterQuiz.tsx:176 | a leading white-space run becomes a single space |
| JsText.ReplaceQuotes | src/components/ErrorSpotterQuiz.tsx:223 | every single quote becomes a double quote, every other character stays, and no single quote remains |
| JsText.ReplaceQuotesCommutesTrim | src/components/ErrorSpotterQuiz.tsx:221-223 | replacing quotes commutes with `trim()` |
| JsText.ReplaceQuotesCommutesCollapse | src/components/ErrorSpotterQuiz.tsx:221-223 | replacing quotes commutes with the white-space collapse |
| JsText.ParseInt | src/components/ErrorSpotterQuiz.tsx:145 | `parseInt(s, 10)`: skip the leading white space, read an optional sign and the longest digit run; no digit there gives `NaN`; a number is read only when the input contains a digit |
| JsText.ParseIntOfDecimal | src/components/ErrorSpotterQuiz.tsx:145 | reading back the decimal form of a natural number gives that number |
| JsText.ParseIntOfBlank | src/components/ErrorSpotterQuiz.tsx:145 | an empty or all-white-space input reads as `NaN` |
| JsText.ParseIntOfParts | src/components/ErrorSpotterQuiz.tsx:145 | for any input made of white space, an optional sign, a maximal digit run (leading zeros allowed) and any trailing text, the result is the signed value of the digits |
| JsText.ParseIntWithoutDigit | src/components/ErrorSpotterQuiz.tsx:145 | when the character after the white space and the optional sign is not a digit (or there is none), the result is `NaN` |
| QuestionData.CategoriesClosed | src/lib/questionData.ts:16-28 | there are exactly twelve categories, each listed once, and distinct categories have distinct tags |
| QuestionData.Keyword | src/lib/questionData.ts:9 | each error kind is spelled as a non-empty lower-case word |
| QuestionData.QuizModesSingle | src/lib/questionData.ts:37-44 | the mode table has the single key "Error Spotter", and each mode's id equals its key |
| QuestionData.SampleQuestionsWellFormed | src/lib/questionData.ts:48-92 | every sampled entry's line number lies within its program, and it has at least one correction, none blank |
| QuestionData.SampleQuestionsShapes | src/lib/questionData.ts:1962-1984 | line 4 of a 4-line program and line 9 of a 9-line program are answers; two entries accept 2 and 3 corrections |
| ScoreModel.MultiplierQuarters | src/lib/scoreManager.ts:81-86 | the multiplier is 4/4 to 7/4; any level outside 2..4 gets the 1.0 fallback |
| ScoreModel.CalculatePoints | src/lib/scoreManager.ts:94-103 | earned and possible points are the least whole numbers at or above score × multiplier and 3 × multiplier |
| ScoreModel.PointsBounds | src/lib/scoreManager.ts:94-103 | for a score of 0..3: earned ≤ possible; nothing is earned exactly for 0; everything exactly for 3 |
| ScoreModel.PointsMonotone | src/lib/scoreManager.ts:100 | more correct parts never earn fewer points |
| ScoreModel.PointsTable | src/lib/scoreManager.ts:98-102 | possible points are 3, 4, 5, 6 for levels 1 to 4 and 3 for an unknown level; (2, 2) gives (3, 4) |
| ScoreModel.HighestMet | src/lib/scoreManager.ts:288-294 | the downward scan finds the highest level reached below the bound, or reports that none is reached |
| ScoreModel.LevelIndex | src/lib/scoreManager.ts:286-294 | the current level is reached (or is the first level), and no higher level is reached |
| ScoreModel.LevelIndexMonotone | src/lib/scoreManager.ts:286-294 | more points or more accuracy never lower the level |
| ScoreModel.BlankIsFirstLevel | src/lib/scoreManager.ts:286-294 | with a free first level and every later level asking for points, a blank record is on the first level |
| ScoreModel.DefaultLevelsExamples | src/lib/scoreManager.ts:112-155 | on the default table: (0 points, 0%) is Beginner, (30, 75%) Skilled, (100, 50%) Novice, (80, 95%) Master |
| ScoreModel.Accuracy | src/lib/scoreManager.ts:283-284 | accuracy is 0 without attempts, otherwise correct/attempts × 100, and at most 100 when correct ≤ attempts |
| ScoreModel.BlankCategories | src/lib/scoreManager.ts:54-67 | the blank category map has every category, each with zero counters |
| ScoreModel.Blank | src/lib/scoreManager.ts:69-78 | the blank statistics are all zero, complete and consistent |
| ScoreModel.Recorded | src/lib/scoreManager.ts:229-261 | the statistics after one attempt; what changes is stated by the three lemmas below |
| ScoreModel.RecordedMode | src/lib/scoreManager.ts:229-249 | an attempt adds one attempt and the earned points; a full score raises correct and the streak, any other ends the streak; the record streak is max(old record, new streak) |
| ScoreModel.RecordedCategories | src/lib/scoreManager.ts:251-259 | only the named category changes, in step with the mode record; with no category nothing changes; the key set is kept |
| ScoreModel.RecordedConsistent | src/lib/scoreManager.ts:241-259 | recording keeps correct ≤ attempts, streak ≤ record streak, and the presence of every category |
| ScoreModel.RecordedSequenceExample | src/lib/scoreManager.ts:232-249 | from blank, two full scores then a partial one give 3 attempts, 2 correct, 8 points, streak 0 and record 2 |
| ScoreModel.Serialize | src/lib/scoreManager.ts:198 | the stored object carries the mode record and the category map |
| ScoreModel.Merge | src/lib/scoreManager.ts:163-194 | nothing stored or unreadable gives blank; a stored mode record replaces the blank one wholesale; stored categories are laid over the blank map, so every category is present |
| ScoreModel.MergeSerialized | src/lib/scoreManager.ts:163-201 | loading what was saved gives back complete statistics unchanged |
| ScoreModel.MergeConsistent | src/lib/scoreManager.ts:173-184 | a load is consistent whenever the stored records are |
| ScoreModel.GreedyCounts | src/lib/scoreManager.ts:387-393 | one count per denomination: as many of each as fit into what the larger ones left |
| ScoreModel.Render | src/lib/scoreManager.ts:387-393 | each denomination's emoji repeated by its count, largest first |
| ScoreModel.StreakEmojis | src/lib/scoreManager.ts:373-396 | the rendering of the greedy counts of the streak over 50, 25, 10, 5 and 1 |
| ScoreModel.GreedyTotal | src/lib/scoreManager.ts:387-393 | with a last denomination of 1, the greedy counts add up to exactly the streak |
| ScoreModel.GreedyFits | src/lib/scoreManager.ts:387-393 | after the first denomination, what each one takes is worth less than one unit of the one before |
| ScoreModel.RenderGreedyStep | src/lib/scoreManager.ts:387-393 | rendering the greedy counts emits the first emoji as often as it fits, then renders the remainder |
| ScoreModel.StreakEmojisCounts | src/lib/scoreManager.ts:373-396 | the emoji values add up to the streak; there is at most one eagle, two swans, one duck and four ducklings; a zero streak shows nothing |
| ScoreModel.StreakEmojisExample | src/lib/scoreManager.ts:373-396 | a streak of 37 is an eagle, a swan and two ducklings |
| ScoreTracker.Storage.Read | src/lib/scoreManager.ts:165 | a read finds a value only when the storage works and the key is present |
| ScoreTracker.Storage.Written | src/lib/scoreManager.ts:198 | a write sets the key and keeps every other key only when the storage is reachable and has room; a refused write changes nothing |
| ScoreTracker.Storage.GetItem | src/lib/scoreManager.ts:165 | `getItem` throws exactly when the storage is unavailable, and otherwise returns what is stored |
| ScoreTracker.Storage.SetItem | src/lib/scoreManager.ts:198 | `setItem` throws exactly when the storage is unavailable or full (quota exceeded), and otherwise stores the value under the key |
| ScoreTracker.LoadScores | src/lib/scoreManager.ts:163-194 | loading is the merge of what the read yields, blank on a throwing read, and every category is present |
| ScoreTracker.ScoreManager.constructor | src/lib/scoreManager.ts:157-161 | the tracker uses the custom levels or the defaults, and starts from the loaded statistics |
| ScoreTracker.ScoreManager.SaveScores | src/lib/scoreManager.ts:196-202 | after a save, storage holds the serialised statistics whenever it accepts writes, and is untouched when it is unavailable or full |
| ScoreTracker.ScoreManager.GetStreak | src/lib/scoreManager.ts:208-211 | the streak is the mode's current streak, never above its record when consistent |
| ScoreTracker.ScoreManager.ResetStreak | src/lib/scoreManager.ts:213-217 | only the current streak drops to 0; the record streak and all else stay, and the result is written through whenever the storage accepts writes |
| ScoreTracker.ScoreManager.RecordScore | src/lib/scoreManager.ts:219-262 | the new statistics are the recorded value of the old, consistency is preserved, and the result is written through whenever the storage accepts writes |
| ScoreTracker.ScoreManager.GetOverallStats | src/lib/scoreManager.ts:264-327 | totals and streak are the mode record's; accuracy is as defined; the level is the highest one reached; the next level is the one after it, or none at the top |
| ScoreTracker.ScoreManager.GetModeStats | src/lib/scoreManager.ts:329-331 | the live mode record, with correct ≤ attempts and streak ≤ record when consistent |
| ScoreTracker.ScoreManager.GetAllModeStats | src/lib/scoreManager.ts:333-335 | the live statistics, with every category present; callable in any state, and equal to what a fresh load gives once they were saved to working storage |
| ScoreTracker.ScoreManager.GetCategoryStats | src/lib/scoreManager.ts:337-339 | the category records, with every category present |
| ScoreTracker.ScoreManager.ResetAllScores | src/lib/scoreManager.ts:368-371 | the statistics become blank (all zero, every category present) and are written through whenever the storage accepts writes |
| ScoreTracker.RecordOnFullStorage | src/lib/scoreManager.ts:196-202 | with reads working and writes refused, an attempt is kept in memory only: storage is unchanged, and a tracker rebuilt from it loads the statistics stored before |
| ScoreTracker.ScoreManager.FormatStreakEmojis | src/lib/scoreManager.ts:373-396 | the result is the greedy rendering of the streak, and empty for 0 |
| ScoreTracker.RenderGreedy | src/lib/scoreManager.ts:384-395 | the loop over the denominations produces the rendering of the greedy counts |
| ScoreTracker.ReopenRestoresScores | src/lib/scoreManager.ts:157-161 | a tracker rebuilt on working storage it has written to starts with the same statistics |
| ScoreAliasing.SpreadMerge | src/lib/scoreManager.ts:180-183 | the spread keeps stored references and hands out the blank object itself for a missing category |
| ScoreAliasing.RecordCategory | src/lib/scoreManager.ts:253-258 | the category update bumps attempts and points, and correct on a full score, in the shared record |
| ScoreAliasing.Snapshot | src/lib/scoreManager.ts:369 | a deep copy holds each record's value at that moment |
| ScoreAliasing.SharedBlankAfterReset | src/lib/scoreManager.ts:77 | as written, a reset after a load with a missing category and one attempt in it starts that category at 1 attempt |
| Grader.NormalizeErrorTypeShape | src/components/ErrorSpotterQuiz.tsx:173-176 | a normalised error type has no upper case, no outer white space and no white-space run |
| Grader.NormalizeErrorTypeFixed | src/components/ErrorSpotterQuiz.tsx:173-176 | a lower-case, trimmed, collapsed string is its own normal form |
| Grader.NormalizeErrorTypeIdempotent | src/components/ErrorSpotterQuiz.tsx:173-176 | normalising an error type twice equals normalising it once |
| Grader.NormalizeCorrectionShape | src/components/ErrorSpotterQuiz.tsx:220-223 | a normalised correction has no single quote, no outer white space and no white-space run |
| Grader.NormalizeCorrectionFixed | src/components/ErrorSpotterQuiz.tsx:220-223 | a trimmed, collapsed, quote-free string is its own normal form |
| Grader.NormalizeCorrectionIdempotent | src/components/ErrorSpotterQuiz.tsx:220-223 | normalising a correction twice equals normalising it once |
| Grader.NormalizeErrorType | src/components/ErrorSpotterQuiz.tsx:173-176 | the error-type normal form: lower-case, then trim, then collapse white-space runs; its shape, fixed points and idempotence are the three lemmas above |
| Grader.NormalizeCorrection | src/components/ErrorSpotterQuiz.tsx:220-223 | the correction normal form: collapse white-space runs, then trim, then single quotes to double; its shape, fixed points and idempotence are the three lemmas above |
| Grader.LineCorrect | src/components/ErrorSpotterQuiz.tsx:145-152 | the line part is right exactly when `parseInt` yields the answer's line number (so `NaN` never is) |
| Grader.ErrorTypeCorrect | src/components/ErrorSpotterQuiz.tsx:173-186 | the error-type part is right exactly when the normal form is the kind's keyword, or the keyword followed by " error" |
| Grader.CorrectionCorrect | src/components/ErrorSpotterQuiz.tsx:220-235 | the correction part is right exactly when some accepted correction has the same normal form, compared case-sensitively |
| Grader.Grade | src/components/ErrorSpotterQuiz.tsx:145-238 | the verdict on each of the three parts, judged independently of one another |
| Grader.Verdict.Score | src/components/ErrorSpotterQuiz.tsx:148-238 | the score is at most 3; it is 3 exactly when every part is right and 0 exactly when none is |
| Grader.LineNaNNeverMatches | src/components/ErrorSpotterQuiz.tsx:145-152 | an input that does not parse never matches the line |
| Grader.ErrorTypePaddedKeyword | src/components/ErrorSpotterQuiz.tsx:173-186 | the keyword with white space around it is accepted |
| Grader.NormalizePadded | src/components/ErrorSpotterQuiz.tsx:173-176 | a normalised word padded with white space normalises to the word |
| Grader.ErrorTypeCaseInsensitive | src/components/ErrorSpotterQuiz.tsx:173-174 | the error type is accepted or refused regardless of case |
| Grader.ErrorTypeNeedsText | src/components/ErrorSpotterQuiz.tsx:179-186 | an accepted error type is never blank, so an empty field never scores |
| Grader.ErrorTypeKindsExclusive | src/components/ErrorSpotterQuiz.tsx:179-186 | no input is accepted for both kinds |
| Grader.ErrorTypeUpperExample | src/components/ErrorSpotterQuiz.tsx:173-182 | "SYNTAX" is accepted for a syntax error |
| Grader.ErrorTypePaddedExample | src/components/ErrorSpotterQuiz.tsx:173-182 | " syntax " is accepted for a syntax error |
| Grader.ErrorTypeLongForm | src/components/ErrorSpotterQuiz.tsx:173-186 | the keyword, any white-space run, then "error" is accepted |
| Grader.NormalizeJoin | src/components/ErrorSpotterQuiz.tsx:173-176 | two normalised words joined by any white-space run normalise to the words joined by one space |
| Grader.ErrorTypeWrongKindExample | src/components/ErrorSpotterQuiz.tsx:179-182 | "logic" is refused for a syntax error |
| Grader.KeywordIsNormal | src/components/ErrorSpotterQuiz.tsx:173-186 | each keyword is its own normal form, so typing it is accepted |
| Grader.CorrectionNormalizedInput | src/components/ErrorSpotterQuiz.tsx:220-235 | normalising the learner's correction first changes no verdict |
| Grader.NormalizeCorrectionNonBlank | src/components/ErrorSpotterQuiz.tsx:220-223 | a non-blank correction does not normalise to the empty string |
| Grader.CollapseNonBlank | src/components/ErrorSpotterQuiz.tsx:221 | collapsing keeps a non-blank string non-blank |
| Grader.CorrectionQuotesIgnored | src/components/ErrorSpotterQuiz.tsx:220-231 | single and double quotes are interchangeable in a correction |
| Grader.CorrectionSpacingIgnored | src/components/ErrorSpotterQuiz.tsx:220-231 | the width of a white-space run does not matter in a correction |
| Grader.CorrectionCaseExample | src/components/ErrorSpotterQuiz.tsx:231 | the comparison is case-sensitive: "P" is refused where "p" is expected |
| Grader.CanonicalScoresThree | src/components/ErrorSpotterQuiz.tsx:145-238 | the line as a decimal, the kind's keyword and the first correction score 3 on a well-formed question |
| Grader.EmptyScoresZero | src/components/ErrorSpotterQuiz.tsx:145-238 | three empty fields score 0 on a well-formed question |
| Grader.ShownType | src/components/ErrorSpotterQuiz.tsx:206 | a wrong error type is shown as its normal form, or as "different type of" when that is empty |
| Grader.LineItem | src/components/ErrorSpotterQuiz.tsx:151-170 | the line feedback: the verdict, the expected line, and the parsed input only when wrong and neither `NaN` nor 0 |
| Grader.TypeItem | src/components/ErrorSpotterQuiz.tsx:188-217 | the type feedback: the verdict, the expected kind, and the shown type only when wrong and the field is not empty |
| Grader.CorrectionItem | src/components/ErrorSpotterQuiz.tsx:237-259 | the correction feedback: the verdict, the first accepted correction on a miss, and the explanation |
| Grader.GradedFeedback | src/components/ErrorSpotterQuiz.tsx:148-259 | the three feedback items, line first, then type, then correction |
| Grader.CheckLine | src/components/ErrorSpotterQuiz.tsx:145-170 | the line part is right exactly when the parsed input equals the answer; the feedback echoes the input only when it was wrong and neither `NaN` nor 0 |
| Grader.CheckErrorType | src/components/ErrorSpotterQuiz.tsx:172-217 | the error-type part is right exactly on the accepted spellings; a wrong non-empty input is named by its normal form, or "different type of" when that is empty; an empty field gets the prompt instead |
| Grader.MatchCorrection | src/components/ErrorSpotterQuiz.tsx:219-235 | the search with early exit finds a match exactly when some accepted correction has the same normal form |
| Grader.CheckCorrection | src/components/ErrorSpotterQuiz.tsx:219-259 | the correction part's verdict, the first accepted correction shown on a miss, and the explanation |
| Grader.CheckAnswer | src/components/ErrorSpotterQuiz.tsx:142-263 | the running score equals the number of right parts, and the feedback is the three items for the line, the type and the correction, each carrying the data it shows |
| Quiz.FindCategory | src/components/ErrorSpotterQuiz.tsx:266-268 | the lookup yields the first row with the tag, or nothing exactly when no row has it |
| Quiz.FindUnique | src/components/ErrorSpotterQuiz.tsx:266-268 | in a table with distinct tags, the lookup finds the row with the tag |
| Quiz.CategoriesTable | src/components/ErrorSpotterQuiz.tsx:28-61 | the table lists the twelve categories in order; each row's multiplier is the one its level is scored with |
| Quiz.DifficultyLevelOfTable | src/components/ErrorSpotterQuiz.tsx:266-269 | every category has a row, so the difficulty level is the table's (1 to 4) and never the fallback |
| Quiz.DifficultyLevel | src/components/ErrorSpotterQuiz.tsx:266-269 | the level of the category's row, or 1 when there is no row or its level is 0; the lemma above shows it is always the row's |
| Quiz.Filter | src/components/ErrorSpotterQuiz.tsx:103-105 | the filter keeps exactly the questions whose category is selected |
| Quiz.Pool | src/components/ErrorSpotterQuiz.tsx:103-109 | the pool of a non-empty bank is non-empty, and every question in it comes from the bank |
| Quiz.PoolShape | src/components/ErrorSpotterQuiz.tsx:103-109 | the pool is exactly the matching questions when any match, and the whole bank when none does |
| Quiz.FilterAll | src/components/ErrorSpotterQuiz.tsx:81-83 | with every category selected, as at the start, the pool is the whole bank |
| Quiz.AllSelected | src/components/ErrorSpotterQuiz.tsx:81-83 | the starting selection contains every category |
| Quiz.Toggled | src/components/ErrorSpotterQuiz.tsx:294-304 | toggling flips the chosen category and leaves every other one as it was |
| Quiz.ToggledTwice | src/components/ErrorSpotterQuiz.tsx:294-304 | toggling the same category twice gives back the selection |
| Quiz.FeedbackColorOf | src/components/ErrorSpotterQuiz.tsx:314-318 | green for a score of 3, yellow for 1 or 2, red otherwise |
| Quiz.FeedbackColorOfVerdict | src/components/ErrorSpotterQuiz.tsx:314-318 | the colour is green exactly for three right parts, red exactly for none, and yellow for one or two |
| Quiz.ReportFor | src/components/ErrorSpotterQuiz.tsx:265-276 | the report of a graded submission: the points of its score at its category's level, and the category |
| Quiz.ReportBounds | src/components/ErrorSpotterQuiz.tsx:265-276 | a report never credits more than possible and credits all of it exactly for a full score; possible is 3 to 6 by level |
| Quiz.QuizRound.constructor | src/components/ErrorSpotterQuiz.tsx:73-83 | the screen starts with every category selected and the drawn question from the whole bank; the three inputs are empty, the score is 0, there is no feedback and no report |
| Quiz.QuizRound.GenerateQuestion | src/components/ErrorSpotterQuiz.tsx:101-120 | the question is drawn from the pool, and the inputs, the feedback and the score are cleared |
| Quiz.QuizRound.ToggleCategory | src/components/ErrorSpotterQuiz.tsx:294-304 | the selection is toggled and the drawn question of the new pool is shown, with the inputs, the feedback and the score cleared; no report is sent |
| Quiz.QuizRound.SetLineNumber | src/components/ErrorSpotterQuiz.tsx:450-452 | typing changes the line number only while no feedback is shown |
| Quiz.QuizRound.SetErrorType | src/components/ErrorSpotterQuiz.tsx:467-469 | typing changes the error type only while no feedback is shown |
| Quiz.QuizRound.SetCorrection | src/components/ErrorSpotterQuiz.tsx:485-487 | typing changes the correction only while no feedback is shown |
| Quiz.QuizRound.CheckAnswer | src/components/ErrorSpotterQuiz.tsx:142-277 | the score and the feedback are the grade of the inputs on screen; feedback is shown; exactly one report is sent, with the points for that score at the question's level |
| Quiz.QuizRound.PressEnter | src/components/ErrorSpotterQuiz.tsx:280-291 | with feedback shown, Enter draws the next question and clears the inputs, feedback and score; otherwise, with all fields filled, it grades and reports once; otherwise nothing changes |
| Quiz.QuizRound.ClickSubmit | src/components/ErrorSpotterQuiz.tsx:493-500 | without feedback and with all fields filled, Submit grades and reports once; otherwise nothing changes |
| Quiz.QuizRound.ClickNext | src/components/ErrorSpotterQuiz.tsx:501-507 | with feedback shown, Next draws the next question and clears the inputs, feedback and score, sending no report; otherwise nothing changes |
| Quiz.SubmitTwiceReportsOnce | src/components/ErrorSpotterQuiz.tsx:275-276 | submitting, submitting again and pressing Enter reports the question exactly once |
| Quiz.ResubmitReportsNothing | src/components/ErrorSpotterQuiz.tsx:280-291 | with feedback shown, Submit and Enter send no further report |

## Findings

| source | as written | input that shows it | evidently intended | confidence | as-written member | corrected member |
|---|---|---|---|---|---|---|
| src/lib/scoreManager.ts:77 | `blankScoreData.categoryStats` is a shallow spread of `blankCategoryStats`. The load merge at lines 180-183 puts those same record objects into the live state for any category the stored map lacks, and `recordScore` (lines 253-258) updates them in place. | Stored data whose category map lacks `operators`, then one full-score attempt in `operators`, then `resetAllScores`: the reset state has `operators` at 1 attempt, 1 correct, 3 points. | A reset (and a blank load) always gives all-zero records for every category. | medium, not executed | ScoreAliasing.SharedBlankAfterReset | ScoreTracker.ScoreManager.ResetAllScores |

The rest of the model uses value semantics: `ScoreModel.Merge` copies records
and `ScoreModel.Blank` is a value. So `ResetAllScores` yields all-zero
statistics whatever came before.

## Left out

- The three input fields, the buttons and the feedback panel are modelled only
  as the state they change. The JSX text, styling, focus handling and timers
  are not modelled.
- `Math.random` is not modelled. The choice of a question is an index
  parameter into the pool.
- `JSON.parse` and `JSON.stringify` are not modelled. Storage holds already
  parsed `Blob` values, and `Unreadable` stands for the empty string, `null`
  and text that does not parse.
- `console.warn` is not modelled.
- The progress percentage of `getOverallStats` (lines 303-315 of
  src/lib/scoreManager.ts) is left out. It is floating-point, and it divides by
  zero when the next level asks for 0 points or 0% accuracy.
- ScoreModel.Accuracy: accuracy is an exact rational. The program compares
  floating-point values, whose rounding is not modelled.
- JsText.Lower: only ASCII letters are lowered. `toLowerCase` also lowers
  other scripts. This does not change which inputs match "syntax",
  "syntax error", "logic" or "logic error".
- ScoreModel.Merge: a stored mode record is taken wholesale. When it lacks a
  field (such as `points`) the program later computes `NaN`, which the model
  does not represent.
- Stored category keys outside the twelve categories cannot be represented,
  because the category map is keyed by `Category`.
- `getScoresByType` is not modelled. It is unused by the interface, and it also
  iterates over the `categoryStats` key as if that were a mode.
- `setCurrentMode` and the optional `mode` arguments are not modelled. There
  is one mode, "Error Spotter", so they never select anything else.
- The unreachable re-initialisation at the start of `recordScore` (the scores
  are never unset) is not modelled.
- ScoreTracker.ScoreManager.constructor: it requires custom levels, when
  given, to be non-empty. With an empty custom table the program would read
  `levels[0]` as undefined.
- `getOverallStats` finds the next level by `indexOf` on the level object. The
  model uses the index found by the scan. The two differ only if the table
  holds the same object twice.
- Quiz.QuizRound.CheckAnswer: it requires a question on screen. The program's
  early return for a missing question cannot occur once the constructor has
  drawn the first question.
- The "Loading question..." screen before the first question is not modelled.
- The feedback texts of the three parts are represented by the data they
  show, not by their wording.
- The receiver of `onScoreUpdate` is not part of this model. Reports are
  appended to a log, and `ScoreTracker.ScoreManager.RecordScore` models what
  the receiver does with them.
- `ErrorSpotterQuiz`'s `checkAnswer` is split into `Grader.CheckLine`,
  `Grader.CheckErrorType`, `Grader.MatchCorrection`, `Grader.CheckCorrection`
  and `Grader.CheckAnswer`. Together they perform the same steps in the same
  order.
- The question bank is represented by five of its entries, copied field for
  field. The other entries are not part of this model.
- `old_QuizComponent.tsx` is not modelled. It is dead code that imports
  exports which no longer exist.
- The test files are not modelled. They target an earlier API.
- `sort_questions_v2.py` is not modelled. It is a file-rewriting script.
- `detectCurrentSite` in `navigationConfig.ts` is not modelled. It reads
  `window.location`.
- The presentation components are not modelled. They contain no grading or
  tracking logic.
