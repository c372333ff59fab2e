# QuizeMaster quiz logic in Dafny

This project models the logic of the QuizeMaster quiz app, a React/TypeScript
web app in which teachers write quizzes and students take them. The model
covers five pieces of the app and proves properties about each:

- **The quiz editor** (`Creator`, with the import parser in `BulkImport`,
  `BulkInvariants` and `BulkFormat`).
  - The author edits a draft question and adds it to the quiz's list, or
    removes questions from the list.
  - Pasted text in the line format can be imported in bulk: `Q:`/`Question:`,
    `A)`–`D)`, `Answer:`/`Correct:`, `Points:` and `Type:` lines.
  - The quiz is saved only when its details and at least one question are
    present.
- **A quiz attempt** (`Taking`).
  - The student moves between questions and answers them while a one-second
    timer counts down. The timer display reads `m:ss`.
  - Submitting scores each answer with a case-insensitive comparison and
    reports the score.
- **The results page** (`Review`): the score bands, the correct-answer count,
  and one card per question showing its verdict, its option highlights and
  marks, and the answer given.
- **The student dashboard** (`Dashboard`).
  - Loaded rows are converted into quizzes, and quizzes are split into
    available and completed ones by the results already saved.
  - The dashboard finds a quiz's result, colours difficulties and enables the
    start button.
  - A saved attempt is appended to the results.
- **The record types** (`QuizTypes`): `Question`, `Quiz` and `QuizResult`.
  `Text` models the JavaScript string functions these pieces use: `trim`,
  `startsWith`, `includes`, `toLowerCase`, `split`, `padStart` and
  `parseInt`. `Wrappers` holds `Option` and `Result`.

The model follows the code's own form:

- Pure computations are functions.
- The import loop and the scoring loop are methods with loops, each proved
  equal to a specification function.
- The editor, the attempt and the dashboard are classes. Their methods update
  the fields the component's state setters update.

Clock readings (`Date.now()`) are parameters. So are the outcomes of database
calls and the signed-in user's e-mail.

Behaviour of the code worth knowing:

- Import directive keywords are matched case-sensitively (`q:` is not a
  header).
- Imported questions keep their options whatever their kind, so a true/false
  question keeps `Some([])`. The editor drops options for those kinds.
- Points may be negative (`Points: -5` is kept), and `points || 10` turns 0
  into 10.
- Scoring also requires the answer to be non-empty.
- The results page compares a present answer even when it is empty. On a
  question whose correct answer is empty it therefore counts a question the
  scorer does not (`Review.ReviewAgreesWithScoring`).
- A negative time limit is accepted by the time-limit input
  (`parseInt(v) || 30`). The timer then starts negative. After one tick the
  time left is never negative.

## Model

| member | source | states |
|---|---|---|
| QuizTypes.PointsOrDefault | src/components/QuizCreator.tsx:59 | `points \|\| 10`: never 0; a non-zero value is kept, negatives included; missing or 0 gives 10 |
| QuizTypes.KindFromTag | src/types/quiz.ts:4 | a kind read from a tag has that tag |
| QuizTypes.KindTagRoundTrip | src/types/quiz.ts:4 | every question kind is read back from its own tag, so the three tags are distinct |
| Text.Trim | src/components/QuizCreator.tsx:83 | the result has no white space at either end, a trimmed string is unchanged, and the result is empty exactly for blank text |
| Text.TrimIsSlice | src/components/QuizCreator.tsx:83 | `trim()` returns a slice of the input with only white space cut off before and after it; as the slice is itself trimmed, exactly the surrounding white space is removed |
| Text.TrimStart | src/components/QuizCreator.tsx:112 | the result is a suffix of the input, and only white space was removed |
| Text.TrimEnd | src/components/QuizCreator.tsx:89 | the result is a prefix of the input, and only white space was removed |
| Text.StartsWithMeaning | src/components/QuizCreator.tsx:97 | `startsWith(p)` holds exactly when the first `\|p\|` characters are `p` |
| Text.PrefixMismatch | src/components/QuizCreator.tsx:116 | a line differing from a directive at some position does not start with it |
| Text.PrefixAt | src/components/QuizCreator.tsx:120 | a line starting with a directive agrees with it position by position |
| Text.ContainsMeaning | src/components/QuizCreator.tsx:130 | `includes(sub)` holds exactly when `sub` occurs at some index |
| Text.Lower | src/components/QuizCreator.tsx:129 | same length, each character lower-cased |
| Text.LowerNoUpper | src/components/QuizCreator.tsx:129 | lower-casing text without capitals changes nothing |
| Text.NotContainsChar | src/components/QuizCreator.tsx:130 | text lacking a character of `sub` does not include `sub` |
| Text.Split | src/components/QuizCreator.tsx:89 | `split` yields at least one part and no part holds the separator |
| Text.JoinSplit | src/components/QuizCreator.tsx:89 | joining the parts of a split with the separator gives back the text |
| Text.SplitJoin | src/components/QuizCreator.tsx:89 | splitting separator-free parts joined by the separator gives back the parts |
| Text.SplitNoSeparator | src/components/QuizCreator.tsx:89 | text without the separator splits into itself alone |
| Text.SplitAtSeparator | src/components/QuizCreator.tsx:89 | splitting at the first separator peels off the part before it |
| Text.DecimalRoundTrip | src/components/QuizCreator.tsx:101 | the decimal digits of `n` read back as `n` |
| Text.DecimalInjective | src/components/QuizCreator.tsx:101 | different numbers have different decimal renderings |
| Text.PadStart2 | src/components/QuizTaking.tsx:47 | `padStart(2, '0')`: length at least 2, the input as suffix, zeros in front |
| Text.ParseIntRoundTrip | src/components/QuizCreator.tsx:125 | `parseInt` of an integer's decimal text, sign included, gives the integer |
| Text.ParseInt | src/components/QuizCreator.tsx:125 | `parseInt` without a radix, `None` for `NaN`; `ParseIntRoundTrip` and `MagnitudeOfDecimal` state what it reads |
| Text.MagnitudeOfDecimal | src/components/QuizCreator.tsx:125 | an all-digit string is read in base 10 as its numeral value |
| BulkImport.BulkIdInjective | src/components/QuizCreator.tsx:101 | within one import, `bulk_<stamp>_<n>` ids at different positions differ |
| BulkImport.BulkId | src/components/QuizCreator.tsx:101 | the `bulk_<stamp>_<position>` id; `BulkIdInjective` states that positions give distinct ids |
| BulkImport.Commit | src/components/QuizCreator.tsx:100-107 | a committed question has the given id, the draft's text and answer (both non-empty), points `points \|\| 10`, the draft's kind or multiple-choice when it has none, and the draft's options whatever its kind |
| BulkImport.Flush | src/components/QuizCreator.tsx:141-150 | the committed list is kept as a prefix; one question is added exactly when the pending draft has truthy text and answer, and it is that draft committed under the next position's id |
| BulkImport.ClassifyType | src/components/QuizCreator.tsx:129-136 | true/false exactly when "true" or "false" occurs; short-answer exactly when neither occurs and "short" or "text" does; multiple-choice otherwise |
| BulkImport.Step | src/components/QuizCreator.tsx:94-137 | only a header line commits, and it commits what `Flush` commits; any other line leaves the committed list as it was |
| BulkImport.UnrecognisedLineIgnored | src/components/QuizCreator.tsx:97-137 | a line matching no directive leaves the parser state unchanged |
| BulkImport.UnparsablePointsIgnored | src/components/QuizCreator.tsx:123-126 | a `Points:` line whose value is NaN leaves the state unchanged |
| BulkImport.HeaderIsCaseSensitive | src/components/QuizCreator.tsx:97 | a line starting `q:` is not a header |
| BulkImport.IsHeader | src/components/QuizCreator.tsx:97 | the header test; `HeaderIsCaseSensitive` and `BulkFormat.StepHeaderLine` state its behaviour |
| BulkImport.HeaderText | src/components/QuizCreator.tsx:112 | the header with its prefix and the white space after it removed; `BulkFormat.StepHeaderLine` states what it yields |
| BulkImport.IsOptionLine | src/components/QuizCreator.tsx:116 | the option-line test; `BulkFormat.StepOptionLine` states its behaviour |
| BulkImport.AnswerText | src/components/QuizCreator.tsx:120-122 | the answer with its prefix and the white space after it removed; `AnswerLineShape` and `BulkFormat.StepAnswerLine` state what it yields |
| BulkImport.AnswerLineShape | src/components/QuizCreator.tsx:97-120 | an `Answer:`/`Correct:` line is never taken for a header or an option |
| BulkImport.LastAnswerWins | src/components/QuizCreator.tsx:120-122 | of two answer lines the later one sets the answer, and neither commits |
| BulkImport.RunFromCons | src/components/QuizCreator.tsx:94-95 | reading lines is reading the first line and then the rest |
| BulkImport.ParseQuestions | src/components/QuizCreator.tsx:90-150 | the parsing loop returns exactly what the line-by-line specification yields |
| BulkImport.NonBlank | src/components/QuizCreator.tsx:89 | every kept line is one of the input lines and is not blank |
| BulkImport.SourceLines | src/components/QuizCreator.tsx:89 | every line handed to the parser is non-blank and holds no line break |
| BulkImport.ParseLines | src/components/QuizCreator.tsx:89-152 | the questions an import yields: every line run from the empty state, then the final commit; `ParseQuestions` is proved equal to it and the `BulkInvariants` lemmas state its properties |
| BulkImport.ParseBulk | src/components/QuizCreator.tsx:82-158 | refused as empty input exactly when the text is blank; otherwise refused as having no valid questions exactly when parsing the non-blank lines yields nothing; a success holds exactly the parsed questions |
| BulkImport.Import | src/components/QuizCreator.tsx:82-155 | the handler's checks and loop produce exactly `ParseBulk` |
| BulkInvariants.StepPreservesInvariant | src/components/QuizCreator.tsx:94-137 | one line keeps the parser invariant: committed questions well formed and numbered by position |
| BulkInvariants.RunPreservesInvariant | src/components/QuizCreator.tsx:94-138 | any number of lines keeps the invariant |
| BulkInvariants.ParsedQuestionsWellFormed | src/components/QuizCreator.tsx:99-107 | every imported question has text, an answer, non-zero points, an option list, and the id of its position |
| BulkInvariants.ParsedIdsDistinct | src/components/QuizCreator.tsx:101 | the questions of one import have pairwise different ids |
| BulkInvariants.StepPendingBound | src/components/QuizCreator.tsx:97-115 | only a header line can add a pending question, and it adds at most one |
| BulkInvariants.RunPendingBound | src/components/QuizCreator.tsx:94-138 | committed plus pending questions never exceed the header lines read |
| BulkInvariants.ParsedCountBound | src/components/QuizCreator.tsx:97-150 | an import yields at most one question per header line |
| BulkFormat.StepHeaderLine | src/components/QuizCreator.tsx:97-115 | a `Q:` line commits the pending question if complete and starts a fresh multiple-choice draft with 10 points and no options |
| BulkFormat.StepOptionLine | src/components/QuizCreator.tsx:116-119 | an option line appends its text after the earlier options |
| BulkFormat.StepAnswerLine | src/components/QuizCreator.tsx:120-122 | an `Answer:` line overwrites the answer |
| BulkFormat.StepPointsLine | src/components/QuizCreator.tsx:123-126 | a `Points:` line with a number overwrites the points |
| BulkFormat.StepTypeLine | src/components/QuizCreator.tsx:127-136 | a `Type:` line sets the kind its lower-cased text names |
| BulkFormat.ClassifyTag | src/components/QuizCreator.tsx:129-136 | each kind's own tag is classified as that kind |
| BulkFormat.RunOptions | src/components/QuizCreator.tsx:116-119 | a run of option lines appends all their texts, in order |
| BulkFormat.RunBlock | src/components/QuizCreator.tsx:94-137 | reading one question's block commits what was pending and leaves that question pending |
| BulkFormat.FlushDraftOf | src/components/QuizCreator.tsx:141-150 | committing a question's draft at its position gives back the question |
| BulkFormat.RoundTripFrom | src/components/QuizCreator.tsx:94-150 | reading the blocks of numbered questions appends exactly those questions |
| BulkFormat.ParseRenderLines | src/components/QuizCreator.tsx:89-150 | importing the lines written for a list of questions gives back that list, in order |
| BulkFormat.TrailingHeaderDropped | src/components/QuizCreator.tsx:97-150 | a trailing header without an answer is dropped, and the question before it is still committed |
| Creator.NewQuestion | src/components/QuizCreator.tsx:53-60 | the added question has the given id, the draft's kind, text and answer, points `points \|\| 10`, the draft's options when multiple-choice and none otherwise |
| Creator.NewQuestionAgreesWithImport | src/components/QuizCreator.tsx:53-107 | editor and importer build the same question from a multiple-choice draft and differ only in the options otherwise |
| Creator.FilledCount | src/components/QuizCreator.tsx:188 | counts at most all options, and is 0 exactly when every option is blank |
| Creator.NonBlankCount | src/components/QuizCreator.tsx:188 | the guard's filter keeps exactly the non-blank options |
| Creator.CanAddQuestionYields | src/components/QuizCreator.tsx:186-188 | when the button lets a multiple-choice draft through, the added question keeps at least two non-blank options |
| Creator.CanAddQuestion | src/components/QuizCreator.tsx:186-188 | the add button's guard; `CanAddQuestionYields` states what it guarantees |
| Creator.ReadyToSave | src/components/QuizCreator.tsx:167 | the save guard; `QuizCreator.Save` refuses exactly when it fails |
| Creator.RemoveAt | src/components/QuizCreator.tsx:72-74 | the filter drops exactly the element at the index and keeps the order of the rest; an out-of-range index removes nothing |
| Creator.RemoveAtElements | src/components/QuizCreator.tsx:72-74 | one element fewer; elements before the index stay in place, those after shift down by one |
| Creator.WithOption | src/components/QuizCreator.tsx:76-80 | only slot `index` changes, to `value`; four blank slots stand in for missing options |
| Creator.NumberOr | src/components/QuizCreator.tsx:272 | `parseInt(v) \|\| fallback`: a parsed non-zero number, else the fallback |
| Creator.NumberOrRoundTrip | src/components/QuizCreator.tsx:330 | a non-zero number typed in is read as itself |
| Creator.QuizCreator.constructor | src/components/QuizCreator.tsx:21-34 | empty details, difficulty Easy, 30 minutes, no questions, the initial draft, an empty import box |
| Creator.QuizCreator.AddQuestion | src/components/QuizCreator.tsx:50-70 | without text or answer nothing changes; otherwise the new question is appended and the draft reset |
| Creator.QuizCreator.RemoveQuestion | src/components/QuizCreator.tsx:72-74 | the list loses the element at the index; nothing else changes |
| Creator.QuizCreator.OptionChange | src/components/QuizCreator.tsx:76-80 | one option slot of the draft changes; nothing else does |
| Creator.QuizCreator.SelectKind | src/components/QuizCreator.tsx:305-311 | sets the kind, gives multiple-choice four blank options and other kinds none, and clears the answer |
| Creator.QuizCreator.EditText | src/components/QuizCreator.tsx:342 | sets the draft's text only |
| Creator.QuizCreator.EditAnswer | src/components/QuizCreator.tsx:369-400 | sets the draft's answer only |
| Creator.QuizCreator.EditDetails | src/components/QuizCreator.tsx:222-255 | sets title, description, category and difficulty only |
| Creator.QuizCreator.EditBulkText | src/components/QuizCreator.tsx:423 | sets the import text only |
| Creator.QuizCreator.EditPoints | src/components/QuizCreator.tsx:330 | sets the draft's points to `parseInt(v) \|\| 10`, never 0 |
| Creator.QuizCreator.EditTimeLimit | src/components/QuizCreator.tsx:272 | sets the time limit to `parseInt(v) \|\| 30`, never 0 |
| Creator.QuizCreator.ImportBulk | src/components/QuizCreator.tsx:82-164 | a refused import changes nothing; a successful one appends its questions after the existing ones and clears the box |
| Creator.QuizCreator.Save | src/components/QuizCreator.tsx:166-184 | refused exactly when a detail is empty or there is no question; otherwise the quiz carries every field |
| Taking.CorrectOnes | src/components/QuizTaking.tsx:70-75 | every kept question is answered correctly, and every correctly answered question is kept; `CorrectOnesCounts` fixes how often each is kept |
| Taking.CorrectOnesCounts | src/components/QuizTaking.tsx:70-75 | each correctly answered question is kept exactly as often as it occurs in the quiz, and nothing else is kept |
| Taking.TotalPointsAppend | src/components/QuizTaking.tsx:68 | the total grows by the points of an added question |
| Taking.IsCorrect | src/components/QuizTaking.tsx:72 | the scorer's test: a truthy answer equal to the correct one after lower-casing; `Review.ReviewAgreesWithScoring` compares it with the results page |
| Taking.TotalPoints | src/components/QuizTaking.tsx:67 | the sum of the points, folded from the left; `TotalPointsAppend` and `ScoreBounds` state its properties |
| Taking.Score | src/components/QuizTaking.tsx:66-75 | the score the loop accumulates; `ScoreIsPointsOfCorrect`, `ScoreBounds` and `FullScore` state what it means |
| Taking.ScoreIsPointsOfCorrect | src/components/QuizTaking.tsx:70-75 | the score is the total points of the correctly answered questions |
| Taking.ScoreBounds | src/components/QuizTaking.tsx:67-75 | with no negative points, `0 <= score <= totalPoints` |
| Taking.FullScore | src/components/QuizTaking.tsx:67-75 | with positive points, full marks exactly when every question is correct |
| Taking.NoAnswersNoScore | src/components/QuizTaking.tsx:70-75 | with no answers the score is 0 |
| Taking.AnsweredCount | src/components/QuizTaking.tsx:90-94 | at most the number of questions, and equal to it exactly when all are answered |
| Taking.IsAnswered | src/components/QuizTaking.tsx:90-92 | `isAnswered`: an answer is recorded and is not empty; `AnsweredCount` and `CorrectAreAnswered` state its properties |
| Taking.CorrectAreAnswered | src/components/QuizTaking.tsx:72-94 | correct answers never outnumber answered questions |
| Taking.JsRem | src/components/QuizTaking.tsx:46 | JavaScript `%`: the sign follows the dividend, and it equals Euclidean `%` for non-negative numbers |
| Taking.JsRemOdd | src/components/QuizTaking.tsx:46 | negating the dividend negates the remainder; with `JsRem`'s non-negative case this gives JavaScript's value for every dividend (for example `-61 % 60 == -1`) |
| Taking.NoColonInDecimal | src/components/QuizTaking.tsx:47 | a number's digits hold no colon |
| Taking.SecondsField | src/components/QuizTaking.tsx:46-47 | the padded seconds field is two characters and reads back as the seconds |
| Taking.ClockFields | src/components/QuizTaking.tsx:44-48 | the display splits at its single colon into minutes and padded seconds |
| Taking.FormatTimeFields | src/components/QuizTaking.tsx:44-48 | for `s >= 0` the display has one colon and a two-digit seconds field reading `s % 60` |
| Taking.FormatTime | src/components/QuizTaking.tsx:43-47 | the `m:ss` display; `FormatTimeFields` and `FormatTimeRoundTrip` state its shape and that it reads back |
| Taking.FormatTimeRoundTrip | src/components/QuizTaking.tsx:44-48 | for `s >= 0`, minutes times 60 plus seconds read from the display give `s` |
| Taking.Countdown | src/components/QuizTaking.tsx:32-38 | from `t >= 0`, `n` ticks leave `t - n`, or 0 once it is reached |
| Taking.TickValue | src/components/QuizTaking.tsx:33-37 | the timer's updater: 0 at or below one second, one less otherwise; `Countdown` and `QuizSession.Tick` state its properties |
| Taking.SubmitsAfterLimit | src/components/QuizTaking.tsx:32-38 | from `t >= 1` seconds, tick number `n + 1` submits exactly when it is tick `t` or later |
| Taking.StudentName | src/components/QuizTaking.tsx:80 | the e-mail if non-empty, otherwise a non-empty placeholder |
| Taking.QuizSession.constructor | src/components/QuizTaking.tsx:20-23 | first question, no answers, `timeLimit * 60` seconds, not started |
| Taking.QuizSession.Start | src/components/QuizTaking.tsx:139 | starts the attempt and changes nothing else |
| Taking.QuizSession.AnswerChange | src/components/QuizTaking.tsx:50-52 | sets the shown question's answer, keeps every other entry, the index and the timer |
| Taking.QuizSession.Next | src/components/QuizTaking.tsx:54-58 | moves on unless at the last question; the index stays valid |
| Taking.QuizSession.Previous | src/components/QuizTaking.tsx:60-64 | moves back unless at the first question |
| Taking.QuizSession.Tick | src/components/QuizTaking.tsx:32-38 | submits exactly when at most one second is left; time left becomes 0 or one less, is never negative, and never grows from a non-negative value |
| Taking.QuizSession.Submit | src/components/QuizTaking.tsx:66-88 | the result carries the score of the answers, the total points, the student name, the answers and the clock reading |
| Review.ScoreBands | src/components/ResultsView.tsx:17-27 | green at 80 or more, yellow from 60 to 79, red below 60; the badge names the same band |
| Review.ScoreColor | src/components/ResultsView.tsx:17-21 | `getScoreColor`; `ScoreBands` and `ScoreColorMonotone` state its bands |
| Review.ScoreBadge | src/components/ResultsView.tsx:23-27 | `getScoreBadge`; `ScoreBands` states that its badge names the same band as the colour |
| Review.ScoreColorMonotone | src/components/ResultsView.tsx:17-21 | a higher percentage never lands in a lower band |
| Review.ReviewAgreesWithScoring | src/components/ResultsView.tsx:109 | the page and the scorer agree except on an empty answer to an empty correct answer |
| Review.ReviewCorrect | src/components/ResultsView.tsx:76 | the page's per-question judgement; `ReviewAgreesWithScoring` compares it with the scorer's |
| Review.CorrectCount | src/components/ResultsView.tsx:75-77 | at most the number of questions |
| Review.CorrectCountMatchesScoring | src/components/ResultsView.tsx:75-77 | with no empty correct answer, the count is the number of questions the score was earned on |
| Review.OptionMarks | src/components/ResultsView.tsx:139-153 | no option carries both marks; green exactly when checked; red exactly when picked, judged wrong and not the correct one |
| Review.ViewOption | src/components/ResultsView.tsx:138-153 | one option's highlight and marks; `OptionMarks` states how they relate |
| Review.CrossOnCorrectQuestion | src/components/ResultsView.tsx:139-153 | a picked option equal to the correct answer only up to letter case makes the question correct, yet the option is crossed, unchecked and grey |
| Review.ShownAnswer | src/components/ResultsView.tsx:164 | the answer given, or "No answer provided" when it is missing or empty |
| Review.AnswerTone | src/components/ResultsView.tsx:163 | grey exactly without an answer; green exactly for a correct given answer |
| Review.ReviewCard | src/components/ResultsView.tsx:107-170 | the verdict is the page's judgement; for a multiple-choice question with options, one view per option in order, each highlighted and marked as `ViewOption` says; the answer slot shows the answer or the placeholder, in the tone `AnswerTone` gives |
| Review.ReviewCards | src/components/ResultsView.tsx:107 | one card per question, in order |
| Review.BadgesMatchCount | src/components/ResultsView.tsx:75-128 | the "Correct" badges are as many as the correct-answer figure |
| Dashboard.FromQuestionRow | src/components/StudentDashboard.tsx:52-59 | every field of a question row is carried over |
| Dashboard.FromRow | src/components/StudentDashboard.tsx:45-61 | fields carried over; a null description becomes `''`, missing questions `[]`, and questions are converted in order |
| Dashboard.CompletedIds | src/components/StudentDashboard.tsx:165 | exactly the quiz ids of the results |
| Dashboard.Available | src/components/StudentDashboard.tsx:166 | only loaded quizzes without a result |
| Dashboard.Completed | src/components/StudentDashboard.tsx:167 | only loaded quizzes with a result |
| Dashboard.SplitInterleaves | src/components/StudentDashboard.tsx:165-167 | every quiz lands in exactly one list, and both keep the loaded order |
| Dashboard.CompletedMembership | src/components/StudentDashboard.tsx:165-167 | a quiz is completed exactly when some result names it, and available exactly when none does |
| Dashboard.FirstFor | src/components/StudentDashboard.tsx:179 | the first position whose result names the quiz, or the end |
| Dashboard.FindResult | src/components/StudentDashboard.tsx:178-180 | none exactly when no result names the quiz; otherwise the first that does |
| Dashboard.CompletedHasResult | src/components/StudentDashboard.tsx:167-180 | every completed quiz has a result to show |
| Dashboard.FindAfterAppend | src/components/StudentDashboard.tsx:133-180 | appending a result changes the one found only for a quiz that had none |
| Dashboard.FirstForAppend | src/components/StudentDashboard.tsx:133-179 | appending keeps an existing first match |
| Dashboard.DifficultyColorsDistinct | src/components/StudentDashboard.tsx:169-176 | the three difficulties get three different styles, none the grey default given to any other text |
| Dashboard.DifficultyColor | src/components/StudentDashboard.tsx:169-176 | the difficulty's style; `DifficultyColorsDistinct` states that the three difficulties and the default get different styles |
| Dashboard.StartButton | src/components/StudentDashboard.tsx:328-335 | disabled exactly for a quiz without questions, with the caption to match |
| Dashboard.StudentDashboard.constructor | src/components/StudentDashboard.tsx:17-22 | no quizzes, no results, the list view, nothing selected |
| Dashboard.StudentDashboard.LoadQuizzes | src/components/StudentDashboard.tsx:39-63 | an error keeps the list; otherwise the list is the converted rows, or empty without data |
| Dashboard.StudentDashboard.StartQuiz | src/components/StudentDashboard.tsx:102-105 | selects the quiz and opens the attempt |
| Dashboard.StudentDashboard.QuizComplete | src/components/StudentDashboard.tsx:107-141 | without a user or on an error nothing changes; a save appends exactly the result at the end and shows it |
| Dashboard.StudentDashboard.BackToList | src/components/StudentDashboard.tsx:143-146 | back to the list with nothing selected |
| Dashboard.SavedQuizCompleted | src/components/StudentDashboard.tsx:133-167 | after a save the attempted quiz is listed as completed and not as available |

## Left out

- Rendering, styling beyond the colour and badge mappings, and toast messages are left out. Each guard returns a success or failure value instead.
- The Supabase queries and insert, and the `useAuth` hook, are left out. The model takes the query's rows, an error flag and the save outcome as parameters, and the student's e-mail as an `Option`.
- `fetchResults` (src/components/StudentDashboard.tsx:72-100) is not modelled. Besides the query it replaces the whole result list, sets each student name to `user.email || 'Student'` and wraps `completed_at` in a `Date`; the model's results are only ever appended by `QuizComplete`.
- The landing, auth, admin and navigation pages, `src/pages/Index.tsx`, and the generated database types are not part of this model. They hold no quiz logic.
- Interval scheduling is not modelled; each `Tick` call is one second.
  - The interval's callback calls the `handleSubmit` of the render that started the timer, with the answers of that moment; the model does not capture this stale closure.
  - `handleSubmit` has no already-submitted guard, and every tick at 0 submits again. `Tick` only reports that a submit fires.
- Taking.QuizSession.Valid: keeps the index valid but not `timeRemaining >= 0`. A negative time limit makes the timer start negative; `Tick` proves it is never negative afterwards.
- JavaScript numbers are doubles; the model uses exact integers. `parseInt` of a numeral beyond 2^53 rounds in the source and is exact here, and point sums and scores cannot overflow or round here.
- Floating-point percentages are left out: the progress bar, `Math.round` of the score percentage and the dashboard's average score. The band functions take an integer percentage.
- `Date.now()` and `new Date()` are parameters.
  - The importer reads the clock once per commit; the model takes one reading per import. Equal ids within one import are still excluded, by position.
  - Timestamps are integers.
- Text.Lower: lower-cases ASCII letters only, while `toLowerCase` covers all of Unicode.
- The `try`/`catch` around the import loop is not modelled: no modelled operation throws.
- Taking.FormatTimeRoundTrip: holds for non-negative seconds only. A negative count (possible only before the first tick) gives a display such as `-1:-30` that does not read back.
- The available/completed split and the result lookup are proved on their own; the page's rendering of the two lists is left out.
- The sample text beside the import box (src/components/QuizCreator.tsx:190-206) is not checked line by line. Its format is covered in general by `BulkFormat.ParseRenderLines`.
