# QuizGenie quiz core, modelled in Dafny

QuizGenie is a browser study tool. It sends document text to a language model, which writes multiple-choice questions. The user then takes the quiz, optionally against a per-question countdown, and the result is scored and kept in a local history of at most twenty entries. This project models the parts of the repository that hold its own logic:

- **the quiz-taking state machine** (`QuizSession`): the current index, one answer slot per question, the countdown as an explicit clock event, the button gating, submission and the capped history (`HistoryStore`);
- **scoring** (`Scoring`);
- **the results screen** (`Results`): the pass verdict, the incorrect set, the review filter and "retake incorrect";
- **the explanation markup rewrite** (`Markup`);
- **the history screen** (`HistoryView`): review, full retake, pass badge and retake gating;
- **the input side**: the setup form (`QuizSetup`), the review step (`ReviewStep`) and the configure step (`ConfigureStep`), together with the generation request and response schemas and the server action around them (`GenerateQuiz`), and JavaScript's `parseInt` (`JsNumbers`).

Everything is a pure function over immutable datatypes:

- Each user action returns a value describing the new shared context, the notice it shows and the page it opens.
- Browser storage appears only as the values read and written.
- The language model is an oracle: its reply (`GenerateQuiz.Reply`) is an input.
- The submission time is an input.

Files: `wrappers.dfy`, `quiz_types.dfy`, `js_numbers.dfy`, `generate_quiz.dfy`, `scoring.dfy`, `history_store.dfy`, `quiz_session.dfy`, `markup.dfy`, `results.dfy`, `history_view.dfy`, `quiz_setup.dfy`, `review_step.dfy`, `configure_step.dfy`, and `js_strings.dfy` for JavaScript string lengths.

Behaviours of the code worth knowing, modelled as written:

- No timed-challenge countdown or auto-submit exists: the tick only runs in per-question mode.
- A missing stored history is read as empty. A corrupt one is not treated as absent.
- An empty quiz is not rejected when the draft is built. The quiz screen cannot render its first question (`StartOutcome.EmptyQuiz`).
- The correct index is not bounded by the options.
- The setup form's default values do not pass its own schema (see Findings).
- Text lengths are JavaScript lengths, in UTF-16 code units: a character outside the Basic Multilingual Plane counts twice toward the 100-character minimum and the 50-unit topic.

## Model

| member | source | states |
|---|---|---|
| `QuizSession.Resync` | src/components/quiz/QuizClient.tsx:45-47 | the answers get one slot per question; they are kept unchanged when the length already matches, otherwise every slot is unanswered |
| `QuizSession.Start` | src/components/quiz/QuizClient.tsx:28-52 | no draft means redirect; an empty quiz cannot be shown; otherwise the session is valid, at index 0, with nothing answered and the draft unchanged; the countdown is the configured timer (per-question mode, or a non-zero timer) |
| `QuizSession.Select` | src/components/quiz/QuizClient.tsx:98-103 | write-once: an answered question is left as it is; otherwise only the current slot takes the choice; every other slot, the index and the clock are unchanged; afterwards the question counts as answered |
| `QuizSession.Next` | src/components/quiz/QuizClient.tsx:60-69 | moves forward only below the last index, keeps the index in range, resets the countdown only in per-question mode, never touches the answers |
| `QuizSession.Previous` | src/components/quiz/QuizClient.tsx:71-80 | moves back only above index 0, with the same countdown rule; recorded answers stay |
| `QuizSession.Tick` | src/components/quiz/QuizClient.tsx:82-96 | does nothing unless in per-question mode with the current question unanswered; above 1 it decrements; at 1 or below it advances (or stays at the last question) and restarts from the configured timer |
| `QuizSession.Step` | src/components/quiz/QuizClient.tsx:267-297 | a click on a disabled Previous/Next does nothing; every event keeps the invariant and never alters a recorded answer |
| `QuizSession.GatingMatchesSteps` | src/components/quiz/QuizClient.tsx:268-293 | an enabled Previous or Next moves the index by one and a disabled one leaves it; an answered question enables exactly one of Next and Submit, an unanswered one neither |
| `QuizSession.Run` | src/components/quiz/QuizClient.tsx:60-103 | any sequence of events keeps the index in range and the answers as long as the quiz |
| `QuizSession.RunKeepsAnswers` | src/components/quiz/QuizClient.tsx:98-103 | no sequence of events changes an answer once recorded |
| `QuizSession.RunWithoutTimerAnswersBehind` | src/components/quiz/QuizClient.tsx:268-297 | without the per-question timer, every question behind the current one is answered, because Next needs an answer |
| `QuizSession.SubmitWithoutTimerIsComplete` | src/components/quiz/QuizClient.tsx:271-297 | without the per-question timer, whenever Submit is enabled every question is answered |
| `QuizSession.TicksCountDown` | src/components/quiz/QuizClient.tsx:85-92 | while the question is unanswered, n ticks with n below the countdown lower it by exactly n |
| `QuizSession.TimeoutAdvances` | src/components/quiz/QuizClient.tsx:82-96 | an unanswered question is skipped after as many ticks as its countdown shows: the next question, a fresh countdown, the skipped slot still unanswered |
| `QuizSession.Topic` | src/components/quiz/QuizClient.tsx:134 | the longest prefix of the text that fits in 50 UTF-16 code units, followed by "..."; for text inside the Basic Multilingual Plane, the first min(50, length) characters |
| `QuizSession.BuildResult` | src/components/quiz/QuizClient.tsx:126-153 | the result keeps the quiz and answers; its score is the match count (0..length); accuracy times length is 100 times the score, within [0, 100]; it holds the topic, the given time and the draft's configuration |
| `QuizSession.Submit` | src/components/quiz/QuizClient.tsx:155-161 | the result becomes the current result, the draft is untouched, the history becomes the result followed by the old history's prefix, of length min(old+1, 20); then the results page opens |
| `Scoring.CountCorrect` | src/components/quiz/QuizClient.tsx:126-131 | the count of correct answers among the first n is at most n |
| `Scoring.Score` | src/components/quiz/QuizClient.tsx:126-131 | the score never exceeds the number of questions |
| `Scoring.ScoreCountsMatches` | src/components/quiz/QuizClient.tsx:127-130 | the score is the size of the set of positions whose answer equals the correct index; an unanswered slot never matches |
| `Scoring.UnansweredScoresZero` | src/components/quiz/QuizClient.tsx:31-33 | a quiz with every slot unanswered scores 0 |
| `Scoring.Accuracy` | src/components/quiz/QuizClient.tsx:133 | accuracy times the total is 100 times the score, and lies in [0, 100] when score ≤ total |
| `Scoring.PassIffProduct` | src/components/quiz/ResultsClient.tsx:67 | any accuracy with accuracy · total = 100 · score is a pass exactly when 5·score > 3·total |
| `Scoring.PassIffMoreThanThreeFifths` | src/components/quiz/ResultsClient.tsx:67 | a pass (accuracy > 60, strictly) holds exactly when 5·score > 3·total |
| `HistoryStore.Load` | src/components/quiz/HistoryClient.tsx:27-32 | nothing stored reads as the empty history; a stored list is read as it is |
| `HistoryStore.Push` | src/components/quiz/QuizClient.tsx:157-159 | the new result is element 0; the length is min(old+1, 20); the tail is the old history's prefix in order |
| `HistoryStore.PushAllKeepsNewest` | src/components/quiz/QuizClient.tsx:157-159 | after recording results in order, the history is the most recent ones newest-first, cut at 20, with no deduplication |
| `HistoryStore.HistoryOfFreshStart` | src/components/quiz/QuizClient.tsx:157-159 | from an empty history, N submissions leave the last min(N, 20) results, newest first |
| `Markup.FindClose` | src/components/quiz/ResultsClient.tsx:71 | the lazy `(.*?)\*\*` closes at the first `**` with no line terminator before it, and fails when every `**` lies past a line terminator |
| `Markup.Embolden` | src/components/quiz/ResultsClient.tsx:71 | the global replace never shortens the text: each rewritten pair replaces its four asterisks with the seventeen characters of the tags, 13 more, so the output is at least as long as the input, longer by a multiple of 13, and the input itself when the length is unchanged |
| `Markup.CreateMarkup` | src/components/quiz/ResultsClient.tsx:69-72 | empty text gives empty markup |
| `Markup.NoMarkersUnchanged` | src/components/quiz/ResultsClient.tsx:69-72 | text with no `**` is returned unchanged |
| `Markup.PairIsBolded` | src/components/quiz/ResultsClient.tsx:71 | a leading `**x**`, with x the shortest run free of line terminators, becomes `<strong>x</strong>`, and the scan resumes after it |
| `Markup.UnmatchedIsCopied` | src/components/quiz/ResultsClient.tsx:71 | where the text does not start with `**`, or no `**` after it is reachable without crossing a line terminator, the first character is copied and the scan moves on one character |
| `Markup.UnpairedStaysLiteral` | src/components/quiz/ResultsClient.tsx:71 | an unpaired `**` followed by marker-free text on one line is left as it is |
| `Results.IncorrectUpTo` | src/components/quiz/ResultsClient.tsx:42-44 | the incorrect questions among the first n number n minus the correct count |
| `Results.IncorrectQuestions` | src/components/quiz/ResultsClient.tsx:42-44 | the incorrect set has length minus score elements |
| `Results.IncorrectMatchesFilter` | src/components/quiz/ResultsClient.tsx:42-44 | the incorrect set is, position by position, the questions whose answer is not the correct index (unanswered included), in quiz order |
| `Results.ShownUpTo` | src/components/quiz/ResultsClient.tsx:137-142 | the rendered positions are increasing, in range, and include a position exactly when the filter accepts its correctness |
| `Results.Visible` | src/components/quiz/ResultsClient.tsx:137-142 | the review list for a result: 'correct' keeps exactly the matching questions, 'incorrect' exactly the rest, 'all' everything, in order |
| `Results.ShowAllIsEverything` | src/components/quiz/ResultsClient.tsx:137-142 | the 'all' filter lists every position in order |
| `Results.ShownCounts` | src/components/quiz/ResultsClient.tsx:137-142 | the 'correct' filter shows as many questions as were correct, and 'incorrect' shows the rest |
| `Results.FilterPartitions` | src/components/quiz/ResultsClient.tsx:131-142 | 'all' shows everything; 'correct' shows score-many; 'correct' and 'incorrect' together cover the quiz and are disjoint |
| `Results.IncorrectCount` | src/components/quiz/ResultsClient.tsx:75 | for a result scored by the quiz screen, length − score is the size of the incorrect set |
| `Results.IsSuccessIffProduct` | src/components/quiz/ResultsClient.tsx:67 | for a result whose accuracy is its score as a percentage of its length, the verdict is success exactly when 5·score > 3·length |
| `Results.RetakeIncorrect` | src/components/quiz/ResultsClient.tsx:36-61 | refused with a notice when the result or its configuration is missing; "nothing to retake" when nothing was wrong; otherwise, whatever draft the context held, the draft becomes exactly the incorrect set with its count as the question count and the other settings copied, with no notice, and the quiz page opens |
| `Results.RetakeButtonMatchesAction` | src/components/quiz/ResultsClient.tsx:83 | for a scored result and any context, the button (`RetakeIncorrectEnabled`) is enabled exactly when pressing it opens the quiz |
| `Results.PerfectScoreNothingToRetake` | src/components/quiz/ResultsClient.tsx:46-49 | a perfect score gives "nothing to retake" and no draft |
| `Results.ThreeQuestionExample` | src/components/quiz/ResultsClient.tsx:42-67 | keys 1, 0, 2 answered 1, 0, 0 give score 2, a pass, and only the third question to retake |
| `HistoryView.Review` | src/components/quiz/HistoryClient.tsx:34-37 | the entry, unchanged, becomes the current result; the draft is untouched; the results page opens |
| `HistoryView.Retake` | src/components/quiz/HistoryClient.tsx:39-52 | an entry without configuration is refused and nothing changes; otherwise the draft is the full original quiz, the configuration copied unchanged, and the text `Retake of quiz on "<topic>"` |
| `HistoryView.PassBadge` | src/components/quiz/HistoryClient.tsx:88 | the history badge shows a pass exactly when the results screen gives the entry a success verdict |
| `HistoryView.RetakeButtonMatchesAction` | src/components/quiz/HistoryClient.tsx:97 | the Retake button (`RetakeDisabled`) is enabled exactly when retaking opens the quiz |
| `QuizSetup.OptionsChoice` | src/components/quiz/QuizSetup.tsx:38 | only the strings "4" and "5" are accepted, each becoming the number it spells |
| `QuizSetup.TimerChoice` | src/components/quiz/QuizSetup.tsx:39 | only "15", "30", "45" and "60" are accepted, each becoming the number it spells |
| `QuizSetup.Validate` | src/components/quiz/QuizSetup.tsx:35-40 | accepted exactly when the text has ≥ 100 UTF-16 code units, 1 ≤ count ≤ 20, and options and timer are among their strings; every failing field is reported; accepted values map the strings to the numbers they spell |
| `QuizSetup.DefaultsRejectedAsWritten` | src/components/quiz/QuizSetup.tsx:55-60 | the default values as written fail the options and timer rules whatever text is entered; with text long enough for the text rule those two fields are the only failures |
| `QuizSetup.IntendedDefaultsValid` | src/components/quiz/QuizSetup.tsx:55-60 | with string defaults only the text rule fails, and long enough text yields 5, 4 and 30 |
| `QuizSetup.StartsWith` | src/components/quiz/QuizSetup.tsx:67 | the prefix test holds exactly when the string is the prefix followed by something |
| `QuizSetup.AcceptsFile` | src/components/quiz/QuizSetup.tsx:67 | a type is accepted exactly when it is "application/pdf" or "image/" followed by anything |
| `QuizSetup.HandleFileChange` | src/components/quiz/QuizSetup.tsx:63-86 | no file does nothing; extraction starts exactly for "application/pdf" or a type beginning "image/"; any other type only gets a notice |
| `QuizSetup.Request` | src/components/quiz/QuizSetup.tsx:94 | the request carries the text, the count and the options as numbers, and no explanations, type, difficulty or keywords |
| `QuizSetup.RequestAccepted` | src/components/quiz/QuizSetup.tsx:92-94 | values the form accepts always pass the generation input schema |
| `QuizSetup.OnSubmit` | src/components/quiz/QuizSetup.tsx:92-111 | stored exactly when generation succeeds: the generated quiz plus the validated values and no other setting, and the quiz page opens; otherwise the fixed failure message and nothing stored |
| `ReviewStep.OnMount` | src/components/quiz/ReviewStep.tsx:22-30 | no stored text (or empty text) redirects to the start; otherwise the stored text is edited |
| `ReviewStep.HandleNext` | src/components/quiz/ReviewStep.tsx:32-43 | below 100 UTF-16 code units: a notice only; at 100 or more (the setup form's own rule), the text is stored verbatim and the configure step opens |
| `ReviewStep.AstralTextCountsTwice` | src/components/quiz/ReviewStep.tsx:33 | sixty emoji (120 code units) pass the length check while sixty plain letters do not |
| `ConfigureStep.Validate` | src/components/quiz/ConfigureStep.tsx:40-44 | accepted exactly when the timer is one of the four choices; any count string passes; the checkbox defaults to unchecked |
| `ConfigureStep.DefaultsValid` | src/components/quiz/ConfigureStep.tsx:64-68 | the defaults "5", "30" and unchecked are accepted, and "5" is an offered count |
| `ConfigureStep.CountOptionsSpellValues` | src/components/quiz/ConfigureStep.tsx:38 | each offered count is the decimal spelling of 5, 10, …, 500 |
| `ConfigureStep.CountOptionParses` | src/components/quiz/ConfigureStep.tsx:85 | each offered count parses to the number it spells |
| `ConfigureStep.CountOptionsInRange` | src/components/quiz/ConfigureStep.tsx:38 | every offered count parses to a number in [5, 500], inside the generation schema's [1, 500] |
| `ConfigureStep.TimerChoicesParse` | src/components/quiz/ConfigureStep.tsx:87 | every timer choice parses to 15, 30, 45 or 60, the number it spells |
| `ConfigureStep.Request` | src/components/quiz/ConfigureStep.tsx:90-95 | the request carries the document text, the parsed count, four options and the checkbox, and no type, difficulty or keywords |
| `ConfigureStep.OfferedCountAccepted` | src/components/quiz/ConfigureStep.tsx:84-95 | a count chosen from the select always passes the generation schema |
| `ConfigureStep.OnSubmit` | src/components/quiz/ConfigureStep.tsx:71-113 | without text: no request, back to the start; stored exactly when generation succeeds, with the quiz, the text, the parsed count, 4 options and the parsed timer, and no mode, timing, difficulty, type or keywords, and the quiz page opens |
| `GenerateQuiz.BoundedNumber` | src/ai/flows/generate-quiz.ts:15-16 | an absent number takes the default; NaN and values outside the bounds are refused; an accepted value is kept |
| `GenerateQuiz.ParseQuestionType` | src/ai/flows/generate-quiz.ts:18 | absent means "any"; a given value is accepted exactly when it is any/facts/concepts/cause_effect, and becomes the type it names |
| `GenerateQuiz.ParseDifficulty` | src/ai/flows/generate-quiz.ts:19 | absent means "medium"; a given value is accepted exactly when it is easy/medium/hard, and becomes the difficulty it names |
| `GenerateQuiz.EnumNamesRoundTrip` | src/ai/flows/generate-quiz.ts:18-19 | every question type and difficulty, written as its enum string, parses back to itself |
| `GenerateQuiz.ParseInput` | src/ai/flows/generate-quiz.ts:13-21 | accepted exactly when no field fails; every failing field is reported; the count lies in [1, 500] (default 10) and the options in [4, 5] (default 4); a given type or difficulty comes through as the variant it names (defaults "any" and "medium"); explanations default to off; keywords pass through with no default |
| `GenerateQuiz.DefaultsApplied` | src/ai/flows/generate-quiz.ts:15-20 | a request with only the text gets 10, 4, false, "any", "medium" and no keywords |
| `GenerateQuiz.KeyNotBoundedByOptions` | src/ai/flows/generate-quiz.ts:28-29 | the output schema accepts a question whose correct index is past its options |
| `GenerateQuiz.OutputSchemaExamples` | src/ai/flows/generate-quiz.ts:24-33 | the output schema (`ValidOutput`) accepts an empty quiz and a question with no options, and refuses a negative correct index |
| `GenerateQuiz.Generate` | src/lib/actions.ts:5-13 | succeeds exactly when the request passes the schema and the model replies with a schema-valid quiz, returned unchanged; any other case gives the one fixed failure message |
| `JsNumbers.TrimStart` | src/components/quiz/ConfigureStep.tsx:85 | `parseInt`'s white-space skip: drops exactly a leading run of white space |
| `JsNumbers.DigitPrefix` | src/components/quiz/ConfigureStep.tsx:85 | `parseInt`'s digit run: the longest prefix of decimal digits |
| `JsNumbers.WhiteSpaceSkipped` | src/components/quiz/ConfigureStep.tsx:85 | `parseInt` ignores leading white space: it reads the same number with or without it |
| `JsNumbers.NoDigitsIsNaN` | src/components/quiz/ConfigureStep.tsx:85-87 | text containing no digit parses to NaN |
| `JsNumbers.Decimal` | src/components/quiz/ConfigureStep.tsx:38 | the decimal spelling is non-empty digits with no leading zero |
| `JsNumbers.DecimalValue` | src/components/quiz/ConfigureStep.tsx:85 | the value of the decimal spelling of n is n |
| `JsNumbers.DecimalRoundTrip` | src/components/quiz/ConfigureStep.tsx:85 | `parseInt` of the spelling of n, followed by anything not starting with a digit, is n |
| `JsNumbers.NegativeRoundTrip` | src/components/quiz/ConfigureStep.tsx:85 | a leading minus sign negates the parsed value |
| `JsStrings.Utf16Length` | src/components/quiz/ReviewStep.tsx:33 | a JavaScript length lies between the character count and twice it: equal to it inside the Basic Multilingual Plane, twice it outside |
| `JsStrings.Utf16Prefix` | src/components/quiz/QuizClient.tsx:134 | `substring(0, n)` on whole characters: the longest prefix of at most n code units; the first n characters for text inside the Basic Multilingual Plane |

## Left out

- Browser storage, JSON encoding, router navigation, toasts, alerts, scrolling and timers are left out as I/O. Storage appears only as the values read or written. A navigation is a `Route` value and a toast is a `Notice` value. The one-second interval is the `ClockTick` event. The submission time is a parameter.
- Reading a corrupt history blob throws. It is not modelled, so there is no "corrupt means absent" fallback.
- The language-model calls are left out as remote calls: the prompt and flow bodies, text extraction and explanation simplification. Generation is an oracle reply checked against the output schema.
- The stored draft is never read back. The quiz screen reads its draft from the shared context, not from session storage, so no store/load round trip is modelled.
- Floating-point rounding of accuracy and its `toFixed(0)` display are left out. Accuracy is an exact real, 100·score/length.
- Non-integer JavaScript numbers are left out. The schemas accept, for example, a count of 2.5 or a correct index of 1.5. The model's numbers are integers or NaN.
- `Number(...)` in the setup schema's transforms is modelled only on the listed enum strings, where it agrees with `parseInt`.
- The simulated OCR is left out. After an accepted file, the setup form fills in a fixed sample text after two seconds. The model stops at "extraction starts" and does not reproduce the sample text.
- The upload step's identical file-type check (src/components/quiz/UploadStep.tsx:30) is the same predicate as `QuizSetup.AcceptsFile`.
- The copy of the markup rewrite in the quiz screen (src/components/quiz/QuizClient.tsx:164-168) is identical to `Markup.CreateMarkup`.
- Rendering is left out: which options are highlighted, the explanation panel, the progress bar, the confetti.
- Swapping the draft in the context while the quiz screen stays mounted is left out. That effect re-syncs the answers (`QuizSession.Resync`) but keeps the index.
- `Markup.UnpairedStaysLiteral`: this is stated only for an unpaired `**` whose text does not begin with `*`. The general rule is `Markup.UnmatchedIsCopied`.
- `QuizSession.Topic`: where the 50th UTF-16 code unit is the first half of a surrogate pair, JavaScript keeps that lone half. A Dafny `char` cannot hold a lone surrogate, so the model's topic stops before the pair.
- `JsNumbers.ParseInt`: it has no contract of its own. Its behaviour is stated by `WhiteSpaceSkipped`, `NoDigitsIsNaN`, `DecimalRoundTrip` and `NegativeRoundTrip`; signs other than a single leading one are not characterised.
- `QuizSession.Start`: the fallback countdown of 30 applies only when the timer is 0. JavaScript also treats NaN as missing, and the model has no NaN timer.

## Findings

| source | as written | input that shows it | evidently intended | confidence | as-written member | corrected member |
|---|---|---|---|---|---|---|
| src/components/quiz/QuizSetup.tsx:55-60 | the default values give `optionsPerQuestion: 4` and `timer: 30` as numbers, but the schema's fields at lines 38-39 are string enums, which refuse a non-string | an untouched form with 100+ characters of text: the options and timer fields fail validation; the radio groups show "4" and "30" selected (their `defaultValue` is `String(field.value)`) but do not change the field | the defaults "4" and "30" as strings, so the untouched form is valid once the text is long enough, as in the configure step's string defaults | medium; not executed | `QuizSetup.DefaultsRejectedAsWritten` | `QuizSetup.IntendedDefaultsValid` |
