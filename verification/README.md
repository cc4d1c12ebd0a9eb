# QuizApp quiz engine, modelled in Dafny

QuizApp is a browser quiz: a settings form collects a topic, a question count,
a difficulty and a Groq API key, a chat-completion model writes the questions,
and the quiz page walks the player through them one at a time, scores each
answer and ends on a results card with a percentage. This project models the
logic inside those React components and proves what it promises:

- `Generator` (`fetchAIQuestions`, Quiz.jsx): how a non-ok response becomes an
  error message, and how the JSON array is cut out of the model's free text
  with the greedy pattern `/\[[\s\S]*\]/`. The scan (first `[` to last `]`)
  is proved equal to the pattern's leftmost-longest match semantics. The HTTP
  exchange is the value `Response`, and `JSON.parse` is a function parameter
  that either yields questions or fails.
- `Session` (the `Quiz` component): the class `QuizSession` with the
  component's state, its reset effect, the settling of the generation call,
  `handleAnswer` (`Answer`), the body of the 3-second timer (`Advance`) and
  the choice of screen (`View`). A ghost log of accepted answers ties the
  score to the answers that matched (`score == CorrectCount(...)`). The object
  invariant also keeps the index inside the question list and allows
  `finished` only on the last question.
- `QuestionCard` (the `Question` component): the class `AnswerCard` with the
  once-only click guard and the reset on a new question, and the pure button
  classifier with counting lemmas over the rendered options. The reset effect
  depends on the question text alone. So when two consecutive questions have
  identical text, the card stays answered (see `ReceiveProps`).
- `SettingsForm` (`QuizSettings`): ECMAScript's `trim`, the start button's
  enable condition, `handleTopicClick`, `startQuiz` with the key written to
  the `groq_api_key` entry of an abstract store, and the option sets.
- `ResultView` (`Results`): the percentage in exact integer arithmetic, as
  round-half-up of 100·score/total.

Each timer body is a method or a returned value that the caller invokes or
delivers. `AnswerCard.Click` returns the option that `onAnswer` will receive.
`QuizSettingsForm.StartQuiz` returns the settings that `onStart` will receive.
`QuizSession.Advance` is the body of the advance timer.

Three facts about the code shape the model:
- The code does not turn an empty question list into a finish. The quiz
  screen indexes the list and faults, so `View` requires a non-empty list
  once loading, error and finish are ruled out.
- The two parse failures (no bracketed span, `JSON.parse` throwing) share one
  message, "Failed to parse Groq AI response JSON.".
- `Quiz` does not limit answers to one per question. That guard belongs to
  the answer card (`AnswerCard.Click`). So the session invariant bounds the
  score by the number of accepted answers, not by the index.

## Model

| member | source | states |
|---|---|---|
| `Generator.MatchArray` | src/components/Quiz.jsx:47 | a match exists iff some `[` stands before some `]`; the match starts with `[` and ends with `]` |
| `Generator.MatchArrayIsLeftmostLongest` | src/components/Quiz.jsx:47 | no match iff no substring matches the pattern; otherwise the result is the leftmost, then longest, matching substring (first `[` to last `]`) |
| `Generator.FetchQuestions` | src/components/Quiz.jsx:34-53 | a non-ok response fails with its non-empty `error` field, else with "Failed to fetch questions from Groq AI."; an ok response yields questions exactly when a span is found and parses (and then yields the parse of that span); otherwise it fails with "Failed to parse Groq AI response JSON."; every failure message is non-empty |
| `Generator.UnbracketedContentFails` | src/components/Quiz.jsx:48-52 | content without a `[` before a `]` fails with the parse message, whatever the parser does |
| `Session.LoadErrorText` | src/components/Quiz.jsx:82 | the stored error is never empty: it is the error's own message when that is non-empty, and "Failed to load questions." when it is empty |
| `Session.FetchFailureTextShownVerbatim` | src/components/Quiz.jsx:82 | every generation failure is shown with its own message; the "Failed to load questions." fallback never applies |
| `Session.CorrectCount` | src/components/Quiz.jsx:90-93 | the number of answers that matched never exceeds the number of answers, and equals it only when every answer matched |
| `Session.BackgroundClass` | src/components/Quiz.jsx:111-115 | the panel is green exactly after a correct answer, red exactly after a wrong one, grey otherwise |
| `Session.QuizSession.constructor` | src/components/Quiz.jsx:57-63 | mount state: no questions, loading, no error, index 0, score 0, not finished, no feedback |
| `Session.QuizSession.Start` | src/components/Quiz.jsx:68-76 | the reset: loading, error "", not finished, score 0, index 0, feedback cleared; the question list is kept until the call settles |
| `Session.QuizSession.Resolve` | src/components/Quiz.jsx:76-84 | loading ends; success stores the questions with no error; failure keeps the questions and stores a non-empty error text; index, score and finish stay reset |
| `Session.QuizSession.Answer` | src/components/Quiz.jsx:87-99 | once finished nothing changes; otherwise the score rises by exactly one iff the option equals the current question's `correct_answer`, and the feedback is Correct or Wrong to match; index, questions and finish are unchanged; the invariant is kept |
| `Session.QuizSession.Advance` | src/components/Quiz.jsx:100-108 | feedback cleared; on the last question the session finishes with the index unchanged, otherwise the index moves up by one; the score is unchanged; the invariant (index within the list, score equal to the matched answers) is kept |
| `Session.QuizSession.View` | src/components/Quiz.jsx:132-178 | spinner iff loading, error panel iff an error, results `(score, questions.length)` iff finished, otherwise question number `currentIdx + 1` of the total, showing `questions[currentIdx]`, with the feedback colour |
| `QuestionCard.ButtonClass` | src/components/Question.jsx:35-46 | before an answer every option is neutral; after it the correct answer is highlighted whether chosen or not, a selected wrong option is marked wrong, every other option is greyed |
| `QuestionCard.StyleCount` | src/components/Question.jsx:81-88 | counts the rendered buttons of one style, never more than the options |
| `QuestionCard.UnansweredAllNeutral` | src/components/Question.jsx:36-38 | before an answer all buttons of the card are neutral |
| `QuestionCard.AnsweredStyleCounts` | src/components/Question.jsx:39-45 | after an answer over distinct options, exactly one button is highlighted when the correct answer is listed (none otherwise), and one is marked wrong exactly when the selection is a listed wrong option |
| `QuestionCard.AnswerCard.constructor` | src/components/Question.jsx:12-14 | mount: nothing selected, not answered, no correctness, no `onAnswer` scheduled |
| `QuestionCard.AnswerCard.ReceiveProps` | src/components/Question.jsx:16-20 | new props are taken; when the question text changes, the selection, `answered` and `isCorrect` are reset; when it is the same text, they are kept |
| `QuestionCard.AnswerCard.Click` | src/components/Question.jsx:22-33 | a click after answering changes nothing and schedules nothing; the first click records the option, sets `answered` and `isCorrect == (option == correctAnswer)`, and schedules `onAnswer(option)`, the only one for this question |
| `SettingsForm.TrimStart` | src/components/QuizSetting.jsx:46 | removes exactly the leading JavaScript whitespace: a suffix, all removed characters whitespace, the first kept one not |
| `SettingsForm.TrimEnd` | src/components/QuizSetting.jsx:46 | removes exactly the trailing JavaScript whitespace: a prefix, all removed characters whitespace, the last kept one not |
| `SettingsForm.TrimmedSlice` | src/components/QuizSetting.jsx:46 | cutting a whitespace prefix and then a whitespace suffix leaves a slice of the input, empty exactly when the input is all whitespace |
| `SettingsForm.Trim` | src/components/QuizSetting.jsx:46 | the result is empty iff the topic is all whitespace; a non-empty result neither starts nor ends with whitespace |
| `SettingsForm.TrimIsSlice` | src/components/QuizSetting.jsx:46 | for every input, the trimmed text is the input with a whitespace-only prefix and a whitespace-only suffix removed |
| `SettingsForm.TrimIdempotent` | src/components/QuizSetting.jsx:49 | the trimmed topic that is sent on is already trimmed |
| `SettingsForm.StartEnabled` | src/components/QuizSetting.jsx:164 | the button is enabled iff the topic and the key are non-empty and no start is in progress |
| `SettingsForm.BlankTopicPassesButton` | src/components/QuizSetting.jsx:164 | every non-empty whitespace-only topic enables the button (given a key and no start in progress) yet trims to empty, so `startQuiz` starts nothing |
| `SettingsForm.SpaceIsBlankTopic` | src/components/QuizSetting.jsx:46 | such topics exist: a single space is non-empty and trims to empty |
| `SettingsForm.AcceptedTopicEnablesButton` | src/components/QuizSetting.jsx:164 | every topic that survives trimming enables the button, given a key and no start in progress |
| `SettingsForm.SuggestionsStartAsShown` | src/components/QuizSetting.jsx:21-33 | every suggested topic is non-empty and unchanged by trimming |
| `SettingsForm.InitialChoices` | src/components/QuizSetting.jsx:9-17 | the difficulty starts at "easy", the first of easy/medium/hard; the count starts at 5, which is not among 10/15/20/30 |
| `SettingsForm.QuizSettingsForm.constructor` | src/components/QuizSetting.jsx:14-18 | initial form: empty topic and key, count 5, difficulty "easy", not loading |
| `SettingsForm.QuizSettingsForm.SelectTopic` | src/components/QuizSetting.jsx:40-42 | clicking a suggestion sets the topic to exactly that string and changes nothing else |
| `SettingsForm.QuizSettingsForm.StartQuiz` | src/components/QuizSetting.jsx:44-52 | the key is written to `groq_api_key` even for a blank topic; settings are emitted iff the trimmed topic is non-empty, carrying the trimmed topic and the count, difficulty and key unchanged, with `loading` set; otherwise `loading` is unchanged |
| `ResultView.ScoreOperand` | src/components/Result.jsx:26-28 | a missing score counts as 0 |
| `ResultView.TotalOperand` | src/components/Result.jsx:26-28 | the divisor is at least 1: a missing or zero total counts as 1 |
| `ResultView.Percent` | src/components/Result.jsx:28 | the result p satisfies p − ½ ≤ 100·score/total < p + ½: the nearest integer, halves rounded up |
| `ResultView.PercentMonotone` | src/components/Result.jsx:28 | the percentage never decreases as the score grows |
| `ResultView.PercentEnds` | src/components/Result.jsx:28 | score 0 gives 0%; a full score gives 100% |
| `ResultView.PercentRange` | src/components/Result.jsx:28 | for 0 ≤ score ≤ total the percentage lies in [0, 100] |
| `ResultView.ZeroTotalCountsAsOne` | src/components/Result.jsx:28 | a zero total behaves as a total of 1 and as a missing total: the percentage is 100·score |
| `ResultView.DefaultPropsShowZero` | src/components/Result.jsx:26-28 | with the default props the card shows 0% |
| `ResultView.TwoOfThree` | src/components/Result.jsx:28 | 2 right out of 3 shows as 67% |

## Left out

- The HTTP request is not modelled: the prompt text, URL, headers, model id, `max_tokens`, `temperature` and `response.json()` (Quiz.jsx:10-32, 43). The response is the value `Response`.
- `JSON.parse` is a parameter of `FetchQuestions` that yields questions or fails. Its parsing and the shape of the parsed elements are not modelled, because the code validates neither.
- `Generator.FetchQuestions`: the `error` field of a failed response is modelled as a string. A non-string field (an object, say) would be converted to text by `new Error`, and that is not modelled.
- A success body without `choices`, `choices[0]` or `message` throws a TypeError at Quiz.jsx:44, outside the `try`; that failure is not modelled. A missing or non-string `content` gets past line 44 and makes `content.match` throw inside the `try`, which fails with the parse message, the same outcome as `Ok("")`.
- `fetch` itself rejecting (a network or CORS failure, with a message the browser supplies) is a failure `Response` cannot express, and is not modelled.
- The diagnostic `console.error` of the raw content (Quiz.jsx:51) is output only.
- Timers and delays (1 s, 1.5 s, 3 s) are not modelled. Each delayed body is a method or a returned value, and callers order them.
- `Session.QuizSession.Advance` reads the current index. The real timer reads the index captured when `handleAnswer` ran. The two agree because the answer card admits one click per question, and each card click leads to one `handleAnswer` and one advance.
- `Answer`, `Advance` and `Resolve` are not guarded by session identity. In a production build each `Quiz` instance starts once, because the app unmounts it on restart.
- Session.QuizSession.Resolve: requires `loading`, so it models only the first settle of a start. In a development build, src/main.jsx:11 renders the app under `StrictMode`, which runs the `[settings]` effect (Quiz.jsx:68-85) twice and issues two calls; the second call settling, possibly after answers were given, is not modelled.
- Speech synthesis and the voice toggle (Quiz.jsx:117-130, 164) are a browser API.
- Reading `user` from local storage and parsing it (QuizSetting.jsx:35-38) is storage I/O with no schema. Only the key write is modelled, as an update of the `store` map.
- The `onChange` handlers of the two text inputs and two selects are plain field assignments and are not modelled as methods.
- `progressPercent` (Question.jsx:48) is a floating-point bar width.
- `ResultView.Percent` computes in exact arithmetic. `Math.round` of the floating-point `score / total * 100` may differ where that product is not exactly representable near a half. Negative, fractional or NaN props are not modelled: score and total are naturals.
- All rendering (JSX, framer-motion, Tailwind) is left out. Only the background class and the button class *choices* are kept.
- src/App.jsx, src/main.jsx and src/components/Home.jsx (routing, marketing markup, the settings/null toggle) are not part of this model.
