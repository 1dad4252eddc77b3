# Quiz flow model

A Dafny model of the quiz component of a small birthday quiz web app
(`app/Quiz.tsx`). The component shows one of three screens, `"start"`,
`"question"` and `"result"`. It keeps five state cells: `quizState`,
`currentQuestionIndex`, `selectedAnswer`, `score` and `userAnswers`. Four
click handlers change them: start, select an answer, next/finish, and restart.
Three values are derived from them for display: the current question, the
perfect-score flag and the progress percentage. The result screen also
compares each logged answer with its question's correct answer.

Files:

- `quiz_data.dfy` (module `QuizData`): the `Question` record, what makes a
  question or a question list usable, and the five hardcoded questions.
- `quiz_scoring.dfy` (module `QuizScoring`): the review comparison
  (`AnswerIsCorrect`), the number of correct logged answers (`CorrectCount`)
  and the lemmas that tie the score to it. `AnswerIsCorrect` is false past
  the end of the log, where the source reads `undefined`, which never equals
  a correct answer.
- `quiz_app.dfy` (module `QuizApp`): class `QuizSession`. Its fields are the
  five state cells and the constant question list. Its methods are the four
  handlers and its functions are the derived values. `Valid()` is the
  invariant every handler keeps. The module also holds `QuotientBelowOne`,
  the arithmetic fact that keeps the progress bar below 100. `Valid()` says:
  - the index always names a question;
  - `score` is the number of logged answers that equal their question's
    correct answer;
  - every logged answer is an option of its question;
  - on the start screen all cells hold their initial values;
  - on the question screen the log holds one answer per question already
    passed;
  - on the result screen every question is answered and the index rests on
    the last question.
- `quiz_scenarios.dfy` (module `QuizScenarios`): two complete play-throughs
  of the hardcoded quiz driven only through the handlers. One answers
  everything correctly. The other answers question 3 wrongly.

Each handler is one atomic update of the cells. No handler reads a cell it
has just set, so this matches React's batched state updates.

A handler can only be reached through a control rendered on one screen. The
Start button is on the start screen. The radio group and the Next button are
on the question screen, and Next is disabled while nothing is selected. Each
method therefore `requires` that screen, and Next also requires a non-empty
selection. The radio group only ever reports one of the current question's
options, so `HandleAnswerSelect` requires its argument to be one of them.
`HandleRestartQuiz` works from any state, so it requires only the invariant.

The component's behaviour differs from a plain reading of "start resets
everything". `handleStartQuiz` does not clear `selectedAnswer`
(app/Quiz.tsx:92-97). The model follows the code: `HandleStartQuiz` leaves
the selection as it was. It proves that the selection is already `""`, because
the start screen is only reached at construction or after a restart.
Likewise both result-screen buttons, "Try Again" and "Reveal Prize", call the
restart handler (app/Quiz.tsx:269-285). The perfect-score path therefore goes
back to the start screen; it does not navigate to another page.

## Model

| member | source | states |
|---|---|---|
| `QuizData.QuizQuestions` | app/Quiz.tsx:23-59 | the table has five questions with ids 1 to 5 and four options each. Every question's correct answer is one of its options, and the options are distinct and non-empty. |
| `QuizData.Question1` | app/Quiz.tsx:24-29 | the first question's correct answer "Paris" is one of its distinct, non-empty options |
| `QuizData.Question2` | app/Quiz.tsx:30-35 | the second question's correct answer "Mars" is one of its distinct, non-empty options |
| `QuizData.Question3` | app/Quiz.tsx:36-41 | the third question's correct answer "4" is one of its distinct, non-empty options |
| `QuizData.Question4` | app/Quiz.tsx:42-52 | the fourth question's correct answer "Leonardo da Vinci" is one of its distinct, non-empty options |
| `QuizData.Question5` | app/Quiz.tsx:53-58 | the fifth question's correct answer "Oxygen" is one of its distinct, non-empty options |
| `QuizScoring.CorrectCount` | app/Quiz.tsx:108-110 | the number of logged answers that match their question's correct answer never exceeds the number of logged answers |
| `QuizScoring.CorrectCountEmpty` | app/Quiz.tsx:68-69 | an empty answer log has no correct answers, so the initial score 0 is consistent with the empty log |
| `QuizScoring.CorrectCountAppend` | app/Quiz.tsx:105-110 | logging one more answer raises the count of correct answers by exactly 1 when that answer equals its question's correct answer, and leaves it unchanged otherwise |
| `QuizScoring.AllCorrectIffFullCount` | app/Quiz.tsx:246-259 | with one logged answer per question, the count equals the number of questions if and only if the review comparison marks every question correct |
| `QuizApp.QuizSession.constructor` | app/Quiz.tsx:65-69 | a new component is on the start screen with index 0, no selection, score 0 and an empty log, and satisfies the invariant |
| `QuizApp.QuizSession.ScoreBounds` | app/Quiz.tsx:103-119 | in every reachable state the score is at most the number of logged answers, which is at most the number of questions. Past the start screen the index equals the log length, capped at the last question. |
| `QuizApp.QuizSession.ReviewMatchesScore` | app/Quiz.tsx:246-259 | the review lists every question and marks it correct when its logged answer equals the question's correct answer. In every reachable state, and so on the result screen, the number of questions it marks correct equals the score that "You scored {score}" reports (app/Quiz.tsx:213). |
| `QuizApp.QuizSession.CurrentQuestion` | app/Quiz.tsx:88 | the indexed question always exists and is well formed. On the question screen it is the question whose answer is logged next. On the result screen it is the last question. |
| `QuizApp.QuizSession.Progress` | app/Quiz.tsx:90 | progress lies in [0, 100). It is 0 exactly on the first question. On the question screen it is the percentage of questions already answered. |
| `QuizApp.QuizSession.IsPerfectScore` | app/Quiz.tsx:89 | a perfect score is only possible on the result screen. There it holds if and only if every logged answer equals its question's correct answer. |
| `QuizApp.QuizSession.ShowsFinishLabel` | app/Quiz.tsx:197-199 | the Next button reads "Finish Quiz" exactly when the answer about to be logged is the last one the quiz asks for |
| `QuizApp.QuizSession.HandleStartQuiz` | app/Quiz.tsx:92-97 | start moves to the question screen with index 0, score 0 and an empty log. The selection is untouched and already empty. The invariant is kept. |
| `QuizApp.QuizSession.HandleAnswerSelect` | app/Quiz.tsx:99-101 | selecting an option of the current question only sets the selection; no other cell changes and the invariant is kept |
| `QuizApp.QuizSession.HandleNextQuestion` | app/Quiz.tsx:103-119 | Next appends exactly the selection to the log, keeping the earlier entries. The score rises by 1 exactly when the selection is the current question's correct answer. Before the last question it advances the index by one and clears the selection. On the last question it moves to the result screen and leaves the index and selection. It ends the quiz exactly when the button read "Finish Quiz". |
| `QuizApp.QuizSession.HandleRestartQuiz` | app/Quiz.tsx:121-127 | from any state, restart puts all five cells back to their initial values ("start", 0, "", 0, []) |
| `QuizScenarios.AnswerAndAdvance` | app/Quiz.tsx:169-201 | picking an option and pressing Next logs that option and scores it against the current question. The result screen is shown exactly when every question has an answer. |
| `QuizScenarios.PerfectRun` | app/Quiz.tsx:92-127 | answering all five questions correctly ends on the result screen (the returned `finalState`) with score 5 and a perfect score, and restart returns to the start screen |
| `QuizScenarios.ThirdAnswerIsWrong` | app/Quiz.tsx:36-41 | "5" is one of the third question's options but not its correct answer |
| `QuizScenarios.PlayFirstTwo` | app/Quiz.tsx:24-35 | answering the first two questions correctly logs "Paris" and "Mars" and gives score 2, still on the question screen |
| `QuizScenarios.PlayWithThirdWrong` | app/Quiz.tsx:103-119 | playing all five questions with "5" on the third ends on the result screen with score 4, and "5" is logged at index 2 |
| `QuizScenarios.OneWrongRun` | app/Quiz.tsx:246-259 | answering question 3 with "5" and the rest correctly gives score 4 and no perfect score, and the review at index 2 shows "5" marked wrong |

## Left out

- Rendering: the card, button, radio-group, label and progress components, the icons, the styling and the screen texts. They are presentation over a component library that is not part of this model.
- The window-size effect and the confetti animation on the perfect-score screen (app/Quiz.tsx:70-86, 223-239). These are browser I/O and a third-party animation.
- app/components/ConfettiProvider.tsx. It is a context provider around a host timer. The quiz never calls its `triggerConfetti`. Its timer is never cleared, so a second trigger would not extend the 8000 ms window, and no restartable countdown is modelled.
- app/prize/page.tsx, app/layout.tsx and app/page.tsx. They are presentation; the prize page's only logic is a boolean flip toggle.
- Floating point: `Progress` is stated exactly over `real`, not as an IEEE double.
- React scheduling: batching, re-renders and stale closures are not modelled. Each handler is one atomic update.
- Calls of a handler on a screen that does not render its control. The methods' preconditions exclude them, since no user action can make such a call.
- QuizApp.QuizSession.HandleAnswerSelect: the source handler accepts any string. The model requires an option of the current question, because its only caller is the radio group, whose items carry exactly those options (app/Quiz.tsx:174-183).
- QuizApp.QuizSession.HandleNextQuestion: the source handler would also run with an empty selection. The model requires a non-empty selection, because the button that calls it is `disabled={!selectedAnswer}` (app/Quiz.tsx:195).
