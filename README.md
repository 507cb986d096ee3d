# Quiz session and video-player controls of a learning dashboard

This project models, in Dafny, the two pieces of the learning-platform
dashboard that carry behaviour of their own:

- the **quiz card** (`src/components/QuizCard.tsx`): a session over a fixed
  list of questions with a start screen, a question screen and a results
  screen; the user picks one option per question, moves with Next/Previous,
  finishes on the last question, sees the correct count, a rounded
  percentage and rounded points, passes at 70% or more, and may retake the
  quiz, which returns the card to its initial state;
- the **video player** (`src/components/VideoPlayer.tsx`): play/pause and
  mute toggles, a seek slider over 0..1800 seconds, ten-second skip buttons
  clamped to that range, and a volume slider that mutes at 0.

Both components render a number of seconds as an `M:SS` label.

Files and modules:

- `clock.dfy`, module `Clock`: the `M:SS` label (`FormatTime`) and the decimal
  digits and two-digit padding it is built from, with `ParseTime`, an
  inverse used to state that the label determines the seconds.
- `quiz.dfy`, module `Quiz`: exact rounding (`RoundedRatio`), the
  correct-answer count and the score, progress, navigation as functions on
  a `Position` (current question, results shown), and the class `QuizCard`
  whose fields are the component's state and whose methods are its
  handlers, each proved against those functions. The predicates
  `CanGoPrevious` and `CanGoNext` state when the Previous and Next buttons
  are enabled (`QuizCard.tsx` lines 221 and 229); the handlers themselves do
  not check them, as in the component.
- `video_player.dfy`, module `Player`: the class `VideoPlayer` with the four
  state fields; each handler's `modifies` frame names the only fields it may
  change.
- `dashboard.dfy`, module `Dashboard`: the two-question quiz the dashboard
  page mounts (correct options 0 and 1, 100 points, 15 minutes) and
  scenarios on it.

`Math.round(a / b)` over floating-point division is modelled by the exact
integer `(2a + b) / (2b)` for `a >= 0`, `b > 0` (halves round up, as
`Math.round` does for non-negative numbers).

Points where the code's behaviour is easy to misread:

- `nextQuestion` advances from an unanswered question; only the disabled Next
  button (`QuizCard.tsx` line 229) keeps the user from doing so.
  `NextQuestion` therefore has no such precondition, and the button rule is
  the separate predicate `CanGoNext`.
- Starting the quiz only sets `quizStarted`; it resets nothing else (the
  index, answers and timer are already in their initial state on mount and
  after a retake).
- The clock label has unpadded minutes, `M:SS` (so 125 minutes shows as
  `125:00`), although the comment at `VideoPlayer.tsx` line 39 calls it
  `MM:SS`.
- The handler does not range-check the selected option; its only caller is
  the radio group (lines 206-208), whose values are exactly the current
  question's option indices, which is what `HandleAnswerSelect` requires.

## Model

| member | source | states |
|---|---|---|
| `Clock.DecimalStringFacts` | src/components/QuizCard.tsx:73 | `n.toString()` is a non-empty string of digits that reads back as n, has one digit exactly when n < 10, and starts with '0' only when n is 0 (no leading zero padding) |
| `Clock.TwoDigitsFacts` | src/components/QuizCard.tsx:73 | `padStart(2, '0')` of the seconds remainder is exactly two digits that read back as the remainder |
| `Clock.DecimalString` | src/components/QuizCard.tsx:73 | `n.toString()` for a whole n: its digits, most significant first, without leading zeros (facts in `DecimalStringFacts`) |
| `Clock.PadStart` | src/components/QuizCard.tsx:73 | `s.padStart(width, fill)` with a one-character fill: s unchanged when already width long, otherwise fill characters prepended up to width |
| `Clock.TwoDigits` | src/components/QuizCard.tsx:73 | the seconds field: the remainder's digits padded on the left with '0' to two characters (facts in `TwoDigitsFacts`) |
| `Clock.LabelFields` | src/components/QuizCard.tsx:73 | the label is the unpadded minutes, a ':' and a two-digit seconds field, each reading back as its number |
| `Clock.FormatTime` | src/components/QuizCard.tsx:70-74 | formatTime: the label of seconds / 60 minutes and seconds % 60 seconds; its fields and its inverse are stated by `FormatTimeFields` and `FormatTimeRoundTrip` |
| `Clock.FormatTimeFields` | src/components/QuizCard.tsx:70-74 | formatTime(s): the minutes field reads as s / 60, the seconds field is two digits reading as s % 60 < 60, and minutes * 60 + seconds == s |
| `Clock.FormatTimeRoundTrip` | src/components/VideoPlayer.tsx:40-44 | parsing the label of any whole number of seconds gives back exactly those seconds, so the label determines the time it shows |
| `Clock.LabelRoundTrip` | src/components/QuizCard.tsx:70-74 | a label built from m minutes and s < 60 seconds reads back as m * 60 + s |
| `Clock.WholeMinutesLabel` | src/components/QuizCard.tsx:29 | a remaining time of m whole minutes (timeLimit * 60) shows as m followed by ":00" |
| `Quiz.RoundedRatio` | src/components/QuizCard.tsx:65-66 | Math.round(a / b): the result r satisfies r - 1/2 <= a/b < r + 1/2, i.e. the nearest integer with halves rounded up |
| `Quiz.RoundedRatioAtMost` | src/components/QuizCard.tsx:65-66 | rounding a/b never exceeds a whole bound m that a/b itself respects |
| `Quiz.RoundedRatioAtLeast` | src/components/QuizCard.tsx:65-66 | round(a/b) >= m exactly when a/b >= m - 1/2 |
| `Quiz.RoundedRatioExact` | src/components/QuizCard.tsx:65-66 | a whole ratio rounds to itself |
| `Quiz.RoundedRatioMonotone` | src/components/QuizCard.tsx:65-66 | a larger numerator never rounds to a smaller result |
| `Quiz.AnsweredCorrectly` | src/components/QuizCard.tsx:59 | question i counts as correct exactly when an answer is recorded for i and it equals the question's correct option; a missing answer is wrong |
| `Quiz.CountCorrect` | src/components/QuizCard.tsx:57-62 | the count over the first k questions is at most k |
| `Quiz.CountCorrectIsCardinality` | src/components/QuizCard.tsx:57-62 | the loop's counter equals the number of indices i < k with a recorded answer equal to question i's correct option; unanswered questions count as wrong |
| `Quiz.AllCorrectIff` | src/components/QuizCard.tsx:58-61 | the count is k exactly when every one of the first k questions was answered correctly |
| `Quiz.NoneCorrectIff` | src/components/QuizCard.tsx:58-61 | the count is 0 exactly when none of the first k questions was answered correctly |
| `Quiz.SelectAnswerEffect` | src/components/QuizCard.tsx:35-40 | recording option v for question i changes the count only through question i: minus one if it was right before, plus one if v is right |
| `Quiz.CountUnaffected` | src/components/QuizCard.tsx:35-40 | recording an answer for a question at or after k leaves the count over the first k questions unchanged |
| `Quiz.ComputeScore` | src/components/QuizCard.tsx:63-67 | correct <= n, percentage = round(correct * 100 / n) lies in [0, 100], points = round(correct * totalPoints / n) lies in [0, totalPoints] |
| `Quiz.PerfectScore` | src/components/QuizCard.tsx:63-67 | all answers correct gives n correct, 100% and all totalPoints |
| `Quiz.ZeroScore` | src/components/QuizCard.tsx:63-67 | no answer correct gives 0 correct, 0% and 0 points |
| `Quiz.ScoreMonotone` | src/components/QuizCard.tsx:65-66 | more correct answers never give a lower percentage or fewer points |
| `Quiz.IsPassing` | src/components/QuizCard.tsx:116 | a score passes exactly when its rounded percentage is at least 70 |
| `Quiz.PassingIff` | src/components/QuizCard.tsx:116 | the result passes (percentage >= 70) exactly when 200 * correct >= 139 * n |
| `Quiz.ProgressPercent` | src/components/QuizCard.tsx:33 | the progress figure round((current + 1) / n * 100) is at most 100 and is 100 on the last question |
| `Quiz.ProgressMonotone` | src/components/QuizCard.tsx:191 | a later question never shows a smaller progress figure |
| `Quiz.NextPosition` | src/components/QuizCard.tsx:42-48 | before the last question Next moves to the following question and leaves the results flag as it was; on the last question it shows the results and stays; the index stays in range |
| `Quiz.PreviousPosition` | src/components/QuizCard.tsx:50-54 | Previous moves back one question when above 0 and does nothing at 0; the results flag is untouched |
| `Quiz.NavigateStaysInRange` | src/components/QuizCard.tsx:42-54 | starting on a question of the quiz, any sequence of Next/Previous presses keeps 0 <= currentQuestion <= n - 1 |
| `Quiz.NavigateKeepsResults` | src/components/QuizCard.tsx:42-54 | once the results are shown, no Next/Previous press hides them |
| `Quiz.PreviousUndoesNext` | src/components/QuizCard.tsx:42-54 | on a question before the last, Previous after Next returns to the same position |
| `Quiz.NextOnResultsIsIdempotent` | src/components/QuizCard.tsx:45-47 | Next on the last question with the results showing changes nothing |
| `Quiz.QuizCard.CurrentScreen` | src/components/QuizCard.tsx:76-116 | the start screen shows exactly when the quiz is not started, the results exactly when started and showResults |
| `Quiz.QuizCard.IsInitial` | src/components/QuizCard.tsx:26-30 | the card's state as mounted: question 0, no answers, results hidden, not started (also what Retake restores) |
| `Quiz.QuizCard.constructor` | src/components/QuizCard.tsx:26-30 | the card mounts on question 0 with no answers, results hidden, not started, and timeRemaining = timeLimit * 60 |
| `Quiz.QuizCard.Start` | src/components/QuizCard.tsx:105 | "Start Quiz" sets quizStarted and changes nothing else |
| `Quiz.QuizCard.HandleAnswerSelect` | src/components/QuizCard.tsx:35-40 | the current question's entry becomes v, overwriting any earlier choice; every other entry, the index and both flags are unchanged; recorded answers stay valid option indices |
| `Quiz.QuizCard.NextQuestion` | src/components/QuizCard.tsx:42-48 | the (index, results flag) pair moves as NextPosition says; answers and the started flag are unchanged |
| `Quiz.QuizCard.PreviousQuestion` | src/components/QuizCard.tsx:50-54 | the index moves as PreviousPosition says; nothing else changes |
| `Quiz.QuizCard.Retake` | src/components/QuizCard.tsx:160-165 | "Retake Quiz" restores the initial state: question 0, no answers, results hidden, not started (the start screen) |
| `Quiz.QuizCard.CanGoPrevious` | src/components/QuizCard.tsx:218-222 | the Previous button is enabled exactly when the current question is not the first |
| `Quiz.QuizCard.CanGoNext` | src/components/QuizCard.tsx:226-230 | the Next/Finish button is enabled exactly when the current question has a recorded answer |
| `Quiz.QuizCard.CalculateScore` | src/components/QuizCard.tsx:56-68 | the counting loop and rounding give exactly ComputeScore of the questions and the recorded answers |
| `Quiz.QuizCard.TimerLabel` | src/components/QuizCard.tsx:186 | the clock shows the time limit in minutes followed by ":00", and reads back as timeLimit * 60 seconds |
| `Player.SkipForwardTime` | src/components/VideoPlayer.tsx:63-65 | min(t + 10, 1800): never above 1800 nor above t + 10, and equal to one of them |
| `Player.SkipBackwardTime` | src/components/VideoPlayer.tsx:67-69 | max(t - 10, 0): never negative nor below t - 10, and equal to one of them |
| `Player.SkipsStayInRange` | src/components/VideoPlayer.tsx:117-120 | from a time in the seek slider's range [0, 1800], both skips stay in that range |
| `Player.SkipsUndoEachOther` | src/components/VideoPlayer.tsx:63-69 | away from the ends, skipping back undoes skipping forward and the reverse |
| `Player.VideoPlayer.Valid` | src/components/VideoPlayer.tsx:117-182 | the invariant every handler keeps: the time lies on the seek slider (0..1800) and the volume on the volume slider (0..100) |
| `Player.VideoPlayer.constructor` | src/components/VideoPlayer.tsx:32-35 | the player starts paused, at time 0, at volume 100, unmuted, within both sliders' ranges |
| `Player.VideoPlayer.TogglePlay` | src/components/VideoPlayer.tsx:46-48 | flips isPlaying; the frame lets nothing else change |
| `Player.VideoPlayer.ToggleMute` | src/components/VideoPlayer.tsx:50-52 | flips isMuted; the frame lets nothing else change, so the stored volume survives muting |
| `Player.VideoPlayer.HandleProgressChange` | src/components/VideoPlayer.tsx:54-56 | the seek slider's value (0..1800) becomes currentTime; nothing else changes and the invariant is kept |
| `Player.VideoPlayer.HandleVolumeChange` | src/components/VideoPlayer.tsx:58-61 | the slider's value becomes the volume and isMuted becomes (value == 0); afterwards the volume slider shows that value and the muted icon shows exactly when it is 0; play state and time unchanged; the invariant is kept |
| `Player.VideoPlayer.SkipForward` | src/components/VideoPlayer.tsx:63-65 | currentTime becomes min(currentTime + 10, 1800): it never moves back, never passes 1800, and nothing else changes |
| `Player.VideoPlayer.SkipBackward` | src/components/VideoPlayer.tsx:67-69 | currentTime becomes max(currentTime - 10, 0): it never moves forward, never drops below 0, and nothing else changes |
| `Player.VideoPlayer.MutedIconShown` | src/components/VideoPlayer.tsx:172 | the crossed-out speaker shows exactly when the player is muted or its volume is 0 |
| `Player.VideoPlayer.SliderVolume` | src/components/VideoPlayer.tsx:179 | the volume slider shows 0 exactly when the muted icon shows (muted or volume 0), and always lies within [0, 100] |
| `Player.VideoPlayer.ElapsedLabel` | src/components/VideoPlayer.tsx:125 | the elapsed-time label reads back as the current time |
| `Player.TogglePlayTwice` | src/components/VideoPlayer.tsx:46-48 | toggling play twice restores the whole player state |
| `Player.ToggleMuteTwice` | src/components/VideoPlayer.tsx:50-52 | toggling mute twice restores the whole player state |
| `Dashboard.DashboardQuestions` | src/pages/Dashboard.tsx:80-101 | the dashboard quiz has two questions of four options each, correct options 0 and 1 |
| `Dashboard.HalfRightScenario` | src/pages/Dashboard.tsx:80-101 | answers {0:1, 1:1} give 1 correct, 50%, 50 points, not passing |
| `Dashboard.AllRightScenario` | src/pages/Dashboard.tsx:80-101 | answers {0:0, 1:1} give 2 correct, 100%, 100 points, passing |
| `Dashboard.DashboardTimerLabel` | src/pages/Dashboard.tsx:83 | the 15-minute limit shows as "15:00" |
| `Dashboard.TakeDashboardQuiz` | src/pages/Dashboard.tsx:80-101 | start, answer 0, Next, answer 1, Finish: the card is on its results screen with 2 correct, 100%, 100 points, passing; after Retake it is on the start screen with no answers recorded |
| `Dashboard.BoundaryPresses` | src/components/QuizCard.tsx:42-54 | on the dashboard quiz, Previous on the first question leaves it on question 0, and three Next presses end on the last question (1) with the results shown |

## Left out

- All rendering and styling: the JSX of both components, and the header, course cards and statistics tiles, which hold no behaviour beyond markup (the header's menu flag is a bare boolean flip).
- The countdown: `timeRemaining` is set from the time limit and never updated, so it is a constant field; no ticking and no submission on expiry are modelled.
- The player's auto-hide of its controls (a timer effect) and the mouse handlers that show and hide them; the video element reference; the Settings, Maximize, "Mark Complete" and "Continue Course" buttons, which have no handlers.
- Floating-point arithmetic: `Math.round` over float division is replaced by exact rational rounding, and the progress bar's unrounded value is represented only by its rounded display figure (`Quiz.ProgressPercent`). The two can differ by one where the float quotient falls just below a half: 29 correct of 200 gives `29/200*100 = 14.499999999999998` in JavaScript, which rounds to 14, while `RoundedRatio(2900, 200)` is 15.
- Numbers are whole: the quiz's time limit and total points, and all times and volumes, are natural numbers (integers for the player). A fractional limit such as 0.5 minutes, which the component would show as `0:30`, is outside the model, so `Quiz.QuizCard.TimerLabel` speaks only of whole minutes. The digit-string model of `toString` holds below 10^21, where JavaScript switches to exponent notation; integers beyond 2^53 are not exact in JavaScript either.
- Fractional seconds: the label functions take whole, non-negative seconds; the player's `Math.floor(seconds % 60)` only matters for fractional input. Player times and volumes are integers, as the sliders' step of 1 produces.
- `parseInt` of the radio value: the model receives the option index itself.
- The empty quiz: with no questions the component divides by zero; every scoring and progress member requires at least one question.
- Quiz.QuizCard.HandleAnswerSelect: requires `v` to be an option index of the current question, because the radio group is its only caller and offers only those values; the handler itself does not check it.
- Player.VideoPlayer.HandleProgressChange: requires a non-empty slider value within 0..1800, as the single-thumb seek slider (`VideoPlayer.tsx` lines 117-120) only supplies one such value; `HandleVolumeChange` likewise requires one value within 0..100 (lines 178-181).
