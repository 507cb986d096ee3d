/*
 * The dashboard page mounts the quiz card with a fixed two-question
 * JavaScript quiz (correct options 0 and 1, 100 points, 15 minutes). The
 * scenarios below run the quiz model on that data.
 */
module Dashboard {

  import opened Quiz
  import Clock

  function DashboardQuestions(): (qs: seq<Question>)
    ensures |qs| == 2 && qs[0].correctAnswer == 0 && qs[1].correctAnswer == 1
    ensures |qs[0].options| == 4 && |qs[1].options| == 4
  {
    // Prompt and explanation texts play no part in the session and are left empty.
    [ Question("1", "", ["var myVariable;", "variable myVariable;", "v myVariable;", "declare myVariable;"], 0, ""),
      Question("2", "", ["append()", "push()", "add()", "insert()"], 1, "") ]
  }

  const DashboardTimeLimit: nat := 15
  const DashboardTotalPoints: nat := 100

  /** Answering the first question wrongly and the second rightly scores 1 of 2: 50%, 50 points, not passing. */
  lemma HalfRightScenario()
    ensures ComputeScore(DashboardQuestions(), map[0 := 1, 1 := 1], DashboardTotalPoints) == Score(1, 50, 50)
    ensures !IsPassing(ComputeScore(DashboardQuestions(), map[0 := 1, 1 := 1], DashboardTotalPoints))
  {
    var qs := DashboardQuestions();
    var a: map<nat, nat> := map[0 := 1, 1 := 1];
    assert !AnsweredCorrectly(qs, a, 0) && AnsweredCorrectly(qs, a, 1);
    assert CountCorrect(qs, a, 2) == 1;
  }

  /** Answering both questions rightly scores 100%, all 100 points, passing. */
  lemma AllRightScenario()
    ensures ComputeScore(DashboardQuestions(), map[0 := 0, 1 := 1], DashboardTotalPoints) == Score(2, 100, 100)
    ensures IsPassing(ComputeScore(DashboardQuestions(), map[0 := 0, 1 := 1], DashboardTotalPoints))
  {
    var qs := DashboardQuestions();
    var a: map<nat, nat> := map[0 := 0, 1 := 1];
    PerfectScore(qs, a, DashboardTotalPoints);
  }

  /**
   * A full session on the dashboard quiz: start, answer 0, next, answer 1,
   * finish. The card then shows its results screen with 2 of 2, 100%, 100
   * points, a pass. Retaking brings it back to its start screen with no
   * answers recorded.
   */
  method TakeDashboardQuiz() returns (finished: Screen, s: Score, retaken: Screen, answersAfterRetake: map<nat, nat>)
    ensures finished == ResultsScreen
    ensures s == Score(2, 100, 100) && IsPassing(s)
    ensures retaken == StartScreen && answersAfterRetake == map[]
  {
    var card := new QuizCard("", "", DashboardTimeLimit, DashboardQuestions(), DashboardTotalPoints);
    card.Start();
    assert card.CurrentScreen() == QuestionScreen;
    card.HandleAnswerSelect(0);
    assert card.CanGoNext();
    card.NextQuestion();
    assert card.currentQuestion == 1 && !card.showResults;
    card.HandleAnswerSelect(1);
    card.NextQuestion();
    finished := card.CurrentScreen();
    assert card.selectedAnswers == map[0 := 0, 1 := 1];
    s := card.CalculateScore();
    AllRightScenario();
    card.Retake();
    retaken, answersAfterRetake := card.CurrentScreen(), card.selectedAnswers;
  }

  /** The 15-minute quiz shows "15:00" on its clock. */
  lemma DashboardTimerLabel()
    ensures Clock.FormatTime(DashboardTimeLimit * 60) == "15:00"
  {
    Clock.WholeMinutesLabel(DashboardTimeLimit);
    assert Clock.DecimalString(15) == "15";
  }

  /**
   * Previous on the first question stays on it; on the two-question quiz,
   * Next on the last question shows the results, and Next pressed once more
   * there stays on that question with the results shown.
   */
  method BoundaryPresses() returns (afterPrevious: nat, afterNexts: nat, results: bool)
    ensures afterPrevious == 0
    ensures afterNexts == 1 && results
  {
    var card := new QuizCard("", "", DashboardTimeLimit, DashboardQuestions(), DashboardTotalPoints);
    card.Start();
    card.PreviousQuestion();
    afterPrevious := card.currentQuestion;
    card.NextQuestion();
    card.NextQuestion();
    card.NextQuestion();
    afterNexts, results := card.currentQuestion, card.showResults;
  }
}
