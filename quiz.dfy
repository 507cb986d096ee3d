/*
 * The quiz card: a session over a fixed list of questions in which the user
 * starts the quiz, picks one option per question, moves between questions,
 * sees a score and may retake the quiz.
 *
 * Scoring, progress and navigation are stated as functions; the QuizCard
 * class holds the component's state fields and its handlers are methods
 * proved against those functions.
 */
module Quiz {

  import Clock

  /** One multiple-choice question; the order of `options` is significant. */
  datatype Question = Question(id: string, text: string, options: seq<string>, correctAnswer: int, explanation: string)

  /** The figures shown on the results screen. */
  datatype Score = Score(correct: nat, percentage: nat, points: nat)

  /** The lowest percentage that passes. */
  const PassPercentage: nat := 70

  // ---------------------------------------------------------------------
  // Rounding

  /**
   * Math.round(a / b) for a >= 0 and b > 0: the nearest integer, halves
   * rounded up. The component divides JavaScript floating-point numbers; this
   * exact rational quotient abstracts that float division.
   */
  function RoundedRatio(a: nat, b: nat): (r: nat)
    requires b > 0
    ensures 2 * b * r <= 2 * a + b < 2 * b * (r + 1)
  {
    (2 * a + b) / (2 * b)
  }

  lemma MulCancel(k: nat, x: int, y: int)
    requires k > 0 && k * x < k * y
    ensures x < y
  {
  }

  lemma MulMonotone(k: nat, x: int, y: int)
    requires x <= y
    ensures k * x <= k * y
  {
  }

  /** Rounding a/b never goes above a bound `m` that the exact ratio respects. */
  lemma RoundedRatioAtMost(a: nat, b: nat, m: nat)
    requires b > 0 && a <= b * m
    ensures RoundedRatio(a, b) <= m
  {
    var r := RoundedRatio(a, b);
    assert 2 * b * r < 2 * b * (m + 1);
    MulCancel(2 * b, r, m + 1);
  }

  /** The rounded ratio reaches `m` exactly when a/b is at least m - 1/2. */
  lemma RoundedRatioAtLeast(a: nat, b: nat, m: nat)
    requires b > 0
    ensures RoundedRatio(a, b) >= m <==> 2 * a + b >= 2 * b * m
  {
    var r := RoundedRatio(a, b);
    if r >= m {
      MulMonotone(2 * b, m, r);
    }
    if 2 * a + b >= 2 * b * m {
      assert 2 * b * m < 2 * b * (r + 1);
      MulCancel(2 * b, m, r + 1);
    }
  }

  /** A whole ratio is its own rounding. */
  lemma RoundedRatioExact(b: nat, m: nat)
    requires b > 0
    ensures RoundedRatio(b * m, b) == m
  {
    RoundedRatioAtMost(b * m, b, m);
    RoundedRatioAtLeast(b * m, b, m);
  }

  /** Rounding preserves order. */
  lemma RoundedRatioMonotone(a1: nat, a2: nat, b: nat)
    requires b > 0 && a1 <= a2
    ensures RoundedRatio(a1, b) <= RoundedRatio(a2, b)
  {
    var r1, r2 := RoundedRatio(a1, b), RoundedRatio(a2, b);
    assert 2 * b * r1 < 2 * b * (r2 + 1);
    MulCancel(2 * b, r1, r2 + 1);
  }

  // ---------------------------------------------------------------------
  // Scoring

  /** Question `i` has a recorded answer equal to its correct option; an unanswered question is wrong. */
  predicate AnsweredCorrectly(questions: seq<Question>, answers: map<nat, nat>, i: nat)
    requires i < |questions|
  {
    i in answers && answers[i] == questions[i].correctAnswer
  }

  /** The number of correctly answered questions among the first `k`. */
  function CountCorrect(questions: seq<Question>, answers: map<nat, nat>, k: nat): (c: nat)
    requires k <= |questions|
    ensures c <= k
  {
    if k == 0 then 0
    else CountCorrect(questions, answers, k - 1) + (if AnsweredCorrectly(questions, answers, k - 1) then 1 else 0)
  }

  /** The indices below `k` of correctly answered questions. */
  function CorrectIndices(questions: seq<Question>, answers: map<nat, nat>, k: nat): set<nat>
    requires k <= |questions|
  {
    set i: nat | i < k && AnsweredCorrectly(questions, answers, i)
  }

  /** The count is the number of correctly answered questions. */
  lemma {:induction false} CountCorrectIsCardinality(questions: seq<Question>, answers: map<nat, nat>, k: nat)
    requires k <= |questions|
    ensures CountCorrect(questions, answers, k) == |CorrectIndices(questions, answers, k)|
  {
    if k == 0 {
      assert CorrectIndices(questions, answers, 0) == {};
    } else {
      CountCorrectIsCardinality(questions, answers, k - 1);
      if AnsweredCorrectly(questions, answers, k - 1) {
        assert CorrectIndices(questions, answers, k) == CorrectIndices(questions, answers, k - 1) + {k - 1};
      } else {
        assert CorrectIndices(questions, answers, k) == CorrectIndices(questions, answers, k - 1);
      }
    }
  }

  /** Every question counts exactly when every question was answered correctly. */
  lemma {:induction false} AllCorrectIff(questions: seq<Question>, answers: map<nat, nat>, k: nat)
    requires k <= |questions|
    ensures CountCorrect(questions, answers, k) == k
        <==> forall i :: 0 <= i < k ==> AnsweredCorrectly(questions, answers, i)
  {
    if k > 0 {
      AllCorrectIff(questions, answers, k - 1);
    }
  }

  /** No question counts exactly when none was answered correctly. */
  lemma {:induction false} NoneCorrectIff(questions: seq<Question>, answers: map<nat, nat>, k: nat)
    requires k <= |questions|
    ensures CountCorrect(questions, answers, k) == 0
        <==> forall i :: 0 <= i < k ==> !AnsweredCorrectly(questions, answers, i)
  {
    if k > 0 {
      NoneCorrectIff(questions, answers, k - 1);
    }
  }

  /**
   * Recording option `v` for question `i` changes the count only through
   * question `i`: it loses one if `i` was right before and gains one if `v`
   * is right.
   */
  lemma {:induction false} SelectAnswerEffect(questions: seq<Question>, answers: map<nat, nat>, i: nat, v: nat, k: nat)
    requires i < k <= |questions|
    ensures CountCorrect(questions, answers[i := v], k) + (if AnsweredCorrectly(questions, answers, i) then 1 else 0)
         == CountCorrect(questions, answers, k) + (if v == questions[i].correctAnswer then 1 else 0)
  {
    if k - 1 == i {
      CountUnaffected(questions, answers, i, v, i);
    } else {
      SelectAnswerEffect(questions, answers, i, v, k - 1);
    }
  }

  /** Answers at or beyond `k` do not affect the count of the first `k` questions. */
  lemma {:induction false} CountUnaffected(questions: seq<Question>, answers: map<nat, nat>, i: nat, v: nat, k: nat)
    requires k <= i < |questions|
    ensures CountCorrect(questions, answers[i := v], k) == CountCorrect(questions, answers, k)
  {
    if k > 0 {
      CountUnaffected(questions, answers, i, v, k - 1);
    }
  }

  /**
   * calculateScore: the correct count, Math.round(correct / n * 100) and
   * Math.round(correct / n * totalPoints).
   */
  function ComputeScore(questions: seq<Question>, answers: map<nat, nat>, totalPoints: nat): (s: Score)
    requires |questions| > 0
    ensures s.correct <= |questions|
    ensures s.percentage <= 100 && s.points <= totalPoints
  {
    var n := |questions|;
    var c := CountCorrect(questions, answers, n);
    RoundedRatioAtMost(c * 100, n, 100);
    assert c * totalPoints <= n * totalPoints;
    RoundedRatioAtMost(c * totalPoints, n, totalPoints);
    Score(c, RoundedRatio(c * 100, n), RoundedRatio(c * totalPoints, n))
  }

  /** All answers right gives 100% and every point. */
  lemma PerfectScore(questions: seq<Question>, answers: map<nat, nat>, totalPoints: nat)
    requires |questions| > 0
    requires forall i :: 0 <= i < |questions| ==> AnsweredCorrectly(questions, answers, i)
    ensures ComputeScore(questions, answers, totalPoints) == Score(|questions|, 100, totalPoints)
  {
    var n := |questions|;
    AllCorrectIff(questions, answers, n);
    RoundedRatioExact(n, 100);
    RoundedRatioExact(n, totalPoints);
    assert n * 100 == 100 * n && n * totalPoints == totalPoints * n;
  }

  /** No answer right gives 0% and no points. */
  lemma ZeroScore(questions: seq<Question>, answers: map<nat, nat>, totalPoints: nat)
    requires |questions| > 0
    requires forall i :: 0 <= i < |questions| ==> !AnsweredCorrectly(questions, answers, i)
    ensures ComputeScore(questions, answers, totalPoints) == Score(0, 0, 0)
  {
    NoneCorrectIff(questions, answers, |questions|);
  }

  /** More correct answers never give a lower percentage or fewer points. */
  lemma ScoreMonotone(n: nat, c1: nat, c2: nat, totalPoints: nat)
    requires 0 < n && c1 <= c2
    ensures RoundedRatio(c1 * 100, n) <= RoundedRatio(c2 * 100, n)
    ensures RoundedRatio(c1 * totalPoints, n) <= RoundedRatio(c2 * totalPoints, n)
  {
    RoundedRatioMonotone(c1 * 100, c2 * 100, n);
    assert c1 * totalPoints <= c2 * totalPoints;
    RoundedRatioMonotone(c1 * totalPoints, c2 * totalPoints, n);
  }

  /** isPassingGrade: the percentage is at least 70. */
  predicate IsPassing(s: Score) {
    s.percentage >= PassPercentage
  }

  /**
   * In terms of the raw count: a quiz of n questions is passed exactly when
   * correct / n >= 69.5%, i.e. 200 * correct >= 139 * n.
   */
  lemma PassingIff(questions: seq<Question>, answers: map<nat, nat>, totalPoints: nat)
    requires |questions| > 0
    ensures var s := ComputeScore(questions, answers, totalPoints);
      IsPassing(s) <==> 200 * s.correct >= 139 * |questions|
  {
    var s := ComputeScore(questions, answers, totalPoints);
    RoundedRatioAtLeast(s.correct * 100, |questions|, PassPercentage);
  }

  // ---------------------------------------------------------------------
  // Progress

  /**
   * The progress figure shown beside the bar, Math.round((current + 1) / n * 100):
   * at most 100, and 100 on the last question.
   */
  function ProgressPercent(current: nat, n: nat): (r: nat)
    requires current < n
    ensures r <= 100
    ensures current == n - 1 ==> r == 100
  {
    RoundedRatioAtMost((current + 1) * 100, n, 100);
    if current == n - 1 then RoundedRatioExact(n, 100); RoundedRatio((current + 1) * 100, n)
    else RoundedRatio((current + 1) * 100, n)
  }

  /** A later question never shows less progress. */
  lemma ProgressMonotone(i: nat, j: nat, n: nat)
    requires i <= j < n
    ensures ProgressPercent(i, n) <= ProgressPercent(j, n)
  {
    RoundedRatioMonotone((i + 1) * 100, (j + 1) * 100, n);
  }

  // ---------------------------------------------------------------------
  // Navigation

  /** The part of the session that navigation changes. */
  datatype Position = Position(current: nat, showResults: bool)

  datatype Nav = Next | Previous

  /**
   * nextQuestion: on a question before the last, advance by one; on the last,
   * show the results and stay on that question.
   */
  function NextPosition(p: Position, n: nat): (r: Position)
    ensures p.current < n ==> r.current < n
    ensures r.current == p.current + 1 <==> p.current + 1 < n
    ensures r.current != p.current + 1 ==> r.current == p.current
    ensures r.showResults <==> p.showResults || p.current + 1 >= n
  {
    if p.current < n - 1 then p.(current := p.current + 1) else p.(showResults := true)
  }

  /** previousQuestion: step back by one unless already on the first question. */
  function PreviousPosition(p: Position): (r: Position)
    ensures r.current <= p.current && r.showResults == p.showResults
    ensures r.current == p.current <==> p.current == 0
    ensures r.current != p.current ==> r.current + 1 == p.current
  {
    if p.current > 0 then p.(current := p.current - 1) else p
  }

  function Step(p: Position, n: nat, nav: Nav): Position {
    match nav
    case Next => NextPosition(p, n)
    case Previous => PreviousPosition(p)
  }

  /** The position after a sequence of Next/Previous presses. */
  function Navigate(p: Position, n: nat, navs: seq<Nav>): Position
    decreases |navs|
  {
    if navs == [] then p else Navigate(Step(p, n, navs[0]), n, navs[1..])
  }

  /** Starting on a question of the quiz, any sequence of presses stays on a question of the quiz. */
  lemma {:induction false} NavigateStaysInRange(p: Position, n: nat, navs: seq<Nav>)
    requires p.current < n
    ensures Navigate(p, n, navs).current < n
    decreases |navs|
  {
    if navs != [] {
      NavigateStaysInRange(Step(p, n, navs[0]), n, navs[1..]);
    }
  }

  /** Once the results are showing, no press hides them. */
  lemma {:induction false} NavigateKeepsResults(p: Position, n: nat, navs: seq<Nav>)
    requires p.showResults
    ensures Navigate(p, n, navs).showResults
    decreases |navs|
  {
    if navs != [] {
      NavigateKeepsResults(Step(p, n, navs[0]), n, navs[1..]);
    }
  }

  /** Previous undoes Next on any question before the last. */
  lemma PreviousUndoesNext(p: Position, n: nat)
    requires p.current + 1 < n
    ensures PreviousPosition(NextPosition(p, n)) == p
  {
  }

  /** On the results screen, pressing Next again changes nothing. */
  lemma NextOnResultsIsIdempotent(p: Position, n: nat)
    requires 0 < n && p.current == n - 1 && p.showResults
    ensures NextPosition(p, n) == p
  {
  }

  // ---------------------------------------------------------------------
  // The component

  /** Which of the three renderings the component shows. */
  datatype Screen = StartScreen | QuestionScreen | ResultsScreen

  class QuizCard {
    const title: string
    const description: string
    /** In minutes. */
    const timeLimit: nat
    const questions: seq<Question>
    const totalPoints: nat
    /** Seconds left: set once from the time limit; nothing ever counts it down. */
    const timeRemaining: nat

    var currentQuestion: nat
    /** Sparse: only answered questions have an entry. */
    var selectedAnswers: map<nat, nat>
    var showResults: bool
    var quizStarted: bool

    /** The current question is one of the quiz's, and every recorded answer is one of its question's options. */
    ghost predicate Valid()
      reads this
    {
      && |questions| > 0
      && timeRemaining == timeLimit * 60
      && currentQuestion < |questions|
      && forall q :: q in selectedAnswers ==> q < |questions| && selectedAnswers[q] < |questions[q].options|
    }

    /** The state the component mounts with, and returns to on "Retake Quiz". */
    ghost predicate IsInitial()
      reads this
    {
      currentQuestion == 0 && selectedAnswers == map[] && !showResults && !quizStarted
    }

    function At(): Position
      reads this
    {
      Position(currentQuestion, showResults)
    }

    /** The rendering branch taken: not started, then results, then the question. */
    function CurrentScreen(): (s: Screen)
      reads this
      ensures s == StartScreen <==> !quizStarted
      ensures s == ResultsScreen <==> quizStarted && showResults
    {
      if !quizStarted then StartScreen else if showResults then ResultsScreen else QuestionScreen
    }

    constructor (title: string, description: string, timeLimit: nat, questions: seq<Question>, totalPoints: nat)
      requires |questions| > 0
      ensures Valid() && IsInitial()
      ensures this.title == title && this.description == description && this.timeLimit == timeLimit
      ensures this.questions == questions && this.totalPoints == totalPoints
      ensures timeRemaining == timeLimit * 60
    {
      this.title := title;
      this.description := description;
      this.timeLimit := timeLimit;
      this.questions := questions;
      this.totalPoints := totalPoints;
      this.timeRemaining := timeLimit * 60;
      currentQuestion := 0;
      selectedAnswers := map[];
      showResults := false;
      quizStarted := false;
    }

    /** "Start Quiz". */
    method Start()
      requires Valid()
      modifies this`quizStarted
      ensures Valid() && quizStarted
    {
      quizStarted := true;
    }

    /**
     * handleAnswerSelect: record option `v` for the current question,
     * replacing any earlier choice for it. `v` is the index of one of the
     * question's options, since the radio values are exactly those indices.
     */
    method HandleAnswerSelect(v: nat)
      requires Valid()
      requires v < |questions[currentQuestion].options|
      modifies this`selectedAnswers
      ensures Valid()
      ensures selectedAnswers == old(selectedAnswers)[currentQuestion := v]
    {
      selectedAnswers := selectedAnswers[currentQuestion := v];
    }

    /** nextQuestion. */
    method NextQuestion()
      requires Valid()
      modifies this`currentQuestion, this`showResults
      ensures Valid()
      ensures At() == NextPosition(old(At()), |questions|)
    {
      if currentQuestion < |questions| - 1 {
        currentQuestion := currentQuestion + 1;
      } else {
        showResults := true;
      }
    }

    /** previousQuestion. */
    method PreviousQuestion()
      requires Valid()
      modifies this`currentQuestion
      ensures Valid()
      ensures At() == PreviousPosition(old(At()))
    {
      if currentQuestion > 0 {
        currentQuestion := currentQuestion - 1;
      }
    }

    /** "Retake Quiz": back to the state the component mounted with. */
    method Retake()
      requires Valid()
      modifies this
      ensures Valid() && IsInitial()
      ensures CurrentScreen() == StartScreen
    {
      currentQuestion := 0;
      selectedAnswers := map[];
      showResults := false;
      quizStarted := false;
    }

    /** The "Previous" button is enabled: not on the first question. */
    predicate CanGoPrevious()
      reads this
    {
      currentQuestion != 0
    }

    /** The "Next"/"Finish" button is enabled: the current question has an answer. */
    predicate CanGoNext()
      reads this
    {
      currentQuestion in selectedAnswers
    }

    /** calculateScore: count the correct answers question by question, then round. */
    method CalculateScore() returns (s: Score)
      requires |questions| > 0
      ensures s == ComputeScore(questions, selectedAnswers, totalPoints)
    {
      var correct := 0;
      var i := 0;
      while i < |questions|
        invariant 0 <= i <= |questions|
        invariant correct == CountCorrect(questions, selectedAnswers, i)
      {
        if i in selectedAnswers && selectedAnswers[i] == questions[i].correctAnswer {
          correct := correct + 1;
        }
        i := i + 1;
      }
      var n := |questions|;
      s := Score(correct, RoundedRatio(correct * 100, n), RoundedRatio(correct * totalPoints, n));
    }

    /** The remaining-time label: the time limit in whole minutes, then ":00". */
    function TimerLabel(): (r: string)
      requires Valid()
      reads this
      ensures r == Clock.DecimalString(timeLimit) + ":00"
      ensures Clock.ParseTime(r) == Clock.Some(timeLimit * 60)
    {
      Clock.WholeMinutesLabel(timeLimit);
      Clock.FormatTimeRoundTrip(timeLimit * 60);
      Clock.FormatTime(timeRemaining)
    }
  }
}
