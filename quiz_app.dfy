/** The quiz component: a three-screen state machine over five state cells,
    four handlers that update them, and the values derived from them for
    display. */
module QuizApp {
  import opened QuizData
  import opened QuizScoring

  /** The screen being shown. */
  datatype QuizState = StartState | QuestionState | ResultState

  /** A fraction with a smaller non-negative numerator lies in [0, 1): the
      progress bar never reaches 100 while a question is shown. */
  lemma QuotientBelowOne(i: real, n: real)
    requires 0.0 <= i < n
    ensures 0.0 <= i / n < 1.0
  {
    var q := i / n;
    assert q * n == i;
    assert (1.0 - q) * n == n - i;
  }

  class QuizSession {
    /** The questions, fixed for the life of the component. */
    const questions: seq<Question>

    var quizState: QuizState
    var currentQuestionIndex: int
    var selectedAnswer: string
    var score: int
    var userAnswers: seq<string>

    /** The invariant every handler keeps. */
    ghost predicate Valid()
      reads this
    {
      && WellFormedQuiz(questions)
      // the index always names a question, so the current question exists
      && 0 <= currentQuestionIndex < |questions|
      && |userAnswers| <= |questions|
      // the score counts exactly the logged answers that are correct
      && score == CorrectCount(userAnswers, questions)
      // every logged answer was an option of the question it answers
      && (forall i :: 0 <= i < |userAnswers| ==> userAnswers[i] in questions[i].options)
      // the selection is empty or an option of the current question
      && (selectedAnswer == "" || selectedAnswer in questions[currentQuestionIndex].options)
      && match quizState
         case StartState => AtInitialValues()
         // one logged answer per question already passed
         case QuestionState => |userAnswers| == currentQuestionIndex
         // every question answered, the index left on the last one
         case ResultState => |userAnswers| == |questions| && currentQuestionIndex == |questions| - 1
    }

    /** The five state cells hold the values they are declared with. */
    ghost predicate AtInitialValues()
      reads this
    {
      && quizState == StartState
      && currentQuestionIndex == 0
      && selectedAnswer == ""
      && score == 0
      && userAnswers == []
    }

    /** What the invariant gives the screens: the score never exceeds the
        answers logged, which never exceed the questions, and once past the
        start screen the index is the log length, capped at the last question. */
    lemma ScoreBounds()
      requires Valid()
      ensures 0 <= score <= |userAnswers| <= |questions|
      ensures quizState != StartState
          ==> currentQuestionIndex == if |userAnswers| < |questions| then |userAnswers| else |questions| - 1
      ensures quizState == StartState ==> userAnswers == [] && score == 0
    {
    }

    /** The review lists every question and marks it correct when its logged
        answer equals its correct answer. It marks exactly as many questions
        correct as the score reports. */
    lemma ReviewMatchesScore()
      requires Valid()
      ensures |set i: nat | i < |questions| && AnswerIsCorrect(userAnswers, questions, i)| == score
    {
      assert (set i: nat | i < |questions| && AnswerIsCorrect(userAnswers, questions, i))
          == CorrectIndices(userAnswers, questions);
    }

    /** A fresh component on the given questions, on the start screen. */
    constructor (qs: seq<Question>)
      requires WellFormedQuiz(qs)
      ensures Valid() && AtInitialValues() && questions == qs
    {
      questions := qs;
      quizState := StartState;
      currentQuestionIndex := 0;
      selectedAnswer := "";
      score := 0;
      userAnswers := [];
      new;
      CorrectCountEmpty(qs);
    }

    /** The question the index names. On the question screen it is the one
        whose answer will be logged next. */
    function CurrentQuestion(): (q: Question)
      reads this
      requires Valid()
      ensures WellFormedQuestion(q)
      ensures quizState == QuestionState ==> q == questions[|userAnswers|]
      ensures quizState == ResultState ==> q == questions[|questions| - 1]
    {
      questions[currentQuestionIndex]
    }

    /** The progress bar's value in percent: the share of questions already
        answered, so 0 on the first question and below 100 on the last. */
    function Progress(): (p: real)
      reads this
      requires Valid()
      ensures 0.0 <= p < 100.0
      ensures p == 0.0 <==> currentQuestionIndex == 0
      ensures quizState == QuestionState ==> p == (|userAnswers| as real / |questions| as real) * 100.0
    {
      var n := |questions| as real;
      var i := currentQuestionIndex as real;
      QuotientBelowOne(i, n);
      (i / n) * 100.0
    }

    /** The score equals the number of questions. This can only happen on the
        result screen, and there it holds exactly when the review would mark
        every question correct. */
    function IsPerfectScore(): (r: bool)
      reads this
      requires Valid()
      ensures r ==> quizState == ResultState
      ensures quizState == ResultState
          ==> (r <==> forall i :: 0 <= i < |questions| ==> AnswerIsCorrect(userAnswers, questions, i))
    {
      // The two branches are identical on purpose: both compute the flag of
      // app/Quiz.tsx:89. The first exists only to call the lemma, whose
      // precondition (one logged answer per question) holds on the result screen.
      if quizState == ResultState then
        AllCorrectIffFullCount(userAnswers, questions);
        score == |questions|
      else
        score == |questions|
    }

    /** The Next button reads "Finish Quiz": the answer about to be logged is
        the last one the quiz asks for. */
    function ShowsFinishLabel(): (r: bool)
      reads this
      requires Valid() && quizState == QuestionState
      ensures r <==> |userAnswers| + 1 == |questions|
    {
      currentQuestionIndex == |questions| - 1
    }

    /** The Start button: show the first question with a cleared score and
        log. The selection is not touched; it is already empty here. */
    method HandleStartQuiz()
      requires Valid() && quizState == StartState
      modifies this
      ensures Valid()
      ensures quizState == QuestionState && currentQuestionIndex == 0
      ensures score == 0 && userAnswers == []
      ensures selectedAnswer == old(selectedAnswer) == ""
    {
      quizState := QuestionState;
      currentQuestionIndex := 0;
      score := 0;
      userAnswers := [];
      CorrectCountEmpty(questions);
    }

    /** Choosing a radio option of the current question: only the selection
        changes. */
    method HandleAnswerSelect(answer: string)
      requires Valid() && quizState == QuestionState
      requires answer in CurrentQuestion().options
      modifies this`selectedAnswer
      ensures Valid() && selectedAnswer == answer
    {
      selectedAnswer := answer;
    }

    /** The Next / Finish button, enabled only with a selection: log the
        selection, score it, then move to the next question with a cleared
        selection, or on the last question to the result screen. */
    method HandleNextQuestion()
      requires Valid() && quizState == QuestionState
      requires selectedAnswer != ""
      modifies this
      ensures Valid()
      ensures userAnswers == old(userAnswers) + [old(selectedAnswer)]
      ensures score == old(score)
        + (if old(selectedAnswer) == old(CurrentQuestion()).correctAnswer then 1 else 0)
      ensures quizState == ResultState <==> old(ShowsFinishLabel())
      ensures old(ShowsFinishLabel()) ==>
        currentQuestionIndex == old(currentQuestionIndex) && selectedAnswer == old(selectedAnswer)
      ensures !old(ShowsFinishLabel()) ==>
        quizState == QuestionState && currentQuestionIndex == old(currentQuestionIndex) + 1
        && selectedAnswer == ""
    {
      var current := CurrentQuestion();
      CorrectCountAppend(userAnswers, questions, selectedAnswer);
      userAnswers := userAnswers + [selectedAnswer];
      if selectedAnswer == current.correctAnswer {
        score := score + 1;
      }
      if currentQuestionIndex < |questions| - 1 {
        currentQuestionIndex := currentQuestionIndex + 1;
        selectedAnswer := "";
      } else {
        quizState := ResultState;
      }
    }

    /** Both result-screen buttons ("Try Again" and "Reveal Prize"): put every
        state cell back to its initial value, from whatever state. */
    method HandleRestartQuiz()
      requires Valid()
      modifies this
      ensures Valid() && AtInitialValues()
    {
      quizState := StartState;
      currentQuestionIndex := 0;
      selectedAnswer := "";
      score := 0;
      userAnswers := [];
      CorrectCountEmpty(questions);
    }
  }
}
