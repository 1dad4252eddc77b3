/** Two complete play-throughs of the hardcoded quiz, driven only through the
    handlers, as a user clicking through the screens would. */
module QuizScenarios {
  import opened QuizData
  import opened QuizScoring
  import opened QuizApp

  /** Selects `answer` on the current question and presses Next. */
  method AnswerAndAdvance(s: QuizSession, answer: string)
    requires s.Valid() && s.quizState == QuestionState
    requires answer in s.CurrentQuestion().options
    modifies s
    ensures s.Valid()
    ensures s.userAnswers == old(s.userAnswers) + [answer]
    ensures s.score == old(s.score) + (if answer == old(s.CurrentQuestion()).correctAnswer then 1 else 0)
    ensures s.quizState == ResultState <==> |s.userAnswers| == |s.questions|
  {
    s.HandleAnswerSelect(answer);
    assert answer != "" by { assert WellFormedQuestion(s.CurrentQuestion()); }
    s.HandleNextQuestion();
  }

  /** Every question answered correctly: the result screen with a perfect
      score of 5. The restart then brings back the start screen. */
  method PerfectRun() returns (finalState: QuizState, finalScore: int, perfect: bool, afterRestart: QuizState)
    ensures finalState == ResultState && finalScore == 5 && perfect
    ensures afterRestart == StartState
  {
    var s := new QuizSession(QuizQuestions());
    s.HandleStartQuiz();
    AnswerAndAdvance(s, "Paris");
    AnswerAndAdvance(s, "Mars");
    AnswerAndAdvance(s, "4");
    AnswerAndAdvance(s, "Leonardo da Vinci");
    AnswerAndAdvance(s, "Oxygen");
    finalState := s.quizState;
    finalScore := s.score;
    perfect := s.IsPerfectScore();
    s.HandleRestartQuiz();
    afterRestart := s.quizState;
  }

  /** "5" is an option of the third question but not its correct answer. */
  lemma ThirdAnswerIsWrong()
    ensures "5" in QuizQuestions()[2].options
    ensures QuizQuestions()[2].correctAnswer != "5"
  {
    assert QuizQuestions()[2] == Question3();
    assert "5"[0] != "4"[0];
  }

  /** The first two questions of the hardcoded quiz, answered correctly. */
  method PlayFirstTwo(s: QuizSession)
    requires s.Valid() && s.quizState == QuestionState && s.userAnswers == []
    requires s.questions == QuizQuestions()
    modifies s
    ensures s.Valid() && s.quizState == QuestionState
    ensures s.userAnswers == ["Paris", "Mars"] && s.score == 2
  {
    AnswerAndAdvance(s, "Paris");
    AnswerAndAdvance(s, "Mars");
  }

  /** Plays the hardcoded quiz from its first question, answering the third
      question with "5" and every other one correctly. */
  method PlayWithThirdWrong(s: QuizSession)
    requires s.Valid() && s.quizState == QuestionState && s.userAnswers == []
    requires s.questions == QuizQuestions()
    modifies s
    ensures s.Valid() && s.quizState == ResultState
    ensures s.score == 4 && s.userAnswers[2] == "5"
  {
    PlayFirstTwo(s);
    ThirdAnswerIsWrong();
    AnswerAndAdvance(s, "5");
    assert s.userAnswers == ["Paris", "Mars", "5"] && s.score == 2;
    AnswerAndAdvance(s, "Leonardo da Vinci");
    AnswerAndAdvance(s, "Oxygen");
  }

  /** The third question answered wrongly, the rest correctly: a score of 4,
      no perfect score, and the review shows the wrong answer at index 2. */
  method OneWrongRun() returns (finalScore: int, perfect: bool, reviewed: string, reviewedCorrect: bool)
    ensures finalScore == 4 && !perfect
    ensures reviewed == "5" && !reviewedCorrect
  {
    var s := new QuizSession(QuizQuestions());
    s.HandleStartQuiz();
    PlayWithThirdWrong(s);
    finalScore := s.score;
    perfect := s.IsPerfectScore();
    reviewed := s.userAnswers[2];
    reviewedCorrect := AnswerIsCorrect(s.userAnswers, s.questions, 2);
  }
}
