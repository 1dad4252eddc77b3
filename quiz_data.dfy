/** The question table of the quiz and what makes a question list usable. */
module QuizData {

  /** One multiple-choice question: an ordinal id, the text shown as the card
      title, the options in display order and the answer that scores. */
  datatype Question = Question(id: nat, text: string, options: seq<string>, correctAnswer: string)

  /** A question the quiz screen can show and score: every option can be
      selected (the empty string means "nothing selected", so no option is
      empty), and the correct answer is one of them. Distinct options are a
      data-integrity fact about the table: each option is used as a list key
      and an element id. The quiz flow itself does not depend on it. */
  predicate WellFormedQuestion(q: Question)
  {
    && "" !in q.options
    && (forall j, k :: 0 <= j < k < |q.options| ==> q.options[j] != q.options[k])
    && q.correctAnswer in q.options
  }

  /** A question list the quiz can run on: at least one question, each well formed. */
  predicate WellFormedQuiz(qs: seq<Question>)
  {
    |qs| > 0 && forall i :: 0 <= i < |qs| ==> WellFormedQuestion(qs[i])
  }

  /** The hardcoded five questions, numbered 1 to 5 in order. */
  function QuizQuestions(): (qs: seq<Question>)
    ensures |qs| == 5 && WellFormedQuiz(qs)
    ensures forall i :: 0 <= i < |qs| ==> qs[i].id == i + 1 && |qs[i].options| == 4
  {
    [Question1(), Question2(), Question3(), Question4(), Question5()]
  }

  function Question1(): (q: Question)
    ensures WellFormedQuestion(q)
  {
    Question(1, "What is the capital of France?",
             ["London", "Berlin", "Paris", "Madrid"], "Paris")
  }

  function Question2(): (q: Question)
    ensures WellFormedQuestion(q)
  {
    Question(2, "Which planet is known as the Red Planet?",
             ["Earth", "Mars", "Jupiter", "Venus"], "Mars")
  }

  function Question3(): (q: Question)
    ensures WellFormedQuestion(q)
  {
    Question(3, "What is 2 + 2?", ["3", "4", "5", "22"], "4")
  }

  function Question4(): (q: Question)
    ensures WellFormedQuestion(q)
  {
    Question(4, "Who painted the Mona Lisa?",
             ["Vincent van Gogh", "Pablo Picasso", "Leonardo da Vinci", "Michelangelo"],
             "Leonardo da Vinci")
  }

  function Question5(): (q: Question)
    ensures WellFormedQuestion(q)
  {
    Question(5, "Which element has the chemical symbol 'O'?",
             ["Gold", "Oxygen", "Osmium", "Oganesson"], "Oxygen")
  }
}
