/** What the score means: the number of logged answers that match their
    question's correct answer, and the per-question comparison the review
    screen shows. */
module QuizScoring {
  import opened QuizData

  /** The review comparison for the question at `index`: its logged answer
      equals its correct answer. An index past the end of the log reads an
      absent entry, which never equals a string, so it is not correct. */
  predicate AnswerIsCorrect(answers: seq<string>, qs: seq<Question>, index: nat)
    requires index < |qs|
  {
    index < |answers| && answers[index] == qs[index].correctAnswer
  }

  /** The indices `0 .. n-1`. */
  function Indices(n: nat): (r: set<nat>)
    ensures forall i: nat :: i in r <==> i < n
  {
    if n == 0 then {} else Indices(n - 1) + {n - 1}
  }

  /** The indices of the logged answers that are correct. */
  function CorrectIndices(answers: seq<string>, qs: seq<Question>): (c: set<nat>)
    requires |answers| <= |qs|
    ensures c <= Indices(|answers|)
  {
    set i: nat | i < |answers| && AnswerIsCorrect(answers, qs, i)
  }

  /** How many logged answers are correct: what the score must equal. */
  function CorrectCount(answers: seq<string>, qs: seq<Question>): (n: nat)
    requires |answers| <= |qs|
    ensures n <= |answers|
  {
    IndicesSize(|answers|);
    SubsetSize(CorrectIndices(answers, qs), Indices(|answers|));
    |CorrectIndices(answers, qs)|
  }

  lemma {:induction false} IndicesSize(n: nat)
    ensures |Indices(n)| == n
  {
    if n > 0 {
      IndicesSize(n - 1);
    }
  }

  /** A subset is no larger, and strictly smaller when it misses an element. */
  lemma SubsetSize(a: set<nat>, b: set<nat>)
    requires a <= b
    ensures |a| <= |b|
    ensures a != b ==> |a| < |b|
  {
    assert b == a + (b - a);
    if a != b {
      var x :| x in b - a;
      assert |b - a| >= 1 by { assert {x} <= b - a; }
    }
  }

  /** Logging one more answer adds one to the count exactly when that answer is
      correct for the question it answers, and leaves it unchanged otherwise. */
  lemma CorrectCountAppend(answers: seq<string>, qs: seq<Question>, answer: string)
    requires |answers| < |qs|
    ensures CorrectCount(answers + [answer], qs)
         == CorrectCount(answers, qs) + (if answer == qs[|answers|].correctAnswer then 1 else 0)
  {
    var longer := answers + [answer];
    var n := |answers|;
    var before := CorrectIndices(answers, qs);
    var after := CorrectIndices(longer, qs);
    forall i: nat | i < n
      ensures AnswerIsCorrect(longer, qs, i) == AnswerIsCorrect(answers, qs, i)
    {
      assert longer[i] == answers[i];
    }
    assert n !in before;
    assert AnswerIsCorrect(longer, qs, n) == (answer == qs[n].correctAnswer);
    if answer == qs[n].correctAnswer {
      assert after == before + {n};
    } else {
      assert after == before;
    }
  }

  /** No answers, no score. */
  lemma CorrectCountEmpty(qs: seq<Question>)
    ensures CorrectCount([], qs) == 0
  {
    assert CorrectIndices([], qs) == {};
  }

  /** With one logged answer per question, the count reaches the number of
      questions exactly when every logged answer is correct. */
  lemma AllCorrectIffFullCount(answers: seq<string>, qs: seq<Question>)
    requires |answers| == |qs|
    ensures CorrectCount(answers, qs) == |qs|
        <==> forall i :: 0 <= i < |qs| ==> AnswerIsCorrect(answers, qs, i)
  {
    var c := CorrectIndices(answers, qs);
    IndicesSize(|qs|);
    if forall i :: 0 <= i < |qs| ==> AnswerIsCorrect(answers, qs, i) {
      assert c == Indices(|qs|);
    } else {
      var i :| 0 <= i < |qs| && !AnswerIsCorrect(answers, qs, i);
      assert i !in c;
      SubsetSize(c, Indices(|qs|));
      assert c != Indices(|qs|);
    }
  }
}
