/** Scoring of a finished attempt (src/components/quiz/QuizClient.tsx, handleSubmit) and
    the pass threshold the results and history screens share. */
module Scoring {
  import opened Wrappers
  import opened QuizTypes

  const PassThreshold: real := 60.0

  /** Question i was answered with its correct index. An unanswered slot, or one past the
      end of the answers, never matches. */
  predicate IsCorrect(quiz: Quiz, answers: Answers, i: nat)
    requires i < |quiz|
  {
    AnswerAt(answers, i) == Some(quiz[i].correctAnswerIndex)
  }

  /** How many of the first n questions were answered correctly. */
  function CountCorrect(quiz: Quiz, answers: Answers, n: nat): (r: nat)
    requires n <= |quiz|
    ensures r <= n
  {
    if n == 0 then 0
    else CountCorrect(quiz, answers, n - 1) + (if IsCorrect(quiz, answers, n - 1) then 1 else 0)
  }

  function Score(quiz: Quiz, answers: Answers): (r: nat)
    ensures r <= |quiz|
  {
    CountCorrect(quiz, answers, |quiz|)
  }

  /** The positions among the first n that were answered correctly. */
  ghost function CorrectPositions(quiz: Quiz, answers: Answers, n: nat): set<nat>
    requires n <= |quiz|
  {
    set i: nat | i < n && IsCorrect(quiz, answers, i)
  }

  lemma {:induction false} CountCorrectIsCardinality(quiz: Quiz, answers: Answers, n: nat)
    requires n <= |quiz|
    ensures CountCorrect(quiz, answers, n) == |CorrectPositions(quiz, answers, n)|
  {
    if n > 0 {
      CountCorrectIsCardinality(quiz, answers, n - 1);
      var prev := CorrectPositions(quiz, answers, n - 1);
      if IsCorrect(quiz, answers, n - 1) {
        assert CorrectPositions(quiz, answers, n) == prev + {n - 1};
      } else {
        assert CorrectPositions(quiz, answers, n) == prev;
      }
    }
  }

  /** The score is the number of positions whose answer equals the question's correct index. */
  lemma ScoreCountsMatches(quiz: Quiz, answers: Answers)
    ensures Score(quiz, answers) == |set i: nat | i < |quiz| && AnswerAt(answers, i) == Some(quiz[i].correctAnswerIndex)|
  {
    CountCorrectIsCardinality(quiz, answers, |quiz|);
    assert CorrectPositions(quiz, answers, |quiz|)
        == set i: nat | i < |quiz| && AnswerAt(answers, i) == Some(quiz[i].correctAnswerIndex);
  }

  /** A quiz with no answer recorded scores zero. */
  lemma {:induction false} UnansweredScoresZero(quiz: Quiz, n: nat)
    requires n <= |quiz|
    ensures CountCorrect(quiz, Unanswered(|quiz|), n) == 0
  {
    if n > 0 {
      UnansweredScoresZero(quiz, n - 1);
    }
  }

  /** acc is the percentage of score out of total: acc · total = 100 · score. */
  predicate IsPercentage(acc: real, score: int, total: nat)
  {
    acc * (total as real) == 100.0 * (score as real)
  }

  /** Accuracy as a percentage: 100 * score / total, exactly. */
  function Accuracy(score: nat, total: nat): (r: real)
    requires total > 0
    ensures IsPercentage(r, score, total)
    ensures score <= total ==> 0.0 <= r <= 100.0
  {
    (score as real / total as real) * 100.0
  }

  predicate IsPass(accuracy: real)
  {
    accuracy > PassThreshold
  }

  /** Any accuracy with accuracy · total = 100 · score passes exactly when more than
      three fifths of the questions were right. */
  lemma PassIffProduct(accuracy: real, score: int, total: nat)
    requires total > 0
    requires IsPercentage(accuracy, score, total)
    ensures IsPass(accuracy) <==> 5 * score > 3 * total
  {
    var t := total as real;
    if accuracy > 60.0 {
      assert accuracy * t > 60.0 * t;
    } else {
      assert accuracy * t <= 60.0 * t;
    }
  }

  /** Passing means strictly more than three fifths of the questions were right. */
  lemma PassIffMoreThanThreeFifths(score: nat, total: nat)
    requires total > 0
    ensures IsPass(Accuracy(score, total)) <==> 5 * score > 3 * total
  {
    PassIffProduct(Accuracy(score, total), score, total);
  }
}
