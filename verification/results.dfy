/** The results screen (src/components/quiz/ResultsClient.tsx): the pass verdict, the
    incorrect count, the all/correct/incorrect review filter, and "retake incorrect". */
module Results {
  import opened Wrappers
  import opened QuizTypes
  import Scoring

  /** The questions answered wrongly or not at all among the first n, in quiz order. */
  function IncorrectUpTo(quiz: Quiz, answers: Answers, n: nat): (r: Quiz)
    requires n <= |quiz|
    ensures |r| == n - Scoring.CountCorrect(quiz, answers, n)
  {
    if n == 0 then []
    else
      var tail := if Scoring.IsCorrect(quiz, answers, n - 1) then [] else [quiz[n - 1]];
      IncorrectUpTo(quiz, answers, n - 1) + tail
  }

  function IncorrectQuestions(quiz: Quiz, answers: Answers): (r: Quiz)
    ensures |r| == |quiz| - Scoring.Score(quiz, answers)
  {
    IncorrectUpTo(quiz, answers, |quiz|)
  }

  datatype ReviewFilter = ShowAll | ShowCorrect | ShowIncorrect

  predicate Shown(f: ReviewFilter, correct: bool)
  {
    match f
    case ShowAll => true
    case ShowCorrect => correct
    case ShowIncorrect => !correct
  }

  /** The positions among the first n the review list renders under filter f. */
  function ShownUpTo(quiz: Quiz, answers: Answers, f: ReviewFilter, n: nat): (r: seq<nat>)
    requires n <= |quiz|
    ensures forall k :: 0 <= k < |r| ==> r[k] < n
    ensures forall k, l :: 0 <= k < l < |r| ==> r[k] < r[l]
    ensures forall i :: 0 <= i < n ==> (i in r <==> Shown(f, Scoring.IsCorrect(quiz, answers, i)))
  {
    if n == 0 then []
    else
      var tail := if Shown(f, Scoring.IsCorrect(quiz, answers, n - 1)) then [n - 1] else [];
      ShownUpTo(quiz, answers, f, n - 1) + tail
  }

  /** The questions listed for review, by position, in quiz order. */
  function Visible(result: QuizResult, f: ReviewFilter): (r: seq<nat>)
    ensures forall k :: 0 <= k < |r| ==> r[k] < |result.quiz|
    ensures forall k, l :: 0 <= k < l < |r| ==> r[k] < r[l]
    ensures forall i :: 0 <= i < |result.quiz| ==>
      (i in r <==> Shown(f, Scoring.IsCorrect(result.quiz, result.answers, i)))
  {
    ShownUpTo(result.quiz, result.answers, f, |result.quiz|)
  }

  lemma {:induction false} ShowAllIsEverything(quiz: Quiz, answers: Answers, n: nat)
    requires n <= |quiz|
    ensures ShownUpTo(quiz, answers, ShowAll, n) == seq(n, i => i)
  {
    if n > 0 {
      ShowAllIsEverything(quiz, answers, n - 1);
      assert seq(n, i => i) == seq(n - 1, i => i) + [n - 1];
    }
  }

  lemma {:induction false} ShownCounts(quiz: Quiz, answers: Answers, n: nat)
    requires n <= |quiz|
    ensures |ShownUpTo(quiz, answers, ShowCorrect, n)| == Scoring.CountCorrect(quiz, answers, n)
    ensures |ShownUpTo(quiz, answers, ShowIncorrect, n)| == n - Scoring.CountCorrect(quiz, answers, n)
  {
    if n > 0 {
      ShownCounts(quiz, answers, n - 1);
    }
  }

  /** The filter partitions the list: 'all' shows every question in order, 'correct'
      shows as many as the score, 'incorrect' the rest, and no question is in both. */
  lemma FilterPartitions(result: QuizResult)
    ensures Visible(result, ShowAll) == seq(|result.quiz|, i => i)
    ensures |Visible(result, ShowCorrect)| == Scoring.Score(result.quiz, result.answers)
    ensures |Visible(result, ShowCorrect)| + |Visible(result, ShowIncorrect)| == |result.quiz|
    ensures forall i :: i in Visible(result, ShowCorrect) ==> i !in Visible(result, ShowIncorrect)
  {
    ShowAllIsEverything(result.quiz, result.answers, |result.quiz|);
    ShownCounts(result.quiz, result.answers, |result.quiz|);
  }

  /** The incorrect questions are exactly the questions the 'incorrect' filter shows,
      position for position. */
  lemma {:induction false} IncorrectMatchesFilter(quiz: Quiz, answers: Answers, n: nat)
    requires n <= |quiz|
    ensures |IncorrectUpTo(quiz, answers, n)| == |ShownUpTo(quiz, answers, ShowIncorrect, n)|
    ensures forall k :: 0 <= k < |IncorrectUpTo(quiz, answers, n)| ==>
      IncorrectUpTo(quiz, answers, n)[k] == quiz[ShownUpTo(quiz, answers, ShowIncorrect, n)[k]]
  {
    if n > 0 {
      IncorrectMatchesFilter(quiz, answers, n - 1);
      var prev := IncorrectUpTo(quiz, answers, n - 1);
      var idx := ShownUpTo(quiz, answers, ShowIncorrect, n - 1);
      if Scoring.IsCorrect(quiz, answers, n - 1) {
        assert IncorrectUpTo(quiz, answers, n) == prev;
        assert ShownUpTo(quiz, answers, ShowIncorrect, n) == idx;
      } else {
        var questions := prev + [quiz[n - 1]];
        var positions := idx + [n - 1];
        assert IncorrectUpTo(quiz, answers, n) == questions;
        assert ShownUpTo(quiz, answers, ShowIncorrect, n) == positions;
        forall k | 0 <= k < |questions|
          ensures questions[k] == quiz[positions[k]]
        {
          if k < |prev| {
            assert questions[k] == prev[k] && positions[k] == idx[k];
          }
        }
      }
    }
  }

  /** The pass verdict: accuracy strictly above 60. */
  predicate IsSuccess(result: QuizResult)
  {
    Scoring.IsPass(result.accuracy)
  }

  /** For a result whose accuracy was computed from its score, the verdict is success
      exactly when more than three fifths of the questions were answered right. */
  lemma IsSuccessIffProduct(result: QuizResult)
    requires |result.quiz| > 0
    requires Scoring.IsPercentage(result.accuracy, result.score, |result.quiz|)
    ensures IsSuccess(result) <==> 5 * result.score > 3 * |result.quiz|
  {
    Scoring.PassIffProduct(result.accuracy, result.score, |result.quiz|);
  }

  /** The incorrect count shown on the results screen, from the stored score. For a
      result scored by the quiz screen it is the number of incorrect questions. */
  function IncorrectCount(result: QuizResult): (r: int)
    ensures ScoredFromAnswers(result) ==> r == |IncorrectQuestions(result.quiz, result.answers)|
  {
    |result.quiz| - result.score
  }

  /** A result whose score was computed by the quiz screen. */
  predicate ScoredFromAnswers(result: QuizResult)
  {
    result.score == Scoring.Score(result.quiz, result.answers)
  }

  /** "Retake Incorrect" is disabled when the configuration is missing or nothing was
      answered wrongly. */
  predicate RetakeIncorrectEnabled(result: QuizResult)
  {
    result.config.Some? && IncorrectCount(result) != 0
  }

  function ReviewLabel(topic: string): string
  {
    "Review of incorrect answers for \"" + topic + "\""
  }

  /** Retaking the incorrect questions. Without a result or its configuration, or with
      nothing to retake, a notice is shown and nothing else changes. Otherwise the new
      draft holds exactly the incorrect questions, its question count is their number,
      every other setting is copied, and the quiz screen opens. */
  function RetakeIncorrect(ctx: Context): (r: Action)
    ensures r.ctx.quizResult == ctx.quizResult
    ensures ctx.quizResult.None? || ctx.quizResult.value.config.None? ==>
      r == Action(ctx, Some(ConfigMissing), None)
    ensures (&& ctx.quizResult.Some? && ctx.quizResult.value.config.Some?
             && |IncorrectQuestions(ctx.quizResult.value.quiz, ctx.quizResult.value.answers)| == 0) ==>
      r == Action(ctx, Some(NothingToRetake), None)
    ensures (&& ctx.quizResult.Some? && ctx.quizResult.value.config.Some?
             && |IncorrectQuestions(ctx.quizResult.value.quiz, ctx.quizResult.value.answers)| > 0) ==>
      var res := ctx.quizResult.value;
      var inc := IncorrectQuestions(res.quiz, res.answers);
      r == Action(ctx.(quizData := Some(Draft(inc, ReviewLabel(res.topic), res.config.value.(numberOfQuestions := |inc|)))),
                  None, Some(QuizRoute))
  {
    match ctx.quizResult
    case None => Action(ctx, Some(ConfigMissing), None)
    case Some(res) =>
      match res.config
      case None => Action(ctx, Some(ConfigMissing), None)
      case Some(config) =>
        var inc := IncorrectQuestions(res.quiz, res.answers);
        if |inc| == 0 then Action(ctx, Some(NothingToRetake), None)
        else
          var draft := Draft(inc, ReviewLabel(res.topic), config.(numberOfQuestions := |inc|));
          Action(ctx.(quizData := Some(draft)), None, Some(QuizRoute))
  }

  /** For a result scored by the quiz screen, whatever draft the context still holds,
      the button is enabled exactly when pressing it opens the quiz. */
  lemma RetakeButtonMatchesAction(ctx: Context)
    requires ctx.quizResult.Some? && ScoredFromAnswers(ctx.quizResult.value)
    ensures RetakeIncorrectEnabled(ctx.quizResult.value) <==> RetakeIncorrect(ctx).route == Some(QuizRoute)
  {
  }

  /** A perfect score leaves nothing to retake. */
  lemma PerfectScoreNothingToRetake(ctx: Context)
    requires ctx.quizResult.Some? && ctx.quizResult.value.config.Some?
    requires Scoring.Score(ctx.quizResult.value.quiz, ctx.quizResult.value.answers) == |ctx.quizResult.value.quiz|
    ensures RetakeIncorrect(ctx) == Action(ctx, Some(NothingToRetake), None)
  {
  }

  /** Three questions keyed 1, 0, 2 answered 1, 0, 0: score 2, a pass at 66.7%, and the
      third question alone to retake. */
  lemma ThreeQuestionExample()
    ensures var quiz := [Question("a", [], 1, None), Question("b", [], 0, None), Question("c", [], 2, None)];
      var answers := [Some(1), Some(0), Some(0)];
      && Scoring.Score(quiz, answers) == 2
      && Scoring.IsPass(Scoring.Accuracy(2, 3))
      && IncorrectQuestions(quiz, answers) == [quiz[2]]
  {
    Scoring.PassIffMoreThanThreeFifths(2, 3);
  }
}
