/** The history screen (src/components/quiz/HistoryClient.tsx): the pass badge,
    reviewing an entry and retaking it in full. The list it shows is HistoryStore.Load. */
module HistoryView {
  import opened Wrappers
  import opened QuizTypes
  import Scoring
  import Results

  /** The badge is the pass colour exactly when accuracy is above 60: the same verdict
      the results screen gives the entry. */
  predicate PassBadge(item: QuizResult): (b: bool)
    ensures b <==> Results.IsSuccess(item)
  {
    Scoring.IsPass(item.accuracy)
  }

  /** The Retake button is disabled exactly for entries without a configuration. */
  predicate RetakeDisabled(item: QuizResult)
  {
    item.config.None?
  }

  /** Reviewing makes the entry, unchanged, the current result and opens the results page. */
  function Review(ctx: Context, item: QuizResult): (r: Action)
    ensures r.ctx.quizResult == Some(item)
    ensures r.ctx.quizData == ctx.quizData
    ensures r.notice.None? && r.route == Some(ResultsRoute)
  {
    Action(ctx.(quizResult := Some(item)), None, Some(ResultsRoute))
  }

  function RetakeLabel(topic: string): string
  {
    "Retake of quiz on \"" + topic + "\""
  }

  /** Retaking an entry: refused with a notice when it has no configuration; otherwise
      the full original quiz with its configuration copied unchanged. */
  function Retake(ctx: Context, item: QuizResult): (r: Action)
    ensures r.ctx.quizResult == ctx.quizResult
    ensures RetakeDisabled(item) ==> r == Action(ctx, Some(OlderVersion), None)
    ensures !RetakeDisabled(item) ==>
      && r.ctx.quizData == Some(Draft(item.quiz, RetakeLabel(item.topic), item.config.value))
      && r.notice.None? && r.route == Some(QuizRoute)
  {
    match item.config
    case None => Action(ctx, Some(OlderVersion), None)
    case Some(config) =>
      Action(ctx.(quizData := Some(Draft(item.quiz, RetakeLabel(item.topic), config))), None, Some(QuizRoute))
  }

  /** The button's state and the action agree: a retake produces a draft exactly when
      the button is enabled. */
  lemma RetakeButtonMatchesAction(ctx: Context, item: QuizResult)
    ensures !RetakeDisabled(item) <==> Retake(ctx, item).route == Some(QuizRoute)
  {
  }
}
