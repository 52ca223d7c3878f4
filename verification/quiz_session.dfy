/** The quiz-taking screen (src/components/quiz/QuizClient.tsx): the current question,
    one answer slot per question, the per-question countdown, the button gating, and
    submission into a scored result and the capped history. The one-second interval is
    an explicit `ClockTick` event and the submission time is an input. */
module QuizSession {
  import opened Wrappers
  import opened QuizTypes
  import Scoring
  import HistoryStore
  import JsStrings

  /** Countdown used when the draft's timer is 0, which JavaScript treats as absent. */
  const FallbackTime := 30
  const TopicLength := 50
  const Ellipsis := "..."

  datatype Session = Session(draft: Draft, index: nat, answers: Answers, timeLeft: int)

  /** The state invariant: a non-empty quiz, the index in range, one slot per question. */
  predicate Valid(s: Session)
  {
    0 < |s.draft.quiz| && s.index < |s.draft.quiz| && |s.answers| == |s.draft.quiz|
  }

  predicate PerQuestionTimer(d: Draft)
  {
    d.config.quizMode == Some(PerQuestion)
  }

  predicate IsAnswered(s: Session)
  {
    AnswerAt(s.answers, s.index).Some?
  }

  function LastIndex(s: Session): int
  {
    |s.draft.quiz| - 1
  }

  /** Bringing the answers back to one slot per question: kept as they are when the
      length already matches, otherwise replaced by fresh unanswered slots. */
  function Resync(answers: Answers, n: nat): (r: Answers)
    ensures |r| == n
    ensures |answers| == n ==> r == answers
    ensures |answers| != n ==> forall i :: 0 <= i < n ==> r[i].None?
  {
    if |answers| == n then answers else Unanswered(n)
  }

  function InitialTime(timer: int): int
  {
    if timer == 0 then FallbackTime else timer
  }

  /** Opening the screen: no draft redirects to the upload page; an empty quiz has no
      first question to show; otherwise the first question, nothing answered. */
  datatype StartOutcome = NoQuiz | EmptyQuiz | Started(session: Session)

  function Start(quizData: Option<Draft>): (r: StartOutcome)
    ensures r.NoQuiz? <==> quizData.None?
    ensures r.EmptyQuiz? <==> quizData.Some? && |quizData.value.quiz| == 0
    ensures r.Started? ==>
      && Valid(r.session)
      && r.session.draft == quizData.value
      && r.session.index == 0
      && (forall i :: 0 <= i < |r.session.answers| ==> r.session.answers[i].None?)
    ensures r.Started? && PerQuestionTimer(quizData.value) ==> r.session.timeLeft == quizData.value.config.timer
    ensures r.Started? && !PerQuestionTimer(quizData.value) && quizData.value.config.timer != 0 ==>
      r.session.timeLeft == quizData.value.config.timer
  {
    match quizData
    case None => NoQuiz
    case Some(d) =>
      if |d.quiz| == 0 then EmptyQuiz
      else
        var answers := Resync(Unanswered(|d.quiz|), |d.quiz|);
        var time := if PerQuestionTimer(d) then d.config.timer else InitialTime(d.config.timer);
        Started(Session(d, 0, answers, time))
  }

  /** Choosing an option is write-once: an answered question keeps its answer, an
      unanswered one gets the choice, and no other slot changes. */
  function Select(s: Session, option: int): (r: Session)
    requires Valid(s)
    ensures Valid(r) && IsAnswered(r)
    ensures r.draft == s.draft && r.index == s.index && r.timeLeft == s.timeLeft
    ensures IsAnswered(s) ==> r == s
    ensures !IsAnswered(s) ==> r.answers[s.index] == Some(option)
    ensures forall j :: 0 <= j < |s.answers| && j != s.index ==> r.answers[j] == s.answers[j]
  {
    if IsAnswered(s) then s else s.(answers := s.answers[s.index := Some(option)])
  }

  /** Moving forward stops at the last question; a move in per-question mode restarts
      the countdown. */
  function Next(s: Session): (r: Session)
    requires Valid(s)
    ensures Valid(r) && r.draft == s.draft && r.answers == s.answers
    ensures s.index < LastIndex(s) ==> r.index == s.index + 1
    ensures s.index < LastIndex(s) && PerQuestionTimer(s.draft) ==> r.timeLeft == s.draft.config.timer
    ensures s.index < LastIndex(s) && !PerQuestionTimer(s.draft) ==> r.timeLeft == s.timeLeft
    ensures s.index == LastIndex(s) ==> r == s
  {
    if s.index < LastIndex(s) then
      var time := if PerQuestionTimer(s.draft) then s.draft.config.timer else s.timeLeft;
      s.(index := s.index + 1, timeLeft := time)
    else s
  }

  /** Moving back stops at the first question, with the same countdown rule. Recorded
      answers are kept. */
  function Previous(s: Session): (r: Session)
    requires Valid(s)
    ensures Valid(r) && r.draft == s.draft && r.answers == s.answers
    ensures s.index > 0 ==> r.index == s.index - 1
    ensures s.index > 0 && PerQuestionTimer(s.draft) ==> r.timeLeft == s.draft.config.timer
    ensures s.index > 0 && !PerQuestionTimer(s.draft) ==> r.timeLeft == s.timeLeft
    ensures s.index == 0 ==> r == s
  {
    if s.index > 0 then
      var time := if PerQuestionTimer(s.draft) then s.draft.config.timer else s.timeLeft;
      s.(index := s.index - 1, timeLeft := time)
    else s
  }

  /** One second of the countdown. It runs only in per-question mode while the current
      question is unanswered; on expiry it moves on (or, at the last question, stays)
      and the clock starts again from the configured time. */
  function Tick(s: Session): (r: Session)
    requires Valid(s)
    ensures Valid(r) && r.draft == s.draft && r.answers == s.answers
    ensures !PerQuestionTimer(s.draft) || IsAnswered(s) ==> r == s
    ensures PerQuestionTimer(s.draft) && !IsAnswered(s) && s.timeLeft > 1 ==>
      r == s.(timeLeft := s.timeLeft - 1)
    ensures PerQuestionTimer(s.draft) && !IsAnswered(s) && s.timeLeft <= 1 ==>
      && r.timeLeft == s.draft.config.timer
      && r.index == (if s.index < LastIndex(s) then s.index + 1 else s.index)
  {
    if !PerQuestionTimer(s.draft) || IsAnswered(s) then s
    else if s.timeLeft <= 1 then Next(s).(timeLeft := s.draft.config.timer)
    else s.(timeLeft := s.timeLeft - 1)
  }

  /** The navigation buttons: Previous is disabled on the first question; Next (before
      the last question) and Submit (on it) need the current question answered. */
  predicate PreviousEnabled(s: Session)
  {
    s.index != 0
  }

  predicate NextEnabled(s: Session)
  {
    s.index != LastIndex(s) && IsAnswered(s)
  }

  predicate SubmitEnabled(s: Session)
  {
    s.index == LastIndex(s) && IsAnswered(s)
  }

  datatype Event = Choose(option: int) | PressNext | PressPrevious | ClockTick

  /** One user or clock event. A click on a disabled button does nothing; the clock is
      not gated by the buttons. */
  function Step(s: Session, e: Event): (r: Session)
    requires Valid(s)
    ensures Valid(r) && r.draft == s.draft
    ensures forall j :: 0 <= j < |s.answers| && s.answers[j].Some? ==> r.answers[j] == s.answers[j]
    ensures e.PressNext? && !NextEnabled(s) ==> r == s
    ensures e.PressPrevious? && !PreviousEnabled(s) ==> r == s
  {
    match e
    case Choose(option) => Select(s, option)
    case PressNext => if NextEnabled(s) then Next(s) else s
    case PressPrevious => if PreviousEnabled(s) then Previous(s) else s
    case ClockTick => Tick(s)
  }

  /** The buttons' states agree with what pressing them does: an enabled Previous or
      Next moves by one and a disabled one does not move; an answered question enables
      exactly one of Next and Submit, an unanswered one neither. */
  lemma GatingMatchesSteps(s: Session)
    requires Valid(s)
    ensures PreviousEnabled(s) <==> Step(s, PressPrevious).index == s.index - 1
    ensures NextEnabled(s) <==> Step(s, PressNext).index == s.index + 1
    ensures !(NextEnabled(s) && SubmitEnabled(s))
    ensures IsAnswered(s) <==> NextEnabled(s) || SubmitEnabled(s)
  {
  }

  function Run(s: Session, events: seq<Event>): (r: Session)
    requires Valid(s)
    ensures Valid(r) && r.draft == s.draft && |r.answers| == |s.answers|
    decreases |events|
  {
    if |events| == 0 then s else Run(Step(s, events[0]), events[1..])
  }

  /** No sequence of events ever changes an answer once it is recorded. */
  lemma {:induction false} RunKeepsAnswers(s: Session, events: seq<Event>)
    requires Valid(s)
    ensures forall j :: 0 <= j < |s.answers| && s.answers[j].Some? ==> Run(s, events).answers[j] == s.answers[j]
    decreases |events|
  {
    if |events| > 0 {
      var s1 := Step(s, events[0]);
      RunKeepsAnswers(s1, events[1..]);
    }
  }

  /** Every question behind the current one has an answer. */
  predicate AnsweredBehind(s: Session)
  {
    forall j :: 0 <= j < s.index && j < |s.answers| ==> s.answers[j].Some?
  }

  /** Without the per-question timer, the only way forward is the Next button, so every
      question behind the current one is always answered. */
  lemma {:induction false} RunWithoutTimerAnswersBehind(s: Session, events: seq<Event>)
    requires Valid(s) && !PerQuestionTimer(s.draft) && AnsweredBehind(s)
    ensures AnsweredBehind(Run(s, events))
    decreases |events|
  {
    if |events| > 0 {
      var s1 := Step(s, events[0]);
      assert AnsweredBehind(s1);
      RunWithoutTimerAnswersBehind(s1, events[1..]);
    }
  }

  /** Consequently, without the per-question timer, a quiz can only be submitted with
      every question answered. */
  lemma SubmitWithoutTimerIsComplete(d: Draft, events: seq<Event>)
    requires Start(Some(d)).Started? && !PerQuestionTimer(d)
    ensures SubmitEnabled(Run(Start(Some(d)).session, events)) ==>
      forall j :: 0 <= j < |d.quiz| ==> Run(Start(Some(d)).session, events).answers[j].Some?
  {
    var s := Start(Some(d)).session;
    RunWithoutTimerAnswersBehind(s, events);
  }

  /** n clock ticks in a row. */
  function Ticks(s: Session, n: nat): (r: Session)
    requires Valid(s)
    ensures Valid(r) && r.draft == s.draft && r.answers == s.answers
  {
    if n == 0 then s else Tick(Ticks(s, n - 1))
  }

  lemma {:induction false} TicksCountDown(s: Session, n: nat)
    requires Valid(s) && PerQuestionTimer(s.draft) && !IsAnswered(s) && n < s.timeLeft
    ensures Ticks(s, n) == s.(timeLeft := s.timeLeft - n)
  {
    if n > 0 {
      TicksCountDown(s, n - 1);
    }
  }

  /** A question left unanswered for as many ticks as its countdown shows is skipped:
      the next question comes up, still unanswered, with a fresh countdown. */
  lemma TimeoutAdvances(s: Session)
    requires Valid(s) && PerQuestionTimer(s.draft) && !IsAnswered(s)
    requires s.index < LastIndex(s) && s.timeLeft >= 1
    ensures Ticks(s, s.timeLeft as nat).index == s.index + 1
    ensures Ticks(s, s.timeLeft as nat).timeLeft == s.draft.config.timer
    ensures Ticks(s, s.timeLeft as nat).answers[s.index].None?
  {
    TicksCountDown(s, s.timeLeft as nat - 1);
  }

  /** The history label: the document text cut at fifty UTF-16 code units, then "...".
      The kept part is the longest prefix of the text that fits; for text inside the
      Basic Multilingual Plane it is the first fifty characters. */
  function Topic(text: string): (r: string)
    ensures |r| >= |Ellipsis| && r[|r| - |Ellipsis|..] == Ellipsis
    ensures JsStrings.LongestFit(r[..|r| - |Ellipsis|], text, TopicLength)
    ensures JsStrings.AllBasic(text) ==> |r| == Min(|text|, TopicLength) + |Ellipsis|
  {
    var head := JsStrings.Utf16Prefix(text, TopicLength);
    assert (head + Ellipsis)[..|head|] == head;
    head + Ellipsis
  }

  /** The result recorded at submission. */
  function BuildResult(s: Session, now: string): (r: QuizResult)
    requires Valid(s)
    ensures r.quiz == s.draft.quiz && r.answers == s.answers
    ensures r.score == Scoring.Score(s.draft.quiz, s.answers) && 0 <= r.score <= |r.quiz|
    ensures Scoring.IsPercentage(r.accuracy, r.score, |r.quiz|)
    ensures 0.0 <= r.accuracy <= 100.0
    ensures r.topic == Topic(s.draft.documentText)
    ensures r.time == now
    ensures r.config == Some(s.draft.config)
  {
    var score := Scoring.Score(s.draft.quiz, s.answers);
    QuizResult(s.draft.quiz, s.answers, score, Scoring.Accuracy(score, |s.draft.quiz|),
               now, Topic(s.draft.documentText), Some(s.draft.config))
  }

  datatype Submission = Submission(ctx: Context, history: seq<QuizResult>, route: Route)

  /** Submitting: the result becomes the shared current result, it is prepended to the
      stored history (capped), and the results page opens. The draft is untouched. */
  function Submit(ctx: Context, s: Session, stored: Option<seq<QuizResult>>, now: string): (r: Submission)
    requires Valid(s)
    ensures r.ctx.quizData == ctx.quizData
    ensures r.ctx.quizResult == Some(BuildResult(s, now))
    ensures |r.history| == Min(|HistoryStore.Load(stored)| + 1, HistoryStore.Cap)
    ensures r.history[0] == BuildResult(s, now)
    ensures r.history[1..] == HistoryStore.Load(stored)[..|r.history| - 1]
    ensures r.route == ResultsRoute
  {
    var result := BuildResult(s, now);
    Submission(ctx.(quizResult := Some(result)), HistoryStore.Push(result, HistoryStore.Load(stored)), ResultsRoute)
  }
}
