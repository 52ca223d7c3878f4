/** The records the quiz screens pass around (src/types/quiz.ts and the shared
    quiz-creation context). */
module QuizTypes {
  import opened Wrappers

  datatype QuizMode = PerQuestion | TimedChallenge
  datatype Difficulty = Easy | Medium | Hard
  datatype QuestionType = AnyType | Facts | Concepts | CauseEffect
  datatype ExplanationTiming = Immediate | AtEnd

  /** One generated multiple-choice question. The correct index is only known to be
      non-negative: nothing ties it to the number of options. */
  datatype Question = Question(
    question: string,
    options: seq<string>,
    correctAnswerIndex: int,
    explanation: Option<string>)

  type Quiz = seq<Question>

  /** One slot per question: the chosen option index, or None while unanswered. */
  type Answers = seq<Option<int>>

  /** The quiz configuration. Drafts built by the configure and setup screens never set
      the fields held as Option, and spreading a configuration copies them as they are. */
  datatype Config = Config(
    numberOfQuestions: int,
    optionsPerQuestion: int,
    timer: int,
    quizMode: Option<QuizMode>,
    difficulty: Option<Difficulty>,
    questionType: Option<QuestionType>,
    keywords: Option<string>,
    explanationTiming: Option<ExplanationTiming>)

  /** The draft handed to the quiz screen: questions, source text and configuration. */
  datatype Draft = Draft(quiz: Quiz, documentText: string, config: Config)

  /** A finished attempt. `config` is absent on entries written by older versions. */
  datatype QuizResult = QuizResult(
    quiz: Quiz,
    answers: Answers,
    score: int,
    accuracy: real,
    time: string,
    topic: string,
    config: Option<Config>)

  /** The in-memory context shared by the quiz, results and history screens. */
  datatype Context = Context(quizData: Option<Draft>, quizResult: Option<QuizResult>)

  datatype Route = HomeRoute | UploadRoute | ConfigureRoute | QuizRoute | ResultsRoute

  /** A message shown to the user (toast or alert). */
  datatype Notice =
    | ConfigMissing
    | NothingToRetake
    | OlderVersion
    | TextTooShort
    | InvalidFileType
    | DocumentTextMissing
    | GenerationError(message: string)

  /** What a user action does: the new context, an optional notice, an optional navigation. */
  datatype Action = Action(ctx: Context, notice: Option<Notice>, route: Option<Route>)

  /** The timer choices offered by both configuration forms. */
  const TimerChoices: seq<string> := ["15", "30", "45", "60"]

  /** Reading an answer slot the way JavaScript reads an array: past the end is absent. */
  function AnswerAt(answers: Answers, i: nat): Option<int>
  {
    if i < |answers| then answers[i] else None
  }

  function Unanswered(n: nat): (r: Answers)
    ensures |r| == n
    ensures forall i :: 0 <= i < n ==> r[i] == None
  {
    seq(n, _ => None)
  }
}
