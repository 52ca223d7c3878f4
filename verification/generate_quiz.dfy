/** The request and response schemas of the quiz-generation flow
    (src/ai/flows/generate-quiz.ts) and the server action wrapping it (src/lib/actions.ts).
    The language model itself is an oracle: its reply is an input of `Generate`. */
module GenerateQuiz {
  import opened Wrappers
  import opened QuizTypes
  import opened JsNumbers

  const MinQuestions := 1
  const MaxQuestions := 500
  const DefaultQuestions := 10
  const MinOptions := 4
  const MaxOptions := 5
  const DefaultOptions := 4
  const GenerationFailedMessage := "Failed to generate quiz. Please try again."

  /** A request as a caller hands it over: a field left out is None. */
  datatype RawInput = RawInput(
    documentText: string,
    numberOfQuestions: Option<JsNumber>,
    optionsPerQuestion: Option<JsNumber>,
    enrichExplanations: Option<bool>,
    questionType: Option<string>,
    difficulty: Option<string>,
    keywords: Option<string>)

  /** A request after the input schema has accepted it and filled in its defaults. */
  datatype GenerateInput = GenerateInput(
    documentText: string,
    numberOfQuestions: int,
    optionsPerQuestion: int,
    enrichExplanations: bool,
    questionType: QuestionType,
    difficulty: Difficulty,
    keywords: Option<string>)

  datatype InputField = NumberOfQuestionsField | OptionsPerQuestionField | QuestionTypeField | DifficultyField

  /** A number field with bounds and a default: absent takes the default, NaN and
      out-of-range values are refused. */
  function BoundedNumber(x: Option<JsNumber>, lo: int, hi: int, default: int): (r: Option<int>)
    ensures x.None? ==> r == Some(default)
    ensures x.Some? ==> (r.Some? <==> x.value.Int? && lo <= x.value.v <= hi)
    ensures x.Some? && r.Some? ==> r.value == x.value.v
  {
    match x
    case None => Some(default)
    case Some(NaN) => None
    case Some(Int(v)) => if lo <= v <= hi then Some(v) else None
  }

  /** The enum string each question type is written as. */
  function QuestionTypeName(t: QuestionType): string
  {
    match t
    case AnyType => "any"
    case Facts => "facts"
    case Concepts => "concepts"
    case CauseEffect => "cause_effect"
  }

  /** The enum string each difficulty is written as. */
  function DifficultyName(d: Difficulty): string
  {
    match d
    case Easy => "easy"
    case Medium => "medium"
    case Hard => "hard"
  }

  /** `z.enum([...]).default("any")`: absent means "any"; a given string is accepted
      exactly when it names a question type, and becomes the type it names. */
  function ParseQuestionType(x: Option<string>): (r: Option<QuestionType>)
    ensures x.None? ==> r == Some(AnyType)
    ensures x.Some? ==> (r.Some? <==> x.value in ["any", "facts", "concepts", "cause_effect"])
    ensures x.Some? && r.Some? ==> QuestionTypeName(r.value) == x.value
  {
    match x
    case None => Some(AnyType)
    case Some(s) =>
      if s == "any" then Some(AnyType)
      else if s == "facts" then Some(Facts)
      else if s == "concepts" then Some(Concepts)
      else if s == "cause_effect" then Some(CauseEffect)
      else None
  }

  /** `z.enum([...]).default("medium")`: absent means "medium"; a given string is
      accepted exactly when it names a difficulty, and becomes the difficulty it names. */
  function ParseDifficulty(x: Option<string>): (r: Option<Difficulty>)
    ensures x.None? ==> r == Some(Medium)
    ensures x.Some? ==> (r.Some? <==> x.value in ["easy", "medium", "hard"])
    ensures x.Some? && r.Some? ==> DifficultyName(r.value) == x.value
  {
    match x
    case None => Some(Medium)
    case Some(s) =>
      if s == "easy" then Some(Easy)
      else if s == "medium" then Some(Medium)
      else if s == "hard" then Some(Hard)
      else None
  }

  predicate FieldFails(raw: RawInput, f: InputField)
  {
    match f
    case NumberOfQuestionsField =>
      BoundedNumber(raw.numberOfQuestions, MinQuestions, MaxQuestions, DefaultQuestions).None?
    case OptionsPerQuestionField =>
      BoundedNumber(raw.optionsPerQuestion, MinOptions, MaxOptions, DefaultOptions).None?
    case QuestionTypeField => ParseQuestionType(raw.questionType).None?
    case DifficultyField => ParseDifficulty(raw.difficulty).None?
  }

  /** The input schema: every field is checked, every failing field is reported, and an
      accepted request carries the caller's values or the schema's defaults. */
  function ParseInput(raw: RawInput): (r: Result<GenerateInput, set<InputField>>)
    ensures r.Success? <==>
      && !FieldFails(raw, NumberOfQuestionsField) && !FieldFails(raw, OptionsPerQuestionField)
      && !FieldFails(raw, QuestionTypeField) && !FieldFails(raw, DifficultyField)
    ensures r.Failure? ==>
      && r.error != {}
      && (NumberOfQuestionsField in r.error <==> FieldFails(raw, NumberOfQuestionsField))
      && (OptionsPerQuestionField in r.error <==> FieldFails(raw, OptionsPerQuestionField))
      && (QuestionTypeField in r.error <==> FieldFails(raw, QuestionTypeField))
      && (DifficultyField in r.error <==> FieldFails(raw, DifficultyField))
    ensures r.Success? ==>
      && r.value.documentText == raw.documentText
      && MinQuestions <= r.value.numberOfQuestions <= MaxQuestions
      && MinOptions <= r.value.optionsPerQuestion <= MaxOptions
      && (raw.numberOfQuestions.None? ==> r.value.numberOfQuestions == DefaultQuestions)
      && (raw.numberOfQuestions.Some? ==> raw.numberOfQuestions.value == Int(r.value.numberOfQuestions))
      && (raw.optionsPerQuestion.None? ==> r.value.optionsPerQuestion == DefaultOptions)
      && (raw.optionsPerQuestion.Some? ==> raw.optionsPerQuestion.value == Int(r.value.optionsPerQuestion))
      && r.value.enrichExplanations == (raw.enrichExplanations == Some(true))
      && (raw.questionType.None? ==> r.value.questionType == AnyType)
      && (raw.questionType.Some? ==> QuestionTypeName(r.value.questionType) == raw.questionType.value)
      && (raw.difficulty.None? ==> r.value.difficulty == Medium)
      && (raw.difficulty.Some? ==> DifficultyName(r.value.difficulty) == raw.difficulty.value)
      && r.value.keywords == raw.keywords
  {
    var count := BoundedNumber(raw.numberOfQuestions, MinQuestions, MaxQuestions, DefaultQuestions);
    var options := BoundedNumber(raw.optionsPerQuestion, MinOptions, MaxOptions, DefaultOptions);
    var qtype := ParseQuestionType(raw.questionType);
    var difficulty := ParseDifficulty(raw.difficulty);
    if count.Some? && options.Some? && qtype.Some? && difficulty.Some? then
      var enrich := match raw.enrichExplanations case None => false case Some(b) => b;
      Success(GenerateInput(raw.documentText, count.value, options.value, enrich,
                            qtype.value, difficulty.value, raw.keywords))
    else
      Failure((if count.None? then {NumberOfQuestionsField} else {})
            + (if options.None? then {OptionsPerQuestionField} else {})
            + (if qtype.None? then {QuestionTypeField} else {})
            + (if difficulty.None? then {DifficultyField} else {}))
  }

  /** Every question type and difficulty, written as its enum string, parses back to
      itself. */
  lemma EnumNamesRoundTrip(t: QuestionType, d: Difficulty)
    ensures ParseQuestionType(Some(QuestionTypeName(t))) == Some(t)
    ensures ParseDifficulty(Some(DifficultyName(d))) == Some(d)
  {
  }

  /** A request that names only the document text gets every default. */
  lemma DefaultsApplied(text: string)
    ensures ParseInput(RawInput(text, None, None, None, None, None, None))
         == Success(GenerateInput(text, DefaultQuestions, DefaultOptions, false, AnyType, Medium, None))
  {
  }

  /** The output schema asks only that the correct index be non-negative. */
  predicate ValidQuestion(q: Question)
  {
    q.correctAnswerIndex >= 0
  }

  predicate ValidOutput(quiz: Quiz)
  {
    forall i :: 0 <= i < |quiz| ==> ValidQuestion(quiz[i])
  }

  /** The schema does not bound the correct index by the options, nor fix how many
      options a question has: a question whose key points past its options is accepted. */
  lemma KeyNotBoundedByOptions()
    ensures exists q :: ValidQuestion(q) && q.correctAnswerIndex >= |q.options|
  {
    var q := Question("q", ["a", "b", "c", "d"], 7, None);
    assert ValidQuestion(q) && q.correctAnswerIndex >= |q.options|;
  }

  /** What the output schema admits: an empty quiz, and a question with no options at
      all; what it refuses: a negative correct index. */
  lemma OutputSchemaExamples()
    ensures ValidOutput([])
    ensures ValidOutput([Question("q", [], 0, None)])
    ensures !ValidOutput([Question("q", ["a", "b"], -1, None)])
  {
    var bad := [Question("q", ["a", "b"], -1, None)];
    assert !ValidQuestion(bad[0]);
  }

  /** What the language model sends back: a quiz, or nothing usable. */
  datatype Reply = Replied(quiz: Quiz) | NoReply

  /** The server action: any refused request, missing reply or reply outside the output
      schema becomes the one fixed failure message. */
  function Generate(raw: RawInput, reply: Reply): (r: Result<Quiz, string>)
    ensures r.Success? <==> ParseInput(raw).Success? && reply.Replied? && ValidOutput(reply.quiz)
    ensures r.Success? ==> r.value == reply.quiz
    ensures r.Failure? ==> r.error == GenerationFailedMessage
  {
    if ParseInput(raw).Failure? then Failure(GenerationFailedMessage)
    else match reply
      case NoReply => Failure(GenerationFailedMessage)
      case Replied(quiz) => if ValidOutput(quiz) then Success(quiz) else Failure(GenerationFailedMessage)
  }
}
