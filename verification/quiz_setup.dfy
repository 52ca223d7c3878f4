/** The single-page setup form (src/components/quiz/QuizSetup.tsx): its schema, default
    values, file-type check and what it stores after generation. */
module QuizSetup {
  import opened Wrappers
  import opened QuizTypes
  import JsNumbers
  import JsStrings
  import GenerateQuiz

  const MinTextLength := 100
  const MinQuestions := 1
  const MaxQuestions := 20
  const PdfType := "application/pdf"
  const ImagePrefix := "image/"

  /** A form field's value as the form library holds it: radio groups report strings,
      default values may be numbers. */
  datatype FieldValue = Text(text: string) | Number(n: int)

  datatype SetupForm = SetupForm(
    documentText: string,
    numberOfQuestions: int,
    optionsPerQuestion: FieldValue,
    timer: FieldValue)

  /** The form values after the schema has accepted and transformed them. */
  datatype SetupValues = SetupValues(
    documentText: string,
    numberOfQuestions: int,
    optionsPerQuestion: nat,
    timer: nat)

  datatype SetupField = DocumentTextField | NumberOfQuestionsField | OptionsPerQuestionField | TimerField

  /** The text-length rule, shared with the review step. zod's `.min(100)` counts
      UTF-16 code units. */
  predicate TextLongEnough(text: string)
  {
    JsStrings.Utf16Length(text) >= MinTextLength
  }

  /** The option radio group: "4" or "5", transformed to the number it spells. */
  function OptionsChoice(v: FieldValue): (r: Option<nat>)
    ensures r.Some? <==> v == Text("4") || v == Text("5")
    ensures r.Some? ==> v == Text(JsNumbers.Decimal(r.value))
  {
    if v == Text("4") then Some(4)
    else if v == Text("5") then Some(5)
    else None
  }

  /** The timer radio group: one of the timer choices, transformed to the number it spells. */
  function TimerChoice(v: FieldValue): (r: Option<nat>)
    ensures r.Some? <==> v.Text? && v.text in TimerChoices
    ensures r.Some? ==> v == Text(JsNumbers.Decimal(r.value))
  {
    if v == Text("15") then Some(15)
    else if v == Text("30") then Some(30)
    else if v == Text("45") then Some(45)
    else if v == Text("60") then Some(60)
    else None
  }

  predicate FieldFails(f: SetupForm, field: SetupField)
  {
    match field
    case DocumentTextField => !TextLongEnough(f.documentText)
    case NumberOfQuestionsField => !(MinQuestions <= f.numberOfQuestions <= MaxQuestions)
    case OptionsPerQuestionField => OptionsChoice(f.optionsPerQuestion).None?
    case TimerField => TimerChoice(f.timer).None?
  }

  /** The form schema: every failing field is reported; accepted values keep the text and
      count and carry the numbers the option and timer strings spell. */
  function Validate(f: SetupForm): (r: Result<SetupValues, set<SetupField>>)
    ensures r.Success? <==>
      && TextLongEnough(f.documentText)
      && MinQuestions <= f.numberOfQuestions <= MaxQuestions
      && (f.optionsPerQuestion == Text("4") || f.optionsPerQuestion == Text("5"))
      && f.timer.Text? && f.timer.text in TimerChoices
    ensures r.Failure? ==>
      && r.error != {}
      && (DocumentTextField in r.error <==> FieldFails(f, DocumentTextField))
      && (NumberOfQuestionsField in r.error <==> FieldFails(f, NumberOfQuestionsField))
      && (OptionsPerQuestionField in r.error <==> FieldFails(f, OptionsPerQuestionField))
      && (TimerField in r.error <==> FieldFails(f, TimerField))
    ensures r.Success? ==>
      && r.value.documentText == f.documentText
      && r.value.numberOfQuestions == f.numberOfQuestions
      && f.optionsPerQuestion == Text(JsNumbers.Decimal(r.value.optionsPerQuestion))
      && f.timer == Text(JsNumbers.Decimal(r.value.timer))
  {
    var options := OptionsChoice(f.optionsPerQuestion);
    var timer := TimerChoice(f.timer);
    if TextLongEnough(f.documentText) && MinQuestions <= f.numberOfQuestions <= MaxQuestions
       && options.Some? && timer.Some?
    then
      Success(SetupValues(f.documentText, f.numberOfQuestions, options.value, timer.value))
    else
      Failure((if !TextLongEnough(f.documentText) then {DocumentTextField} else {})
            + (if !(MinQuestions <= f.numberOfQuestions <= MaxQuestions) then {NumberOfQuestionsField} else {})
            + (if options.None? then {OptionsPerQuestionField} else {})
            + (if timer.None? then {TimerField} else {}))
  }

  /** The default values as written: the option and timer defaults are numbers. */
  const SetupDefaults := SetupForm("", 5, Number(4), Number(30))

  /** The same defaults as the radio groups display them, as strings. */
  const IntendedSetupDefaults := SetupForm("", 5, Text("4"), Text("30"))

  /** As written, an untouched form is refused on the option and timer fields whatever
      text is entered: the string enums reject the numeric defaults. With text long
      enough for the text rule, those two fields are the only ones reported. */
  lemma DefaultsRejectedAsWritten(text: string)
    ensures var r := Validate(SetupDefaults.(documentText := text));
      r.Failure? && OptionsPerQuestionField in r.error && TimerField in r.error
    ensures TextLongEnough(text) ==>
      Validate(SetupDefaults.(documentText := text)) == Failure({OptionsPerQuestionField, TimerField})
  {
    var f := SetupDefaults.(documentText := text);
    assert OptionsChoice(f.optionsPerQuestion).None? && TimerChoice(f.timer).None?;
    var r := Validate(f);
    assert r.Failure?;
    if TextLongEnough(text) {
      assert r.error == {OptionsPerQuestionField, TimerField};
    }
  }

  /** With string defaults, the only rule the untouched form breaks is the text length,
      and once the text is long enough it yields 5 questions, 4 options and 30 seconds. */
  lemma IntendedDefaultsValid(text: string)
    ensures !TextLongEnough(text) ==>
      Validate(IntendedSetupDefaults.(documentText := text)) == Failure({DocumentTextField})
    ensures TextLongEnough(text) ==>
      Validate(IntendedSetupDefaults.(documentText := text)) == Success(SetupValues(text, 5, 4, 30))
  {
  }

  function StartsWith(s: string, prefix: string): (r: bool)
    ensures r <==> exists rest :: s == prefix + rest
  {
    if |prefix| <= |s| && s[..|prefix|] == prefix then
      assert s == prefix + s[|prefix|..];
      true
    else
      false
  }

  /** The file-type check: exactly "application/pdf", or any type beginning "image/". */
  predicate AcceptsFile(mimeType: string): (b: bool)
    ensures b <==> mimeType == PdfType || exists rest :: mimeType == ImagePrefix + rest
  {
    mimeType == PdfType || StartsWith(mimeType, ImagePrefix)
  }

  datatype FileOutcome = NoFile | InvalidFile | StartExtraction

  /** Choosing a file: no file does nothing, a refused type shows a notice and nothing
      else, an accepted one starts the (simulated) extraction. */
  function HandleFileChange(file: Option<string>): (r: FileOutcome)
    ensures r.NoFile? <==> file.None?
    ensures r.StartExtraction? <==>
      file.Some? && (file.value == PdfType || exists rest :: file.value == ImagePrefix + rest)
  {
    match file
    case None => NoFile
    case Some(t) => if AcceptsFile(t) then StartExtraction else InvalidFile
  }

  /** The request sent for validated values (the timer is not part of the request schema). */
  function Request(v: SetupValues): (raw: GenerateQuiz.RawInput)
    ensures raw.documentText == v.documentText
    ensures raw.numberOfQuestions == Some(JsNumbers.Int(v.numberOfQuestions))
    ensures raw.optionsPerQuestion == Some(JsNumbers.Int(v.optionsPerQuestion))
    ensures raw.enrichExplanations.None? && raw.questionType.None?
    ensures raw.difficulty.None? && raw.keywords.None?
  {
    GenerateQuiz.RawInput(v.documentText, Some(JsNumbers.Int(v.numberOfQuestions)),
                          Some(JsNumbers.Int(v.optionsPerQuestion)), None, None, None, None)
  }

  /** Values the form accepts always pass the generation schema. */
  lemma RequestAccepted(f: SetupForm)
    requires Validate(f).Success?
    ensures GenerateQuiz.ParseInput(Request(Validate(f).value)).Success?
  {
  }

  datatype SubmitOutcome = Stored(draft: Draft, route: Route) | Failed(message: string)

  /** Submitting: on success the stored draft is the generated quiz with the validated
      values and no other setting, and the quiz page opens; on failure the message is
      shown and nothing stored. */
  function OnSubmit(v: SetupValues, reply: GenerateQuiz.Reply): (r: SubmitOutcome)
    ensures r.Stored? <==> GenerateQuiz.Generate(Request(v), reply).Success?
    ensures r.Stored? ==>
      && r.draft.quiz == reply.quiz
      && r.draft.documentText == v.documentText
      && r.draft.config == Config(v.numberOfQuestions, v.optionsPerQuestion, v.timer, None, None, None, None, None)
    ensures r.Stored? ==> r.route == QuizRoute
    ensures r.Failed? ==> r.message == GenerateQuiz.GenerationFailedMessage
  {
    match GenerateQuiz.Generate(Request(v), reply)
    case Success(quiz) =>
      Stored(Draft(quiz, v.documentText, Config(v.numberOfQuestions, v.optionsPerQuestion, v.timer, None, None, None, None, None)), QuizRoute)
    case Failure(message) => Failed(message)
  }
}
