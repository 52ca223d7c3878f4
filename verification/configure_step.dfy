/** The configure step (src/components/quiz/ConfigureStep.tsx): the question-count and
    timer selects, the explanation checkbox, and the draft stored after generation. */
module ConfigureStep {
  import opened Wrappers
  import opened QuizTypes
  import opened JsNumbers
  import GenerateQuiz

  /** The question counts offered by the select. */
  const QuestionCountOptions: seq<string> :=
    ["5", "10", "15", "20", "25", "50", "75", "100", "150", "200", "300", "400", "500"]

  /** Options per question is fixed; the form has no field for it. */
  const FixedOptions := 4

  datatype ConfigureForm = ConfigureForm(numberOfQuestions: string, timer: string, enrichExplanations: Option<bool>)

  datatype ConfigureValues = ConfigureValues(numberOfQuestions: string, timer: string, enrichExplanations: bool)

  /** The form schema: any count string, a timer from the choices, and the checkbox
      defaulting to unchecked. */
  function Validate(f: ConfigureForm): (r: Option<ConfigureValues>)
    ensures r.Some? <==> f.timer in TimerChoices
    ensures r.Some? ==>
      && r.value.numberOfQuestions == f.numberOfQuestions
      && r.value.timer == f.timer
      && r.value.enrichExplanations == (f.enrichExplanations == Some(true))
  {
    if f.timer in TimerChoices then
      var enrich := match f.enrichExplanations case None => false case Some(b) => b;
      Some(ConfigureValues(f.numberOfQuestions, f.timer, enrich))
    else None
  }

  const ConfigureDefaults := ConfigureForm("5", "30", Some(false))

  /** The defaults are accepted and the default count is one the select offers. */
  lemma DefaultsValid()
    ensures Validate(ConfigureDefaults) == Some(ConfigureValues("5", "30", false))
    ensures ConfigureDefaults.numberOfQuestions in QuestionCountOptions
  {
  }

  lemma {:induction false} ParsesTo(s: string, n: nat)
    requires s == Decimal(n)
    ensures ParseInt(s) == Int(n)
  {
    DecimalRoundTrip(n, []);
    assert s + [] == s;
  }

  /** The numbers the count options spell, in the same order. */
  const QuestionCountValues: seq<nat> := [5, 10, 15, 20, 25, 50, 75, 100, 150, 200, 300, 400, 500]

  lemma CountOptionsSpellValues()
    ensures |QuestionCountOptions| == |QuestionCountValues|
    ensures forall i :: 0 <= i < |QuestionCountOptions| ==> QuestionCountOptions[i] == Decimal(QuestionCountValues[i])
  {
    assert Decimal(5) == "5";
    assert Decimal(10) == "10";
    assert Decimal(15) == "15";
    assert Decimal(20) == "20";
    assert Decimal(25) == "25";
    assert Decimal(50) == "50";
    assert Decimal(75) == "75";
    assert Decimal(100) == "100";
    assert Decimal(150) == "150";
    assert Decimal(200) == "200";
    assert Decimal(300) == "300";
    assert Decimal(400) == "400";
    assert Decimal(500) == "500";
  }

  lemma {:induction false} CountOptionParses(i: nat)
    requires i < |QuestionCountOptions|
    ensures ParseInt(QuestionCountOptions[i]) == Int(QuestionCountValues[i])
  {
    CountOptionsSpellValues();
    ParsesTo(QuestionCountOptions[i], QuestionCountValues[i]);
  }

  /** Every count the select offers parses to a number in [5, 500], inside the
      generation schema's [1, 500]. */
  lemma {:induction false} CountOptionsInRange()
    ensures forall i :: 0 <= i < |QuestionCountOptions| ==>
      && ParseInt(QuestionCountOptions[i]).Int?
      && 5 <= ParseInt(QuestionCountOptions[i]).v <= 500
      && GenerateQuiz.MinQuestions <= ParseInt(QuestionCountOptions[i]).v <= GenerateQuiz.MaxQuestions
  {
    assert forall i :: 0 <= i < |QuestionCountValues| ==> 5 <= QuestionCountValues[i] <= 500;
    forall i | 0 <= i < |QuestionCountOptions|
      ensures ParseInt(QuestionCountOptions[i]) == Int(QuestionCountValues[i])
    {
      CountOptionParses(i);
    }
  }

  /** Every timer choice parses to the number it spells. */
  lemma {:induction false} TimerChoicesParse(t: string)
    requires t in TimerChoices
    ensures ParseInt(t).Int? && ParseInt(t).v in {15, 30, 45, 60} && Decimal(ParseInt(t).v) == t
  {
    if t == "15" {
      assert Decimal(15) == "15";
      ParsesTo(t, 15);
    } else if t == "30" {
      assert Decimal(30) == "30";
      ParsesTo(t, 30);
    } else if t == "45" {
      assert Decimal(45) == "45";
      ParsesTo(t, 45);
    } else {
      assert Decimal(60) == "60";
      ParsesTo(t, 60);
    }
  }

  /** The generation request: the text, the parsed count, four options and the checkbox. */
  function Request(documentText: string, v: ConfigureValues): (raw: GenerateQuiz.RawInput)
    ensures raw.documentText == documentText
    ensures raw.numberOfQuestions == Some(ParseInt(v.numberOfQuestions))
    ensures raw.optionsPerQuestion == Some(Int(FixedOptions))
    ensures raw.enrichExplanations == Some(v.enrichExplanations)
    ensures raw.questionType.None? && raw.difficulty.None? && raw.keywords.None?
  {
    GenerateQuiz.RawInput(documentText, Some(ParseInt(v.numberOfQuestions)), Some(Int(FixedOptions)),
                          Some(v.enrichExplanations), None, None, None)
  }

  /** A count chosen from the select always passes the generation schema. */
  lemma {:induction false} OfferedCountAccepted(documentText: string, v: ConfigureValues)
    requires v.numberOfQuestions in QuestionCountOptions
    ensures GenerateQuiz.ParseInput(Request(documentText, v)).Success?
  {
    CountOptionsInRange();
  }

  datatype SubmitOutcome = RedirectHome(notice: Notice) | Stored(draft: Draft, route: Route) | Failed(message: string)

  /** Submitting. Without document text no request is made and the user goes back to
      the start. Otherwise, on success, the stored draft holds the quiz, the text, the
      parsed count, four options and the parsed timer, and no other setting, and the
      quiz page opens. */
  function OnSubmit(documentText: Option<string>, v: ConfigureValues, reply: GenerateQuiz.Reply): (r: SubmitOutcome)
    requires v.timer in TimerChoices
    ensures r.RedirectHome? <==> documentText.None? || documentText.value == ""
    ensures r.RedirectHome? ==> r.notice == DocumentTextMissing
    ensures r.Stored? <==>
      && documentText.Some? && documentText.value != ""
      && GenerateQuiz.Generate(Request(documentText.value, v), reply).Success?
    ensures r.Stored? ==>
      && r.draft.quiz == reply.quiz
      && r.draft.documentText == documentText.value
      && ParseInt(v.numberOfQuestions) == Int(r.draft.config.numberOfQuestions)
      && r.draft.config.optionsPerQuestion == FixedOptions
      && ParseInt(v.timer) == Int(r.draft.config.timer)
      && r.draft.config.quizMode.None? && r.draft.config.explanationTiming.None?
      && r.draft.config.difficulty.None? && r.draft.config.questionType.None?
      && r.draft.config.keywords.None?
    ensures r.Stored? ==> r.route == QuizRoute
    ensures r.Failed? ==> r.message == GenerateQuiz.GenerationFailedMessage
  {
    if documentText.None? || documentText.value == "" then RedirectHome(DocumentTextMissing)
    else
      var raw := Request(documentText.value, v);
      match GenerateQuiz.Generate(raw, reply)
      case Failure(message) => Failed(message)
      case Success(quiz) =>
        TimerChoicesParse(v.timer);
        var count := ParseInt(v.numberOfQuestions).v;
        var timer := ParseInt(v.timer).v;
        Stored(Draft(quiz, documentText.value, Config(count, FixedOptions, timer, None, None, None, None, None)), QuizRoute)
  }
}
