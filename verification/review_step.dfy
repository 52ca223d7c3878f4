/** The review step (src/components/quiz/ReviewStep.tsx): the extracted text is edited
    and, once long enough, stored for the configure step. */
module ReviewStep {
  import opened Wrappers
  import opened QuizTypes
  import QuizSetup
  import JsStrings

  datatype MountOutcome = Editing(text: string) | RedirectHome

  /** Opening the step: stored text is loaded for editing; no text (or empty text)
      sends the user back to the start. */
  function OnMount(stored: Option<string>): (r: MountOutcome)
    ensures r.RedirectHome? <==> stored.None? || stored.value == ""
    ensures r.Editing? ==> r.text == stored.value
  {
    match stored
    case None => RedirectHome
    case Some(text) => if text == "" then RedirectHome else Editing(text)
  }

  /** Too short: a notice, nothing stored, no navigation. Otherwise the text is stored
      as it is and the configure step opens. */
  datatype NextOutcome = TooShort(notice: Notice) | Proceed(stored: string, route: Route)

  /** The threshold is the setup form's own minimum length, in UTF-16 code units. */
  function HandleNext(text: string): (r: NextOutcome)
    ensures r.Proceed? <==> QuizSetup.TextLongEnough(text)
    ensures r.Proceed? <==> JsStrings.Utf16Length(text) >= 100
    ensures r.Proceed? ==> r.stored == text && r.route == ConfigureRoute
    ensures r.TooShort? ==> r.notice == TextTooShort
  {
    if JsStrings.Utf16Length(text) < 100 then TooShort(TextTooShort) else Proceed(text, ConfigureRoute)
  }

  /** Length is measured in UTF-16 code units: sixty emoji are 120 units and pass, while
      sixty plain letters do not. */
  lemma AstralTextCountsTwice()
    ensures HandleNext(seq(60, _ => '\U{1F600}')).Proceed?
    ensures HandleNext(seq(60, _ => 'a')).TooShort?
  {
    var emoji := seq(60, _ => '\U{1F600}');
    assert JsStrings.AllAstral(emoji);
    var plain := seq(60, _ => 'a');
    assert JsStrings.AllBasic(plain);
  }
}
