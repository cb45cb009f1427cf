/**
 * The question/answer screen of app.py: the "Send" and "New query" button
 * callbacks (`handle_question`, `clear_input`) over the session state, the
 * reader chosen for an uploaded file, and the text shown in the response
 * area. The chat call is an input: the value it returns or the exception it
 * raises.
 */
module App {
  import opened Wrappers
  import opened PyStr
  import opened SessionState
  import CreateDatasetFieldsDescription

  const ErrorReply: string := "Une erreur est survenue. Veuillez réessayer"
  const ChartBanner: string := "Tour chart was created at\n"

  /** `clear_input()` as a transition: both texts emptied, "Send" shown,
      "New query" hidden, the log untouched. */
  function Cleared(s: State): (r: State)
    ensures r.inputText == "" && r.outputText == Str("")
    ensures r.showEnvoyerButton && !r.showNewQuestionButton && ButtonsConsistent(r)
    ensures r.sessionData == s.sessionData
  {
    s.(inputText := "", outputText := Str(""),
       showNewQuestionButton := false, showEnvoyerButton := true)
  }

  /** `handle_question(sdf)` as a transition: nothing for a prompt that is
      white space only; otherwise one entry {stripped prompt, response} is
      appended, the response becomes the output text and the buttons flip to
      "New query". The input text is left as typed. */
  function AfterQuestion(s: State, reply: ChatReply): (r: State)
    ensures AllSpace(s.inputText) ==> r == s
    ensures !AllSpace(s.inputText) ==>
      && |r.sessionData| == |s.sessionData| + 1
      && r.sessionData[..|s.sessionData|] == s.sessionData
      && r.sessionData[|s.sessionData|] == Entry(Prompt(s), r.outputText)
      && r.outputText == Response(reply, ErrorReply)
      && r.inputText == s.inputText
      && !r.showEnvoyerButton && r.showNewQuestionButton
    ensures ButtonsConsistent(s) ==> ButtonsConsistent(r)
  {
    var prompt := Prompt(s);
    if prompt == [] then s
    else
      var response := Response(reply, ErrorReply);
      s.(outputText := response,
         sessionData := s.sessionData + [Entry(prompt, response)],
         showEnvoyerButton := false, showNewQuestionButton := true)
  }

  /** `clear_input()`, the "New query" callback. */
  method ClearInput(ss: Session)
    modifies ss
    ensures ss.Snapshot() == Cleared(old(ss.Snapshot()))
  {
    ss.inputText := "";
    ss.outputText := Str("");
    ss.showNewQuestionButton := false;
    ss.showEnvoyerButton := true;
  }

  /** `handle_question(sdf)`, the "Send" callback. */
  method HandleQuestion(ss: Session, reply: ChatReply)
    modifies ss
    ensures ss.Snapshot() == AfterQuestion(old(ss.Snapshot()), reply)
  {
    var prompt := Strip(ss.inputText);
    if prompt != [] {
      var response: Answer;
      match reply {
        case Returned(v) => response := v;
        case Raised(_) => response := Str(ErrorReply);
      }
      ss.outputText := response;
      ss.sessionData := ss.sessionData + [Entry(prompt, response)];
      ss.showEnvoyerButton := false;
      ss.showNewQuestionButton := true;
    }
  }

  /** What the user does on the screen: type into the prompt area, press
      "Send", press "New query". */
  datatype Event = Edit(text: string) | PressSend(reply: ChatReply) | PressNewQuery

  /** One event. A button that is not shown cannot be pressed, so pressing
      it changes nothing. */
  function Step(s: State, e: Event): State {
    match e
    case Edit(t) => s.(inputText := t)
    case PressSend(reply) => if s.showEnvoyerButton then AfterQuestion(s, reply) else s
    case PressNewQuery => if s.showNewQuestionButton then Cleared(s) else s
  }

  function Run(s: State, events: seq<Event>): State
    decreases |events|
  {
    if events == [] then s else Run(Step(s, events[0]), events[1..])
  }

  /** Over any run from a state where exactly one button is shown, exactly
      one stays shown, the log only grows, and it grows by at most one entry
      per event. */
  lemma {:induction false} RunKeepsSession(s: State, events: seq<Event>)
    requires ButtonsConsistent(s)
    ensures var r := Run(s, events);
      && ButtonsConsistent(r)
      && |s.sessionData| <= |r.sessionData| <= |s.sessionData| + |events|
      && r.sessionData[..|s.sessionData|] == s.sessionData
    decreases |events|
  {
    if events != [] {
      var t := Step(s, events[0]);
      assert ButtonsConsistent(t);
      assert |s.sessionData| <= |t.sessionData| <= |s.sessionData| + 1;
      assert t.sessionData[..|s.sessionData|] == s.sessionData;
      RunKeepsSession(t, events[1..]);
      var r := Run(t, events[1..]);
      assert r.sessionData[..|s.sessionData|] == r.sessionData[..|t.sessionData|][..|s.sessionData|];
    }
  }

  /** Once an answer is shown, no further question is recorded until "New
      query" is pressed: "Send" is hidden in the meantime. */
  lemma {:induction false} AnsweredUntilNewQuery(s: State, events: seq<Event>)
    requires !s.showEnvoyerButton
    requires forall i :: 0 <= i < |events| ==> !events[i].PressNewQuery?
    ensures Run(s, events).sessionData == s.sessionData
    ensures Run(s, events).outputText == s.outputText
    decreases |events|
  {
    if events != [] {
      AnsweredUntilNewQuery(Step(s, events[0]), events[1..]);
    }
  }

  /** The reader chosen for an upload from the text after its last '.';
      None is the "Unsupported file type" error, with no data loaded. */
  function UploadDispatch(name: string): (r: Option<CreateDatasetFieldsDescription.Reader>)
    ensures r == Some(CreateDatasetFieldsDescription.ReadCsv) <==> LastDotField(name) == "csv"
    ensures r == Some(CreateDatasetFieldsDescription.ReadExcel) <==>
      LastDotField(name) == "xlsx" || LastDotField(name) == "xls"
  {
    var ext := LastDotField(name);
    if ext == "csv" then Some(CreateDatasetFieldsDescription.ReadCsv)
    else if ext == "xlsx" then Some(CreateDatasetFieldsDescription.ReadExcel)
    else if ext == "xls" then Some(CreateDatasetFieldsDescription.ReadExcel)
    else None
  }

  function ToOption<T, E>(r: Result<T, E>): Option<T> {
    match r
    case Success(v) => Some(v)
    case Failure(_) => None
  }

  /** For a name holding a '.', the upload screen and `load_file` choose the
      same reader and refuse the same names. */
  lemma UploadAgreesWithLoadFile(name: string)
    requires !Free(name, '.')
    ensures UploadDispatch(name) == ToOption(CreateDatasetFieldsDescription.LoadFile(name))
  {
    var ext := LastDotField(name);
    SuffixField(name, ".csv");
    SuffixField(name, ".xls");
    SuffixField(name, ".xlsx");
    assert ".csv"[1..] == "csv" && ".xls"[1..] == "xls" && ".xlsx"[1..] == "xlsx";
  }

  /** A name ending in '.' and a dot-free word has that word after its last
      dot, and conversely. */
  lemma SuffixField(name: string, dotted: string)
    requires !Free(name, '.') && |dotted| >= 1 && dotted[0] == '.' && Free(dotted[1..], '.')
    ensures EndsWith(name, dotted) <==> LastDotField(name) == dotted[1..]
  {
    var word := dotted[1..];
    if EndsWith(name, dotted) {
      var i := |name| - |dotted|;
      assert name[i] == dotted[0];
      assert name[i + 1..] == word by {
        assert name[i..] == dotted;
      }
      RFindAt(name, '.', i);
    }
  }

  /** A bare "csv" without a dot goes to the CSV reader on the upload screen,
      while `load_file` refuses it. */
  lemma BareNameDiverges()
    ensures UploadDispatch("csv") == Some(CreateDatasetFieldsDescription.ReadCsv)
    ensures CreateDatasetFieldsDescription.LoadFile("csv").Failure?
  {
    var name := "csv";
    assert Free(name, '.');
    assert !EndsWith(name, ".csv") && !EndsWith(name, ".xls") && !EndsWith(name, ".xlsx");
  }

  /** The text of the response area for an answer: a chart path ending in
      ".png" is introduced by a banner, anything else is shown as `str()`
      gives it. */
  function DisplayedAnswer(a: Answer): (shown: string)
    ensures EndsWith(shown, AnswerText(a))
    ensures EndsWith(AnswerText(a), ".png") ==> shown == ChartBanner + AnswerText(a)
    ensures !EndsWith(AnswerText(a), ".png") ==> shown == AnswerText(a)
  {
    var text := AnswerText(a);
    if EndsWith(text, ".png") then
      var shown := ChartBanner + text;
      assert shown[|shown| - |text|..] == text;
      shown
    else
      assert text[|text| - |text|..] == text;
      text
  }

  /** The response area: shown, with the output text, exactly while "Send"
      is hidden. */
  function ResponseArea(s: State): (area: Option<string>)
    ensures area.Some? <==> !s.showEnvoyerButton
    ensures area.Some? ==> area.value == DisplayedAnswer(s.outputText)
  {
    if !s.showEnvoyerButton then Some(DisplayedAnswer(s.outputText)) else None
  }

  /** After a recorded question the response area shows that question's
      answer; after "New query" it is gone. */
  lemma ResponseAreaAfterEvents(s: State, reply: ChatReply)
    ensures !AllSpace(s.inputText) ==>
      ResponseArea(AfterQuestion(s, reply)) == Some(DisplayedAnswer(Response(reply, ErrorReply)))
    ensures ResponseArea(Cleared(s)) == None
  {
  }
}
