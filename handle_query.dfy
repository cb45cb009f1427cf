/**
 * utils/handle_query.py: the query callback that, besides recording the
 * question and its answer, moves a freshly drawn chart to a unique name, and
 * the unique-name helper. The chat call, the existence of the temporary
 * chart, the clock and the random id are inputs.
 */
module HandleQuery {
  import opened Wrappers
  import opened PyStr
  import opened SessionState

  const ErrorReply: string := "An Error occurred. Please retry"
  /** Where a chart is moved to; the temporary chart is
      "exports/charts/temp_chart.png". */
  const ChartDirectory: string := "./exports/png/"
  const DefaultPrefix: string := "chart"
  const DefaultExtension: string := ".png"

  /** `get_unique_filename(prefix, extension)` given the formatted time and
      the hexadecimal form of a fresh uuid4 (32 digits, of which the first 8
      are used): the prefix, the time and the short id separated by
      underscores, then the extension. */
  function GetUniqueFilename(prefix: string, extension: string, timestamp: string, uuidHex: string)
    : (name: string)
    requires |uuidHex| == 32
    ensures |name| == |prefix| + |timestamp| + |extension| + 10
    ensures var at := |prefix| + |timestamp| + 2;
      && name[..|prefix|] == prefix
      && name[|prefix|] == '_'
      && name[|prefix| + 1..at - 1] == timestamp
      && name[at - 1] == '_'
      && name[at..at + 8] == uuidHex[..8]
      && name[at + 8..] == extension
  {
    var at := |prefix| + |timestamp| + 2;
    var head := prefix + "_" + timestamp + "_";
    var name := head + uuidHex[..8] + extension;
    assert |head| == at;
    assert head[..|prefix|] == prefix && head[|prefix| + 1..at - 1] == timestamp;
    assert name[..at] == head;
    name
  }

  /** Names made in the same second with the same prefix and extension differ
      whenever the short ids differ. */
  lemma UniqueFilenameDistinct(prefix: string, extension: string, timestamp: string, u1: string, u2: string)
    requires |u1| == 32 && |u2| == 32 && u1[..8] != u2[..8]
    ensures GetUniqueFilename(prefix, extension, timestamp, u1)
      != GetUniqueFilename(prefix, extension, timestamp, u2)
  {
    var at := |prefix| + |timestamp| + 2;
    var n1 := GetUniqueFilename(prefix, extension, timestamp, u1);
    var n2 := GetUniqueFilename(prefix, extension, timestamp, u2);
    assert n1[at..at + 8] != n2[at..at + 8];
  }

  /** The path a chart is moved to, with the default prefix and extension. */
  function RenamedChartPath(timestamp: string, uuidHex: string): (path: string)
    requires |uuidHex| == 32
    ensures StartsWith(path, ChartDirectory) && EndsWith(path, ".png")
  {
    var name := GetUniqueFilename(DefaultPrefix, DefaultExtension, timestamp, uuidHex);
    var path := ChartDirectory + name;
    assert path[..|ChartDirectory|] == ChartDirectory;
    assert path[|path| - 4..] == name[|name| - 4..];
    path
  }

  /** The state after the call, whether it ended by raising (a response
      that is not a string has no `endswith`, and the AttributeError leaves
      the callback after the output text is set), and where the temporary
      chart was moved, if it was. */
  datatype QueryResult = QueryResult(state: State, raised: bool, movedTo: Option<string>)

  /** `handle_query(sdf)` as a transition. */
  function AfterQuery(s: State, reply: ChatReply, chartExists: bool, timestamp: string, uuidHex: string)
    : (r: QueryResult)
    requires |uuidHex| == 32
    ensures AllSpace(s.inputText) ==> r == QueryResult(s, false, None)
    ensures !AllSpace(s.inputText) ==> r.state.outputText == Response(reply, ErrorReply)
    ensures !AllSpace(s.inputText) && Response(reply, ErrorReply).Other? ==>
      r.raised && r.movedTo == None && r.state == s.(outputText := Response(reply, ErrorReply))
    ensures !AllSpace(s.inputText) && Response(reply, ErrorReply).Str? ==>
      && !r.raised
      && |r.state.sessionData| == |s.sessionData| + 1
      && r.state.sessionData[..|s.sessionData|] == s.sessionData
      && r.state.sessionData[|s.sessionData|].question == Prompt(s)
      && r.state.inputText == s.inputText
      && !r.state.showEnvoyerButton && r.state.showNewQuestionButton
    ensures ButtonsConsistent(s) ==> ButtonsConsistent(r.state)
  {
    var prompt := Prompt(s);
    if prompt == [] then QueryResult(s, false, None)
    else
      var response := Response(reply, ErrorReply);
      var s1 := s.(outputText := response);
      match response
      case Other(_) => QueryResult(s1, true, None)
      case Str(text) =>
        var moved := if EndsWith(text, ".png") && chartExists
          then Some(RenamedChartPath(timestamp, uuidHex)) else None;
        var recorded := if moved.Some? then Str(moved.value) else response;
        QueryResult(
          s1.(sessionData := s.sessionData + [Entry(prompt, recorded)],
              showEnvoyerButton := false, showNewQuestionButton := true),
          false, moved)
  }

  /** As written, a non-string answer ends the callback early: the output
      text is set, but no entry is recorded and the buttons do not flip, so
      the answer is lost from the log while "Send" stays offered. */
  lemma NonStringAnswerNotRecorded(s: State, repr: string, chartExists: bool, timestamp: string, uuidHex: string)
    requires |uuidHex| == 32 && !AllSpace(s.inputText)
    ensures var r := AfterQuery(s, Returned(Other(repr)), chartExists, timestamp, uuidHex);
      && r.raised
      && r.state.sessionData == s.sessionData
      && r.state.showEnvoyerButton == s.showEnvoyerButton
      && r.state.outputText == Other(repr)
  {
  }

  /** `handle_query` with the ".png" test made only on a string answer, as
      `create_kai_pdf` makes it: every answer is recorded. */
  function AfterQueryChecked(s: State, reply: ChatReply, chartExists: bool, timestamp: string, uuidHex: string)
    : (r: QueryResult)
    requires |uuidHex| == 32
    ensures AllSpace(s.inputText) ==> r == QueryResult(s, false, None)
    ensures !AllSpace(s.inputText) ==>
      && !r.raised
      && r.state.outputText == Response(reply, ErrorReply)
      && |r.state.sessionData| == |s.sessionData| + 1
      && r.state.sessionData[..|s.sessionData|] == s.sessionData
      && r.state.sessionData[|s.sessionData|].question == Prompt(s)
      && !r.state.showEnvoyerButton && r.state.showNewQuestionButton
    ensures !AllSpace(s.inputText) && Response(reply, ErrorReply).Other? ==>
      r.movedTo == None && r.state.sessionData[|s.sessionData|].answer == Response(reply, ErrorReply)
  {
    var prompt := Prompt(s);
    if prompt == [] then QueryResult(s, false, None)
    else
      var response := Response(reply, ErrorReply);
      var moved := if response.Str? && EndsWith(response.text, ".png") && chartExists
        then Some(RenamedChartPath(timestamp, uuidHex)) else None;
      var recorded := if moved.Some? then Str(moved.value) else response;
      QueryResult(
        s.(outputText := response,
           sessionData := s.sessionData + [Entry(prompt, recorded)],
           showEnvoyerButton := false, showNewQuestionButton := true),
        false, moved)
  }

  /** The corrected callback differs from the one as written only where
      that one raises. */
  lemma CheckedQueryAgrees(s: State, reply: ChatReply, chartExists: bool, timestamp: string, uuidHex: string)
    requires |uuidHex| == 32
    ensures var r := AfterQuery(s, reply, chartExists, timestamp, uuidHex);
      !r.raised ==> AfterQueryChecked(s, reply, chartExists, timestamp, uuidHex) == r
  {
  }

  /** The recorded answer: the new chart path exactly when the response is
      a ".png" string and the temporary chart exists, the response itself
      otherwise; the output text keeps the response in both cases. */
  lemma RecordedAnswer(s: State, reply: ChatReply, chartExists: bool, timestamp: string, uuidHex: string)
    requires |uuidHex| == 32 && !AllSpace(s.inputText) && Response(reply, ErrorReply).Str?
    ensures var r := AfterQuery(s, reply, chartExists, timestamp, uuidHex);
      var text := Response(reply, ErrorReply).text;
      && r.state.outputText == Str(text)
      && (EndsWith(text, ".png") && chartExists ==>
            && r.movedTo == Some(RenamedChartPath(timestamp, uuidHex))
            && r.state.sessionData[|s.sessionData|].answer == Str(RenamedChartPath(timestamp, uuidHex)))
      && (!(EndsWith(text, ".png") && chartExists) ==>
            && r.movedTo == None
            && r.state.sessionData[|s.sessionData|].answer == Str(text))
  {
  }

  /** A recorded answer ends in ".png" exactly when the response did: moving
      the chart keeps it an image. */
  lemma RecordedAnswerKeepsPng(s: State, reply: ChatReply, chartExists: bool, timestamp: string, uuidHex: string)
    requires |uuidHex| == 32 && !AllSpace(s.inputText) && Response(reply, ErrorReply).Str?
    ensures var r := AfterQuery(s, reply, chartExists, timestamp, uuidHex);
      var recorded := r.state.sessionData[|s.sessionData|].answer;
      recorded.Str? && (EndsWith(recorded.text, ".png") <==> EndsWith(Response(reply, ErrorReply).text, ".png"))
  {
    RecordedAnswer(s, reply, chartExists, timestamp, uuidHex);
  }

  /** `handle_query(sdf)` on the session. */
  method HandleQuery(ss: Session, reply: ChatReply, chartExists: bool, timestamp: string, uuidHex: string)
    returns (raised: bool, movedTo: Option<string>)
    requires |uuidHex| == 32
    modifies ss
    ensures QueryResult(ss.Snapshot(), raised, movedTo)
      == AfterQuery(old(ss.Snapshot()), reply, chartExists, timestamp, uuidHex)
  {
    raised, movedTo := false, None;
    var prompt := Strip(ss.inputText);
    if prompt != [] {
      var response := Response(reply, ErrorReply);
      ss.outputText := response;
      if response.Other? {
        raised := true;
        return;
      }
      if EndsWith(response.text, ".png") && chartExists {
        var path := RenamedChartPath(timestamp, uuidHex);
        movedTo := Some(path);
        response := Str(path);
      }
      ss.sessionData := ss.sessionData + [Entry(prompt, response)];
      ss.showEnvoyerButton := false;
      ss.showNewQuestionButton := true;
    }
  }
}
