/**
 * The Streamlit session state the question/answer screen works on
 * (`st.session_state` in app.py and utils/handle_query.py): the prompt and
 * response texts, the append-only log of question/answer entries and the two
 * button flags.
 */
module SessionState {
  import opened PyStr

  /** What `sdf.chat` returns: a string, or any other Python object, kept by
      the text `str()` gives for it. */
  datatype Answer = Str(text: string) | Other(repr: string)

  /** One `{"question": ..., "answer": ...}` entry of `session_data`. */
  datatype Entry = Entry(question: string, answer: Answer)

  /** The outcome of the opaque chat call: a value, or an exception with its
      message. */
  datatype ChatReply = Returned(value: Answer) | Raised(message: string)

  /** A snapshot of the session's fields. */
  datatype State = State(
    inputText: string,
    outputText: Answer,
    sessionData: seq<Entry>,
    showEnvoyerButton: bool,
    showNewQuestionButton: bool)

  /** Exactly one of "Send" and "New query" is offered. */
  predicate ButtonsConsistent(s: State) {
    s.showEnvoyerButton == !s.showNewQuestionButton
  }

  /** `str(answer)`. */
  function AnswerText(a: Answer): string {
    match a
    case Str(t) => t
    case Other(r) => r
  }

  /** What a callback records for the chat call's outcome: the returned
      value, or its own retry message in place of an exception. */
  function Response(reply: ChatReply, errorReply: string): (a: Answer)
    ensures reply.Raised? ==> a == Str(errorReply)
    ensures reply.Returned? ==> a == reply.value
  {
    match reply
    case Returned(v) => v
    case Raised(_) => Str(errorReply)
  }

  /** The text `handle_question` and `handle_query` send to the chat call. */
  function Prompt(s: State): string {
    Strip(s.inputText)
  }

  class Session {
    var inputText: string
    var outputText: Answer
    var sessionData: seq<Entry>
    var showEnvoyerButton: bool
    var showNewQuestionButton: bool

    /** The fields as the start of app.py sets them: no entry yet, "Send"
        shown and "New query" hidden. */
    constructor ()
      ensures Snapshot() == State("", Str(""), [], true, false)
      ensures ButtonsConsistent(Snapshot())
    {
      inputText := "";
      outputText := Str("");
      sessionData := [];
      showEnvoyerButton := true;
      showNewQuestionButton := false;
    }

    function Snapshot(): State
      reads this
    {
      State(inputText, outputText, sessionData, showEnvoyerButton, showNewQuestionButton)
    }
  }
}
