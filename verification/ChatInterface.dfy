/**
 The chat panel (client/src/components/ChatInterface.tsx): the message record,
 the submit guard on the question box, the badges under an assistant reply and
 the duration line in the header.
 */
module ChatInterface {
  import opened Wrappers
  import opened Api
  import opened JsText
  import opened TimeFormat

  datatype Role = User | Assistant

  /**
   One chat turn. `id` comes from the clock and is kept abstract; `timestamps`
   is absent on user turns and on failure replies.
   */
  datatype ChatMessage = ChatMessage(id: string, role: Role, content: string, timestamps: Option<seq<Seconds>>)

  datatype VideoInfo = VideoInfo(title: string, duration: Option<Seconds>, url: string)

  /** What submitting the form does: the new text of the input box, and the question sent, if any. */
  datatype SubmitOutcome = SubmitOutcome(input: string, sent: Option<string>)

  /** `handleSubmit`: sends the trimmed question when it is not blank and no answer is pending. */
  function HandleSubmit(input: string, isLoading: bool): (r: SubmitOutcome)
    ensures r.sent.Some? <==> Trim(input) != [] && !isLoading
    ensures r.sent.Some? ==> r.sent.value == Trim(input) && r.input == ""
    ensures r.sent.None? ==> r.input == input
  {
    var question := Trim(input);
    if question != [] && !isLoading then SubmitOutcome("", Some(question)) else SubmitOutcome(input, None)
  }

  /** A question that goes out is never blank and carries no surrounding whitespace. */
  lemma SentQuestionIsTrimmed(input: string, isLoading: bool)
    requires HandleSubmit(input, isLoading).sent.Some?
    ensures var q := HandleSubmit(input, isLoading).sent.value;
      q != [] && !IsWhitespace(q[0]) && !IsWhitespace(q[|q| - 1]) && Trim(q) == q
  {
    TrimShape(input);
    TrimIdempotent(input);
  }

  /** The send button's `disabled` flag: exactly when submitting would send nothing. */
  function SubmitDisabled(input: string, isLoading: bool): (disabled: bool)
    ensures disabled <==> HandleSubmit(input, isLoading).sent.None?
  {
    Trim(input) == [] || isLoading
  }

  /** The times shown as clickable badges under a message; clicking badge `i` reports element `i`. */
  function Badges(m: ChatMessage): (b: seq<Seconds>)
    ensures b != [] <==> m.timestamps.Some? && m.timestamps.value != []
    ensures b != [] ==> b == m.timestamps.value
  {
    match m.timestamps
    case Some(ts) => ts
    case None => []
  }

  /**
   The text of the header's duration paragraph, if any. An undefined duration
   renders nothing. A zero duration is falsy, so the guard evaluates to the
   number 0 itself, which React renders as the text "0". Any other duration
   renders as "Duration: " and its label.
   */
  function DurationLine(info: VideoInfo): (line: Option<string>)
    ensures line.None? <==> info.duration.None?
    ensures info.duration == Some(0) ==> line == Some("0")
    ensures info.duration.Some? && info.duration.value != 0 ==>
      line == Some("Duration: " + FormatTime(info.duration.value))
  {
    match info.duration
    case Some(d) => Some(if d != 0 then "Duration: " + FormatTime(d) else "0")
    case None => None
  }
}
