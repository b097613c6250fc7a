/**
 The chat-history hook (client/src/hooks/useChat.ts): interpreting a reply
 string that may hold JSON, and the append-only message list with its four
 transitions (question sent, reply succeeded, reply failed, transport error)
 and clear.
 */
module UseChat {
  import opened Wrappers
  import opened Api
  import opened ChatInterface

  /**
   What `JSON.parse` produced, reduced to what the parser of replies looks at.
   An object keeps only its `answer` (assumed to be a string when present) and
   its `timestamps`, where None stands for a missing or falsy field.
   */
  datatype JsonValue =
    | JNull
    | JBool(b: bool)
    | JNumber(n: int)
    | JString(s: string)
    | JArray(elems: seq<JsonValue>)
    | JObject(answer: Option<string>, timestamps: Option<seq<Seconds>>)

  datatype ParseOutcome = ParseFail | Parsed(value: JsonValue)

  /** `JSON.parse`, left abstract: the model holds for every parser. */
  type JsonParser = string -> ParseOutcome

  /** What `parseResponse` returns: the text to show and the timestamps, never undefined. */
  datatype ParsedReply = ParsedReply(content: string, timestamps: seq<Seconds>)

  const Apology: string := "Sorry, I encountered an error while processing your question."

  /** The parsed value is a non-null object whose `answer` is truthy. */
  predicate HasUsableAnswer(outcome: ParseOutcome) {
    && outcome.Parsed?
    && outcome.value.JObject?
    && outcome.value.answer.Some?
    && outcome.value.answer.value != ""
  }

  /** JavaScript's `a || b || ... || []` over optional arrays (every array, even `[]`, is truthy). */
  function FirstPresent(candidates: seq<Option<seq<Seconds>>>): seq<Seconds> {
    if candidates == [] then []
    else if candidates[0].Some? then candidates[0].value
    else FirstPresent(candidates[1..])
  }

  lemma FirstPresentOfTwo(a: Option<seq<Seconds>>, b: Option<seq<Seconds>>)
    ensures FirstPresent([b]) == b.GetOr([])
    ensures FirstPresent([a, b]) == if a.Some? then a.value else b.GetOr([])
  {
    assert [b][1..] == [];
    assert [a, b][1..] == [b];
  }

  /**
   `parseResponse`: a usable JSON `answer` wins; anything else shows the raw
   text verbatim. Timestamps come from the JSON object (only when its answer is
   used), then the fallback, then `[]`.
   */
  function ParseResponse(raw: string, fallback: Option<seq<Seconds>>, jsonParse: JsonParser): (r: ParsedReply)
    ensures HasUsableAnswer(jsonParse(raw)) ==>
      && r.content == jsonParse(raw).value.answer.value
      && r.timestamps == FirstPresent([jsonParse(raw).value.timestamps, fallback])
    ensures !HasUsableAnswer(jsonParse(raw)) ==>
      r.content == raw && r.timestamps == FirstPresent([fallback])
  {
    var parsed := jsonParse(raw);
    FirstPresentOfTwo(if parsed.Parsed? && parsed.value.JObject? then parsed.value.timestamps else None, fallback);
    if HasUsableAnswer(parsed) then
      var timestamps := parsed.value.timestamps;
      ParsedReply(parsed.value.answer.value,
                  if timestamps.Some? then timestamps.value else if fallback.Some? then fallback.value else [])
    else
      ParsedReply(raw, if fallback.Some? then fallback.value else [])
  }

  /** The three sources of timestamps, in order of precedence. */
  lemma TimestampPrecedence(raw: string, fallback: Option<seq<Seconds>>, jsonParse: JsonParser)
    ensures var o := jsonParse(raw);
      var r := ParseResponse(raw, fallback, jsonParse);
      && (HasUsableAnswer(o) && o.value.timestamps.Some? ==> r.timestamps == o.value.timestamps.value)
      && ((!HasUsableAnswer(o) || o.value.timestamps.None?) && fallback.Some? ==> r.timestamps == fallback.value)
      && ((!HasUsableAnswer(o) || o.value.timestamps.None?) && fallback.None? ==> r.timestamps == [])
  {
    var o := jsonParse(raw);
    FirstPresentOfTwo(if HasUsableAnswer(o) then o.value.timestamps else None, fallback);
  }

  /** Raw text is shown whenever the reply is not JSON, not an object, or lacks a truthy answer. */
  lemma RawTextFallback(raw: string, fallback: Option<seq<Seconds>>, jsonParse: JsonParser)
    requires
      || jsonParse(raw).ParseFail?
      || !jsonParse(raw).value.JObject?
      || jsonParse(raw).value.answer.None?
      || jsonParse(raw).value.answer == Some("")
    ensures ParseResponse(raw, fallback, jsonParse).content == raw
    ensures ParseResponse(raw, fallback, jsonParse).timestamps == fallback.GetOr([])
  {
    FirstPresentOfTwo(None, fallback);
  }

  /** An empty JSON array is truthy: it overrides a non-empty fallback. */
  lemma EmptyJsonTimestampsWin(raw: string, answer: string, fallback: seq<Seconds>, jsonParse: JsonParser)
    requires answer != ""
    requires jsonParse(raw) == Parsed(JObject(Some(answer), Some([])))
    ensures ParseResponse(raw, Some(fallback), jsonParse) == ParsedReply(answer, [])
  {
  }

  // ---------------------------------------------------------------------------
  // Message history

  type History = seq<ChatMessage>

  /** `handleSendMessage`: the new history, and the one request it issues. */
  datatype SendResult = SendResult(messages: History, request: ChatRequest)

  /** `handleSendMessage(message, videoId)`: append the user's turn verbatim and ask the server. */
  function HandleSendMessage(h: History, message: string, videoId: string, id: string): (r: SendResult)
    ensures |r.messages| == |h| + 1 && r.messages[..|h|] == h
    ensures r.messages[|h|] == ChatMessage(id, User, message, None)
    ensures r.request == ChatRequest(videoId, message)
  {
    SendResult(h + [ChatMessage(id, User, message, None)], ChatRequest(videoId, message))
  }

  /** The mutation's `onSuccess`: one assistant turn, from the parsed reply or from the error. */
  function OnReply(h: History, data: ChatResponse, id: string, jsonParse: JsonParser): (r: History)
    ensures |r| == |h| + 1 && r[..|h|] == h
    ensures r[|h|].role == Assistant && r[|h|].id == id
    ensures data.success ==>
      var p := ParseResponse(data.response, data.timestamps, jsonParse);
      r[|h|].content == p.content && r[|h|].timestamps == Some(p.timestamps)
    ensures !data.success ==>
      && r[|h|].timestamps == None
      && (data.error.Some? && data.error.value != "" ==> r[|h|].content == data.error.value)
      && (data.error.None? || data.error.value == "" ==> r[|h|].content == Apology)
  {
    if data.success then
      var p := ParseResponse(data.response, data.timestamps, jsonParse);
      h + [ChatMessage(id, Assistant, p.content, Some(p.timestamps))]
    else
      h + [ChatMessage(id, Assistant, OrElse(data.error, Apology), None)]
  }

  /** The mutation's `onError`: one assistant turn carrying the fixed apology. */
  function OnTransportError(h: History, id: string): (r: History)
    ensures |r| == |h| + 1 && r[..|h|] == h
    ensures r[|h|] == ChatMessage(id, Assistant, Apology, None)
  {
    h + [ChatMessage(id, Assistant, Apology, None)]
  }

  /** `clearMessages`. */
  function ClearMessages(h: History): (r: History)
    ensures r == []
  {
    []
  }

  // ---------------------------------------------------------------------------
  // Runs of events

  /** How an outstanding question is settled. */
  datatype Settlement = Replied(data: ChatResponse) | TransportFailed

  /** One event on the history; `id` is whatever the clock gave the new message. */
  datatype ChatEvent =
    | Send(sendId: string, message: string, videoId: string)
    | Settle(settleId: string, outcome: Settlement)
    | Clear

  function Step(h: History, e: ChatEvent, jsonParse: JsonParser): History {
    match e
    case Send(id, message, videoId) => HandleSendMessage(h, message, videoId, id).messages
    case Settle(id, Replied(data)) => OnReply(h, data, id, jsonParse)
    case Settle(id, TransportFailed) => OnTransportError(h, id)
    case Clear => ClearMessages(h)
  }

  function Run(h: History, events: seq<ChatEvent>, jsonParse: JsonParser): History
    decreases |events|
  {
    if events == [] then h else Run(Step(h, events[0], jsonParse), events[1..], jsonParse)
  }

  /** Sending and then settling, however it settles, adds exactly a user turn then an assistant turn. */
  lemma SendThenSettle(h: History, sendId: string, message: string, videoId: string,
                       settleId: string, outcome: Settlement, jsonParse: JsonParser)
    ensures var r := Run(h, [Send(sendId, message, videoId), Settle(settleId, outcome)], jsonParse);
      && |r| == |h| + 2 && r[..|h|] == h
      && r[|h|] == ChatMessage(sendId, User, message, None)
      && r[|h| + 1].role == Assistant
  {
    var evs := [Send(sendId, message, videoId), Settle(settleId, outcome)];
    var h1 := Step(h, evs[0], jsonParse);
    var h2 := Step(h1, evs[1], jsonParse);
    assert evs[1..] == [evs[1]];
    assert evs[1..][1..] == [];
    assert Run(h1, [evs[1]], jsonParse) == Run(h2, [], jsonParse);
    assert Run(h, evs, jsonParse) == h2;
    assert h2[..|h1|] == h1;
    assert h1[..|h|] == h;
  }

  /** Without a clear, the history only grows, one message per event, keeping what it had. */
  lemma {:induction false} RunAppendOnly(h: History, events: seq<ChatEvent>, jsonParse: JsonParser)
    requires forall k :: 0 <= k < |events| ==> !events[k].Clear?
    ensures |Run(h, events, jsonParse)| == |h| + |events|
    ensures Run(h, events, jsonParse)[..|h|] == h
    decreases |events|
  {
    if events != [] {
      var h1 := Step(h, events[0], jsonParse);
      assert |h1| == |h| + 1 && h1[..|h|] == h;
      RunAppendOnly(h1, events[1..], jsonParse);
      var r := Run(h1, events[1..], jsonParse);
      assert r[..|h|] == r[..|h1|][..|h|];
    }
  }

  /** After a clear, only the events that follow it matter. */
  lemma {:induction false} RunForgetsBeforeClear(h: History, events: seq<ChatEvent>, k: nat, jsonParse: JsonParser)
    requires k < |events| && events[k].Clear?
    ensures Run(h, events, jsonParse) == Run([], events[k + 1..], jsonParse)
    decreases k
  {
    if k > 0 {
      assert events[1..][k - 1..] == events[k..];
      assert events[1..][k - 1 + 1..] == events[k + 1..];
      RunForgetsBeforeClear(Step(h, events[0], jsonParse), events[1..], k - 1, jsonParse);
    }
  }

  /** User turns never carry timestamps. */
  predicate UserTurnsUntimed(h: History) {
    forall k :: 0 <= k < |h| && h[k].role == User ==> h[k].timestamps == None
  }

  lemma {:induction false} RunKeepsUserTurnsUntimed(h: History, events: seq<ChatEvent>, jsonParse: JsonParser)
    requires UserTurnsUntimed(h)
    ensures UserTurnsUntimed(Run(h, events, jsonParse))
    decreases |events|
  {
    if events != [] {
      var h1 := Step(h, events[0], jsonParse);
      assert UserTurnsUntimed(h1) by {
        if !events[0].Clear? {
          assert h1[..|h|] == h;
          forall k | 0 <= k < |h1| && h1[k].role == User
            ensures h1[k].timestamps == None
          {
            if k < |h| {
              assert h1[k] == h1[..|h|][k];
            }
          }
        }
      }
      RunKeepsUserTurnsUntimed(h1, events[1..], jsonParse);
    }
  }

  /**
   The badges under the turn an event appends: the timestamps `parseResponse`
   chose for a successful reply, and none for a question, a failed reply or a
   transport error.
   */
  lemma BadgesOfNewTurn(h: History, e: ChatEvent, jsonParse: JsonParser)
    requires !e.Clear?
    ensures var r := Step(h, e, jsonParse);
      && |r| == |h| + 1
      && Badges(r[|h|]) ==
           if e.Settle? && e.outcome.Replied? && e.outcome.data.success
           then ParseResponse(e.outcome.data.response, e.outcome.data.timestamps, jsonParse).timestamps
           else []
  {
  }
}
