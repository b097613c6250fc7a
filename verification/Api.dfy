/**
 The record shapes exchanged with the server (client/src/lib/api.ts). The HTTP
 client itself is not modelled: a reply reaches the model as one of these
 values, or as a transport failure.
 */
module Api {
  import opened Wrappers

  /** Time offsets in whole seconds. */
  type Seconds = nat

  datatype TranscriptEntry = TranscriptEntry(text: string, start: Seconds, duration: Seconds)

  /** Body of a POST to /api/transcript. */
  datatype TranscriptRequest = TranscriptRequest(url: string)

  datatype TranscriptResponse = TranscriptResponse(
    videoId: string,
    title: string,
    transcript: seq<TranscriptEntry>,
    success: bool,
    error: Option<string>)

  /** Body of a POST to /api/chat. */
  datatype ChatRequest = ChatRequest(videoId: string, question: string)

  /** `timestamps` is declared as a number array, but nothing checks that it is present. */
  datatype ChatResponse = ChatResponse(
    response: string,
    timestamps: Option<seq<Seconds>>,
    success: bool,
    error: Option<string>)

  /** JavaScript's `text || fallback` for an optional string: `undefined` and `""` are falsy. */
  function OrElse(text: Option<string>, fallback: string): string {
    if text.Some? && text.value != "" then text.value else fallback
  }
}
