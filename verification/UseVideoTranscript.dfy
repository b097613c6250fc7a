/**
 The current-video hook (client/src/hooks/useVideoTranscript.ts): at most one
 loaded transcript, replaced by a successful reply and dropped by start-over.
 */
module UseVideoTranscript {
  import opened Wrappers
  import opened Api

  type VideoState = Option<TranscriptResponse>

  /** No video before anything happens. */
  const InitialVideo: VideoState := None

  datatype VideoEvent =
    | Submit(url: string)
    | Reply(data: TranscriptResponse)
    | TransportFailed
    | StartOver

  /** A present video is always one the server reported as a success. */
  predicate Valid(v: VideoState) {
    v.Some? ==> v.value.success
  }

  /** `handleVideoSubmit(url)`: one transcript request carrying the URL unchanged; the state waits for the reply. */
  function HandleVideoSubmit(v: VideoState, url: string): (r: (VideoState, TranscriptRequest))
    ensures r.0 == v
    ensures r.1.url == url
  {
    (v, TranscriptRequest(url))
  }

  /**
   How one event changes the current video: a successful reply replaces it,
   start-over clears it, and a failed reply or transport error (which has no
   handler) leaves it as it was.
   */
  function Step(v: VideoState, e: VideoEvent): (r: VideoState)
    ensures e.Reply? && e.data.success ==> r == Some(e.data)
    ensures e.Reply? && !e.data.success ==> r == v
    ensures e.TransportFailed? || e.Submit? ==> r == v
    ensures e.StartOver? ==> r == None
    ensures Valid(v) ==> Valid(r)
  {
    match e
    case Submit(url) => HandleVideoSubmit(v, url).0
    case Reply(data) => if data.success then Some(data) else v
    case TransportFailed => v
    case StartOver => None
  }

  /** `handleStartOver` is idempotent. */
  lemma StartOverIdempotent(v: VideoState)
    ensures Step(Step(v, StartOver), StartOver) == Step(v, StartOver)
  {
  }

  /** Events applied in arrival order. */
  function Run(v: VideoState, events: seq<VideoEvent>): VideoState
    decreases |events|
  {
    if events == [] then v else Run(Step(v, events[0]), events[1..])
  }

  /**
   The reference description of the current video: the latest successful reply
   after the latest start-over, or `v` when neither occurs.
   */
  function LatestLoaded(v: VideoState, events: seq<VideoEvent>): VideoState
    decreases |events|
  {
    if events == [] then v
    else
      var e := events[|events| - 1];
      if e.StartOver? then None
      else if e.Reply? && e.data.success then Some(e.data)
      else LatestLoaded(v, events[..|events| - 1])
  }

  lemma {:induction false} RunSnoc(v: VideoState, events: seq<VideoEvent>, e: VideoEvent)
    ensures Run(v, events + [e]) == Step(Run(v, events), e)
    decreases |events|
  {
    if events == [] {
      assert [e][1..] == [];
    } else {
      assert (events + [e])[1..] == events[1..] + [e];
      RunSnoc(Step(v, events[0]), events[1..], e);
    }
  }

  /** Folding the events one by one ends at the latest loaded video. */
  lemma {:induction false} RunIsLatestLoaded(v: VideoState, events: seq<VideoEvent>)
    ensures Run(v, events) == LatestLoaded(v, events)
    decreases |events|
  {
    if events != [] {
      var front := events[..|events| - 1];
      var e := events[|events| - 1];
      assert events == front + [e];
      RunSnoc(v, front, e);
      RunIsLatestLoaded(v, front);
    }
  }

  /** Every state reachable from the initial one holds a successful reply or nothing. */
  lemma {:induction false} ReachableIsValid(events: seq<VideoEvent>)
    ensures Valid(Run(InitialVideo, events))
  {
    RunIsLatestLoaded(InitialVideo, events);
    LatestLoadedIsValid(events);
  }

  lemma {:induction false} LatestLoadedIsValid(events: seq<VideoEvent>)
    ensures Valid(LatestLoaded(None, events))
    decreases |events|
  {
    if events != [] {
      LatestLoadedIsValid(events[..|events| - 1]);
    }
  }
}
