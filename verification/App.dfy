/**
 The top-level composition (client/src/App.tsx): which screen is shown, the
 error text of the URL form, and start-over.

 App calls `useChat()` itself, so it owns a history of its own that nothing
 ever appends to; the history on screen belongs to the `useChat()` inside
 ChatManager, which exists only while the main layout is mounted. Start-over
 clears App's list and drops the video; the displayed history disappears
 because the layout unmounts, and a later video starts from an empty one.
 */
module App {
  import opened Wrappers
  import opened Api
  import UseChat
  import UseVideoTranscript
  import ChatManager

  const LoadFailed: string := "Failed to load transcript"

  /** What App reads from the transcript mutation. */
  datatype MutationView = MutationView(isPending: bool, isError: bool, data: Option<TranscriptResponse>)

  /** The `error` prop given to the URL form. */
  function TranscriptError(m: MutationView): (text: Option<string>)
    ensures text.Some? <==> m.isError || (m.data.Some? && !m.data.value.success)
    ensures m.data.Some? && !m.data.value.success ==>
      text == Some(if m.data.value.error.Some? && m.data.value.error.value != "" then m.data.value.error.value else LoadFailed)
    ensures m.isError && m.data.None? ==> text == Some(LoadFailed)
    ensures text.Some? ==> text.value != ""
  {
    if m.isError || (m.data.Some? && !m.data.value.success) then
      Some(if m.data.Some? then OrElse(m.data.value.error, LoadFailed) else LoadFailed)
    else None
  }

  datatype Screen =
    | HealthError
    | UrlForm(isLoading: bool, error: Option<string>)
    | Layout(video: TranscriptResponse)

  /** Which screen App renders. */
  function SelectScreen(healthError: bool, video: UseVideoTranscript.VideoState, m: MutationView): (s: Screen)
    ensures healthError <==> s.HealthError?
    ensures !healthError ==> (s.UrlForm? <==> video.None?)
    ensures s.Layout? ==> video == Some(s.video)
    ensures s.UrlForm? ==> s.isLoading == m.isPending && s.error == TranscriptError(m)
  {
    if healthError then HealthError
    else if video.None? then UrlForm(m.isPending, TranscriptError(m))
    else Layout(video.value)
  }

  /** The layout, and with it the chat panel, is on screen: the health check has not failed and a video is loaded. */
  predicate LayoutShown(healthFailing: bool, video: UseVideoTranscript.VideoState) {
    !healthFailing && video.Some?
  }

  /**
   The history of one ChatManager instance. `mount` numbers the instances in
   the order they were mounted; a reply reaches only the instance that asked.
   */
  datatype MountedChat = MountedChat(mount: nat, history: UseChat.History)

  /**
   The state behind the screen: whether the health check has failed, the
   current video, App's own chat list, the mounted ChatManager's history if the
   layout is on screen, and how many ChatManager instances were mounted so far.
   */
  datatype AppState = AppState(
    healthFailing: bool,
    video: UseVideoTranscript.VideoState,
    ownChat: UseChat.History,
    chat: Option<MountedChat>,
    mounts: nat)

  const Initial: AppState := AppState(false, UseVideoTranscript.InitialVideo, [], None, 0)

  /** Invariant of every reachable state. */
  predicate Good(s: AppState) {
    && UseVideoTranscript.Valid(s.video)
    && s.ownChat == []
    && (s.chat.Some? <==> LayoutShown(s.healthFailing, s.video))
    && (s.chat.Some? ==> s.chat.value.mount < s.mounts)
  }

  datatype AppEvent =
    /** The health query's error appears or clears. */
    | HealthChanged(failing: bool)
    | Transcript(e: UseVideoTranscript.VideoEvent)
    /** The mounted panel's `onSendMessage`. */
    | Ask(askId: string, question: string)
    /** The chat mutation of instance `mount` settles a question it sent. */
    | Settle(mount: nat, settleId: string, outcome: UseChat.Settlement)
    | StartOverClicked

  /**
   Re-renders App with a new health flag and video. A chat that stays on screen
   keeps its history; one that leaves is unmounted and its history is lost; one
   that appears is a fresh instance with an empty history.
   */
  function Remount(s: AppState, healthFailing: bool, video: UseVideoTranscript.VideoState): (r: AppState)
    ensures r.healthFailing == healthFailing && r.video == video && r.ownChat == s.ownChat
    ensures r.chat.Some? <==> LayoutShown(healthFailing, video)
    ensures r.chat.Some? && s.chat.Some? ==> r.chat == s.chat && r.mounts == s.mounts
    ensures r.chat.Some? && s.chat.None? ==> r.chat == Some(MountedChat(s.mounts, [])) && r.mounts == s.mounts + 1
    ensures r.chat.None? ==> r.mounts == s.mounts
  {
    if !LayoutShown(healthFailing, video) then AppState(healthFailing, video, s.ownChat, None, s.mounts)
    else if s.chat.Some? then AppState(healthFailing, video, s.ownChat, s.chat, s.mounts)
    else AppState(healthFailing, video, s.ownChat, Some(MountedChat(s.mounts, [])), s.mounts + 1)
  }

  /** `onStartOver`: `handleStartOver()`, then `clearMessages()` on App's own list. */
  function OnStartOver(s: AppState): (r: AppState)
    ensures r.video == None && r.ownChat == [] && r.chat == None
    ensures r.healthFailing == s.healthFailing && r.mounts == s.mounts
  {
    var video := UseVideoTranscript.Step(s.video, UseVideoTranscript.StartOver);
    Remount(s.(ownChat := UseChat.ClearMessages(s.ownChat)), s.healthFailing, video)
  }

  /** The state after one event, and the chat request it issued, if any. */
  datatype Stepped = Stepped(state: AppState, request: Option<ChatRequest>)

  function Step(s: AppState, e: AppEvent, jsonParse: UseChat.JsonParser): (r: Stepped)
    ensures Good(s) ==> Good(r.state)
    ensures r.request.Some? <==> e.Ask? && s.chat.Some? && s.video.Some?
    ensures r.request.Some? ==> r.request.value == ChatRequest(s.video.value.videoId, e.question)
    ensures e.Ask? || e.Settle? ==>
      && r.state.healthFailing == s.healthFailing && r.state.video == s.video
      && r.state.ownChat == s.ownChat && r.state.mounts == s.mounts
      && (r.state.chat.Some? <==> s.chat.Some?)
      && (r.state.chat.Some? ==> r.state.chat.value.mount == s.chat.value.mount)
    ensures e.Settle? && (s.chat.None? || s.chat.value.mount != e.mount) ==> r.state == s
    ensures e.HealthChanged? && e.failing ==> r.state.chat == None && r.state.video == s.video
  {
    match e
    case HealthChanged(failing) => Stepped(Remount(s, failing, s.video), None)
    case Transcript(ev) => Stepped(Remount(s, s.healthFailing, UseVideoTranscript.Step(s.video, ev)), None)
    case Ask(id, question) =>
      if s.chat.Some? && s.video.Some? then
        var sent := ChatManager.OnSendMessage(s.video.value, s.chat.value.history, question, id);
        Stepped(s.(chat := Some(s.chat.value.(history := sent.messages))), Some(sent.request))
      else Stepped(s, None)
    case Settle(mount, id, outcome) =>
      // The instance that asked is gone: its state setter has no effect.
      if s.chat.Some? && s.chat.value.mount == mount then
        var h := UseChat.Step(s.chat.value.history, UseChat.Settle(id, outcome), jsonParse);
        Stepped(s.(chat := Some(s.chat.value.(history := h))), None)
      else Stepped(s, None)
    case StartOverClicked => Stepped(OnStartOver(s), None)
  }

  /** The state after a run of events, and the chat requests issued on the way, in order. */
  datatype Outcome = Outcome(state: AppState, requests: seq<ChatRequest>)

  function Run(s: AppState, events: seq<AppEvent>, jsonParse: UseChat.JsonParser): Outcome
    decreases |events|
  {
    if events == [] then Outcome(s, [])
    else
      var r := Step(s, events[0], jsonParse);
      var rest := Run(r.state, events[1..], jsonParse);
      Outcome(rest.state, (if r.request.Some? then [r.request.value] else []) + rest.requests)
  }

  /** Every reachable state keeps App's own list empty and mounts a chat exactly while the layout is shown. */
  lemma {:induction false} RunStaysGood(s: AppState, events: seq<AppEvent>, jsonParse: UseChat.JsonParser)
    requires Good(s)
    ensures Good(Run(s, events, jsonParse).state)
    ensures forall m: MutationView :: var t := Run(s, events, jsonParse).state;
      t.chat.Some? <==> SelectScreen(t.healthFailing, t.video, m).Layout?
    decreases |events|
  {
    if events != [] {
      RunStaysGood(Step(s, events[0], jsonParse).state, events[1..], jsonParse);
    }
  }

  /** The events that reach the video hook, in order: transcript events, and start-over as its `handleStartOver`. */
  function VideoEvents(events: seq<AppEvent>): seq<UseVideoTranscript.VideoEvent>
    decreases |events|
  {
    if events == [] then []
    else
      var head := match events[0]
        case Transcript(ev) => [ev]
        case StartOverClicked => [UseVideoTranscript.StartOver]
        case _ => [];
      head + VideoEvents(events[1..])
  }

  /** App's current video is the video hook's state after exactly the events that reach it. */
  lemma {:induction false} RunFollowsVideoEvents(s: AppState, events: seq<AppEvent>, jsonParse: UseChat.JsonParser)
    ensures Run(s, events, jsonParse).state.video == UseVideoTranscript.Run(s.video, VideoEvents(events))
    decreases |events|
  {
    if events != [] {
      var r := Step(s, events[0], jsonParse);
      RunFollowsVideoEvents(r.state, events[1..], jsonParse);
      match events[0]
      case Transcript(ev) =>
        assert VideoEvents(events) == [ev] + VideoEvents(events[1..]);
        assert ([ev] + VideoEvents(events[1..]))[1..] == VideoEvents(events[1..]);
      case StartOverClicked =>
        var ev := UseVideoTranscript.StartOver;
        assert VideoEvents(events) == [ev] + VideoEvents(events[1..]);
        assert ([ev] + VideoEvents(events[1..]))[1..] == VideoEvents(events[1..]);
      case _ =>
        assert VideoEvents(events) == VideoEvents(events[1..]);
    }
  }

  /**
   From the initial state, once the health check has passed, the screen is the
   URL form exactly when no successful reply has arrived since the latest
   start-over, and otherwise the layout of the latest such reply.
   */
  lemma ShownVideoIsLatestLoaded(events: seq<AppEvent>, jsonParse: UseChat.JsonParser, m: MutationView)
    ensures var t := Run(Initial, events, jsonParse).state;
      !t.healthFailing ==>
        SelectScreen(false, t.video, m) ==
          match UseVideoTranscript.LatestLoaded(None, VideoEvents(events))
          case None => UrlForm(m.isPending, TranscriptError(m))
          case Some(v) => Layout(v)
  {
    RunFollowsVideoEvents(Initial, events, jsonParse);
    UseVideoTranscript.RunIsLatestLoaded(None, VideoEvents(events));
  }

  /** The chat requests that a run of questions about one video issues, one per question, in order. */
  function QuestionsAbout(videoId: string, events: seq<AppEvent>): seq<ChatRequest>
    decreases |events|
  {
    if events == [] then []
    else (if events[0].Ask? then [ChatRequest(videoId, events[0].question)] else []) + QuestionsAbout(videoId, events[1..])
  }

  /** Chat traffic only: questions and settlements. */
  predicate ChatOnly(events: seq<AppEvent>) {
    forall k :: 0 <= k < |events| ==> events[k].Ask? || events[k].Settle?
  }

  /**
   While the layout shows a video and only chat traffic happens, every question
   is sent to the server exactly once, in order, tagged with that video's id.
   */
  lemma {:induction false} RequestsCarryShownVideo(s: AppState, events: seq<AppEvent>, jsonParse: UseChat.JsonParser)
    requires Good(s) && s.chat.Some?
    requires ChatOnly(events)
    ensures Run(s, events, jsonParse).requests == QuestionsAbout(s.video.value.videoId, events)
    decreases |events|
  {
    if events != [] {
      var r := Step(s, events[0], jsonParse);
      assert ChatOnly(events[1..]) by {
        forall k | 0 <= k < |events[1..]| ensures events[1..][k].Ask? || events[1..][k].Settle? {
          assert events[1..][k] == events[k + 1];
        }
      }
      RequestsCarryShownVideo(r.state, events[1..], jsonParse);
    }
  }

  /**
   A question still pending at start-over never reaches the next video's chat:
   after start-over the URL form shows, the next successful load mounts a fresh
   empty chat, and the old question's reply leaves it empty.
   */
  lemma StartOverThenLoad(s: AppState, data: TranscriptResponse, settleId: string,
                          outcome: UseChat.Settlement, jsonParse: UseChat.JsonParser, m: MutationView)
    requires Good(s) && s.chat.Some? && data.success
    ensures SelectScreen(false, OnStartOver(s).video, m).UrlForm?
    ensures var asked := s.chat.value.mount;
      var t := Run(s, [StartOverClicked, Transcript(UseVideoTranscript.Reply(data)), Settle(asked, settleId, outcome)], jsonParse).state;
      t.video == Some(data) && t.chat == Some(MountedChat(s.mounts, []))
  {
    var events := [StartOverClicked, Transcript(UseVideoTranscript.Reply(data)), Settle(s.chat.value.mount, settleId, outcome)];
    var s1 := Step(s, events[0], jsonParse).state;
    var s2 := Step(s1, events[1], jsonParse).state;
    var s3 := Step(s2, events[2], jsonParse).state;
    assert s2.chat == Some(MountedChat(s.mounts, []));
    assert s3 == s2;
    assert events[1..][1..][1..] == [];
    assert Run(s2, events[1..][1..], jsonParse).state == s3;
  }

  /**
   A failing health check replaces the whole page, unmounting the chat; when
   it recovers, the same video comes back with a fresh, empty chat.
   */
  lemma HealthErrorResetsChat(s: AppState, jsonParse: UseChat.JsonParser)
    requires Good(s) && s.chat.Some?
    ensures var t := Run(s, [HealthChanged(true), HealthChanged(false)], jsonParse).state;
      t.video == s.video && t.chat == Some(MountedChat(s.mounts, []))
  {
    var events := [HealthChanged(true), HealthChanged(false)];
    var s1 := Step(s, events[0], jsonParse).state;
    var s2 := Step(s1, events[1], jsonParse).state;
    assert events[1..][1..] == [];
    assert Run(s1, events[1..], jsonParse).state == s2;
  }
}
