/**
 The two-pane layout (client/src/components/MainLayout.tsx): one handler for
 time badges from either pane, which remembers the last time clicked and
 passes each click on to the parent.
 */
module MainLayout {
  import opened Wrappers
  import opened Api

  /** Where a badge click came from; both panes share the same handler. */
  datatype BadgeClick = FromChat(time: Seconds) | FromTranscript(entry: TranscriptEntry)

  /** No active time before any click. */
  const InitialActive: Option<Seconds> := None

  /** The time a click reports: a chat badge's own time, or the entry's start. */
  function ClickedTime(c: BadgeClick): Seconds {
    match c
    case FromChat(t) => t
    case FromTranscript(e) => e.start
  }

  /** The layout's state after a click, and the time forwarded to `onTimestampClick`. */
  datatype ClickEffect = ClickEffect(active: Option<Seconds>, forwarded: Seconds)

  /** `handleTimestampClick(t)`. */
  function HandleTimestampClick(active: Option<Seconds>, t: Seconds): (r: ClickEffect)
    ensures r.active == Some(t)
    ensures r.forwarded == t
  {
    ClickEffect(Some(t), t)
  }

  /** A sequence of clicks from either pane: the final active time and everything forwarded, in order. */
  function Clicks(active: Option<Seconds>, clicks: seq<BadgeClick>): (r: (Option<Seconds>, seq<Seconds>))
    decreases |clicks|
  {
    if clicks == [] then (active, [])
    else
      var step := HandleTimestampClick(active, ClickedTime(clicks[0]));
      var rest := Clicks(step.active, clicks[1..]);
      (rest.0, [step.forwarded] + rest.1)
  }

  /**
   From the initial `undefined`, the active time is that of the last click (or
   still undefined), and every click is forwarded exactly once, in order.
   */
  lemma {:induction false} ClicksFromStart(active: Option<Seconds>, clicks: seq<BadgeClick>)
    ensures clicks == [] ==> Clicks(active, clicks).0 == active
    ensures clicks != [] ==> Clicks(active, clicks).0 == Some(ClickedTime(clicks[|clicks| - 1]))
    ensures |Clicks(active, clicks).1| == |clicks|
    ensures forall k :: 0 <= k < |clicks| ==> Clicks(active, clicks).1[k] == ClickedTime(clicks[k])
    decreases |clicks|
  {
    if clicks != [] {
      ClicksFromStart(Some(ClickedTime(clicks[0])), clicks[1..]);
    }
  }
}
