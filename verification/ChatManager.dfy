/**
 The glue between the current video and the chat panel
 (client/src/components/ChatManager.tsx): the header's video information and
 the tagging of every question with the video's id.
 */
module ChatManager {
  import opened Wrappers
  import opened Api
  import opened ChatInterface
  import opened TimeFormat
  import UseChat

  /** When an entry's caption ends. */
  function EndTime(e: TranscriptEntry): Seconds {
    e.start + e.duration
  }

  /** The latest end time over all entries, undefined for an empty transcript. */
  function Duration(transcript: seq<TranscriptEntry>): (d: Option<Seconds>)
    ensures d.None? <==> transcript == []
    ensures d.Some? ==> forall k :: 0 <= k < |transcript| ==> EndTime(transcript[k]) <= d.value
    ensures d.Some? ==> exists k :: 0 <= k < |transcript| && EndTime(transcript[k]) == d.value
    decreases |transcript|
  {
    if transcript == [] then None
    else
      var head := EndTime(transcript[0]);
      match Duration(transcript[1..])
      case None => Some(head)
      case Some(rest) => Some(if head < rest then rest else head)
  }

  /** The `videoInfo` passed to the chat panel: the title as given, no URL, and the duration. */
  function VideoInfoFor(video: TranscriptResponse): (info: VideoInfo)
    ensures info.title == video.title
    ensures info.url == ""
    ensures info.duration.None? <==> video.transcript == []
    ensures info.duration.Some? ==>
      forall k :: 0 <= k < |video.transcript| ==> EndTime(video.transcript[k]) <= info.duration.value
    ensures info.duration.Some? ==>
      exists k :: 0 <= k < |video.transcript| && EndTime(video.transcript[k]) == info.duration.value
  {
    VideoInfo(video.title, Duration(video.transcript), "")
  }

  /** Every entry ends at time zero. */
  predicate AllEndAtZero(transcript: seq<TranscriptEntry>) {
    forall k :: 0 <= k < |transcript| ==> EndTime(transcript[k]) == 0
  }

  /**
   What the chat header shows under the title: nothing for an empty transcript,
   the bare text "0" when every entry ends at time zero, and otherwise
   "Duration: " with the label of the latest entry end.
   */
  lemma DurationLineForVideo(video: TranscriptResponse)
    ensures var line := DurationLine(VideoInfoFor(video));
      && (line.None? <==> video.transcript == [])
      && (line == Some("0") <==> video.transcript != [] && AllEndAtZero(video.transcript))
      && (video.transcript != [] && !AllEndAtZero(video.transcript) ==>
            exists k :: 0 <= k < |video.transcript|
              && (forall j :: 0 <= j < |video.transcript| ==> EndTime(video.transcript[j]) <= EndTime(video.transcript[k]))
              && line == Some("Duration: " + FormatTime(EndTime(video.transcript[k]))))
  {
    var t := video.transcript;
    var line := DurationLine(VideoInfoFor(video));
    if t != [] {
      var d := Duration(t).value;
      var k :| 0 <= k < |t| && EndTime(t[k]) == d;
      if d == 0 {
        assert AllEndAtZero(t);
      } else {
        assert EndTime(t[k]) != 0;
        assert !AllEndAtZero(t);
        assert line.value[0] == 'D';
      }
    }
  }

  /** `onSendMessage`: the question goes to this manager's own history, tagged with the current video. */
  function OnSendMessage(video: TranscriptResponse, h: UseChat.History, message: string, id: string): (r: UseChat.SendResult)
    ensures r.request.videoId == video.videoId
    ensures r.request.question == message
    ensures |r.messages| == |h| + 1 && r.messages[..|h|] == h
    ensures r.messages[|h|].role == User && r.messages[|h|].content == message
  {
    UseChat.HandleSendMessage(h, message, video.videoId, id)
  }
}
