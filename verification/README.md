# yt-chat client: a Dafny model of its decision rules and state machines

yt-chat is a small browser client. The user pastes a YouTube URL, the client fetches
the transcript, and the user then asks questions that the server answers against that
transcript. Answers can carry clickable timestamps. This project models the client's
logic as pure functions over immutable datatypes and proves what each piece promises:

- **Chat replies and history** (`UseChat`). The server's reply string may hold JSON with
  an `answer` and `timestamps`. `ParseResponse` decides what is shown. The history is
  append-only under four transitions: question sent, reply succeeded, reply failed, and
  transport error. `clear` empties it.
- **Current video** (`UseVideoTranscript`). There is at most one loaded transcript. Only a
  reply with `success = true` replaces it, and start-over drops it. A folded run of events
  always ends at the latest successful reply after the latest start-over.
- **Transcript search and time labels** (`TranscriptViewer`, `TimeFormat`). The search is
  a case-insensitive substring filter. `m:ss` labels keep the seconds below 60, two digits
  wide.
- **Input guards** (`YouTubeInput`, `ChatInterface`, `JsText`).
  - The URL validator is a single prefix scan. It is proved equal to the language of its
    start-anchored regular expression.
  - The submit guards trim the input and refuse blank input or input sent while loading.
  - `JsText` holds the ECMAScript `trim`, `includes`, `padStart` and `toString` that
    these guards rely on.
- **Derived values** (`ChatManager`, `App`, `MainLayout`).
  - `ChatManager`: the video's duration.
  - `App`: the form's error text and which screen is shown.
  - `MainLayout`: the last clicked timestamp.
  - `App`: start-over, composed across App's two chat histories.

App calls `useChat()` itself, and ChatManager calls it again. App's history is never
appended to, so App's `clearMessages` in start-over clears a list that is always empty. The
history on screen belongs to the ChatManager instance that is mounted while the layout is
shown. The layout is shown only while a video is loaded and the health check has not failed.
A start-over or a failing health check unmounts it, and the next time it appears it is a
fresh instance with an empty history. A question still pending when its instance unmounts
gets a reply that has nowhere to go. `App.AppState` numbers the mounted instances, so a
reply reaches only the instance that asked. `App.RunStaysGood` and `App.StartOverThenLoad`
prove these properties.

Three behaviours of the code are easy to misread:

- After a reply with `success = false`, the current video is left as it was. It is not
  reset to none.
- The JSON `timestamps` field is used when it is truthy, not merely when it is present. An
  empty array therefore wins over the fallback list.
- A video whose transcript entries all end at time zero has a duration of 0. The chat
  header then shows the bare text "0", because the falsy number itself is rendered.
- Clicking a timestamp does not scroll the transcript. The layout passes an
  `activeTimestamp` value to the transcript panel, but the panel declares no such property.

## Model

| member | source | states |
|---|---|---|
| `UseChat.ParseResponse` | client/src/hooks/useChat.ts:9-32 | A usable JSON answer (a non-null object with a truthy `answer`) is shown exactly. Otherwise the raw text is shown verbatim. Timestamps are always defined: the first present of the object's field and the fallback, else `[]`. |
| `UseChat.TimestampPrecedence` | client/src/hooks/useChat.ts:14-30 | Timestamps come from the JSON field if truthy (only when its answer is used), else from the fallback, else `[]`. |
| `UseChat.RawTextFallback` | client/src/hooks/useChat.ts:21-31 | A parse failure, a non-object, a missing answer or an empty answer shows the raw string unchanged, with the fallback or `[]`. |
| `UseChat.EmptyJsonTimestampsWin` | client/src/hooks/useChat.ts:17 | An empty JSON `timestamps` array is truthy and overrides a non-empty fallback. |
| `UseChat.HandleSendMessage` | client/src/hooks/useChat.ts:78-90 | Appends one user turn with the message verbatim and no timestamps. The earlier turns are unchanged. Issues one request with the same video id and question. |
| `UseChat.OnReply` | client/src/hooks/useChat.ts:40-64 | Appends one assistant turn. On success it carries the parsed reply and its timestamps. On failure it carries a non-empty `error`, else the fixed apology, and no timestamps. The prefix is untouched. |
| `UseChat.OnTransportError` | client/src/hooks/useChat.ts:65-75 | Appends exactly one assistant turn with the fixed apology and no timestamps. The prefix is untouched. |
| `UseChat.ClearMessages` | client/src/hooks/useChat.ts:92-94 | The history becomes empty whatever it held. |
| `UseChat.SendThenSettle` | client/src/hooks/useChat.ts:40-89 | A question, however it is settled, adds exactly one user turn followed by exactly one assistant turn. |
| `UseChat.RunAppendOnly` | client/src/hooks/useChat.ts:43-84 | Without a clear, every event adds one message and the existing history stays a prefix. |
| `UseChat.RunForgetsBeforeClear` | client/src/hooks/useChat.ts:92-94 | After a clear, the history depends only on the events that follow it. |
| `UseChat.BadgesOfNewTurn` | client/src/hooks/useChat.ts:40-89 | The turn an event appends carries, as badges, the timestamps `parseResponse` chose for a successful reply. A question, a failed reply and a transport error carry none. |
| `UseChat.RunKeepsUserTurnsUntimed` | client/src/hooks/useChat.ts:79-83 | No user turn ever carries timestamps, whatever events follow. |
| `UseVideoTranscript.HandleVideoSubmit` | client/src/hooks/useVideoTranscript.ts:19-21 | Issues one transcript request with the URL unchanged. The current video is not touched until a reply arrives. |
| `UseVideoTranscript.Step` | client/src/hooks/useVideoTranscript.ts:10-25 | A successful reply becomes the current video. A failed reply or a transport error leaves the video unchanged. Start-over clears it. Every transition keeps "a present video has `success`". |
| `UseVideoTranscript.StartOverIdempotent` | client/src/hooks/useVideoTranscript.ts:23-25 | Starting over twice is the same as starting over once. |
| `UseVideoTranscript.RunIsLatestLoaded` | client/src/hooks/useVideoTranscript.ts:6-25 | Events applied in arrival order leave the latest successful reply after the latest start-over as the current video. If there is none, the starting state remains. |
| `UseVideoTranscript.ReachableIsValid` | client/src/hooks/useVideoTranscript.ts:6-16 | From the initial empty state, a present current video always has `success = true`. |
| `TranscriptViewer.Filter` | client/src/components/TranscriptViewer.tsx:28-30 | Counted with multiplicity, each entry whose lower-cased text contains the lower-cased query occurs as often as in the transcript, and every other entry not at all. The result is never longer than the input. |
| `TranscriptViewer.FilterIsSubsequence` | client/src/components/TranscriptViewer.tsx:28-30 | The filtered list is an order-preserving subsequence of the transcript. |
| `TranscriptViewer.FilterIdempotent` | client/src/components/TranscriptViewer.tsx:28-30 | Filtering twice with one query equals filtering once. |
| `TranscriptViewer.FilterEmptyQuery` | client/src/components/TranscriptViewer.tsx:28-30 | The empty query keeps every entry. |
| `TranscriptViewer.FilterKeepsExactlyMatches` | client/src/components/TranscriptViewer.tsx:28-30 | An entry of the transcript is shown if and only if it matches the query, and everything shown is a matching entry of the transcript. |
| `TranscriptViewer.MatchCount` | client/src/components/TranscriptViewer.tsx:66-70 | The "N of M entries match" line appears only for a non-empty query. N is the filtered count, M is the total, and N <= M. |
| `TranscriptViewer.EmptyState` | client/src/components/TranscriptViewer.tsx:76-79 | The placeholder appears if and only if nothing is shown. It reads "No matching entries found" when a query is typed, else "No transcript available". |
| `TranscriptViewer.EmptyStateWithoutQuery` | client/src/components/TranscriptViewer.tsx:76-79 | With no query, "No transcript available" appears exactly for an empty transcript. |
| `TranscriptViewer.Badges` | client/src/components/TranscriptViewer.tsx:87-93 | Each visible entry has one badge, in order. The badge is labelled with its start time and reports exactly that start when clicked. |
| `TimeFormat.FormatTime` | client/src/components/TranscriptViewer.tsx:22-26 | The label is digits, a colon, then two digits. Minutes are unpadded and seconds are below 60. 60 * minutes + seconds gives back the input. |
| `TimeFormat.FormatTimeInjective` | client/src/components/ChatInterface.tsx:50-54 | Two different times never get the same label. |
| `TimeFormat.PaddedValue` | client/src/components/ChatInterface.tsx:53 | `padStart(2, "0")` on the seconds gives two digits with the same value. |
| `JsText.DecimalString` | client/src/components/TranscriptViewer.tsx:25 | `toString` of a natural number gives digits with no leading zero that denote the number. |
| `JsText.TrimStartShape` | client/src/components/ChatInterface.tsx:44 | The leading half of `trim` cuts only whitespace from the front and leaves a suffix that is empty or starts with a non-whitespace character. |
| `JsText.TrimEndShape` | client/src/components/ChatInterface.tsx:44 | The trailing half of `trim` cuts only whitespace from the back and leaves a prefix that is empty or ends with a non-whitespace character. |
| `JsText.TrimShape` | client/src/components/ChatInterface.tsx:44 | `trim` returns a contiguous slice with only whitespace cut from both sides, and no whitespace left at either end. |
| `JsText.TrimIgnoresPadding` | client/src/components/YouTubeInput.tsx:26 | Adding whitespace around a string does not change its trimmed form. |
| `JsText.TrimIdempotent` | client/src/components/YouTubeInput.tsx:31 | Trimming twice is trimming once. |
| `JsText.Includes` | client/src/components/TranscriptViewer.tsx:29 | `includes` answers true exactly when the needle occurs at some offset of the text. |
| `JsText.Lower` | client/src/components/TranscriptViewer.tsx:29 | Lower-casing keeps the length and maps each ASCII capital to its small letter, leaving every other character alone. |
| `ChatInterface.HandleSubmit` | client/src/components/ChatInterface.tsx:42-48 | Sends the trimmed question exactly when it is non-blank and no answer is pending. A send empties the input. Otherwise nothing is sent and the input is unchanged. |
| `ChatInterface.SentQuestionIsTrimmed` | client/src/components/ChatInterface.tsx:44-45 | A question that is sent is non-empty and has no whitespace at either end. |
| `ChatInterface.SubmitDisabled` | client/src/components/ChatInterface.tsx:165-167 | The send button is disabled exactly when submitting would send nothing. |
| `ChatInterface.Badges` | client/src/components/ChatInterface.tsx:114-121 | Badges render only when the message has a non-empty timestamp list. They are exactly that list, so clicking badge i reports timestamp i. |
| `ChatInterface.DurationLine` | client/src/components/ChatInterface.tsx:71-72 | An undefined duration renders nothing. A zero duration renders the bare text "0". Any other duration renders "Duration: " followed by its label. |
| `YouTubeInput.IsValidYouTubeUrl` | client/src/components/YouTubeInput.tsx:19-22 | The single pass accepts exactly the strings in the regular expression's language: an optional http/https scheme, an optional `www.`, `youtube.com` or `youtu.be`, `/`, then one non-line-terminator character. |
| `YouTubeInput.SchemeIsForced` | client/src/components/YouTubeInput.tsx:20 | Of the three choices for the optional scheme group, only the one a prefix test picks can succeed, so no backtracking is needed. |
| `YouTubeInput.SubdomainIsForced` | client/src/components/YouTubeInput.tsx:20 | Only one `www.` choice can succeed, the one a prefix test picks. |
| `YouTubeInput.AcceptsWatchUrl` | client/src/components/YouTubeInput.tsx:20 | Every `https://www.youtube.com/` URL is accepted when its path starts with a character other than a line terminator, as in `watch?v=abc`. |
| `YouTubeInput.AcceptsShortLink` | client/src/components/YouTubeInput.tsx:20 | Every `youtu.be/` link is accepted when its path starts with a character other than a line terminator. |
| `YouTubeInput.RejectsOtherStart` | client/src/components/YouTubeInput.tsx:20 | A URL whose first character is none of `h`, `w` and `y` is rejected, e.g. another scheme or another subdomain. |
| `YouTubeInput.RejectsWithoutHost` | client/src/components/YouTubeInput.tsx:20 | After the optional scheme and `www.` are dropped, anything that does not start with `y` (the first letter of both hosts) is rejected. |
| `YouTubeInput.RejectsWithoutPathCharacter` | client/src/components/YouTubeInput.tsx:20 | A host and its slash with nothing after, or with a line terminator after, is rejected, whatever scheme and subdomain came before. |
| `YouTubeInput.HandleSubmit` | client/src/components/YouTubeInput.tsx:24-29 | Once `handleSubmit` runs, `onSubmit` receives the trimmed URL exactly when it is non-empty and in the regular expression's language. |
| `YouTubeInput.IsValid` | client/src/components/YouTubeInput.tsx:31 | Blank input counts as valid. Otherwise the trimmed URL decides. |
| `YouTubeInput.ShowsValidationError` | client/src/components/YouTubeInput.tsx:49-53 | The error line shows exactly for non-blank input that the regular expression rejects. |
| `YouTubeInput.ButtonDisabled` | client/src/components/YouTubeInput.tsx:56-58 | The button is disabled exactly when loading or when `handleSubmit`'s guard would refuse. An enabled button's submit passes that guard. |
| `YouTubeInput.PaddingIsIgnored` | client/src/components/YouTubeInput.tsx:24-31 | Whitespace around the URL changes neither the verdict, nor the submitted value, nor the button. |
| `ChatManager.Duration` | client/src/components/ChatManager.tsx:22-29 | The duration is undefined if and only if the transcript is empty. Otherwise it is at least every entry's start+duration and equals one of them. |
| `ChatManager.VideoInfoFor` | client/src/components/ChatManager.tsx:17-30 | The title is forwarded unchanged and the URL is empty. The duration is undefined exactly for an empty transcript. Otherwise it bounds every entry's end and equals one of them, so it is the maximum. |
| `ChatManager.DurationLineForVideo` | client/src/components/ChatManager.tsx:19-30 | The header under the title shows nothing for an empty transcript. It shows "0" exactly when every entry ends at time zero. Otherwise it shows "Duration: " with the label of the latest entry end. |
| `ChatManager.OnSendMessage` | client/src/components/ChatManager.tsx:13-15 | Every question is requested with the current video's id and appended verbatim as a user turn. |
| `MainLayout.HandleTimestampClick` | client/src/components/MainLayout.tsx:16-19 | A click makes its time the active one and forwards the same time to the parent. |
| `MainLayout.ClicksFromStart` | client/src/components/MainLayout.tsx:14-35 | Over clicks from either pane, the last click wins, or the value is still the initial one if there were no clicks. Every click is forwarded exactly once, in order. |
| `App.TranscriptError` | client/src/App.tsx:43-49 | There is error text exactly when the mutation errored or returned `success = false`. With failed data the text is its non-empty `error`, else "Failed to load transcript". A transport error with no data gives "Failed to load transcript". The text is never empty, so the form always renders it. |
| `App.SelectScreen` | client/src/App.tsx:31-57 | A health error wins. Otherwise the URL form shows exactly when there is no current video, with the mutation's loading flag and error text. Otherwise the layout shows that video. |
| `App.Remount` | client/src/App.tsx:31-57 | A chat is mounted exactly while the layout is shown. One that stays keeps its history and number. One that appears is a new, empty instance with the next number. |
| `App.OnStartOver` | client/src/App.tsx:26-29 | Start-over leaves no video, App's own list empty and no mounted chat. |
| `App.Step` | client/src/App.tsx:11-57 | Every event keeps the invariant: a present video has `success`, App's own list is empty, and a chat is mounted exactly while the layout is shown. A question issues one request with the shown video's id. A reply addressed to an unmounted instance changes nothing. A failing health check unmounts the chat. Chat events never touch the video. |
| `App.RunStaysGood` | client/src/App.tsx:11-57 | The invariant holds after any run of events from a good state, and a chat is mounted exactly when the selected screen is the layout. |
| `App.RunFollowsVideoEvents` | client/src/App.tsx:11-29 | App's current video is the video hook's state after exactly the transcript events and start-overs, in order. |
| `App.ShownVideoIsLatestLoaded` | client/src/App.tsx:39-57 | With the health check passing, the URL form shows exactly when no successful reply has arrived since the latest start-over. Otherwise the layout shows the latest such reply. |
| `App.RequestsCarryShownVideo` | client/src/components/ChatManager.tsx:13-15 | While a video is shown and only chat traffic happens, every question issues exactly one request, in order, tagged with that video's id. |
| `App.StartOverThenLoad` | client/src/App.tsx:26-57 | After start-over the URL form is shown. The next successful load mounts a new, empty chat, and the reply to a question asked before start-over leaves it empty. |
| `App.HealthErrorResetsChat` | client/src/App.tsx:31-33 | A failing health check unmounts the chat. When it recovers, the same video returns with a new, empty chat. |

## Left out

- HTTP client and endpoints (client/src/lib/api.ts): fetching, status checks, configuration and JSON encoding are I/O. Replies enter the model as `Api` records or as a transport failure.
- `JSON.parse` is a function parameter (`UseChat.JsonParser`), not a JSON grammar. The parsed object keeps only `answer` (assumed to be a string) and `timestamps` (assumed to be a number array, or missing or falsy).
- UseChat.ParseResponse: does not model a truthy non-string `answer` or a truthy non-array `timestamps`, because their types are assumed as above.
- Message ids come from the clock. They are parameters, and nothing is claimed about their uniqueness.
- Asynchronous lifecycle: react-query pending flags, the health-check retry policy and overlapping submits. Each reply is a discrete event applied in arrival order. The health query's outcome enters as an event that sets or clears the failing flag, and its retries and timing are not modelled.
- Search highlighting builds a regular expression from the raw query and injects markup. It depends on the regex engine and the DOM, so it is not modelled.
- Scroll effects: the chat's auto-scroll is not modelled. The transcript has no scroll-to-timestamp at all.
- Console logging, including App's `handleTimestampClick`, which only logs.
- TimeFormat.FormatTime: seconds are whole, non-negative numbers, so fractional and negative times (where `Math.floor` and JavaScript's `%` matter) are not modelled.
- ChatManager.Duration: start and duration are whole seconds instead of floating-point numbers.
- JsText.Lower: lower-cases ASCII letters only. Full Unicode case mapping is not modelled.
- YouTubeInput.HandleSubmit: the URL input has `type="url"` (client/src/components/YouTubeInput.tsx:42), so the browser's form validation may block a submission before `handleSubmit` runs. That happens, for instance, for a scheme-less `youtu.be/x` that the regular expression accepts. The browser's URL constraint validation is not modelled, so the contract describes what `handleSubmit` does once it runs.
- YouTubeInput.ButtonDisabled: an enabled button's submit passes `handleSubmit`'s guard, but the browser's URL validation (see above) can still stop the submission.
- Presentation-only components: Header, ErrorDisplay, ServerStatus, VideoManager (it forwards its props unchanged), StartOverButton, and main.tsx. The stub server is also left out.
- The chat panel's "Ask any question" placeholder for an empty history and the input's disabled flag while loading are pure rendering, so they are not modelled.
