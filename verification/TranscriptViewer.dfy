/**
 The transcript panel (client/src/components/TranscriptViewer.tsx): the
 case-insensitive search filter, the match-count line, the empty state and the
 clickable time badge of each visible entry.
 */
module TranscriptViewer {
  import opened Wrappers
  import opened Api
  import opened JsText
  import opened TimeFormat

  /** An entry matches when its lower-cased text contains the lower-cased query. */
  predicate Matches(e: TranscriptEntry, query: string) {
    Contains(Lower(e.text), Lower(query))
  }

  /** `filteredTranscript`: the entries that match, in their original order. */
  function Filter(transcript: seq<TranscriptEntry>, query: string): (r: seq<TranscriptEntry>)
    ensures |r| <= |transcript|
    ensures forall x :: multiset(r)[x] == if Matches(x, query) then multiset(transcript)[x] else 0
    decreases |transcript|
  {
    if transcript == [] then []
    else
      var rest := Filter(transcript[1..], query);
      assert multiset(transcript) == multiset([transcript[0]]) + multiset(transcript[1..]) by {
        assert transcript == [transcript[0]] + transcript[1..];
      }
      if Matches(transcript[0], query) then
        assert multiset([transcript[0]] + rest) == multiset([transcript[0]]) + multiset(rest);
        [transcript[0]] + rest
      else rest
  }

  /** `a` is `b` with some elements left out, the rest in order. */
  predicate IsSubsequence<T(==)>(a: seq<T>, b: seq<T>)
    decreases |b|
  {
    if b == [] then a == []
    else (a != [] && a[0] == b[0] && IsSubsequence(a[1..], b[1..])) || IsSubsequence(a, b[1..])
  }

  /** The filter keeps the order of the transcript. */
  lemma {:induction false} FilterIsSubsequence(transcript: seq<TranscriptEntry>, query: string)
    ensures IsSubsequence(Filter(transcript, query), transcript)
    decreases |transcript|
  {
    if transcript != [] {
      FilterIsSubsequence(transcript[1..], query);
      var rest := Filter(transcript[1..], query);
      if Matches(transcript[0], query) {
        assert ([transcript[0]] + rest)[1..] == rest;
      }
    }
  }

  /** Filtering again with the same query changes nothing. */
  lemma {:induction false} FilterIdempotent(transcript: seq<TranscriptEntry>, query: string)
    ensures Filter(Filter(transcript, query), query) == Filter(transcript, query)
    decreases |transcript|
  {
    if transcript != [] {
      FilterIdempotent(transcript[1..], query);
      var rest := Filter(transcript[1..], query);
      if Matches(transcript[0], query) {
        assert ([transcript[0]] + rest)[1..] == rest;
      }
    }
  }

  /** The empty query keeps every entry. */
  lemma {:induction false} FilterEmptyQuery(transcript: seq<TranscriptEntry>)
    ensures Filter(transcript, "") == transcript
    decreases |transcript|
  {
    if transcript != [] {
      ContainsEmpty(Lower(transcript[0].text));
      FilterEmptyQuery(transcript[1..]);
    }
  }

  /** An entry survives exactly when its text contains the query, ignoring case. */
  lemma FilterKeepsExactlyMatches(transcript: seq<TranscriptEntry>, query: string)
    ensures forall k :: 0 <= k < |transcript| ==>
      (transcript[k] in Filter(transcript, query) <==> Matches(transcript[k], query))
    ensures forall e :: e in Filter(transcript, query) ==> e in transcript && Matches(e, query)
  {
    var r := Filter(transcript, query);
    forall e | e in r ensures e in transcript && Matches(e, query) {
      assert multiset(r)[e] > 0;
    }
    forall k | 0 <= k < |transcript| ensures transcript[k] in r <==> Matches(transcript[k], query) {
      assert multiset(transcript)[transcript[k]] > 0;
    }
  }

  /** The line "N of M entries match", shown only while a query is typed. */
  function MatchCount(transcript: seq<TranscriptEntry>, query: string): (line: Option<(nat, nat)>)
    ensures line.Some? <==> query != ""
    ensures line.Some? ==> line.value.0 == |Filter(transcript, query)| && line.value.1 == |transcript|
    ensures line.Some? ==> line.value.0 <= line.value.1
  {
    if query != "" then Some((|Filter(transcript, query)|, |transcript|)) else None
  }

  /** The placeholder shown instead of a list, if any. */
  function EmptyState(transcript: seq<TranscriptEntry>, query: string): (text: Option<string>)
    ensures text.Some? <==> Filter(transcript, query) == []
    ensures text.Some? && query != "" ==> text.value == "No matching entries found"
    ensures text.Some? && query == "" ==> text.value == "No transcript available"
  {
    if |Filter(transcript, query)| == 0 then
      Some(if query != "" then "No matching entries found" else "No transcript available")
    else None
  }

  /** With no query, the placeholder appears exactly for an empty transcript. */
  lemma EmptyStateWithoutQuery(transcript: seq<TranscriptEntry>)
    ensures EmptyState(transcript, "") == (if transcript == [] then Some("No transcript available") else None)
  {
    FilterEmptyQuery(transcript);
  }

  /** A visible entry's badge: its label and the time its click reports. */
  datatype Badge = Badge(text: string, onClick: Seconds)

  /** The badges of the visible entries, one per entry, in order. */
  function Badges(transcript: seq<TranscriptEntry>, query: string): (b: seq<Badge>)
    ensures var shown := Filter(transcript, query);
      && |b| == |shown|
      && forall k :: 0 <= k < |b| ==> b[k].onClick == shown[k].start && b[k].text == FormatTime(shown[k].start)
  {
    var shown := Filter(transcript, query);
    seq(|shown|, k requires 0 <= k < |shown| => Badge(FormatTime(shown[k].start), shown[k].start))
  }
}
