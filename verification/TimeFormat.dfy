/**
 The `formatTime` helper that TranscriptViewer and ChatInterface each define,
 identically: whole minutes, a colon, and the seconds within the minute padded
 to two digits.
 */
module TimeFormat {
  import opened JsText
  import opened Api

  /** The minutes part: everything before the colon. */
  function MinutesPart(r: string): string
    requires |r| >= 4
  {
    r[..|r| - 3]
  }

  /** The seconds part: the two characters after the colon. */
  function SecondsPart(r: string): string
    requires |r| >= 4
  {
    r[|r| - 2..]
  }

  /**
   `formatTime(seconds)` for whole, non-negative seconds: `Math.floor` is then
   the identity and JavaScript's `%` agrees with Dafny's.
   */
  function FormatTime(seconds: Seconds): (r: string)
    ensures |r| >= 4 && r[|r| - 3] == ':'
    ensures AllDigits(MinutesPart(r)) && AllDigits(SecondsPart(r))
    ensures DecimalValue(SecondsPart(r)) < 60
    ensures 60 * DecimalValue(MinutesPart(r)) + DecimalValue(SecondsPart(r)) == seconds
    ensures |MinutesPart(r)| > 1 ==> r[0] != '0'
  {
    var mins := DecimalString(seconds / 60);
    var secs := PadStart(DecimalString(seconds % 60), 2, '0');
    var r := mins + ":" + secs;
    assert MinutesPart(r) == mins;
    assert SecondsPart(r) == secs;
    PaddedValue(seconds % 60);
    r
  }

  /** Padding a one-digit number with a leading zero keeps its value. */
  lemma PaddedValue(n: nat)
    requires n < 60
    ensures var p := PadStart(DecimalString(n), 2, '0');
      |p| == 2 && AllDigits(p) && DecimalValue(p) == n
  {
    var d := DecimalString(n);
    var p := PadStart(d, 2, '0');
    if n < 10 {
      assert p == ['0'] + d;
      assert p[..1] == ['0'];
    }
  }

  /** Distinct times never share a label. */
  lemma FormatTimeInjective(a: Seconds, b: Seconds)
    requires FormatTime(a) == FormatTime(b)
    ensures a == b
  {
  }
}
