/**
  The provider-independent transcript format that every transcription service returns: one
  record per segment with `StartMs`, `EndMs`, `FinalSentence` and `SpeakerId`.
*/
module Transcript {
  /** One segment of the standard format. */
  datatype FlatSegment = FlatSegment(StartMs: int, EndMs: int, FinalSentence: string, SpeakerId: string)

  /** Python's `int(x)` on a float: truncation toward zero. */
  function Trunc(x: real): (r: int)
    ensures 0.0 <= x ==> 0 <= r && r as real <= x < r as real + 1.0
    ensures x < 0.0 ==> r <= 0 && r as real - 1.0 < x <= r as real
  {
    if x >= 0.0 then x.Floor else -((-x).Floor)
  }

  /** A whole number of seconds or milliseconds converts exactly. */
  lemma TruncOfInt(n: int)
    ensures Trunc(n as real) == n
  {
  }
}
