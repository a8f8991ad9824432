/**
  The conversion of whisper.cpp segments into the standard transcript format. whisper.cpp reports
  segment times in centiseconds; Whisper does no diarization, so every segment is "Speaker 1".
*/
module Whisper {
  import opened Text
  import opened Transcript

  /** A segment as whisper.cpp returns it: `t0` and `t1` in centiseconds. */
  datatype ModelSegment = ModelSegment(t0: int, t1: int, text: string)

  /** One model segment in the standard format. */
  function Convert(s: ModelSegment): FlatSegment {
    FlatSegment(Trunc(s.t0 as real * 10.0), Trunc(s.t1 as real * 10.0), Strip(s.text), "Speaker 1")
  }

  /**
    A converted segment's times are the centisecond times in milliseconds, and its sentence is the
    segment text with the surrounding whitespace and nothing else removed: a slice of the text with
    only whitespace outside it.
  */
  lemma ConvertSpec(s: ModelSegment)
    ensures Convert(s).StartMs == 10 * s.t0 && Convert(s).EndMs == 10 * s.t1
    ensures Convert(s).SpeakerId == "Speaker 1"
    ensures var f := Convert(s).FinalSentence;
      && (exists a, b :: 0 <= a <= b <= |s.text| && f == s.text[a..b] && AllSpace(s.text[..a]) && AllSpace(s.text[b..]))
      && (f == [] || (!IsSpace(f[0]) && !IsSpace(f[|f| - 1])))
      && RemoveSpaces(f) == RemoveSpaces(s.text)
      && (f == "" <==> AllSpace(s.text))
  {
    assert s.t0 as real * 10.0 == (10 * s.t0) as real && s.t1 as real * 10.0 == (10 * s.t1) as real;
    TruncOfInt(10 * s.t0);
    TruncOfInt(10 * s.t1);
    StripSpec(s.text);
  }

  /** Lines 101-108: one result per model segment, in order. */
  method Transcribe(segments: seq<ModelSegment>) returns (result: seq<FlatSegment>)
    ensures |result| == |segments|
    ensures forall k :: 0 <= k < |segments| ==> result[k] == Convert(segments[k])
  {
    result := [];
    for k := 0 to |segments|
      invariant |result| == k
      invariant forall m :: 0 <= m < k ==> result[m] == Convert(segments[m])
    {
      var segment := segments[k];
      result := result + [FlatSegment(Trunc(segment.t0 as real * 10.0), Trunc(segment.t1 as real * 10.0),
                                      Strip(segment.text), "Speaker 1")];
    }
  }
}
