/**
  The AWS transcript segmenter: one pass over the word-level `results.items` of an AWS Transcribe
  result that cuts the words into speaker-labelled sentences and groups them by minute, then the
  flattening of those groups. Times are exact integer milliseconds.

  `Step` states one iteration of the source's `while` loop as a function of the loop's variables
  (`State`), `Run` iterates it, and `ProcessTranscriptData` is the loop itself, proved to compute
  `Segment`.
*/
module AwsTranscribe {
  import opened Wrappers
  import opened Text
  import opened Times
  import opened ChineseText
  import opened Transcript

  datatype Kind = Pronunciation | Punctuation

  /**
    One entry of `results.items`. `content` is `alternatives[0].content`, None when the item has no
    `alternatives` or an empty list; `startTime`/`endTime` are the decimal-seconds strings, None
    when the key is absent.
  */
  datatype Item = Item(
    kind: Kind,
    startTime: Option<string>,
    endTime: Option<string>,
    speakerLabel: Option<string>,
    content: Option<string>)

  datatype TranscriptionSegment = TranscriptionSegment(
    StartMs: int, EndMs: int, FinalSentence: string, SpeakerId: string, FormattedTime: string)

  datatype MinuteSegment = MinuteSegment(minute: int, segments: seq<TranscriptionSegment>)

  /** The exceptions that abort the pass (reported by the caller as one HTTP 500). */
  datatype Error =
    | BadStartTime(index: nat)              // `float(item['start_time'])` raises: key missing or not a number
    | MissingPunctuationContent(index: nat) // a glued punctuation item without `alternatives[0]`
    | BadEndTime(index: nat)                // `float(item['end_time'])` raises
    | NoSentenceStart(index: nat)           // `None * 1000`

  /** `item.get('speaker_label', 'spk_0')` */
  function Label(item: Item): string {
    item.speakerLabel.GetOr("spk_0")
  }

  /** `float(items[i]['start_time'])`, in milliseconds. */
  function StartOf(items: seq<Item>, i: nat): Result<nat, Error>
    requires i < |items|
  {
    match items[i].startTime
    case None => Failure(BadStartTime(i))
    case Some(s) =>
      match ParseMillis(s)
      case None => Failure(BadStartTime(i))
      case Some(t) => Success(t)
  }

  /** `float(items[i].get('end_time', fallback))`, in milliseconds. */
  function EndOf(items: seq<Item>, i: nat, fallback: nat): Result<nat, Error>
    requires i < |items|
  {
    match items[i].endTime
    case None => Success(fallback)
    case Some(s) =>
      match ParseMillis(s)
      case None => Failure(BadEndTime(i))
      case Some(t) => Success(t)
  }

  /** `speaker_map.get(current_speaker, "Speaker 1")` */
  function SpeakerName(speakerMap: map<string, string>, speaker: Option<string>): string {
    if speaker.Some? && speaker.value in speakerMap then speakerMap[speaker.value] else "Speaker 1"
  }

  /** The sentence text of a list of entries: joined by spaces, then cleaned for Chinese. */
  function Render(entries: seq<string>, isChinese: bool, dec: EscapeDecoders): string {
    var text := JoinWords(entries);
    if isChinese then CleanChineseText(text, dec) else text
  }

  /**
    The loop's variables. `startTime` is `start_time`, the start of the most recent word item (it is
    read only once a word has been seen). `emitted` is bookkeeping that the source does not keep:
    the entries of every sentence emitted so far, in order.
  */
  datatype State = State(
    segments: seq<MinuteSegment>,
    currentMinute: int,
    minuteSegments: seq<TranscriptionSegment>,
    speakerCount: nat,
    speakerMap: map<string, string>,
    sentence: seq<string>,
    sentenceStart: Option<nat>,
    speaker: Option<string>,
    startTime: nat,
    emitted: seq<seq<string>>)

  function Init(): State {
    State([], -1, [], 1, map[], [], None, None, 0, [])
  }

  /** Lines 328-333: a word item opens the sentence when none is open, registering its speaker. */
  function Open(st: State, speakerLabel: string, t: nat): State {
    if st.sentenceStart.Some? then st
    else if speakerLabel in st.speakerMap then st.(sentenceStart := Some(t), speaker := Some(speakerLabel))
    else st.(sentenceStart := Some(t), speaker := Some(speakerLabel),
             speakerMap := st.speakerMap[speakerLabel := "Speaker " + NatToString(st.speakerCount)],
             speakerCount := st.speakerCount + 1)
  }

  /**
    Lines 335-344: a word item with alternatives appends its content, with a directly following
    punctuation item glued onto it (which moves the index onto the punctuation item).
  */
  function Append(items: seq<Item>, i: nat, st: State): (r: Result<(nat, State), Error>)
    requires i < |items|
    ensures r.Success? ==> i <= r.value.0 <= i + 1 && r.value.0 < |items|
    ensures r.Success? && r.value.0 == i + 1 ==> items[i + 1].kind == Punctuation
  {
    var item := items[i];
    if item.content.None? then Success((i, st))
    else if i + 1 < |items| && items[i + 1].kind == Punctuation then
      match items[i + 1].content
      case None => Failure(MissingPunctuationContent(i + 1))
      case Some(p) => Success((i + 1, st.(sentence := st.sentence + [item.content.value + p])))
    else Success((i, st.(sentence := st.sentence + [item.content.value])))
  }

  /** Lines 324-344, the first half of an iteration: read the item at `i`. */
  function Take(items: seq<Item>, i: nat, st: State): (r: Result<(nat, State), Error>)
    requires i < |items|
    ensures r.Success? ==> i <= r.value.0 <= i + 1 && r.value.0 < |items|
    ensures r.Success? && r.value.0 == i + 1 ==> items[i + 1].kind == Punctuation
  {
    if items[i].kind == Punctuation then Success((i, st))
    else
      var t :- StartOf(items, i);
      Append(items, i, Open(st, Label(items[i]), t).(startTime := t))
  }

  /**
    Whether the open sentence is cut after index `j`: only with a word item next, by a pause of more
    than 4 s after a sentence end (20 entries or more), a speaker change after a sentence end (15 or
    more), or 150 entries; and always at the last item.
  */
  function ShouldCut(items: seq<Item>, j: nat, st: State): Result<bool, Error>
    requires j < |items|
  {
    if st.sentence == [] then Success(false)
    else if j + 1 < |items| then
      if items[j + 1].kind == Punctuation then Success(false)
      else
        var nextTime :- StartOf(items, j + 1);
        var n := |st.sentence|;
        var isEnd := EndsSentence(st.sentence[n - 1]);
        Success((isEnd && nextTime - st.startTime > 4000 && n >= 20)
             || (Some(Label(items[j + 1])) != st.speaker && isEnd && n >= 15)
             || n >= 150)
    else Success(true)
  }

  /** The start and speaker of the next sentence: the next item when it is a word, else none. */
  function Reopen(items: seq<Item>, j: nat): Result<(Option<nat>, Option<string>), Error>
    requires j < |items|
  {
    if j + 1 < |items| && items[j + 1].kind != Punctuation then
      var t :- StartOf(items, j + 1);
      Success((Some(t), Some(Label(items[j + 1]))))
    else Success((None, None))
  }

  /**
    Emitting the open sentence: close the current minute bucket when the sentence starts in another
    minute, append the segment, and reopen from the item after `j`. `w` is the item the iteration
    began with (the source's `item`), whose `end_time` ends the segment even when a punctuation
    item was glued on and the index has moved to `j`.
  */
  function Emit(items: seq<Item>, w: nat, j: nat, st: State, isChinese: bool, dec: EscapeDecoders): Result<State, Error>
    requires w <= j < |items|
  {
    var sentence := Render(st.sentence, isChinese, dec);
    if st.sentenceStart.None? then Failure(NoSentenceStart(j))
    else
      var startMs := st.sentenceStart.value;
      var endMs :- EndOf(items, w, st.startTime);
      var minute := startMs / 60000;
      var closes := st.currentMinute != -1 && st.currentMinute != minute && st.minuteSegments != [];
      var segments := if closes then st.segments + [MinuteSegment(st.currentMinute, st.minuteSegments)] else st.segments;
      var bucket := if closes then [] else st.minuteSegments;
      var segment := TranscriptionSegment(startMs, endMs, sentence, SpeakerName(st.speakerMap, st.speaker), FormatHms(startMs / 1000));
      var next :- Reopen(items, j);
      Success(st.(segments := segments, currentMinute := minute, minuteSegments := bucket + [segment],
                  sentence := [], sentenceStart := next.0, speaker := next.1,
                  emitted := st.emitted + [st.sentence]))
  }

  /**
    Lines 346-397, the second half of an iteration that began at `w`: decide whether to cut after
    `j`, and emit.
  */
  function Settle(items: seq<Item>, w: nat, j: nat, st: State, isChinese: bool, dec: EscapeDecoders): Result<State, Error>
    requires w <= j < |items|
  {
    var cut :- ShouldCut(items, j, st);
    if cut && st.sentence != [] then Emit(items, w, j, st, isChinese, dec) else Success(st)
  }

  /** One iteration of the loop, from index `i` to the index of the next iteration. */
  function Step(items: seq<Item>, i: nat, st: State, isChinese: bool, dec: EscapeDecoders): (r: Result<(nat, State), Error>)
    requires i < |items|
    ensures r.Success? ==> i < r.value.0 <= |items|
  {
    var taken :- Take(items, i, st);
    var st2 :- Settle(items, i, taken.0, taken.1, isChinese, dec);
    Success((taken.0 + 1, st2))
  }

  /** The loop from index `i` on. */
  function Run(items: seq<Item>, i: nat, st: State, isChinese: bool, dec: EscapeDecoders): Result<State, Error>
    requires i <= |items|
    decreases |items| - i
  {
    if i == |items| then Success(st)
    else
      var next :- Step(items, i, st, isChinese, dec);
      Run(items, next.0, next.1, isChinese, dec)
  }

  /** After the loop: the last bucket, when it holds a segment. */
  function Finish(st: State): seq<MinuteSegment> {
    if st.minuteSegments != [] then st.segments + [MinuteSegment(st.currentMinute, st.minuteSegments)] else st.segments
  }

  /** `process_transcript_data` as a function of the items. */
  function Segment(items: seq<Item>, isChinese: bool, dec: EscapeDecoders): Result<seq<MinuteSegment>, Error> {
    var st :- Run(items, 0, Init(), isChinese, dec);
    Success(Finish(st))
  }

  /** Lines 324-344 of the loop body: read the item at `i`, open the sentence, append and glue. */
  method TakeItem(items: seq<Item>, i: nat, st: State) returns (r: Result<(nat, State), Error>)
    requires i < |items|
    ensures r == Take(items, i, st)
  {
    var item := items[i];
    var s := st;
    var j := i;
    if item.kind != Punctuation {
      var parsed := StartOf(items, i);
      if parsed.Failure? {
        return Failure(parsed.error);
      }
      var startTime := parsed.value;
      var speakerLabel := Label(item);
      if s.sentenceStart.None? {
        s := s.(sentenceStart := Some(startTime));
        if speakerLabel !in s.speakerMap {
          s := s.(speakerMap := s.speakerMap[speakerLabel := "Speaker " + NatToString(s.speakerCount)]);
          s := s.(speakerCount := s.speakerCount + 1);
        }
        s := s.(speaker := Some(speakerLabel));
      }
      s := s.(startTime := startTime);
      if item.content.Some? {
        var sentence := s.sentence + [item.content.value];
        // look ahead for punctuation
        if i + 1 < |items| && items[i + 1].kind == Punctuation {
          if items[i + 1].content.None? {
            return Failure(MissingPunctuationContent(i + 1));
          }
          var punct := items[i + 1].content.value;
          sentence := sentence[..|sentence| - 1] + [sentence[|sentence| - 1] + punct];
          assert sentence == s.sentence + [item.content.value + punct];
          j := i + 1;
        }
        s := s.(sentence := sentence);
      }
    }
    return Success((j, s));
  }

  /** Lines 347-364 of the loop body: decide whether the open sentence ends after index `j`. */
  method CheckBreak(items: seq<Item>, j: nat, st: State) returns (r: Result<bool, Error>)
    requires j < |items|
    ensures r == ShouldCut(items, j, st)
  {
    var shouldCreateSegment := false;
    var currentSentence := st.sentence;
    if |currentSentence| > 0 {
      var lastWord := currentSentence[|currentSentence| - 1];
      var isSentenceEnd := EndsSentence(lastWord);
      if j + 1 < |items| {
        var nextItem := items[j + 1];
        if nextItem.kind != Punctuation {
          var nextParsed := StartOf(items, j + 1);
          if nextParsed.Failure? {
            return Failure(nextParsed.error);
          }
          var nextTime := nextParsed.value;
          var nextSpeaker := Label(nextItem);
          shouldCreateSegment :=
            (isSentenceEnd && nextTime - st.startTime > 4000 && |currentSentence| >= 20) ||
            (Some(nextSpeaker) != st.speaker && isSentenceEnd && |currentSentence| >= 15) ||
            |currentSentence| >= 150;
        }
      } else {
        shouldCreateSegment := true;
      }
    }
    return Success(shouldCreateSegment);
  }

  /** Lines 366-395 of the loop body: emit the open sentence into the current minute bucket. */
  method EmitSentence(items: seq<Item>, w: nat, j: nat, st: State, isChinese: bool, dec: EscapeDecoders) returns (r: Result<State, Error>)
    requires w <= j < |items|
    ensures r == Emit(items, w, j, st, isChinese, dec)
  {
    var sentence := JoinWords(st.sentence);
    if isChinese {
      sentence := CleanChineseText(sentence, dec);
    }
    if st.sentenceStart.None? {
      return Failure(NoSentenceStart(j));
    }
    var startMs := st.sentenceStart.value;
    var endParsed := EndOf(items, w, st.startTime);
    if endParsed.Failure? {
      return Failure(endParsed.error);
    }
    var endMs := endParsed.value;
    var currentItemMinute := startMs / 60000;
    var segments, minuteSegments := st.segments, st.minuteSegments;
    if st.currentMinute != -1 && st.currentMinute != currentItemMinute {
      if |minuteSegments| > 0 {
        segments := segments + [MinuteSegment(st.currentMinute, minuteSegments)];
        minuteSegments := [];
      }
    }
    minuteSegments := minuteSegments + [TranscriptionSegment(
      startMs, endMs, sentence, SpeakerName(st.speakerMap, st.speaker), FormatHms(startMs / 1000))];
    var sentenceStartTime: Option<nat>, currentSpeaker: Option<string> := None, None;
    if j + 1 < |items| && items[j + 1].kind != Punctuation {
      var reopened := StartOf(items, j + 1);
      if reopened.Failure? {
        return Failure(reopened.error);
      }
      sentenceStartTime := Some(reopened.value);
      currentSpeaker := Some(Label(items[j + 1]));
    }
    return Success(st.(segments := segments, currentMinute := currentItemMinute, minuteSegments := minuteSegments,
                       sentence := [], sentenceStart := sentenceStartTime, speaker := currentSpeaker,
                       emitted := st.emitted + [st.sentence]));
  }

  /** Lines 346-397 of the loop body: the cut decision, then the emission. */
  method SettleItem(items: seq<Item>, w: nat, j: nat, st: State, isChinese: bool, dec: EscapeDecoders)
    returns (r: Result<State, Error>)
    requires w <= j < |items|
    ensures r == Settle(items, w, j, st, isChinese, dec)
  {
    var cut := CheckBreak(items, j, st);
    if cut.Failure? {
      return Failure(cut.error);
    }
    if cut.value && |st.sentence| > 0 {
      r := EmitSentence(items, w, j, st, isChinese, dec);
    } else {
      r := Success(st);
    }
  }

  /** One pass of the loop body (lines 324-397): take the item, decide, emit. */
  method ProcessItem(items: seq<Item>, i: nat, st: State, isChinese: bool, dec: EscapeDecoders)
    returns (r: Result<(nat, State), Error>)
    requires i < |items|
    ensures r == Step(items, i, st, isChinese, dec)
  {
    var taken := TakeItem(items, i, st);
    if taken.Failure? {
      return Failure(taken.error);
    }
    var settled := SettleItem(items, i, taken.value.0, taken.value.1, isChinese, dec);
    StepOf(items, i, st, taken.value.0, taken.value.1, settled, isChinese, dec);
    if settled.Failure? {
      return Failure(settled.error);
    }
    return Success((taken.value.0 + 1, settled.value));
  }

  /** A step whose Take succeeds fails with its Settle, or moves one past where the Take stopped. */
  lemma StepOf(items: seq<Item>, i: nat, st: State, j: nat, st1: State, settled: Result<State, Error>,
               isChinese: bool, dec: EscapeDecoders)
    requires i < |items| && Take(items, i, st) == Success((j, st1))
    requires settled == Settle(items, i, j, st1, isChinese, dec)
    ensures settled.Failure? ==> Step(items, i, st, isChinese, dec) == Failure(settled.error)
    ensures settled.Success? ==> Step(items, i, st, isChinese, dec) == Success((j + 1, settled.value))
  {
  }

  /** `process_transcript_data`: the `while` loop over the items, then the last bucket. */
  method ProcessTranscriptData(items: seq<Item>, isChinese: bool, dec: EscapeDecoders) returns (r: Result<seq<MinuteSegment>, Error>)
    ensures r == Segment(items, isChinese, dec)
  {
    var st := Init();
    var i := 0;
    while i < |items|
      invariant i <= |items|
      invariant Run(items, i, st, isChinese, dec) == Run(items, 0, Init(), isChinese, dec)
      decreases |items| - i
    {
      var next := ProcessItem(items, i, st, isChinese, dec);
      if next.Failure? {
        return Failure(next.error);
      }
      i, st := next.value.0, next.value.1;
    }
    var segments := st.segments;
    if |st.minuteSegments| > 0 {
      segments := segments + [MinuteSegment(st.currentMinute, st.minuteSegments)];
    }
    return Success(segments);
  }

  // ---------------------------------------------------------------------------------------------
  // Flattening (`monitor_asr_task`)
  // ---------------------------------------------------------------------------------------------

  function Flatten1(s: TranscriptionSegment): FlatSegment {
    FlatSegment(s.StartMs, s.EndMs, s.FinalSentence, s.SpeakerId)
  }

  /** Every bucket's segments, bucket after bucket. */
  function AllSegments(buckets: seq<MinuteSegment>): seq<TranscriptionSegment> {
    if buckets == [] then [] else AllSegments(buckets[..|buckets| - 1]) + buckets[|buckets| - 1].segments
  }

  /** The flat form of a run of segments, in order. */
  function FlattenAll(segs: seq<TranscriptionSegment>): seq<FlatSegment> {
    if segs == [] then [] else FlattenAll(segs[..|segs| - 1]) + [Flatten1(segs[|segs| - 1])]
  }

  /** Flattening keeps the segments one for one, in order. */
  lemma {:induction false} FlattenAllIndex(segs: seq<TranscriptionSegment>)
    ensures |FlattenAll(segs)| == |segs|
    ensures forall k :: 0 <= k < |segs| ==> FlattenAll(segs)[k] == Flatten1(segs[k])
  {
    if segs != [] {
      FlattenAllIndex(segs[..|segs| - 1]);
    }
  }

  lemma {:induction false} FlattenAllAppend(a: seq<TranscriptionSegment>, b: seq<TranscriptionSegment>)
    ensures FlattenAll(a + b) == FlattenAll(a) + FlattenAll(b)
    decreases |b|
  {
    if b == [] {
      assert a + b == a;
    } else {
      assert (a + b)[..|a + b| - 1] == a + b[..|b| - 1];
      FlattenAllAppend(a, b[..|b| - 1]);
    }
  }

  lemma AllSegmentsPrefix(buckets: seq<MinuteSegment>, b: nat)
    requires b < |buckets|
    ensures AllSegments(buckets[..b + 1]) == AllSegments(buckets[..b]) + buckets[b].segments
  {
    assert buckets[..b + 1][..b] == buckets[..b];
  }

  /** The inner loop of the flattening: one bucket's segments, in order. */
  method FlattenBucket(segs: seq<TranscriptionSegment>) returns (flat: seq<FlatSegment>)
    ensures flat == FlattenAll(segs)
  {
    flat := [];
    for s := 0 to |segs|
      invariant flat == FlattenAll(segs[..s])
    {
      assert segs[..s + 1][..s] == segs[..s];
      flat := flat + [Flatten1(segs[s])];
    }
    assert segs[..|segs|] == segs;
  }

  /** The nested loop that drops the minute grouping and `FormattedTime`. */
  method FlattenSegments(buckets: seq<MinuteSegment>) returns (flat: seq<FlatSegment>)
    ensures flat == FlattenAll(AllSegments(buckets))
  {
    flat := [];
    for b := 0 to |buckets|
      invariant flat == FlattenAll(AllSegments(buckets[..b]))
    {
      var segs := FlattenBucket(buckets[b].segments);
      AllSegmentsPrefix(buckets, b);
      FlattenAllAppend(AllSegments(buckets[..b]), buckets[b].segments);
      flat := flat + segs;
    }
    assert buckets[..|buckets|] == buckets;
  }
}
