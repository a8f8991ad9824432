/**
  What the AWS segmenter guarantees: sentence length bounds, that the sentences' entries are exactly
  the words of the transcript in order, the shape of every cut, the single speaker label, the minute
  buckets, that the post-loop flush never has anything to flush, and failure on a word without a
  start time.
*/
module AwsTranscribeProofs {
  import opened Wrappers
  import opened Text
  import opened Times
  import opened ChineseText
  import opened AwsTranscribe

  // ---------------------------------------------------------------------------------------------
  // Reference definitions
  // ---------------------------------------------------------------------------------------------

  /**
    The entries the transcript is meant to yield from index `i` on: `alternatives[0].content` of
    every word item that has alternatives, with a punctuation item that directly follows such a
    word glued onto it; every other punctuation item is dropped.
  */
  function EntriesFrom(items: seq<Item>, i: nat): seq<string>
    decreases |items| - i
  {
    if i >= |items| then []
    else if items[i].kind == Punctuation || items[i].content.None? then EntriesFrom(items, i + 1)
    else if i + 1 < |items| && items[i + 1].kind == Punctuation then
      [items[i].content.value + items[i + 1].content.GetOr("")] + EntriesFrom(items, i + 2)
    else [items[i].content.value] + EntriesFrom(items, i + 1)
  }

  function Concat(ss: seq<seq<string>>): seq<string> {
    if ss == [] then [] else Concat(ss[..|ss| - 1]) + ss[|ss| - 1]
  }

  /** What a sentence cut before the end of the input looks like. */
  predicate CutShape(e: seq<string>) {
    |e| >= 150 || (|e| >= 15 && EndsSentence(e[|e| - 1]))
  }

  predicate NoWordBefore(items: seq<Item>, i: nat)
    requires i <= |items|
  {
    forall q :: 0 <= q < i ==> items[q].kind == Punctuation
  }

  /** The speaker label of the first word item. */
  function FirstLabel(items: seq<Item>): Option<string> {
    if items == [] then None
    else if items[0].kind == Pronunciation then Some(Label(items[0]))
    else FirstLabel(items[1..])
  }

  predicate InBucket(s: TranscriptionSegment, minute: int) {
    s.StartMs / 60000 == minute
  }

  predicate BucketOk(b: MinuteSegment) {
    b.segments != [] && forall s :: s in b.segments ==> InBucket(s, b.minute)
  }

  // ---------------------------------------------------------------------------------------------
  // The loop invariant, part by part
  // ---------------------------------------------------------------------------------------------

  predicate Bounds(items: seq<Item>, i: nat, st: State)
    requires i <= |items|
  {
    && |st.sentence| <= 150
    && (i < |items| && items[i].kind == Pronunciation ==> |st.sentence| < 150)
    && (i == |items| ==> st.sentence == [])
    && forall k :: 0 <= k < |st.emitted| ==> 1 <= |st.emitted[k]| <= 150
  }

  predicate Covers(items: seq<Item>, i: nat, st: State)
    requires i <= |items|
  {
    Concat(st.emitted) + (st.sentence + EntriesFrom(items, i)) == EntriesFrom(items, 0)
  }

  predicate Cuts(items: seq<Item>, i: nat, st: State) {
    forall k :: 0 <= k < |st.emitted| && (k < |st.emitted| - 1 || i < |items|) ==> CutShape(st.emitted[k])
  }

  predicate Opening(items: seq<Item>, i: nat, st: State)
    requires i <= |items|
  {
    && (st.sentence != [] ==> st.sentenceStart.Some?)
    && (st.sentenceStart.Some? ==> st.speaker.Some? && st.speakerMap != map[])
    && (st.sentenceStart.None? && i < |items| ==> st.speakerMap == map[] && st.speakerCount == 1)
  }

  predicate Speakers(items: seq<Item>, i: nat, st: State)
    requires i <= |items|
  {
    && (st.speakerMap == map[] ==> st.speakerCount == 1 && NoWordBefore(items, i))
    && (st.speakerMap != map[] ==>
          st.speakerCount == 2 && FirstLabel(items).Some? && st.speakerMap == map[FirstLabel(items).value := "Speaker 1"])
  }

  predicate Output(st: State, isChinese: bool, dec: EscapeDecoders) {
    var all := AllSegments(st.segments) + st.minuteSegments;
    && |all| == |st.emitted|
    && forall k :: 0 <= k < |all| ==>
         && all[k].FinalSentence == Render(st.emitted[k], isChinese, dec)
         && all[k].SpeakerId == "Speaker 1"
         && all[k].StartMs >= 0
         && all[k].FormattedTime == FormatHms(all[k].StartMs / 1000)
  }

  predicate Buckets(st: State) {
    && (forall k :: 0 <= k < |st.segments| ==> BucketOk(st.segments[k]))
    && (forall k :: 0 <= k < |st.segments| - 1 ==> st.segments[k].minute != st.segments[k + 1].minute)
    && (st.minuteSegments == [] <==> st.currentMinute == -1)
    && (st.currentMinute == -1 ==> st.segments == [])
    && (st.segments != [] ==> st.segments[|st.segments| - 1].minute != st.currentMinute)
    && forall s :: s in st.minuteSegments ==> InBucket(s, st.currentMinute)
  }

  predicate Inv(items: seq<Item>, i: nat, st: State, isChinese: bool, dec: EscapeDecoders)
    requires i <= |items|
  {
    && Bounds(items, i, st) && Covers(items, i, st) && Cuts(items, i, st) && Opening(items, i, st)
    && Speakers(items, i, st) && Output(st, isChinese, dec) && Buckets(st)
  }

  // ---------------------------------------------------------------------------------------------
  // One iteration
  // ---------------------------------------------------------------------------------------------

  lemma ConcatSnoc(ss: seq<seq<string>>, s: seq<string>)
    ensures Concat(ss + [s]) == Concat(ss) + s
  {
    assert (ss + [s])[..|ss|] == ss;
  }

  lemma AllSegmentsSnoc(bs: seq<MinuteSegment>, b: MinuteSegment)
    ensures AllSegments(bs + [b]) == AllSegments(bs) + b.segments
  {
    assert (bs + [b])[..|bs|] == bs;
  }

  lemma {:induction false} FirstLabelAt(items: seq<Item>, i: nat)
    requires i < |items| && NoWordBefore(items, i) && items[i].kind == Pronunciation
    ensures FirstLabel(items) == Some(Label(items[i]))
    decreases i
  {
    if i > 0 {
      assert NoWordBefore(items[1..], i - 1) by {
        forall q | 0 <= q < i - 1
          ensures items[1..][q].kind == Punctuation
        {
          assert items[1..][q] == items[q + 1];
        }
      }
      FirstLabelAt(items[1..], i - 1);
    }
  }

  /** Appending changes only the sentence, by at most the one entry the item yields. */
  lemma AppendFacts(items: seq<Item>, i: nat, st: State)
    requires i < |items| && items[i].kind == Pronunciation && Append(items, i, st).Success?
    ensures var r := Append(items, i, st).value;
      && r.1 == st.(sentence := r.1.sentence)
      && |r.1.sentence| <= |st.sentence| + 1
      && st.sentence + EntriesFrom(items, i) == r.1.sentence + EntriesFrom(items, r.0 + 1)
  {
    var item := items[i];
    if item.content.None? {
      assert Append(items, i, st) == Success((i, st));
      assert EntriesFrom(items, i) == EntriesFrom(items, i + 1);
    } else if i + 1 < |items| && items[i + 1].kind == Punctuation {
      var w := item.content.value + items[i + 1].content.value;
      assert Append(items, i, st) == Success((i + 1, st.(sentence := st.sentence + [w])));
      var rest := EntriesFrom(items, i + 2);
      assert EntriesFrom(items, i) == [w] + rest;
      assert st.sentence + ([w] + rest) == (st.sentence + [w]) + rest;
    } else {
      var w := item.content.value;
      assert Append(items, i, st) == Success((i, st.(sentence := st.sentence + [w])));
      var rest := EntriesFrom(items, i + 1);
      assert EntriesFrom(items, i) == [w] + rest;
      assert st.sentence + ([w] + rest) == (st.sentence + [w]) + rest;
    }
  }

  /** Taking a word item: its start time parses, and the state is opened, then appended to. */
  lemma TakeWord(items: seq<Item>, i: nat, st: State)
    requires i < |items| && items[i].kind == Pronunciation && Take(items, i, st).Success?
    ensures StartOf(items, i).Success?
    ensures var st0 := Open(st, Label(items[i]), StartOf(items, i).value).(startTime := StartOf(items, i).value);
      Append(items, i, st0).Success? && Take(items, i, st) == Append(items, i, st0)
  {
  }

  /** What taking the item at `i` does to the sentence and the output. */
  lemma TakeEntries(items: seq<Item>, i: nat, st: State)
    requires i < |items| && Take(items, i, st).Success?
    ensures var r := Take(items, i, st).value;
      && r.1.emitted == st.emitted && r.1.segments == st.segments
      && r.1.currentMinute == st.currentMinute && r.1.minuteSegments == st.minuteSegments
      && st.sentence + EntriesFrom(items, i) == r.1.sentence + EntriesFrom(items, r.0 + 1)
      && |r.1.sentence| <= |st.sentence| + 1
      && (items[i].kind == Punctuation ==> r.0 == i && r.1 == st)
  {
    if items[i].kind == Punctuation {
      assert Take(items, i, st) == Success((i, st));
      assert EntriesFrom(items, i) == EntriesFrom(items, i + 1);
    } else {
      var st0 := TakeOpened(items, i, st);
      WordEntries(items, i, st, st0, Take(items, i, st).value);
    }
  }

  /** Taking a word item opens the sentence (if needed) and then appends to the opened state. */
  lemma TakeOpened(items: seq<Item>, i: nat, st: State) returns (st0: State)
    requires i < |items| && items[i].kind == Pronunciation && Take(items, i, st).Success?
    ensures st0.sentence == st.sentence && st0.emitted == st.emitted && st0.segments == st.segments
    ensures st0.currentMinute == st.currentMinute && st0.minuteSegments == st.minuteSegments
    ensures Append(items, i, st0) == Take(items, i, st)
  {
    TakeWord(items, i, st);
    var t := StartOf(items, i).value;
    st0 := Open(st, Label(items[i]), t).(startTime := t);
    OpenKeeps(st, Label(items[i]), t);
  }

  /** Opening a sentence touches only the sentence start, the speaker and the speaker map. */
  lemma OpenKeeps(st: State, speakerLabel: string, t: nat)
    ensures var st0 := Open(st, speakerLabel, t);
      && st0.sentence == st.sentence && st0.emitted == st.emitted && st0.segments == st.segments
      && st0.currentMinute == st.currentMinute && st0.minuteSegments == st.minuteSegments
  {
  }

  lemma WordEntries(items: seq<Item>, i: nat, st: State, st0: State, r: (nat, State))
    requires i < |items| && items[i].kind == Pronunciation
    requires st0.sentence == st.sentence && st0.emitted == st.emitted && st0.segments == st.segments
    requires st0.currentMinute == st.currentMinute && st0.minuteSegments == st.minuteSegments
    requires Append(items, i, st0) == Success(r)
    ensures && r.1.emitted == st.emitted && r.1.segments == st.segments
            && r.1.currentMinute == st.currentMinute && r.1.minuteSegments == st.minuteSegments
            && st.sentence + EntriesFrom(items, i) == r.1.sentence + EntriesFrom(items, r.0 + 1)
            && |r.1.sentence| <= |st.sentence| + 1
  {
    AppendFacts(items, i, st0);
  }

  /** What taking the item at `i` does to the sentence start, the speaker and the speaker map. */
  lemma TakeOpening(items: seq<Item>, i: nat, st: State)
    requires i < |items| && Take(items, i, st).Success?
    ensures var r := Take(items, i, st).value;
      && (items[i].kind == Punctuation || st.sentenceStart.Some? ==>
            r.1.sentenceStart == st.sentenceStart && r.1.speaker == st.speaker
            && r.1.speakerMap == st.speakerMap && r.1.speakerCount == st.speakerCount)
      && (items[i].kind == Pronunciation ==> r.1.sentenceStart.Some? && (st.sentenceStart.Some? || r.1.speaker.Some?))
      && (items[i].kind == Pronunciation && st.sentenceStart.None? ==>
            && r.1.speaker == Some(Label(items[i]))
            && r.1.speakerMap == (if Label(items[i]) in st.speakerMap then st.speakerMap
                                  else st.speakerMap[Label(items[i]) := "Speaker " + NatToString(st.speakerCount)])
            && r.1.speakerCount == (if Label(items[i]) in st.speakerMap then st.speakerCount else st.speakerCount + 1))
  {
    if items[i].kind == Pronunciation {
      TakeWord(items, i, st);
      var t := StartOf(items, i).value;
      AppendFacts(items, i, Open(st, Label(items[i]), t).(startTime := t));
    }
  }

  /** A cut happens only after a sentence of the cut shape with a word next, or at the last item. */
  lemma CutOnlyAtWords(items: seq<Item>, j: nat, st: State)
    requires j < |items| && ShouldCut(items, j, st) == Success(true)
    ensures st.sentence != []
    ensures j + 1 == |items| || (items[j + 1].kind == Pronunciation && CutShape(st.sentence))
  {
  }

  /** Without a cut, a sentence that the next word item would take past 150 entries cannot stay open. */
  lemma NoCutBelowCap(items: seq<Item>, j: nat, st: State)
    requires j < |items| && ShouldCut(items, j, st) == Success(false)
    requires j + 1 < |items| && items[j + 1].kind == Pronunciation
    ensures |st.sentence| < 150
  {
  }

  /** What emitting does to the sentence, the emitted sentences and the speakers. */
  lemma EmitKeeps(items: seq<Item>, w: nat, j: nat, st: State, isChinese: bool, dec: EscapeDecoders)
    requires w <= j < |items| && Emit(items, w, j, st, isChinese, dec).Success?
    ensures var st2 := Emit(items, w, j, st, isChinese, dec).value;
      && st.sentenceStart.Some?
      && st2.sentence == [] && st2.emitted == st.emitted + [st.sentence]
      && st2.speakerMap == st.speakerMap && st2.speakerCount == st.speakerCount
      && (st2.sentenceStart.Some? <==> j + 1 < |items| && items[j + 1].kind == Pronunciation)
      && (st2.sentenceStart.Some? ==> st2.speaker.Some?)
  {
  }

  /** The bucket update of an emission, in terms of the new segment. */
  predicate BucketStep(st: State, st2: State, seg: TranscriptionSegment) {
    var closes := st.currentMinute != -1 && st.currentMinute != st2.currentMinute && st.minuteSegments != [];
    && st2.segments == (if closes then st.segments + [MinuteSegment(st.currentMinute, st.minuteSegments)] else st.segments)
    && st2.minuteSegments == (if closes then [] else st.minuteSegments) + [seg]
    && InBucket(seg, st2.currentMinute)
  }

  /** What emitting does to the minute buckets: one new segment, rendered from the sentence. */
  lemma EmitSegment(items: seq<Item>, w: nat, j: nat, st: State, isChinese: bool, dec: EscapeDecoders)
    requires w <= j < |items| && Emit(items, w, j, st, isChinese, dec).Success?
    ensures var st2 := Emit(items, w, j, st, isChinese, dec).value;
      && st2.minuteSegments != []
      && var seg := st2.minuteSegments[|st2.minuteSegments| - 1];
         && BucketStep(st, st2, seg)
         && seg.StartMs >= 0
         && st.sentenceStart.Some? && seg.StartMs == st.sentenceStart.value
         && EndOf(items, w, st.startTime).Success? && seg.EndMs == EndOf(items, w, st.startTime).value
         && seg.FinalSentence == Render(st.sentence, isChinese, dec)
         && seg.SpeakerId == SpeakerName(st.speakerMap, st.speaker)
         && seg.FormattedTime == FormatHms(seg.StartMs / 1000)
  {
  }

  /**
    A word followed by a punctuation item with no times, as the last two items: the glued sentence
    is emitted with the word's own end time, not the punctuation item's fallback.
  */
  lemma GluedSentenceEndsAtWord(start: nat, end: nat, word: string, mark: string, isChinese: bool, dec: EscapeDecoders)
    ensures var items := [Item(Pronunciation, Some(ShowMillis(start)), Some(ShowMillis(end)), None, Some(word)),
                          Item(Punctuation, None, None, None, Some(mark))];
      && Step(items, 0, Init(), isChinese, dec).Success?
      && var (next, st) := Step(items, 0, Init(), isChinese, dec).value;
         && next == 2
         && st.minuteSegments == [TranscriptionSegment(start, end, Render([word + mark], isChinese, dec), "Speaker 1",
                                                         FormatHms(start / 1000))]
  {
    var items := [Item(Pronunciation, Some(ShowMillis(start)), Some(ShowMillis(end)), None, Some(word)),
                  Item(Punctuation, None, None, None, Some(mark))];
    ParseShowMillis(start);
    ParseShowMillis(end);
    assert StartOf(items, 0) == Success(start);
    assert EndOf(items, 0, start) == Success(end);
    var st0 := Open(Init(), "spk_0", start).(startTime := start);
    assert st0.speakerMap == map["spk_0" := "Speaker " + NatToString(1)];
    var st1 := st0.(sentence := [word + mark]);
    assert Label(items[0]) == "spk_0" && items[0].content == Some(word);
    assert st0.sentence == [] && st0.sentence + [word + mark] == [word + mark];
    assert items[1].kind == Punctuation && items[1].content == Some(mark);
    assert Append(items, 0, st0) == Success((1, st1));
    assert Take(items, 0, Init()) == Success((1, st1));
    assert ShouldCut(items, 1, st1) == Success(true);
    assert Reopen(items, 1) == Success((None, None));
    assert NatToString(1) == "1";
    assert SpeakerName(st1.speakerMap, st1.speaker) == "Speaker 1";
  }

  /** An iteration is a Take followed by a Settle. */
  lemma StepSplit(items: seq<Item>, i: nat, st: State, isChinese: bool, dec: EscapeDecoders)
    requires i < |items| && Step(items, i, st, isChinese, dec).Success?
    ensures Take(items, i, st).Success?
    ensures var r := Take(items, i, st).value;
      && Settle(items, i, r.0, r.1, isChinese, dec).Success?
      && Step(items, i, st, isChinese, dec).value == (r.0 + 1, Settle(items, i, r.0, r.1, isChinese, dec).value)
  {
  }

  /** The entry-level facts between the Take and the cut decision, with `p` the next index. */
  predicate Mid(items: seq<Item>, p: nat, st: State)
    requires p <= |items|
  {
    && |st.sentence| <= 150
    && (forall k :: 0 <= k < |st.emitted| ==> 1 <= |st.emitted[k]| <= 150)
    && Covers(items, p, st)
    && (forall k :: 0 <= k < |st.emitted| ==> CutShape(st.emitted[k]))
  }

  lemma TakeMid(items: seq<Item>, i: nat, st: State, j: nat, st1: State)
    requires i < |items| && Bounds(items, i, st) && Covers(items, i, st) && Cuts(items, i, st)
    requires Take(items, i, st) == Success((j, st1))
    ensures i <= j < |items| && Mid(items, j + 1, st1)
  {
    TakeEntries(items, i, st);
    assert st1.emitted == st.emitted && |st1.sentence| <= |st.sentence| + 1;
    assert st.sentence + EntriesFrom(items, i) == st1.sentence + EntriesFrom(items, j + 1);
    MidAfterTake(items, i, st, j, st1);
  }

  lemma MidAfterTake(items: seq<Item>, i: nat, st: State, j: nat, st1: State)
    requires i <= j < |items| && Bounds(items, i, st) && Covers(items, i, st) && Cuts(items, i, st)
    requires st1.emitted == st.emitted
    requires st.sentence + EntriesFrom(items, i) == st1.sentence + EntriesFrom(items, j + 1)
    requires |st1.sentence| <= |st.sentence| + 1
    requires items[i].kind == Punctuation ==> st1 == st
    ensures Mid(items, j + 1, st1)
  {
    var a := Concat(st.emitted);
    assert a + (st1.sentence + EntriesFrom(items, j + 1)) == EntriesFrom(items, 0);
  }

  lemma CoversAfterCut(items: seq<Item>, p: nat, st: State, st2: State)
    requires p <= |items| && Covers(items, p, st)
    requires st2.sentence == [] && st2.emitted == st.emitted + [st.sentence]
    ensures Covers(items, p, st2)
  {
    ConcatSnoc(st.emitted, st.sentence);
    Reassociate(Concat(st.emitted), st.sentence, EntriesFrom(items, p), EntriesFrom(items, 0));
  }

  /** Moving the open sentence into the emitted ones leaves the concatenation unchanged. */
  lemma Reassociate(a: seq<string>, s: seq<string>, e: seq<string>, t: seq<string>)
    requires a + (s + e) == t
    ensures (a + s) + ([] + e) == t
  {
    assert [] + e == e;
  }

  lemma BoundsAfterCut(items: seq<Item>, p: nat, st: State, st2: State)
    requires p <= |items| && Mid(items, p, st) && st.sentence != []
    requires st2.sentence == [] && st2.emitted == st.emitted + [st.sentence]
    ensures Bounds(items, p, st2)
  {
    forall k | 0 <= k < |st2.emitted|
      ensures 1 <= |st2.emitted[k]| <= 150
    {
      if k < |st.emitted| {
        assert st2.emitted[k] == st.emitted[k];
      }
    }
  }

  lemma CutsAfterCut(items: seq<Item>, p: nat, st: State, st2: State)
    requires p <= |items| && Mid(items, p, st) && (p < |items| ==> CutShape(st.sentence))
    requires st2.emitted == st.emitted + [st.sentence]
    ensures Cuts(items, p, st2)
  {
    forall k | 0 <= k < |st2.emitted| && (k < |st2.emitted| - 1 || p < |items|)
      ensures CutShape(st2.emitted[k])
    {
      if k < |st.emitted| {
        assert st2.emitted[k] == st.emitted[k];
      }
    }
  }

  lemma CutFromMid(items: seq<Item>, w: nat, j: nat, st: State, isChinese: bool, dec: EscapeDecoders)
    requires w <= j < |items| && Mid(items, j + 1, st)
    requires ShouldCut(items, j, st) == Success(true) && Emit(items, w, j, st, isChinese, dec).Success?
    ensures var st2 := Emit(items, w, j, st, isChinese, dec).value;
      Bounds(items, j + 1, st2) && Covers(items, j + 1, st2) && Cuts(items, j + 1, st2)
  {
    var st2 := Emit(items, w, j, st, isChinese, dec).value;
    CutOnlyAtWords(items, j, st);
    EmitKeeps(items, w, j, st, isChinese, dec);
    CoversAfterCut(items, j + 1, st, st2);
    BoundsAfterCut(items, j + 1, st, st2);
    CutsAfterCut(items, j + 1, st, st2);
  }

  lemma KeepFromMid(items: seq<Item>, j: nat, st: State)
    requires j < |items| && Mid(items, j + 1, st)
    requires ShouldCut(items, j, st).Success? && !(ShouldCut(items, j, st).value && st.sentence != [])
    ensures Bounds(items, j + 1, st) && Covers(items, j + 1, st) && Cuts(items, j + 1, st)
  {
    if j + 1 < |items| && items[j + 1].kind == Pronunciation && st.sentence != [] {
      NoCutBelowCap(items, j, st);
    }
  }

  lemma SettleBoundsCovers(items: seq<Item>, w: nat, j: nat, st: State, isChinese: bool, dec: EscapeDecoders)
    requires w <= j < |items| && Mid(items, j + 1, st) && Settle(items, w, j, st, isChinese, dec).Success?
    ensures var st2 := Settle(items, w, j, st, isChinese, dec).value;
      Bounds(items, j + 1, st2) && Covers(items, j + 1, st2) && Cuts(items, j + 1, st2)
  {
    if ShouldCut(items, j, st).value && st.sentence != [] {
      CutFromMid(items, w, j, st, isChinese, dec);
    } else {
      KeepFromMid(items, j, st);
    }
  }

  lemma StepBoundsCovers(items: seq<Item>, i: nat, st: State, isChinese: bool, dec: EscapeDecoders)
    requires i < |items| && Bounds(items, i, st) && Covers(items, i, st) && Cuts(items, i, st)
    requires Step(items, i, st, isChinese, dec).Success?
    ensures var s := Step(items, i, st, isChinese, dec).value;
      Bounds(items, s.0, s.1) && Covers(items, s.0, s.1) && Cuts(items, s.0, s.1)
  {
    var j, st1, st2 := StepParts(items, i, st, isChinese, dec);
    TakeMid(items, i, st, j, st1);
    StepInvParts(items, i, j, st1, st2, isChinese, dec);
  }

  lemma StepInvParts(items: seq<Item>, i: nat, j: nat, st1: State, st2: State, isChinese: bool, dec: EscapeDecoders)
    requires i <= j < |items| && Mid(items, j + 1, st1) && Settle(items, i, j, st1, isChinese, dec) == Success(st2)
    ensures Bounds(items, j + 1, st2) && Covers(items, j + 1, st2) && Cuts(items, j + 1, st2)
  {
    SettleBoundsCovers(items, i, j, st1, isChinese, dec);
  }

  /** A successful step is a Take followed by a Settle, with the next index one past where the Take stopped. */
  lemma StepParts(items: seq<Item>, i: nat, st: State, isChinese: bool, dec: EscapeDecoders)
    returns (j: nat, st1: State, st2: State)
    requires i < |items| && Step(items, i, st, isChinese, dec).Success?
    ensures j < |items| && Take(items, i, st) == Success((j, st1))
    ensures Settle(items, i, j, st1, isChinese, dec) == Success(st2)
    ensures Step(items, i, st, isChinese, dec) == Success((j + 1, st2))
  {
    StepSplit(items, i, st, isChinese, dec);
    j, st1 := Take(items, i, st).value.0, Take(items, i, st).value.1;
    st2 := Settle(items, i, j, st1, isChinese, dec).value;
  }

  lemma TakeSpeakers(items: seq<Item>, i: nat, st: State)
    requires i < |items| && Opening(items, i, st) && Speakers(items, i, st)
    requires Take(items, i, st).Success?
    ensures var r := Take(items, i, st).value;
      && (r.1.sentence != [] ==> r.1.sentenceStart.Some?)
      && (r.1.sentenceStart.Some? ==> r.1.speaker.Some? && r.1.speakerMap != map[])
      && (r.1.sentenceStart.None? ==> r.1.speakerMap == map[] && r.1.speakerCount == 1)
      && Speakers(items, r.0 + 1, r.1)
  {
    var r := Take(items, i, st).value;
    TakeEntries(items, i, st);
    TakeOpening(items, i, st);
    if items[i].kind == Pronunciation && st.sentenceStart.None? {
      FirstLabelAt(items, i);
      assert NatToString(1) == "1";
      assert "Speaker " + NatToString(1) == "Speaker 1";
      assert r.1.speakerMap == map[Label(items[i]) := "Speaker 1"];
    } else if r.1.speakerMap == map[] {
      assert items[i].kind == Punctuation;
      assert NoWordBefore(items, r.0 + 1);
    }
  }

  lemma CutSpeakers(items: seq<Item>, w: nat, j: nat, st: State, isChinese: bool, dec: EscapeDecoders)
    requires w <= j < |items| && Speakers(items, j + 1, st)
    requires st.sentenceStart.Some? ==> st.speaker.Some? && st.speakerMap != map[]
    requires ShouldCut(items, j, st) == Success(true) && Emit(items, w, j, st, isChinese, dec).Success?
    ensures var st2 := Emit(items, w, j, st, isChinese, dec).value;
      Opening(items, j + 1, st2) && Speakers(items, j + 1, st2)
  {
    CutOnlyAtWords(items, j, st);
    EmitKeeps(items, w, j, st, isChinese, dec);
  }

  lemma SettleSpeakers(items: seq<Item>, w: nat, j: nat, st: State, isChinese: bool, dec: EscapeDecoders)
    requires w <= j < |items| && Speakers(items, j + 1, st)
    requires st.sentence != [] ==> st.sentenceStart.Some?
    requires st.sentenceStart.Some? ==> st.speaker.Some? && st.speakerMap != map[]
    requires st.sentenceStart.None? ==> st.speakerMap == map[] && st.speakerCount == 1
    requires Settle(items, w, j, st, isChinese, dec).Success?
    ensures var st2 := Settle(items, w, j, st, isChinese, dec).value;
      Opening(items, j + 1, st2) && Speakers(items, j + 1, st2)
  {
    if ShouldCut(items, j, st).value && st.sentence != [] {
      CutSpeakers(items, w, j, st, isChinese, dec);
    }
  }

  lemma StepSpeakers(items: seq<Item>, i: nat, st: State, isChinese: bool, dec: EscapeDecoders)
    requires i < |items| && Opening(items, i, st) && Speakers(items, i, st)
    requires Step(items, i, st, isChinese, dec).Success?
    ensures var s := Step(items, i, st, isChinese, dec).value;
      Opening(items, s.0, s.1) && Speakers(items, s.0, s.1)
  {
    StepSplit(items, i, st, isChinese, dec);
    var r := Take(items, i, st).value;
    TakeSpeakers(items, i, st);
    SettleSpeakers(items, i, r.0, r.1, isChinese, dec);
  }

  lemma SpeakerNameIsOne(items: seq<Item>, i: nat, st: State)
    requires i <= |items| && Speakers(items, i, st)
    ensures SpeakerName(st.speakerMap, st.speaker) == "Speaker 1"
  {
  }

  lemma OutputAfterCut(st: State, st2: State, seg: TranscriptionSegment, isChinese: bool, dec: EscapeDecoders)
    requires Output(st, isChinese, dec) && BucketStep(st, st2, seg)
    requires st2.emitted == st.emitted + [st.sentence]
    requires seg.StartMs >= 0 && seg.FinalSentence == Render(st.sentence, isChinese, dec)
    requires seg.SpeakerId == "Speaker 1" && seg.FormattedTime == FormatHms(seg.StartMs / 1000)
    ensures Output(st2, isChinese, dec)
  {
    var closes := st.currentMinute != -1 && st.currentMinute != st2.currentMinute && st.minuteSegments != [];
    if closes {
      AllSegmentsSnoc(st.segments, MinuteSegment(st.currentMinute, st.minuteSegments));
    }
    var all, all2 := AllSegments(st.segments) + st.minuteSegments, AllSegments(st2.segments) + st2.minuteSegments;
    assert all2 == all + [seg];
    forall k | 0 <= k < |all2|
      ensures && all2[k].FinalSentence == Render(st2.emitted[k], isChinese, dec)
              && all2[k].SpeakerId == "Speaker 1"
              && all2[k].StartMs >= 0
              && all2[k].FormattedTime == FormatHms(all2[k].StartMs / 1000)
    {
      if k < |all| {
        assert all2[k] == all[k] && st2.emitted[k] == st.emitted[k];
      }
    }
  }

  lemma BucketsAfterCut(st: State, st2: State, seg: TranscriptionSegment)
    requires Buckets(st) && BucketStep(st, st2, seg) && st2.currentMinute != -1
    ensures Buckets(st2)
  {
    if st.currentMinute != -1 && st.currentMinute != st2.currentMinute && st.minuteSegments != [] {
      BucketsClose(st, st2, seg);
    } else {
      BucketsStay(st, st2, seg);
    }
  }

  /** A segment of a new minute closes the open bucket and opens one holding just that segment. */
  lemma BucketsClose(st: State, st2: State, seg: TranscriptionSegment)
    requires Buckets(st) && st.currentMinute != -1 && st.currentMinute != st2.currentMinute && st.minuteSegments != []
    requires st2.segments == st.segments + [MinuteSegment(st.currentMinute, st.minuteSegments)]
    requires st2.minuteSegments == [seg] && InBucket(seg, st2.currentMinute) && st2.currentMinute != -1
    ensures Buckets(st2)
  {
    assert BucketOk(MinuteSegment(st.currentMinute, st.minuteSegments));
  }

  /** A segment of the open bucket's minute (or the first segment) joins the open bucket. */
  lemma BucketsStay(st: State, st2: State, seg: TranscriptionSegment)
    requires Buckets(st) && !(st.currentMinute != -1 && st.currentMinute != st2.currentMinute && st.minuteSegments != [])
    requires st2.segments == st.segments && st2.minuteSegments == st.minuteSegments + [seg]
    requires InBucket(seg, st2.currentMinute) && st2.currentMinute != -1
    ensures Buckets(st2)
  {
    if st.currentMinute == -1 {
      assert st2.minuteSegments == [seg];
    } else {
      assert st.currentMinute == st2.currentMinute;
    }
  }

  lemma CutOutput(items: seq<Item>, w: nat, j: nat, st: State, isChinese: bool, dec: EscapeDecoders)
    requires w <= j < |items| && Speakers(items, j + 1, st) && Output(st, isChinese, dec) && Buckets(st)
    requires Emit(items, w, j, st, isChinese, dec).Success?
    ensures var st2 := Emit(items, w, j, st, isChinese, dec).value;
      Output(st2, isChinese, dec) && Buckets(st2)
  {
    var st2 := Emit(items, w, j, st, isChinese, dec).value;
    EmitKeeps(items, w, j, st, isChinese, dec);
    EmitSegment(items, w, j, st, isChinese, dec);
    SpeakerNameIsOne(items, j + 1, st);
    var seg := st2.minuteSegments[|st2.minuteSegments| - 1];
    OutputAfterCut(st, st2, seg, isChinese, dec);
    BucketsAfterCut(st, st2, seg);
  }

  lemma SettleOutput(items: seq<Item>, w: nat, j: nat, st: State, isChinese: bool, dec: EscapeDecoders)
    requires w <= j < |items| && Speakers(items, j + 1, st) && Output(st, isChinese, dec) && Buckets(st)
    requires Settle(items, w, j, st, isChinese, dec).Success?
    ensures var st2 := Settle(items, w, j, st, isChinese, dec).value;
      Output(st2, isChinese, dec) && Buckets(st2)
  {
    if ShouldCut(items, j, st).value && st.sentence != [] {
      CutOutput(items, w, j, st, isChinese, dec);
    }
  }

  lemma TakeOutput(items: seq<Item>, i: nat, st: State, isChinese: bool, dec: EscapeDecoders)
    requires i < |items| && Output(st, isChinese, dec) && Buckets(st) && Take(items, i, st).Success?
    ensures var r := Take(items, i, st).value; Output(r.1, isChinese, dec) && Buckets(r.1)
  {
    TakeEntries(items, i, st);
  }

  lemma StepOutput(items: seq<Item>, i: nat, st: State, isChinese: bool, dec: EscapeDecoders)
    requires i < |items| && Opening(items, i, st) && Speakers(items, i, st) && Output(st, isChinese, dec) && Buckets(st)
    requires Step(items, i, st, isChinese, dec).Success?
    ensures var s := Step(items, i, st, isChinese, dec).value;
      Output(s.1, isChinese, dec) && Buckets(s.1)
  {
    StepSplit(items, i, st, isChinese, dec);
    var r := Take(items, i, st).value;
    TakeOutput(items, i, st, isChinese, dec);
    TakeSpeakers(items, i, st);
    SettleOutput(items, i, r.0, r.1, isChinese, dec);
  }

  lemma StepInv(items: seq<Item>, i: nat, st: State, isChinese: bool, dec: EscapeDecoders)
    requires i < |items| && Inv(items, i, st, isChinese, dec)
    requires Step(items, i, st, isChinese, dec).Success?
    ensures var s := Step(items, i, st, isChinese, dec).value;
      Inv(items, s.0, s.1, isChinese, dec)
  {
    StepBoundsCovers(items, i, st, isChinese, dec);
    StepSpeakers(items, i, st, isChinese, dec);
    StepOutput(items, i, st, isChinese, dec);
  }

  lemma InitInv(items: seq<Item>, isChinese: bool, dec: EscapeDecoders)
    ensures Inv(items, 0, Init(), isChinese, dec)
  {
    assert Concat([]) == [];
  }

  lemma {:induction false} RunInv(items: seq<Item>, i: nat, st: State, isChinese: bool, dec: EscapeDecoders)
    requires i <= |items| && Inv(items, i, st, isChinese, dec)
    requires Run(items, i, st, isChinese, dec).Success?
    ensures Inv(items, |items|, Run(items, i, st, isChinese, dec).value, isChinese, dec)
    decreases |items| - i
  {
    if i < |items| {
      StepInv(items, i, st, isChinese, dec);
      var s := Step(items, i, st, isChinese, dec).value;
      RunInv(items, s.0, s.1, isChinese, dec);
    }
  }

  // ---------------------------------------------------------------------------------------------
  // What the whole pass guarantees
  // ---------------------------------------------------------------------------------------------

  /**
    The sentences of a successful pass: none empty, none over 150 entries, every one cut before
    the end ends in '.', '!' or '?' with at least 15 entries or has 150; together, in order, they
    are exactly the transcript's entries. No sentence is left open when the loop ends, so the
    source's post-loop flush never runs.
  */
  lemma SentencesOfPass(items: seq<Item>, isChinese: bool, dec: EscapeDecoders)
    requires Run(items, 0, Init(), isChinese, dec).Success?
    ensures var st := Run(items, 0, Init(), isChinese, dec).value;
      && st.sentence == []
      && (forall k :: 0 <= k < |st.emitted| ==> 1 <= |st.emitted[k]| <= 150)
      && Concat(st.emitted) == EntriesFrom(items, 0)
      && (forall k :: 0 <= k < |st.emitted| - 1 ==> CutShape(st.emitted[k]))
  {
    InitInv(items, isChinese, dec);
    RunInv(items, 0, Init(), isChinese, dec);
    var st := Run(items, 0, Init(), isChinese, dec).value;
    assert Concat(st.emitted) + ([] + []) == Concat(st.emitted);
  }

  /**
    The minute buckets of a successful pass: each non-empty, each segment in the bucket of
    `StartMs / 60000`, no two neighbours with the same minute; taken together the segments are the
    sentences in order, each rendered (joined, and cleaned for Chinese), labelled "Speaker 1" and
    timed `HH:MM:SS` from its start. There is no bucket exactly when there is no entry.
  */
  lemma MinuteBuckets(items: seq<Item>, isChinese: bool, dec: EscapeDecoders)
    requires Run(items, 0, Init(), isChinese, dec).Success?
    ensures Segment(items, isChinese, dec).Success?
    ensures var st := Run(items, 0, Init(), isChinese, dec).value;
      var out := Segment(items, isChinese, dec).value;
      var all := AllSegments(out);
      && (forall k :: 0 <= k < |out| ==> BucketOk(out[k]))
      && (forall k :: 0 <= k < |out| - 1 ==> out[k].minute != out[k + 1].minute)
      && |all| == |st.emitted|
      && (forall k :: 0 <= k < |all| ==>
            && all[k].FinalSentence == Render(st.emitted[k], isChinese, dec)
            && all[k].SpeakerId == "Speaker 1"
            && all[k].StartMs >= 0
            && all[k].FormattedTime == FormatHms(all[k].StartMs / 1000))
      && (out == [] <==> EntriesFrom(items, 0) == [])
  {
    var st := Run(items, 0, Init(), isChinese, dec).value;
    PassOutput(items, isChinese, dec);
    SentencesOfPass(items, isChinese, dec);
    FinishOutput(st, isChinese, dec);
    assert Segment(items, isChinese, dec) == Success(Finish(st));
  }

  /** After a successful pass, the output and bucket parts of the invariant hold. */
  lemma PassOutput(items: seq<Item>, isChinese: bool, dec: EscapeDecoders)
    requires Run(items, 0, Init(), isChinese, dec).Success?
    ensures var st := Run(items, 0, Init(), isChinese, dec).value; Output(st, isChinese, dec) && Buckets(st)
  {
    InitInv(items, isChinese, dec);
    RunInv(items, 0, Init(), isChinese, dec);
  }

  /** The buckets of a final state, read off the invariant's output and bucket parts. */
  lemma FinishOutput(st: State, isChinese: bool, dec: EscapeDecoders)
    requires Output(st, isChinese, dec) && Buckets(st)
    requires forall k :: 0 <= k < |st.emitted| ==> 1 <= |st.emitted[k]| <= 150
    ensures var out := Finish(st);
      var all := AllSegments(out);
      && (forall k :: 0 <= k < |out| ==> BucketOk(out[k]))
      && (forall k :: 0 <= k < |out| - 1 ==> out[k].minute != out[k + 1].minute)
      && |all| == |st.emitted|
      && (forall k :: 0 <= k < |all| ==>
            && all[k].FinalSentence == Render(st.emitted[k], isChinese, dec)
            && all[k].SpeakerId == "Speaker 1"
            && all[k].StartMs >= 0
            && all[k].FormattedTime == FormatHms(all[k].StartMs / 1000))
      && (out == [] <==> Concat(st.emitted) == [])
  {
    FinishBuckets(st);
    ConcatEmpty(st.emitted);
  }

  /** Closing the last bucket keeps every bucket well formed and the segments in order. */
  lemma FinishBuckets(st: State)
    requires Buckets(st)
    ensures var out := Finish(st);
      && (forall k :: 0 <= k < |out| ==> BucketOk(out[k]))
      && (forall k :: 0 <= k < |out| - 1 ==> out[k].minute != out[k + 1].minute)
      && AllSegments(out) == AllSegments(st.segments) + st.minuteSegments
      && (out == [] <==> st.minuteSegments == [])
  {
    if st.minuteSegments != [] {
      AllSegmentsSnoc(st.segments, MinuteSegment(st.currentMinute, st.minuteSegments));
      assert BucketOk(Finish(st)[|Finish(st)| - 1]);
    } else {
      assert st.segments + [] == st.segments;
    }
  }

  lemma {:induction false} ConcatEmpty(ss: seq<seq<string>>)
    requires forall k :: 0 <= k < |ss| ==> ss[k] != []
    ensures Concat(ss) == [] <==> ss == []
  {
    if ss != [] {
      assert ss[|ss| - 1] != [];
    }
  }
  lemma {:induction false} NoWordNoLabel(items: seq<Item>)
    requires NoWordBefore(items, |items|)
    ensures FirstLabel(items) == None
    decreases |items|
  {
    if items != [] {
      assert NoWordBefore(items[1..], |items| - 1) by {
        forall q | 0 <= q < |items| - 1
          ensures items[1..][q].kind == Punctuation
        {
          assert items[1..][q] == items[q + 1];
        }
      }
      NoWordNoLabel(items[1..]);
    }
  }

  /**
    The speaker map of a successful pass: one entry, "Speaker 1" for the speaker label of the first
    word item, or none without word items. Sentences are opened afresh only at the start and after a
    cut, so no later speaker is ever registered.
  */
  lemma SpeakerMapOfPass(items: seq<Item>, isChinese: bool, dec: EscapeDecoders)
    requires Run(items, 0, Init(), isChinese, dec).Success?
    ensures var st := Run(items, 0, Init(), isChinese, dec).value;
      && st.speakerMap == (if FirstLabel(items).Some? then map[FirstLabel(items).value := "Speaker 1"] else map[])
      && st.speakerCount == (if FirstLabel(items).Some? then 2 else 1)
  {
    InitInv(items, isChinese, dec);
    RunInv(items, 0, Init(), isChinese, dec);
    var st := Run(items, 0, Init(), isChinese, dec).value;
    if st.speakerMap == map[] {
      NoWordNoLabel(items);
    }
  }

  // ---------------------------------------------------------------------------------------------
  // Failure
  // ---------------------------------------------------------------------------------------------

  /** A word item whose start time is missing or unreadable stops the iteration that takes it. */
  lemma TakeBadStart(items: seq<Item>, i: nat, st: State)
    requires i < |items| && items[i].kind == Pronunciation && StartOf(items, i).Failure?
    ensures Take(items, i, st).Failure?
  {
  }

  /** The loop never steps over a word item: from any index up to `q`, it reaches `q` and fails there. */
  lemma {:induction false} RunReachesBadStart(items: seq<Item>, i: nat, st: State, q: nat, isChinese: bool, dec: EscapeDecoders)
    requires i <= q < |items| && items[q].kind == Pronunciation && StartOf(items, q).Failure?
    ensures Run(items, i, st, isChinese, dec).Failure?
    decreases |items| - i
  {
    if i == q {
      TakeBadStart(items, i, st);
    } else if Step(items, i, st, isChinese, dec).Success? {
      var s := Step(items, i, st, isChinese, dec).value;
      StepBefore(items, i, st, q, isChinese, dec);
      RunReachesBadStart(items, s.0, s.1, q, isChinese, dec);
    }
  }

  /** A step never moves past a word item ahead of it. */
  lemma StepBefore(items: seq<Item>, i: nat, st: State, q: nat, isChinese: bool, dec: EscapeDecoders)
    requires i < q < |items| && items[q].kind == Pronunciation
    requires Step(items, i, st, isChinese, dec).Success?
    ensures Step(items, i, st, isChinese, dec).value.0 <= q
  {
    StepSplit(items, i, st, isChinese, dec);
    NextBefore(items, i, Take(items, i, st).value.0, q);
  }

  lemma NextBefore(items: seq<Item>, i: nat, j: nat, q: nat)
    requires i < q < |items| && items[q].kind == Pronunciation
    requires i <= j <= i + 1 && j < |items| && (j == i + 1 ==> items[i + 1].kind == Punctuation)
    ensures j + 1 <= q
  {
  }

  /** A word item without a readable `start_time` makes the whole call fail, with no partial result. */
  lemma BadStartFails(items: seq<Item>, q: nat, isChinese: bool, dec: EscapeDecoders)
    requires q < |items| && items[q].kind == Pronunciation && StartOf(items, q).Failure?
    ensures Segment(items, isChinese, dec).Failure?
  {
    RunReachesBadStart(items, 0, Init(), q, isChinese, dec);
  }
}
