/**
  The Deepgram branch of the transcription adapter: the language-code table, the mapping of
  utterances to segments, and the fallback that groups word records into segments, cutting after
  a word that ends a sentence, at a change of speaker, or at 50 words.
*/
module Deepgram {
  import opened Wrappers
  import opened Text
  import opened Transcript

  // ---------------------------------------------------------------------------------------------
  // Language codes
  // ---------------------------------------------------------------------------------------------

  /** The adapter's language codes and the Deepgram codes they stand for. */
  const LanguageMap: map<string, string> := map[
    "en" := "en-US", "zh" := "zh-CN", "ja" := "ja", "es" := "es", "fr" := "fr",
    "de" := "de", "it" := "it", "pt" := "pt", "ru" := "ru", "ko" := "ko"]

  /** `language_map.get(language, 'en-US')` */
  function DeepgramLanguage(language: string): string {
    if language in LanguageMap then LanguageMap[language] else "en-US"
  }

  /**
    English and Chinese gain a region, the other eight listed codes pass through, and any other
    code falls back to US English; the result is always one of the table's ten Deepgram codes.
  */
  lemma LanguageCodes(language: string)
    ensures language == "en" ==> DeepgramLanguage(language) == "en-US"
    ensures language == "zh" ==> DeepgramLanguage(language) == "zh-CN"
    ensures language in {"ja", "es", "fr", "de", "it", "pt", "ru", "ko"} ==> DeepgramLanguage(language) == language
    ensures language !in {"en", "zh", "ja", "es", "fr", "de", "it", "pt", "ru", "ko"} ==> DeepgramLanguage(language) == "en-US"
    ensures DeepgramLanguage(language) in LanguageMap.Values
  {
    assert LanguageMap["en"] == "en-US";
  }

  // ---------------------------------------------------------------------------------------------
  // The response
  // ---------------------------------------------------------------------------------------------

  /** A word record; `speaker` is None when the record has no `speaker` attribute. Times are in seconds. */
  datatype Word = Word(word: string, start: real, end: real, speaker: Option<nat>)

  /** An utterance record. */
  datatype Utterance = Utterance(start: real, end: real, transcript: string, speaker: nat)

  /** An alternative of a channel; a missing `words` attribute is an empty list. */
  datatype Alternative = Alternative(words: seq<Word>)

  datatype Channel = Channel(alternatives: seq<Alternative>)

  /** `response.results`: a missing or empty `utterances` / `channels` attribute is an empty list. */
  datatype Results = Results(utterances: seq<Utterance>, channels: seq<Channel>)

  /** `alternatives[0]` of the first channel does not exist. */
  datatype Error = NoAlternative

  // ---------------------------------------------------------------------------------------------
  // Utterances
  // ---------------------------------------------------------------------------------------------

  /** One utterance as a segment: speaker numbers are used as given, without adding one. */
  function UtteranceSegment(u: Utterance, diarize: bool): FlatSegment {
    FlatSegment(Trunc(u.start * 1000.0), Trunc(u.end * 1000.0), u.transcript,
                if diarize then "Speaker " + NatToString(u.speaker) else "Speaker 1")
  }

  /** Lines 178-185: one segment per utterance, in order. */
  method UtteranceSegments(us: seq<Utterance>, diarize: bool) returns (segments: seq<FlatSegment>)
    ensures |segments| == |us|
    ensures forall k :: 0 <= k < |us| ==> segments[k] == UtteranceSegment(us[k], diarize)
  {
    segments := [];
    for k := 0 to |us|
      invariant |segments| == k
      invariant forall m :: 0 <= m < k ==> segments[m] == UtteranceSegment(us[m], diarize)
    {
      segments := segments + [UtteranceSegment(us[k], diarize)];
    }
  }

  // ---------------------------------------------------------------------------------------------
  // Grouping words: the reference definition
  // ---------------------------------------------------------------------------------------------

  /** `getattr(word, 'speaker', 0) if enable_speaker_diarization else 0`: the speaker a word opens a segment with. */
  function OpenSpeaker(w: Word, diarize: bool): nat {
    if diarize then w.speaker.GetOr(0) else 0
  }

  /** Diarization is on, the word has a speaker, and it is not the segment's speaker. */
  predicate SpeakerChanged(w: Word, current: nat, diarize: bool) {
    diarize && w.speaker.Some? && w.speaker.value != current
  }

  /**
    Whether the word at position `k` of a segment that opened with word `first` closes it: it ends
    a sentence, it changes the speaker, or it is the 50th word.
  */
  predicate ClosesAt(first: Word, w: Word, k: nat, diarize: bool) {
    EndsSentence(w.word) || SpeakerChanged(w, OpenSpeaker(first, diarize), diarize) || k + 1 >= 50
  }

  /** The word at index `j` closes the segment that opened at index `o`. */
  predicate Cut(words: seq<Word>, o: nat, j: nat, diarize: bool)
    requires o <= j < |words|
  {
    ClosesAt(words[o], words[j], j - o, diarize)
  }

  /** The index of the last word of the segment that opened at `o`, searching from `j`. */
  function ChunkEnd(words: seq<Word>, o: nat, j: nat, diarize: bool): (e: nat)
    requires o <= j < |words| && j - o < 50
    requires forall q :: o <= q < j ==> !Cut(words, o, q, diarize)
    ensures j <= e < |words| && e - o < 50
    ensures forall q :: o <= q < e ==> !Cut(words, o, q, diarize)
    ensures e < |words| - 1 ==> Cut(words, o, e, diarize)
    decreases |words| - j
  {
    if Cut(words, o, j, diarize) || j == |words| - 1 then j else ChunkEnd(words, o, j + 1, diarize)
  }

  /** The word lists of the segments, from index `o` on. */
  function Chunks(words: seq<Word>, o: nat, diarize: bool): seq<seq<Word>>
    requires o <= |words|
    decreases |words| - o
  {
    if o == |words| then []
    else
      var e := ChunkEnd(words, o, o, diarize);
      [words[o..e + 1]] + Chunks(words, e + 1, diarize)
  }

  function Texts(ws: seq<Word>): (ts: seq<string>)
    ensures |ts| == |ws| && forall k :: 0 <= k < |ws| ==> ts[k] == ws[k].word
  {
    seq(|ws|, k requires 0 <= k < |ws| => ws[k].word)
  }

  /**
    A group of words as a segment: it starts with its first word, ends with its last, and is
    labelled with the speaker it opened with, counted from one.
  */
  function SegmentOf(chunk: seq<Word>, diarize: bool): FlatSegment
    requires chunk != []
  {
    FlatSegment(Trunc(chunk[0].start * 1000.0), Trunc(chunk[|chunk| - 1].end * 1000.0),
                JoinWords(Texts(chunk)), "Speaker " + NatToString(OpenSpeaker(chunk[0], diarize) + 1))
  }

  predicate NonEmpty(chunks: seq<seq<Word>>) {
    forall k :: 0 <= k < |chunks| ==> chunks[k] != []
  }

  function SegmentsOf(chunks: seq<seq<Word>>, diarize: bool): (segs: seq<FlatSegment>)
    requires NonEmpty(chunks)
    ensures |segs| == |chunks|
    ensures forall k :: 0 <= k < |chunks| ==> segs[k] == SegmentOf(chunks[k], diarize)
  {
    if chunks == [] then [] else [SegmentOf(chunks[0], diarize)] + SegmentsOf(chunks[1..], diarize)
  }

  lemma {:induction false} ChunksNonEmpty(words: seq<Word>, o: nat, diarize: bool)
    requires o <= |words|
    ensures NonEmpty(Chunks(words, o, diarize))
    decreases |words| - o
  {
    if o < |words| {
      ChunksNonEmpty(words, ChunkEnd(words, o, o, diarize) + 1, diarize);
    }
  }

  /** The segments of the word fallback. */
  function WordSegments(words: seq<Word>, diarize: bool): seq<FlatSegment> {
    ChunksNonEmpty(words, 0, diarize);
    SegmentsOf(Chunks(words, 0, diarize), diarize)
  }

  // ---------------------------------------------------------------------------------------------
  // Grouping words: what the groups are
  // ---------------------------------------------------------------------------------------------

  /** The words of the groups, group after group. */
  function Flatten(chunks: seq<seq<Word>>): seq<Word> {
    if chunks == [] then [] else chunks[0] + Flatten(chunks[1..])
  }

  /**
    A well-formed group: one to fifty words, none but the last closing it, and the last closing it
    unless the group is the final one (which is flushed after the loop).
  */
  predicate GroupOk(c: seq<Word>, diarize: bool, final: bool) {
    && 1 <= |c| <= 50
    && (forall m :: 0 <= m < |c| - 1 ==> !ClosesAt(c[0], c[m], m, diarize))
    && (!final ==> ClosesAt(c[0], c[|c| - 1], |c| - 1, diarize))
  }

  /** `chunks` splits `words` into well-formed groups, in order, with every word in exactly one group. */
  predicate Grouping(words: seq<Word>, chunks: seq<seq<Word>>, diarize: bool) {
    && Flatten(chunks) == words
    && forall k :: 0 <= k < |chunks| ==> GroupOk(chunks[k], diarize, k == |chunks| - 1)
  }

  lemma GroupingCons(c: seq<Word>, rest: seq<seq<Word>>, words: seq<Word>, diarize: bool)
    requires GroupOk(c, diarize, rest == []) && Grouping(words, rest, diarize)
    ensures Grouping(c + words, [c] + rest, diarize)
  {
    var cs := [c] + rest;
    assert cs[1..] == rest;
    forall k | 0 <= k < |cs|
      ensures GroupOk(cs[k], diarize, k == |cs| - 1)
    {
      if k > 0 {
        assert cs[k] == rest[k - 1];
      }
    }
  }

  /** The first group found from `o` is well formed. */
  lemma FirstGroupOk(words: seq<Word>, o: nat, diarize: bool)
    requires o < |words|
    ensures var e := ChunkEnd(words, o, o, diarize);
      GroupOk(words[o..e + 1], diarize, e + 1 == |words|)
  {
    var e := ChunkEnd(words, o, o, diarize);
    var c := words[o..e + 1];
    forall m | 0 <= m < |c| - 1
      ensures !ClosesAt(c[0], c[m], m, diarize)
    {
      assert !Cut(words, o, o + m, diarize);
    }
    if e + 1 < |words| {
      assert Cut(words, o, e, diarize);
    }
  }

  /** The groups from `o`: the first group, ending at `e`, then the groups after it. */
  lemma ChunksCons(words: seq<Word>, o: nat, e: nat, diarize: bool)
    requires o < |words| && e == ChunkEnd(words, o, o, diarize)
    ensures Chunks(words, o, diarize) == [words[o..e + 1]] + Chunks(words, e + 1, diarize)
  {
  }

  lemma ChunksEmpty(words: seq<Word>, o: nat, diarize: bool)
    requires o <= |words|
    ensures Chunks(words, o, diarize) == [] <==> o == |words|
  {
  }

  /** The groups the segmenter forms are a grouping of the words. */
  lemma {:induction false} ChunksGrouping(words: seq<Word>, o: nat, diarize: bool)
    requires o <= |words|
    ensures Grouping(words[o..], Chunks(words, o, diarize), diarize)
    decreases |words| - o
  {
    if o < |words| {
      var e := ChunkEnd(words, o, o, diarize);
      ChunksGrouping(words, e + 1, diarize);
      ChunksStep(words, o, e, Chunks(words, e + 1, diarize), diarize);
    }
  }

  /** The first group, put in front of a grouping of the words after it, groups the words from `o`. */
  lemma ChunksStep(words: seq<Word>, o: nat, e: nat, rest: seq<seq<Word>>, diarize: bool)
    requires o < |words| && e == ChunkEnd(words, o, o, diarize)
    requires rest == Chunks(words, e + 1, diarize) && Grouping(words[e + 1..], rest, diarize)
    ensures Grouping(words[o..], Chunks(words, o, diarize), diarize)
  {
    FirstGroupOk(words, o, diarize);
    ChunksEmpty(words, e + 1, diarize);
    GroupAt(words, o, e, rest, diarize);
    ChunksCons(words, o, e, diarize);
  }

  /** A well-formed group from `o` to `e`, followed by a grouping of the words after it. */
  lemma GroupAt(words: seq<Word>, o: nat, e: nat, rest: seq<seq<Word>>, diarize: bool)
    requires o <= e < |words| && GroupOk(words[o..e + 1], diarize, e + 1 == |words|)
    requires Grouping(words[e + 1..], rest, diarize) && (rest == [] <==> e + 1 == |words|)
    ensures Grouping(words[o..], [words[o..e + 1]] + rest, diarize)
  {
    assert words[o..] == words[o..e + 1] + words[e + 1..];
    GroupingCons(words[o..e + 1], rest, words[e + 1..], diarize);
  }

  lemma GroupingTail(words: seq<Word>, chunks: seq<seq<Word>>, diarize: bool)
    requires Grouping(words, chunks, diarize) && chunks != []
    ensures |chunks[0]| <= |words| && words[..|chunks[0]|] == chunks[0]
    ensures Grouping(words[|chunks[0]|..], chunks[1..], diarize)
    ensures chunks[1..] == [] <==> |chunks[0]| == |words|
  {
    var rest := chunks[1..];
    assert words == chunks[0] + Flatten(rest);
    assert words[|chunks[0]|..] == Flatten(rest);
    forall k | 0 <= k < |rest|
      ensures GroupOk(rest[k], diarize, k == |rest| - 1)
    {
      assert rest[k] == chunks[k + 1];
    }
    if rest != [] {
      assert GroupOk(rest[0], diarize, 0 == |rest| - 1);
      assert |Flatten(rest)| >= |rest[0] + Flatten(rest[1..])|;
    }
  }

  /** The first group of a grouping, read off the words: it closes at its last word and at no earlier one, unless it is the last group and takes every word. */
  lemma FirstGroupInWords(words: seq<Word>, chunks: seq<seq<Word>>, diarize: bool)
    requires Grouping(words, chunks, diarize) && chunks != []
    ensures 1 <= |chunks[0]| <= |words| && chunks[0] == words[..|chunks[0]|]
    ensures forall m :: 0 <= m < |chunks[0]| - 1 ==> !ClosesAt(words[0], words[m], m, diarize)
    ensures |chunks| > 1 ==> ClosesAt(words[0], words[|chunks[0]| - 1], |chunks[0]| - 1, diarize)
    ensures |chunks| == 1 ==> |chunks[0]| == |words|
  {
    GroupingTail(words, chunks, diarize);
    var c := chunks[0];
    assert GroupOk(c, diarize, 0 == |chunks| - 1);
    forall m | 0 <= m < |c| - 1
      ensures !ClosesAt(words[0], words[m], m, diarize)
    {
      assert c[0] == words[0] && c[m] == words[m];
    }
    assert c[0] == words[0] && c[|c| - 1] == words[|c| - 1];
  }

  /** Two groupings of the same words start with the same group: a shorter one would have to close inside the longer one. */
  lemma FirstGroupsAgree(words: seq<Word>, c1: seq<seq<Word>>, c2: seq<seq<Word>>, diarize: bool)
    requires Grouping(words, c1, diarize) && Grouping(words, c2, diarize) && c1 != [] && c2 != []
    ensures c1[0] == c2[0]
  {
    FirstGroupInWords(words, c1, diarize);
    FirstGroupInWords(words, c2, diarize);
  }

  /** A grouping has no group exactly when there are no words. */
  lemma GroupingEmpty(words: seq<Word>, chunks: seq<seq<Word>>, diarize: bool)
    requires Grouping(words, chunks, diarize)
    ensures words == [] <==> chunks == []
  {
    if chunks != [] {
      GroupingTail(words, chunks, diarize);
      assert GroupOk(chunks[0], diarize, 0 == |chunks| - 1);
    }
  }

  /** There is only one grouping of a list of words. */
  lemma {:induction false} GroupingUnique(words: seq<Word>, c1: seq<seq<Word>>, c2: seq<seq<Word>>, diarize: bool)
    requires Grouping(words, c1, diarize) && Grouping(words, c2, diarize)
    ensures c1 == c2
    decreases |words|
  {
    GroupingEmpty(words, c1, diarize);
    GroupingEmpty(words, c2, diarize);
    if words != [] {
      FirstGroupsAgree(words, c1, c2, diarize);
      GroupingTail(words, c1, diarize);
      GroupingTail(words, c2, diarize);
      GroupingUnique(words[|c1[0]|..], c1[1..], c2[1..], diarize);
      assert c1 == [c1[0]] + c1[1..] && c2 == [c2[0]] + c2[1..];
    }
  }

  /**
    The word fallback's segments are those of the one grouping of the words: every segment has one
    to fifty words, closes right after a word that ends a sentence, changes the speaker or is its
    50th word (and at no earlier word), and the segments together hold every word once, in order.
  */
  lemma WordSegmentsSpec(words: seq<Word>, chunks: seq<seq<Word>>, diarize: bool)
    requires Grouping(words, chunks, diarize)
    ensures NonEmpty(chunks)
    ensures WordSegments(words, diarize) == SegmentsOf(chunks, diarize)
  {
    ChunksGrouping(words, 0, diarize);
    assert words[0..] == words;
    GroupingUnique(words, chunks, Chunks(words, 0, diarize), diarize);
    ChunksNonEmpty(words, 0, diarize);
  }

  // ---------------------------------------------------------------------------------------------
  // Grouping words: the loop
  // ---------------------------------------------------------------------------------------------

  /** With no cut between `o` and `i`, searching from `o` finds the same end as searching from `i`. */
  lemma {:induction false} ChunkEndFrom(words: seq<Word>, o: nat, j: nat, i: nat, diarize: bool)
    requires o <= j <= i < |words| && i - o < 50
    requires forall q :: o <= q < i ==> !Cut(words, o, q, diarize)
    ensures ChunkEnd(words, o, j, diarize) == ChunkEnd(words, o, i, diarize)
    decreases i - j
  {
    if j < i {
      assert !Cut(words, o, j, diarize) && j != |words| - 1;
      ChunkEndFrom(words, o, j + 1, i, diarize);
    }
  }

  lemma SegmentsOfCons(c: seq<Word>, rest: seq<seq<Word>>, diarize: bool)
    requires c != [] && NonEmpty(rest)
    ensures NonEmpty([c] + rest)
    ensures SegmentsOf([c] + rest, diarize) == [SegmentOf(c, diarize)] + SegmentsOf(rest, diarize)
  {
    assert ([c] + rest)[1..] == rest;
  }

  /** The chunks from `o` when the word at `i` is the first cut (or the last word). */
  lemma ChunksAt(words: seq<Word>, o: nat, i: nat, diarize: bool)
    requires o <= i < |words| && i - o < 50
    requires forall q :: o <= q < i ==> !Cut(words, o, q, diarize)
    requires Cut(words, o, i, diarize) || i == |words| - 1
    ensures NonEmpty(Chunks(words, i + 1, diarize))
    ensures Chunks(words, o, diarize) == [words[o..i + 1]] + Chunks(words, i + 1, diarize)
  {
    ChunkEndFrom(words, o, o, i, diarize);
    ChunksNonEmpty(words, i + 1, diarize);
  }

  /** The loop invariant on the segments: what is emitted, followed by what is still to come, is the whole. */
  predicate Emitted(words: seq<Word>, o: nat, segments: seq<FlatSegment>, diarize: bool)
    requires o <= |words|
  {
    NonEmpty(Chunks(words, o, diarize)) && segments + SegmentsOf(Chunks(words, o, diarize), diarize) == WordSegments(words, diarize)
  }

  /** Once every word is in a closed segment, the emitted segments are the whole result. */
  lemma EmittedAll(words: seq<Word>, segments: seq<FlatSegment>, diarize: bool)
    requires Emitted(words, |words|, segments, diarize)
    ensures segments == WordSegments(words, diarize)
  {
    assert Chunks(words, |words|, diarize) == [];
  }

  /** Closing the segment at its first cut (or at the last word) keeps the invariant, from the next word on. */
  lemma AfterClose(words: seq<Word>, o: nat, i: nat, segments: seq<FlatSegment>, diarize: bool)
    requires o <= i < |words| && i - o < 50
    requires forall q :: o <= q < i ==> !Cut(words, o, q, diarize)
    requires Cut(words, o, i, diarize) || i == |words| - 1
    requires Emitted(words, o, segments, diarize)
    ensures Emitted(words, i + 1, segments + [SegmentOf(words[o..i + 1], diarize)], diarize)
  {
    ChunksAt(words, o, i, diarize);
    EmitFirst(segments, words[o..i + 1], Chunks(words, i + 1, diarize), WordSegments(words, diarize), diarize);
  }

  /** Moving the first pending group's segment to the emitted ones leaves the total unchanged. */
  lemma EmitFirst(segments: seq<FlatSegment>, c: seq<Word>, rest: seq<seq<Word>>, total: seq<FlatSegment>, diarize: bool)
    requires c != [] && NonEmpty(rest) && segments + SegmentsOf([c] + rest, diarize) == total
    ensures (segments + [SegmentOf(c, diarize)]) + SegmentsOf(rest, diarize) == total
  {
    SegmentsOfCons(c, rest, diarize);
  }

  /**
    The loop's variables before word `i`: the open segment holds the words from `o` to `i`, none of
    which closed it, together with the start and speaker of its first word.
  */
  predicate OpenAt(words: seq<Word>, diarize: bool, i: nat, o: nat,
                   current: seq<string>, segmentStart: Option<real>, currentSpeaker: Option<nat>)
  {
    && o <= i <= |words| && (o < i ==> i - o < 50)
    && current == Texts(words[o..i])
    && segmentStart == (if o < i then Some(words[o].start) else None)
    && (o < i ==> currentSpeaker == Some(OpenSpeaker(words[o], diarize)))
    && forall q :: o <= q < i ==> !Cut(words, o, q, diarize)
  }

  /** Lines 198-212: open the segment if none is open, add the word, and decide whether it closes the segment. */
  method AddWord(words: seq<Word>, diarize: bool, i: nat, ghost o: nat,
                 current: seq<string>, segmentStart: Option<real>, currentSpeaker: Option<nat>)
    returns (current': seq<string>, segmentStart': Option<real>, currentSpeaker': Option<nat>, cut: bool)
    requires i < |words| && OpenAt(words, diarize, i, o, current, segmentStart, currentSpeaker)
    ensures current' == Texts(words[o..i + 1]) && current' == current + [words[i].word]
    ensures segmentStart' == Some(words[o].start) && currentSpeaker' == Some(OpenSpeaker(words[o], diarize))
    ensures cut == Cut(words, o, i, diarize)
    ensures !cut ==> OpenAt(words, diarize, i + 1, o, current', segmentStart', currentSpeaker')
  {
    var word := words[i];
    segmentStart', currentSpeaker' := segmentStart, currentSpeaker;
    if segmentStart'.None? {
      segmentStart' := Some(word.start);
      currentSpeaker' := Some(if diarize then word.speaker.GetOr(0) else 0);
    }
    current' := current + [word.word];
    assert current' == Texts(words[o..i + 1]);
    var isEndPunct := EndsSentence(word.word);
    var speakerChanged := diarize && word.speaker.Some? && word.speaker.value != currentSpeaker'.value;
    cut := isEndPunct || speakerChanged || |current'| >= 50;
  }

  /** Lines 213-218 and 223-229: the record of the open segment, closed at word `e`. */
  method CloseSegment(words: seq<Word>, diarize: bool, e: nat, ghost o: nat,
                      current: seq<string>, segmentStart: Option<real>, currentSpeaker: Option<nat>)
    returns (segment: FlatSegment)
    requires o <= e < |words| && current == Texts(words[o..e + 1])
    requires segmentStart == Some(words[o].start) && currentSpeaker == Some(OpenSpeaker(words[o], diarize))
    ensures segment == SegmentOf(words[o..e + 1], diarize)
  {
    segment := FlatSegment(Trunc(segmentStart.value * 1000.0), Trunc(words[e].end * 1000.0),
                           JoinWords(current), "Speaker " + NatToString(currentSpeaker.value + 1));
  }

  /** One pass of the loop body (lines 197-220) on word `i`. */
  method VisitWord(words: seq<Word>, diarize: bool, i: nat, ghost o: nat, segments: seq<FlatSegment>,
                   current: seq<string>, segmentStart: Option<real>, currentSpeaker: Option<nat>)
    returns (ghost o': nat, segments': seq<FlatSegment>,
             current': seq<string>, segmentStart': Option<real>, currentSpeaker': Option<nat>)
    requires i < |words| && OpenAt(words, diarize, i, o, current, segmentStart, currentSpeaker)
    requires Emitted(words, o, segments, diarize)
    ensures OpenAt(words, diarize, i + 1, o', current', segmentStart', currentSpeaker')
    ensures Emitted(words, o', segments', diarize)
  {
    var cut;
    current', segmentStart', currentSpeaker', cut := AddWord(words, diarize, i, o, current, segmentStart, currentSpeaker);
    o', segments' := o, segments;
    if cut {
      var segment := CloseSegment(words, diarize, i, o, current', segmentStart', currentSpeaker');
      AfterClose(words, o, i, segments, diarize);
      segments' := segments + [segment];
      current', segmentStart' := [], None;
      o' := i + 1;
    }
  }

  /** Lines 222-229: the words of a segment still open after the last word form the last segment. */
  method FlushRest(words: seq<Word>, diarize: bool, ghost o: nat, segments: seq<FlatSegment>,
                   current: seq<string>, segmentStart: Option<real>, currentSpeaker: Option<nat>)
    returns (segments': seq<FlatSegment>)
    requires OpenAt(words, diarize, |words|, o, current, segmentStart, currentSpeaker)
    requires Emitted(words, o, segments, diarize)
    ensures segments' == WordSegments(words, diarize)
  {
    OpenAtEnd(words, diarize, o, current, segmentStart, currentSpeaker, segments);
    segments' := segments;
    if current != [] && words != [] {
      var segment := CloseSegment(words, diarize, |words| - 1, o, current, segmentStart, currentSpeaker);
      segments' := segments + [segment];
    }
  }

  /** What the loop leaves when it ends: either every segment is closed, or the last one is still open. */
  lemma OpenAtEnd(words: seq<Word>, diarize: bool, o: nat, current: seq<string>,
                  segmentStart: Option<real>, currentSpeaker: Option<nat>, segments: seq<FlatSegment>)
    requires OpenAt(words, diarize, |words|, o, current, segmentStart, currentSpeaker)
    requires Emitted(words, o, segments, diarize)
    ensures current == [] || words == [] ==> segments == WordSegments(words, diarize)
    ensures current != [] && words != [] ==>
      && o <= |words| - 1 && current == Texts(words[o..|words| - 1 + 1])
      && segmentStart == Some(words[o].start) && currentSpeaker == Some(OpenSpeaker(words[o], diarize))
      && segments + [SegmentOf(words[o..|words| - 1 + 1], diarize)] == WordSegments(words, diarize)
  {
    assert |current| == |words| - o;
    if current != [] && words != [] {
      CloseLast(words, o, segments, diarize);
    } else {
      EmittedAll(words, segments, diarize);
    }
  }

  /** Closing the segment still open after the last word completes the result. */
  lemma CloseLast(words: seq<Word>, o: nat, segments: seq<FlatSegment>, diarize: bool)
    requires o < |words| && |words| - o <= 50
    requires forall q :: o <= q < |words| ==> !Cut(words, o, q, diarize)
    requires Emitted(words, o, segments, diarize)
    ensures segments + [SegmentOf(words[o..|words| - 1 + 1], diarize)] == WordSegments(words, diarize)
  {
    var last := |words| - 1;
    AfterClose(words, o, last, segments, diarize);
    EmittedAll(words, segments + [SegmentOf(words[o..last + 1], diarize)], diarize);
  }

  /** Lines 193-229: the word fallback, one word at a time. */
  method GroupWords(words: seq<Word>, diarize: bool) returns (segments: seq<FlatSegment>)
    ensures segments == WordSegments(words, diarize)
  {
    segments := [];
    var current: seq<string> := [];
    var segmentStart: Option<real> := None;
    var currentSpeaker: Option<nat> := None;
    ghost var o := 0;
    ChunksNonEmpty(words, 0, diarize);
    for i := 0 to |words|
      invariant OpenAt(words, diarize, i, o, current, segmentStart, currentSpeaker)
      invariant Emitted(words, o, segments, diarize)
    {
      o, segments, current, segmentStart, currentSpeaker :=
        VisitWord(words, diarize, i, o, segments, current, segmentStart, currentSpeaker);
    }
    segments := FlushRest(words, diarize, o, segments, current, segmentStart, currentSpeaker);
  }

  // ---------------------------------------------------------------------------------------------
  // The response
  // ---------------------------------------------------------------------------------------------

  /**
    Lines 174-232: utterances when there are any; otherwise the word fallback on the first
    alternative of the first channel; otherwise no segments.
  */
  method ConvertResults(results: Results, diarize: bool) returns (r: Result<seq<FlatSegment>, Error>)
    ensures results.utterances != [] ==>
      && r.Success? && |r.value| == |results.utterances|
      && forall k :: 0 <= k < |results.utterances| ==> r.value[k] == UtteranceSegment(results.utterances[k], diarize)
    ensures results.utterances == [] && results.channels == [] ==> r == Success([])
    ensures results.utterances == [] && results.channels != [] ==>
      if results.channels[0].alternatives == [] then r == Failure(NoAlternative)
      else r == Success(WordSegments(results.channels[0].alternatives[0].words, diarize))
  {
    if results.utterances != [] {
      var segments := UtteranceSegments(results.utterances, diarize);
      return Success(segments);
    }
    if results.channels == [] {
      return Success([]);
    }
    if results.channels[0].alternatives == [] {
      return Failure(NoAlternative);
    }
    var segments := GroupWords(results.channels[0].alternatives[0].words, diarize);
    return Success(segments);
  }
}
