# Latios transcript and summary core, in Dafny

This project models the deterministic core of the Latios podcast services and proves properties of it.

- **The AWS transcript segmenter.** `Transcriber.process_transcript_data` makes one pass over the word-level `results.items` of an AWS Transcribe result.
  - It glues a directly following punctuation item onto the word before it.
  - It cuts sentences after a long pause at a sentence end, at a speaker change after a sentence end, or at 150 entries, and always at the last item.
  - It labels each sentence with a speaker and groups the sentences into minute buckets.
  - `monitor_asr_task` then flattens the buckets.
- **`clean_chinese_text`**, in its three copies. First comes the optional `\u` escape decoding. Then come five whitespace passes: drop whitespace between CJK ideographs, drop whitespace before a listed mark, reduce whitespace after a mark to one space, strip, and collapse runs.
- **The Deepgram branch of the transcription adapter.** This covers the language-code table, the utterance-to-segment map, and the fallback that groups word records into segments. The fallback cuts after a sentence end, at a speaker change, or at 50 words.
- **The Whisper segment conversion.** Centiseconds become milliseconds, the text is stripped, and the speaker is always "Speaker 1".
- **The free-tier gating of the streamed summary.** A gated client receives at most `maxClientChars` characters, then a limit marker once.
- **`safe_timestamp`.** It normalises a publication date to an ISO 8601 timestamp or None. Alongside it is the empty-content guard of `write_to_database`, as in both summary services.

Each imperative loop of the source is a method whose `ensures` ties its result to a specification function. The loops are: the segmenter's `while`, the flattening loops, the Deepgram word loop, the Whisper and utterance loops, and the gating loop. The properties are proved about those functions.

What the segmenter's proofs establish:
- every sentence holds 1 to 150 entries;
- the sentences together are exactly the transcript's entries, in order;
- a cut inside the loop happens only after a sentence of the cut shape with a word next;
- the post-loop flush can never run;
- with start times that never decrease, the minute buckets have strictly increasing minutes;
- a word item without a readable start time makes the whole call fail.

Because `sentence_start_time` is set again straight after every cut, the speaker map only ever holds the first word's speaker. Every segment the AWS path emits is therefore labelled "Speaker 1". `SpeakerMapOfPass` and `MinuteBuckets` state this.

Modules:
- `Wrappers`: Option and Result.
- `Text`: whitespace, `strip`, the run-rewriting machinery behind the regex passes, `' '.join`, decimal digits.
- `Times`: decimal seconds to milliseconds, `HH:MM:SS`.
- `ChineseText`: the cleanup.
- `Transcript`: the common segment record and `int()` truncation.
- `AwsTranscribe`, `AwsTranscribeProofs` and `AwsTranscribeOrder`: the segmenter, its loop invariant, and its minute order.
- `Deepgram`, `Whisper`, `Gating` and `Database`.

Times in the AWS segmenter are exact integer milliseconds, read from the decimal strings that AWS writes.

## Model

| member | source | states |
|---|---|---|
| Text.StripSpec | python/aws/latios_transcribe.py:182 | `strip` returns a contiguous slice of the text with only whitespace outside it, so inner whitespace is kept; it leaves no whitespace at either end and removes nothing but whitespace; the result is empty exactly when the text is all whitespace |
| Text.RewriteCompose | python/aws/latios_transcribe.py:173-185 | two whitespace-run rewrites in a row are one rewrite by the concatenated rules, which is how the five successive `re.sub`/`strip` rebindings compose |
| Text.RewriteKeepsNonSpace | python/aws/latios_transcribe.py:173-185 | any rewrite of whitespace runs only deletes whitespace or replaces it by other whitespace: removing all whitespace before and after gives the same string |
| Text.RemoveSpacesEmpty | python/aws/latios_transcribe.py:182 | a text loses everything to whitespace removal exactly when it is all whitespace |
| Text.ParseNatToString | python/aws/latios_transcribe.py:331 | the decimal rendering of a speaker count reads back as that count |
| ChineseText.NormalizeIsOneRewrite | python/aws/latios_transcribe.py:172-185 | the five whitespace passes, in the source's order, equal one rewrite of every maximal whitespace run by the composed rule |
| ChineseText.PipelineTidy | python/aws/latios_transcribe.py:172-185 | after the passes, every whitespace character is a single ' ' between two non-space characters that are not both ideographs, with no listed mark after it |
| ChineseText.PipelineFixes | python/aws/latios_transcribe.py:172-185 | the passes leave a text of that tidy shape unchanged |
| ChineseText.NormalizeShape | python/aws/latios_transcribe.py:172-185 | the output of the passes has no whitespace at either end, no run longer than one ' ', none between two ideographs and none before a listed mark |
| ChineseText.NormalizeKeepsNonSpace | python/aws/latios_transcribe.py:172-185 | the passes only delete or replace whitespace |
| ChineseText.NormalizeFixesNormalized | python/aws/latios_transcribe.py:172-185 | a text already of the output shape passes through unchanged |
| ChineseText.NormalizeIdempotent | python/aws/latios_transcribe.py:172-185 | running the passes twice is running them once |
| ChineseText.NormalizeAddsNoEscape | python/aws/latios_transcribe.py:150-185 | the passes never create a `\u` that was not there before |
| ChineseText.DecodeEscapes | python/aws/latios_transcribe.py:150-167 | without `\u` the decoding step completes and returns the text as it is |
| ChineseText.CleanShape | python/aws/latios_transcribe.py:146-187 | whenever the decoding step completes, the cleanup's output has the normalised shape |
| ChineseText.CleanRecovers | python/aws/latios_transcribe.py:188-190 | an exception that escapes the decoder chain returns the original text untouched, and happens only when json and codecs both fail and the utf-8 attempt raises something other than `UnicodeDecodeError` |
| ChineseText.CleanKeepsNonSpace | python/lib/whisper_transcriber.py:150-164 | for input without `\u`, the cleanup only deletes or replaces whitespace |
| ChineseText.CleanIdempotent | python/lib/whisper_transcriber.py:130-166 | for input without `\u`, cleaning twice is cleaning once |
| ChineseText.DecodeEscapesShort | python/lib/transcription_adapter.py:307-315 | the adapter's decoding step returns the text as it is when it holds no `\u` |
| ChineseText.CleanShortShape | python/lib/transcription_adapter.py:303-333 | the adapter's copy always returns normalised output |
| ChineseText.CleanShortAgrees | python/lib/transcription_adapter.py:293-336 | without `\u` the adapter's copy equals the other copies, keeps non-whitespace and is idempotent |
| Times.ParseShowMillis | python/aws/latios_transcribe.py:325 | reading a decimal-seconds string `S.mmm` back gives exactly its milliseconds (4.0 s is 4000) |
| Times.FormatHmsRoundTrip | python/aws/latios_transcribe.py:386 | `strftime("%H:%M:%S", gmtime(s))` is eight characters and reads back as the seconds since midnight, hours taken mod 24 |
| Times.DayClock | python/aws/latios_transcribe.py:386 | hours mod 24, minutes and seconds recombine to the seconds mod 86400 |
| Transcript.Trunc | python/lib/transcription_adapter.py:181-182 | `int()` of a float truncates toward zero: the result is within one of the value and no farther from zero |
| Transcript.TruncOfInt | python/lib/whisper_transcriber.py:104-105 | a whole number converts exactly |
| AwsTranscribe.Append | python/aws/latios_transcribe.py:335-344 | appending a word moves the index by at most one, and only onto a punctuation item |
| AwsTranscribe.Take | python/aws/latios_transcribe.py:324-344 | reading an item moves the index by at most one, and only onto a punctuation item |
| AwsTranscribe.Step | python/aws/latios_transcribe.py:321-397 | every iteration strictly advances the index and stays within the items |
| AwsTranscribe.TakeItem | python/aws/latios_transcribe.py:324-344 | the first half of the loop body computes `Take` |
| AwsTranscribe.CheckBreak | python/aws/latios_transcribe.py:346-364 | the cut decision computes `ShouldCut` |
| AwsTranscribe.EmitSentence | python/aws/latios_transcribe.py:366-395 | the emission computes `Emit`: the end time is read from the iteration's word item, the next sentence is reopened from the item after the (possibly glued) index |
| AwsTranscribe.SettleItem | python/aws/latios_transcribe.py:346-395 | the second half of the loop body computes `Settle`, given both the word's index and the index after glueing |
| AwsTranscribe.ProcessItem | python/aws/latios_transcribe.py:322-397 | one pass of the loop body computes `Step`, emitting with the word's own `end_time` |
| AwsTranscribe.ProcessTranscriptData | python/aws/latios_transcribe.py:307-426 | the whole `while` loop and the final bucket compute `Segment` |
| AwsTranscribe.FlattenAllIndex | python/aws/latios_transcribe.py:447-455 | flattening keeps segments one for one, in order, dropping only `minute` and `FormattedTime` |
| AwsTranscribe.FlattenAllAppend | python/aws/latios_transcribe.py:447-455 | flattening distributes over concatenation |
| AwsTranscribe.FlattenBucket | python/aws/latios_transcribe.py:449-455 | the inner loop flattens one bucket's segments in order |
| AwsTranscribe.FlattenSegments | python/aws/latios_transcribe.py:447-455 | the nested loop returns exactly the emitted segments, bucket after bucket, in emission order |
| AwsTranscribeProofs.AppendFacts | python/aws/latios_transcribe.py:335-344 | appending changes only the sentence, by at most one entry, and the entry is the word's content with any directly following punctuation glued on |
| AwsTranscribeProofs.TakeEntries | python/aws/latios_transcribe.py:324-344 | reading an item hands the transcript's next entry (if any) to the sentence and leaves the output untouched; a punctuation item on its own changes nothing |
| AwsTranscribeProofs.TakeOpening | python/aws/latios_transcribe.py:328-333 | a word item opens a sentence only when none is open, registering its speaker as "Speaker n" when it is new |
| AwsTranscribeProofs.CutOnlyAtWords | python/aws/latios_transcribe.py:347-364 | a cut happens only with a sentence open, and, before the last item, only with a word next and a sentence of 150 entries or of 15 or more ending in '.', '!' or '?' |
| AwsTranscribeProofs.NoCutBelowCap | python/aws/latios_transcribe.py:358-361 | without a cut and with a word next, the open sentence has fewer than 150 entries |
| AwsTranscribeProofs.EmitKeeps | python/aws/latios_transcribe.py:389-395 | an emission clears the sentence, records it, keeps the speaker map, and reopens exactly when the next item is a word |
| AwsTranscribeProofs.EmitSegment | python/aws/latios_transcribe.py:366-387 | an emission appends one segment whose start is the sentence start, whose end is the `end_time` of the word item the iteration began with, not of a glued punctuation item (or, without one, the current word's start), whose text is the joined, cleaned sentence and whose bucket is `StartMs / 60000`, closing the previous bucket when the minute changes |
| AwsTranscribeProofs.GluedSentenceEndsAtWord | python/aws/latios_transcribe.py:321-371 | a word with start and end times followed by a time-less punctuation item, as the last items, yields one segment from the word's start to the word's end, with the glued text |
| AwsTranscribeProofs.InitInv | python/aws/latios_transcribe.py:308-319 | the initial variables satisfy the loop invariant |
| AwsTranscribeProofs.StepInv | python/aws/latios_transcribe.py:321-397 | every iteration keeps the loop invariant: bounds, coverage of the entries, cut shapes, speaker map, output and buckets |
| AwsTranscribeProofs.RunInv | python/aws/latios_transcribe.py:321-397 | the invariant holds when the loop ends |
| AwsTranscribeProofs.SentencesOfPass | python/aws/latios_transcribe.py:321-421 | every sentence has 1 to 150 entries, every sentence but the last has the cut shape, the sentences together are exactly the transcript's entries in order, and none is left open, so lines 399-421 never run |
| AwsTranscribeProofs.MinuteBuckets | python/aws/latios_transcribe.py:373-424 | every bucket is non-empty and holds only segments of its minute, neighbours differ in minute, the segments are the sentences in order (rendered, "Speaker 1", `HH:MM:SS` of the start), and there is no bucket exactly when there is no entry |
| AwsTranscribeProofs.FinishBuckets | python/aws/latios_transcribe.py:423-424 | closing the last bucket keeps every bucket well formed and the segments in order |
| AwsTranscribeProofs.SpeakerMapOfPass | python/aws/latios_transcribe.py:328-333 | the speaker map ends with one entry, "Speaker 1" for the first word item's speaker (none without word items), and the count at 2 (or 1) |
| AwsTranscribeProofs.SpeakerNameIsOne | python/aws/latios_transcribe.py:385 | under the invariant every segment's `SpeakerId` is "Speaker 1" |
| AwsTranscribeProofs.TakeBadStart | python/aws/latios_transcribe.py:325 | a word item without a readable `start_time` fails the iteration that reads it |
| AwsTranscribeProofs.RunReachesBadStart | python/aws/latios_transcribe.py:321-344 | the loop never steps over a word item, so it reaches such an item and fails there |
| AwsTranscribeProofs.BadStartFails | python/aws/latios_transcribe.py:428-430 | a word item without a readable `start_time` makes the whole call fail, with no partial result |
| AwsTranscribeOrder.TakeOrder | python/aws/latios_transcribe.py:324-333 | reading an item keeps the ordering invariant when start times never decrease |
| AwsTranscribeOrder.SettleOrder | python/aws/latios_transcribe.py:373-395 | emitting keeps the buckets in strictly increasing minutes |
| AwsTranscribeOrder.StepOrder | python/aws/latios_transcribe.py:321-397 | one iteration keeps the ordering invariant |
| AwsTranscribeOrder.RunOrder | python/aws/latios_transcribe.py:321-397 | the ordering invariant holds when the loop ends |
| AwsTranscribeOrder.FinishOrder | python/aws/latios_transcribe.py:423-424 | the final bucket comes after all others |
| AwsTranscribeOrder.MinutesIncrease | python/aws/latios_transcribe.py:373-424 | with start times that never decrease, the buckets' minutes strictly increase |
| Deepgram.LanguageCodes | python/lib/transcription_adapter.py:117-129 | "en" and "zh" gain a region, the other eight codes pass through, any other code becomes "en-US", and the result is always one of the table's codes |
| Deepgram.UtteranceSegments | python/lib/transcription_adapter.py:178-185 | one segment per utterance, in order, labelled "Speaker {speaker}" without +1, or "Speaker 1" without diarization |
| Deepgram.ChunkEnd | python/lib/transcription_adapter.py:197-212 | a segment closes at its first closing word, or at the last word, within 50 words |
| Deepgram.SegmentsOf | python/lib/transcription_adapter.py:213-218 | one segment per group of words, in order |
| Deepgram.ChunksNonEmpty | python/lib/transcription_adapter.py:197-220 | no group of the fallback is empty |
| Deepgram.FirstGroupOk | python/lib/transcription_adapter.py:198-220 | the first group the loop forms is well formed: 1 to 50 words, no earlier word closing it, the last closing it unless it is the final group |
| Deepgram.ChunksGrouping | python/lib/transcription_adapter.py:197-229 | the fallback's groups are a grouping of the words: every word once, in order, each group well formed |
| Deepgram.GroupingTail | python/lib/transcription_adapter.py:197-229 | the first group of a grouping is a prefix of the words, and the rest is a grouping of the remaining words |
| Deepgram.FirstGroupInWords | python/lib/transcription_adapter.py:205-212 | the first group of any grouping closes at its last word and at no earlier one, unless it takes every word |
| Deepgram.FirstGroupsAgree | python/lib/transcription_adapter.py:205-212 | two groupings of the same words start with the same group |
| Deepgram.GroupingEmpty | python/lib/transcription_adapter.py:223 | a grouping has no group exactly when there are no words |
| Deepgram.GroupingUnique | python/lib/transcription_adapter.py:197-229 | there is only one grouping of a list of words |
| Deepgram.WordSegmentsSpec | python/lib/transcription_adapter.py:187-229 | the fallback's segments are those of the unique grouping: groups of at most 50 words, closing right after a sentence end, a speaker change (the new speaker's word ends the old segment) or the 50th word, each timed from its first word's start to its last word's end and labelled with its opening speaker + 1 |
| Deepgram.AfterClose | python/lib/transcription_adapter.py:212-220 | closing a segment at its first cut keeps the emitted segments a prefix of the result |
| Deepgram.AddWord | python/lib/transcription_adapter.py:198-212 | a word opens the segment when none is open, is appended, and the cut decision is the closing rule |
| Deepgram.CloseSegment | python/lib/transcription_adapter.py:213-218 | the record of a closed segment is the segment of its words |
| Deepgram.VisitWord | python/lib/transcription_adapter.py:197-220 | one pass of the loop body keeps the loop invariant |
| Deepgram.FlushRest | python/lib/transcription_adapter.py:222-229 | the trailing open segment is flushed, completing the result |
| Deepgram.GroupWords | python/lib/transcription_adapter.py:193-229 | the word loop returns exactly the fallback's segments |
| Deepgram.ConvertResults | python/lib/transcription_adapter.py:174-232 | utterances when there are any; else the word fallback on the first channel's first alternative; no channels give no segments; a channel without alternatives fails |
| Whisper.ConvertSpec | python/lib/whisper_transcriber.py:103-107 | times are the centiseconds times 10, the sentence is the stripped text (a slice of the text with only whitespace outside it, no whitespace at either end, only whitespace removed, empty exactly for blank text), the speaker "Speaker 1" |
| Whisper.Transcribe | python/lib/whisper_transcriber.py:101-108 | one result per model segment, in order |
| Gating.Limits | python/aws/latios_summary.py:330-331 | the allowance defaults to 1200 and full streaming to off, per key |
| Gating.Pieces | python/aws/latios_summary.py:369-370 | one piece per chunk, in order |
| Gating.FeedChunk | python/aws/latios_summary.py:364-386 | one chunk through the gate computes `Feed` |
| Gating.GenerateStream | python/aws/latios_summary.py:328-386 | the loop over the chunks computes `Stream` |
| Gating.FeedInv | python/aws/latios_summary.py:371-386 | every chunk keeps the gate's invariant: the client holds exactly the first `streamed` characters, within the allowance, and the marker, once sent, is the last yield |
| Gating.StreamInv | python/aws/latios_summary.py:364-386 | the gated stream satisfies the invariant after any chunks |
| Gating.StreamFullText | python/aws/latios_summary.py:367 | `full_text` is every chunk in order, whatever the gating |
| Gating.GatedStream | python/aws/latios_summary.py:369-386 | a gated client receives exactly the first min(allowance, length) characters of the full text; the marker comes at most once, last, and has come whenever text was withheld |
| Gating.UngatedStream | python/aws/latios_summary.py:369-370 | with full streaming every chunk is forwarded verbatim and the marker never comes |
| Gating.ExactFill | python/aws/latios_summary.py:372-386 | a chunk that exactly fills the allowance is sent whole without the marker; the next chunk gets only the marker |
| Database.RemoveAllAbsent | python/aws/latios_summary.py:105 | `replace` with no occurrence changes nothing |
| Database.RemoveAllLeading | python/aws/latios_summary.py:105 | `replace` deletes a leading occurrence |
| Database.SafeTimestampCases | python/services/latios_summary.py:80-117 | blank gives None; a value starting with a full date and time is kept unchanged, trailing text and all; a bare date gets "T00:00:00Z"; anything else goes to the parser, whose failure gives None |
| Database.StreamedLiveDate | python/aws/latios_summary.py:103-110 | for "Streamed live on <d>" the parser is given `d` stripped, and its result is returned |
| Database.SafeTimestampIso | python/aws/latios_summary.py:85-98 | what the function returns without the parser is a full ISO timestamp, and it passes through unchanged a second time |
| Database.TrailingNewlineDate | python/aws/latios_summary.py:95-98 | as written, a date followed by "\n" gets "T00:00:00Z" appended after the newline, which is not a timestamp; the corrected function hands it to the parser |
| Database.AsWrittenDiffersOnlyOnNewline | python/aws/latios_summary.py:85-117 | the function as written and the corrected one agree on every value except a date followed by one newline, on which the one as written appends midnight after the newline and the corrected one calls the parser |
| Database.WriteToDatabase | python/aws/latios_summary.py:70-76 | empty content gives False before any insert; otherwise the result is the insert's (the same guard is at python/services/latios_summary.py lines 65-71) |

## Left out

- I/O and services are not modelled: FastAPI endpoints, background tasks, the in-memory task dictionaries, S3/Transcribe/Bedrock/Deepgram/Whisper/Supabase calls, `download_audio`, `upload_to_s3`, the polling loop of `monitor_asr_task` and its `json.dumps`. The model starts from the already-parsed `results.items`, Deepgram `results` and whisper.cpp segments.
- The libraries the core calls are parameters, each a partial function: `json.loads`, `codecs.decode` and the two `unicode_escape` decodings (`EscapeDecoders`), `dateutil.parser.parse` followed by `strftime` (`parse`), and the database insert (`insert`).
- The summary stream's asyncio queue, thread executor, Claude/Titan error handling, the post-loop Titan drain (lines 414-432) and the scheduled database write are concurrency and are not modelled. The gating is modelled as a fold over the text chunks in arrival order.
- Floating point is not modelled: the model reads the exact decimal value of every time. The AWS copy computes `int(float(s) * 1000)` (python/aws/latios_transcribe.py lines 371-372), and the binary product can land just below a whole millisecond, so the source's truncation can be one millisecond lower than the model's. For example, "1.001" gives 1000 in the source and 1001 in `Times.ParseMillis`. For the same reason, the 4.0 s pause test (line 359) and the minute of a segment (line 373) can come out differently at the edge.
- Deepgram times are modelled as exact reals. The source's `int(utterance.start * 1000)` and `int(word.start * 1000)` (python/lib/transcription_adapter.py lines 180-181 and 212-213) multiply binary floats, so their truncation can also be one millisecond lower than the model's `Trunc`. Whisper's centiseconds are integers, so `t0 * 10` is exact.
- A Deepgram word whose `speaker` attribute exists but holds None is not modelled: in `Deepgram.Word`, None means the attribute is absent (the `getattr` default at python/lib/transcription_adapter.py line 199 and the `hasattr` test at lines 205-209). With diarization on, such a word counts as a speaker change, and if it opens a segment, the `current_speaker + 1` label raises.
- Negative times are not modelled: AWS start and end times are non-negative.
- A missing `results`/`items` key, and an `alternatives[0]` without `content`, are not modelled: items are given as a list, and an item's content is present or absent as a whole.
- The post-loop flush (python/aws/latios_transcribe.py:399-421) is not modelled as code. `SentencesOfPass` proves that no sentence is open when the loop ends, so it cannot run.
- Whitespace is Python's `str.isspace` set as a fixed list, digits are ASCII, and the ideograph class is U+4E00 to U+9FFF. Python's `\d` also matches other Unicode digits, which the model does not.
- The outer `except Exception` around the whitespace passes is not modelled, because `re.sub` and `strip` on a `str` do not raise. The model keeps only the exceptions of the decoder chain.
- Times.ParseMillis: accepts only `digits[.digits]`, the form AWS writes. Signs, exponents, surrounding whitespace, `inf` and `nan`, which `float` also accepts, are treated as unreadable start or end times.
- Gating.GatedStream: does not say exactly which chunk triggers the marker when no text is withheld. An empty chunk arriving once the allowance is used up also yields it.
- python/services/latios_transcribe.py and python/start_services.py are not part of this model.

## Findings

| source | as written | input that shows it | evidently intended | confidence | as-written member | corrected member |
|---|---|---|---|---|---|---|
| python/aws/latios_summary.py:95-98 | `re.match(r'^\d{4}-\d{2}-\d{2}$', value)`: Python's `$` also matches before a final newline, so a date with a trailing newline passes the date-only check | "2022-08-16\n" becomes "2022-08-16\nT00:00:00Z", which is not an ISO timestamp | only a value that is exactly a date gets midnight appended; anything else goes to the parser | medium, not executed | Database.TrailingNewlineDate and Database.AsWrittenDiffersOnlyOnNewline (over Database.SafeTimestampAsWritten) | Database.SafeTimestamp, with Database.SafeTimestampIso and Database.SafeTimestampCases |
