/**
  The free-tier gating of the streamed summary: every chunk of model text is added to the full
  text, but a gated client receives at most `maxClientChars` characters, cut mid-chunk if need be,
  followed once by a limit marker, and nothing after it.
*/
module Gating {
  import opened Wrappers

  /** The request's `gating` options; a missing key is None. */
  datatype GatingOptions = GatingOptions(maxClientChars: Option<int>, allowFullStream: Option<bool>)

  /** What the stream yields: a piece of model text, or the limit marker `"\n---GATING_LIMIT_REACHED---\n"`. */
  datatype Yield = Piece(text: string) | LimitMarker

  /** Lines 330-331: the client's allowance (1200 by default) and whether the stream is ungated. */
  function Limits(gating: Option<GatingOptions>): (r: (int, bool))
    ensures gating.None? ==> r == (1200, false)
    ensures gating.Some? ==> r.0 == gating.value.maxClientChars.GetOr(1200) && r.1 == gating.value.allowFullStream.GetOr(false)
  {
    match gating
    case None => (1200, false)
    case Some(g) => (g.maxClientChars.GetOr(1200), g.allowFullStream.GetOr(false))
  }

  /** The generator's variables: `full_text`, `streamed_chars` and `client_closed`. */
  datatype Gate = Gate(fullText: string, streamed: int, closed: bool)

  /** Lines 364-386: one chunk of text through the gate. */
  function Feed(g: Gate, text: string, maxClientChars: int, allowFullStream: bool): (Gate, seq<Yield>) {
    var full := g.fullText + text;
    if allowFullStream then (g.(fullText := full), [Piece(text)])
    else if g.closed then (g.(fullText := full), [])
    else
      var remaining := maxClientChars - g.streamed;
      if remaining > 0 then
        if |text| <= remaining then (Gate(full, g.streamed + |text|, false), [Piece(text)])
        else (Gate(full, g.streamed + remaining, true), [Piece(text[..remaining]), LimitMarker])
      else (Gate(full, g.streamed, true), [LimitMarker])
  }

  /** The gate after a sequence of chunks, and everything yielded on the way. */
  function Stream(chunks: seq<string>, maxClientChars: int, allowFullStream: bool): (Gate, seq<Yield>) {
    if chunks == [] then (Gate("", 0, false), [])
    else
      var (g, out) := Stream(chunks[..|chunks| - 1], maxClientChars, allowFullStream);
      var (g', more) := Feed(g, chunks[|chunks| - 1], maxClientChars, allowFullStream);
      (g', out + more)
  }

  /** The body of the loop for one text chunk (lines 364-386). */
  method FeedChunk(fullText: string, streamedChars: int, clientClosed: bool, out: seq<Yield>,
                   text: string, maxClientChars: int, allowFullStream: bool)
    returns (fullText': string, streamedChars': int, clientClosed': bool, out': seq<Yield>)
    ensures var (g, more) := Feed(Gate(fullText, streamedChars, clientClosed), text, maxClientChars, allowFullStream);
      Gate(fullText', streamedChars', clientClosed') == g && out' == out + more
  {
    fullText', streamedChars', clientClosed', out' := fullText + text, streamedChars, clientClosed, out;
    if allowFullStream {
      out' := out' + [Piece(text)];
    } else if !clientClosed {
      var remaining := maxClientChars - streamedChars;
      if remaining > 0 {
        if |text| <= remaining {
          out' := out' + [Piece(text)];
          streamedChars' := streamedChars + |text|;
        } else {
          out' := out' + [Piece(text[..remaining])];
          streamedChars' := streamedChars + remaining;
          out' := out' + [LimitMarker];
          clientClosed' := true;
          assert out' == out + [Piece(text[..remaining]), LimitMarker];
        }
      } else {
        out' := out' + [LimitMarker];
        clientClosed' := true;
      }
    }
  }

  /** The loop of `generate_stream` over the text chunks, in arrival order. */
  method GenerateStream(chunks: seq<string>, maxClientChars: int, allowFullStream: bool)
    returns (fullText: string, out: seq<Yield>)
    ensures fullText == Stream(chunks, maxClientChars, allowFullStream).0.fullText
    ensures out == Stream(chunks, maxClientChars, allowFullStream).1
  {
    fullText, out := "", [];
    var streamedChars := 0;
    var clientClosed := false;
    for k := 0 to |chunks|
      invariant (Gate(fullText, streamedChars, clientClosed), out) == Stream(chunks[..k], maxClientChars, allowFullStream)
    {
      assert chunks[..k + 1][..k] == chunks[..k];
      fullText, streamedChars, clientClosed, out :=
        FeedChunk(fullText, streamedChars, clientClosed, out, chunks[k], maxClientChars, allowFullStream);
    }
    assert chunks[..|chunks|] == chunks;
  }

  // ---------------------------------------------------------------------------------------------
  // What the client receives
  // ---------------------------------------------------------------------------------------------

  /** All chunks, in order: what `full_text` should hold. */
  function Concat(chunks: seq<string>): string {
    if chunks == [] then "" else Concat(chunks[..|chunks| - 1]) + chunks[|chunks| - 1]
  }

  /** The model text the client has received, the marker left out. */
  function Sent(out: seq<Yield>): string {
    if out == [] then "" else Sent(out[..|out| - 1]) + (if out[|out| - 1].Piece? then out[|out| - 1].text else "")
  }

  function Pieces(chunks: seq<string>): (out: seq<Yield>)
    ensures |out| == |chunks| && forall k :: 0 <= k < |chunks| ==> out[k] == Piece(chunks[k])
  {
    seq(|chunks|, k requires 0 <= k < |chunks| => Piece(chunks[k]))
  }

  /** The marker is yielded only as the last thing, if at all. */
  predicate MarkerLast(out: seq<Yield>) {
    forall k :: 0 <= k < |out| - 1 ==> out[k] != LimitMarker
  }

  /**
    The gated stream's invariant: the client has received exactly the first `streamed` characters
    of the full text, never more than the allowance; while the gate is open that is all of it, and
    once it has closed the marker has been sent, as the last yield.
  */
  predicate GateInv(g: Gate, out: seq<Yield>, maxClientChars: int) {
    && 0 <= g.streamed <= |g.fullText|
    && g.streamed <= (if maxClientChars > 0 then maxClientChars else 0)
    && Sent(out) == g.fullText[..g.streamed]
    && MarkerLast(out)
    && (!g.closed ==> g.streamed == |g.fullText| && LimitMarker !in out)
    && (g.closed ==> out != [] && out[|out| - 1] == LimitMarker)
    && (g.closed ==> g.streamed == (if maxClientChars > 0 then maxClientChars else 0))
  }

  lemma {:induction false} SentAppend(out: seq<Yield>, more: seq<Yield>)
    ensures Sent(out + more) == Sent(out) + Sent(more)
    decreases |more|
  {
    if more == [] {
      assert out + more == out;
    } else {
      var more' := more[..|more| - 1];
      var last := more[|more| - 1];
      assert more == more' + [last];
      assert out + more == (out + more') + [last];
      SentAppend(out, more');
      SentSnoc(out + more', last);
      SentSnoc(more', last);
      AppendAssoc(Sent(out), Sent(more'), if last.Piece? then last.text else "");
    }
  }

  lemma AppendAssoc(a: string, b: string, c: string)
    ensures (a + b) + c == a + (b + c)
  {
  }

  /** One more yield adds its text, if it has any. */
  lemma SentSnoc(out: seq<Yield>, y: Yield)
    ensures Sent(out + [y]) == Sent(out) + (if y.Piece? then y.text else "")
  {
    assert (out + [y])[..|out|] == out;
  }

  lemma SentPiece(t: string)
    ensures Sent([Piece(t)]) == t && Sent([LimitMarker]) == ""
    ensures Sent([Piece(t), LimitMarker]) == t
  {
    assert [Piece(t)][..0] == [] && [LimitMarker][..0] == [];
    assert [Piece(t), LimitMarker][..1] == [Piece(t)];
  }

  lemma MarkerLastAppend(out: seq<Yield>, more: seq<Yield>)
    requires LimitMarker !in out && MarkerLast(more)
    ensures MarkerLast(out + more)
  {
    forall k | 0 <= k < |out + more| - 1
      ensures (out + more)[k] != LimitMarker
    {
      if k < |out| {
        assert (out + more)[k] == out[k];
      } else {
        assert (out + more)[k] == more[k - |out|];
      }
    }
  }

  /** Through an open gate with room for the whole chunk, the client receives all of it. */
  lemma FeedFits(g: Gate, out: seq<Yield>, text: string, maxClientChars: int)
    requires GateInv(g, out, maxClientChars) && !g.closed
    requires 0 < maxClientChars - g.streamed && |text| <= maxClientChars - g.streamed
    ensures var (g', more) := Feed(g, text, maxClientChars, false); GateInv(g', out + more, maxClientChars)
  {
    var (g', more) := Feed(g, text, maxClientChars, false);
    assert more == [Piece(text)];
    SentAppend(out, more);
    SentPiece(text);
    MarkerLastAppend(out, more);
    assert g'.fullText[..g'.streamed] == g.fullText + text;
  }

  /** A chunk longer than the room left is cut to fit, and the marker follows. */
  lemma FeedCut(g: Gate, out: seq<Yield>, text: string, maxClientChars: int)
    requires GateInv(g, out, maxClientChars) && !g.closed
    requires 0 < maxClientChars - g.streamed < |text|
    ensures var (g', more) := Feed(g, text, maxClientChars, false); GateInv(g', out + more, maxClientChars)
  {
    var remaining := maxClientChars - g.streamed;
    assert Feed(g, text, maxClientChars, false)
      == (Gate(g.fullText + text, maxClientChars, true), [Piece(text[..remaining]), LimitMarker]);
    CutInv(g.fullText, out, text, remaining, maxClientChars);
  }

  /** Cutting a chunk at the room left, then sending the marker, sends exactly the allowance. */
  lemma CutInv(fullText: string, out: seq<Yield>, text: string, remaining: nat, maxClientChars: int)
    requires Sent(out) == fullText && LimitMarker !in out
    requires 0 < remaining < |text| && maxClientChars == |fullText| + remaining
    ensures GateInv(Gate(fullText + text, maxClientChars, true),
                    out + [Piece(text[..remaining]), LimitMarker], maxClientChars)
  {
    var more := [Piece(text[..remaining]), LimitMarker];
    SentAppend(out, more);
    SentPiece(text[..remaining]);
    MarkerLastAppend(out, more);
    PrefixOfAppend(fullText, text, remaining);
    ClosedInv(fullText + text, maxClientChars, out + more, maxClientChars);
  }

  /** A closed gate that has sent exactly its allowance, marker last, keeps the invariant. */
  lemma ClosedInv(fullText: string, streamed: int, out: seq<Yield>, maxClientChars: int)
    requires 0 <= streamed <= |fullText| && streamed == (if maxClientChars > 0 then maxClientChars else 0)
    requires Sent(out) == fullText[..streamed] && MarkerLast(out)
    requires out != [] && out[|out| - 1] == LimitMarker
    ensures GateInv(Gate(fullText, streamed, true), out, maxClientChars)
  {
  }

  lemma PrefixOfAppend(a: string, t: string, r: nat)
    requires r <= |t|
    ensures (a + t)[..|a| + r] == a + t[..r]
  {
  }

  /** With no room left, the client receives only the marker. */
  lemma FeedFull(g: Gate, out: seq<Yield>, text: string, maxClientChars: int)
    requires GateInv(g, out, maxClientChars) && !g.closed
    requires maxClientChars - g.streamed <= 0
    ensures var (g', more) := Feed(g, text, maxClientChars, false); GateInv(g', out + more, maxClientChars)
  {
    var (g', more) := Feed(g, text, maxClientChars, false);
    assert more == [LimitMarker];
    SentAppend(out, more);
    SentPiece("");
    MarkerLastAppend(out, more);
    assert g'.fullText[..g'.streamed] == g.fullText;
  }

  /** A closed gate only lengthens the full text. */
  lemma FeedClosed(g: Gate, out: seq<Yield>, text: string, maxClientChars: int)
    requires GateInv(g, out, maxClientChars) && g.closed
    ensures var (g', more) := Feed(g, text, maxClientChars, false); GateInv(g', out + more, maxClientChars)
  {
    var (g', more) := Feed(g, text, maxClientChars, false);
    assert more == [] && out + more == out;
    assert g'.fullText[..g'.streamed] == g.fullText[..g.streamed];
  }

  lemma FeedInv(g: Gate, out: seq<Yield>, text: string, maxClientChars: int)
    requires GateInv(g, out, maxClientChars)
    ensures var (g', more) := Feed(g, text, maxClientChars, false); GateInv(g', out + more, maxClientChars)
  {
    if g.closed {
      FeedClosed(g, out, text, maxClientChars);
    } else if maxClientChars - g.streamed <= 0 {
      FeedFull(g, out, text, maxClientChars);
    } else if |text| <= maxClientChars - g.streamed {
      FeedFits(g, out, text, maxClientChars);
    } else {
      FeedCut(g, out, text, maxClientChars);
    }
  }

  /** The full text is every chunk, in order, whatever the gating. */
  lemma {:induction false} StreamFullText(chunks: seq<string>, maxClientChars: int, allowFullStream: bool)
    ensures Stream(chunks, maxClientChars, allowFullStream).0.fullText == Concat(chunks)
  {
    if chunks != [] {
      StreamFullText(chunks[..|chunks| - 1], maxClientChars, allowFullStream);
    }
  }

  lemma {:induction false} StreamInv(chunks: seq<string>, maxClientChars: int)
    ensures var (g, out) := Stream(chunks, maxClientChars, false); GateInv(g, out, maxClientChars)
  {
    if chunks != [] {
      StreamInv(chunks[..|chunks| - 1], maxClientChars);
      var (g, out) := Stream(chunks[..|chunks| - 1], maxClientChars, false);
      FeedInv(g, out, chunks[|chunks| - 1], maxClientChars);
    }
  }

  /**
    A gated client receives exactly the first `maxClientChars` characters of the full text (all of
    it when it is shorter); the marker comes at most once, nothing comes after it, and it has come
    whenever the client received less than the full text.
  */
  lemma GatedStream(chunks: seq<string>, maxClientChars: int)
    ensures var (g, out) := Stream(chunks, maxClientChars, false);
      var allowance := if maxClientChars > 0 then maxClientChars else 0;
      var n := if |Concat(chunks)| <= allowance then |Concat(chunks)| else allowance;
      && Sent(out) == Concat(chunks)[..n]
      && MarkerLast(out)
      && (n < |Concat(chunks)| ==> out != [] && out[|out| - 1] == LimitMarker)
  {
    StreamInv(chunks, maxClientChars);
    StreamFullText(chunks, maxClientChars, false);
  }

  /** An ungated client receives every chunk verbatim, one yield per chunk, and never the marker. */
  lemma {:induction false} UngatedStream(chunks: seq<string>, maxClientChars: int)
    ensures Stream(chunks, maxClientChars, true).1 == Pieces(chunks)
  {
    if chunks != [] {
      UngatedStream(chunks[..|chunks| - 1], maxClientChars);
    }
  }

  /**
    A chunk that exactly uses up the allowance is sent whole without the marker, and the gate stays
    open; the next chunk, whatever it is, gets only the marker and closes the gate.
  */
  lemma ExactFill(g: Gate, text: string, next: string, maxClientChars: int)
    requires !g.closed && text != [] && maxClientChars - g.streamed == |text|
    ensures var (g1, out1) := Feed(g, text, maxClientChars, false);
      && out1 == [Piece(text)] && !g1.closed && g1.streamed == maxClientChars
      && Feed(g1, next, maxClientChars, false).1 == [LimitMarker]
      && Feed(g1, next, maxClientChars, false).0.closed
  {
  }
}
