/**
  `clean_chinese_text`: decode `\u` escapes, then tidy the whitespace of Chinese text. The services
  carry three copies; the one in the AWS transcription service and the one in the Whisper transcriber
  are the same, the Deepgram adapter's copy has a shorter chain of escape decoders.
*/
module ChineseText {
  import opened Wrappers
  import opened Text

  /** The five whitespace passes, in the order the source applies them. */
  const Pipeline: seq<RunRule> := [DropBetweenIdeographs, DropBeforeMark, OneSpaceAfterMark, DropAtEnds, OneSpace]

  /** The whitespace part of the cleanup: five successive rebindings of `text`. */
  function Normalize(text: string): string {
    var t1 := Pass(DropBetweenIdeographs, text);
    var t2 := Pass(DropBeforeMark, t1);
    var t3 := Pass(OneSpaceAfterMark, t2);
    var t4 := Strip(t3);
    Pass(OneSpace, t4)
  }

  /** Whitespace occurs only as a single ' ' between two non-space characters. */
  predicate SpacesTidy(u: string) {
    forall i :: 0 <= i < |u| && IsSpace(u[i]) ==>
      u[i] == ' ' && 0 < i < |u| - 1 && !IsSpace(u[i - 1]) && !IsSpace(u[i + 1])
  }

  /** No whitespace between two ideographs, none before a listed mark. */
  predicate ChineseSpacing(u: string) {
    forall i :: 0 < i < |u| - 1 && IsSpace(u[i]) ==>
      !(IsIdeograph(u[i - 1]) && IsIdeograph(u[i + 1])) && !IsMark(u[i + 1])
  }

  predicate Normalized(u: string) {
    SpacesTidy(u) && ChineseSpacing(u)
  }

  /** What the five passes together do to one run between `before` and `after`. */
  lemma PipelineOnRun(before: Option<char>, run: string, after: Option<char>)
    requires run != "" && AllSpace(run)
    ensures ApplyRules(Pipeline, before, run, after)
         == if before.None? || after.None? || (IsIdeographAt(before) && IsIdeographAt(after)) || IsMarkAt(after)
            then "" else " "
  {
  }

  lemma NormalizeIsOneRewrite(text: string)
    ensures Normalize(text) == Rewrite(Pipeline, text, None)
  {
    var a, b, c, d, e := DropBetweenIdeographs, DropBeforeMark, OneSpaceAfterMark, DropAtEnds, OneSpace;
    RewriteCompose([a], [b], text, None);
    assert [a] + [b] == [a, b];
    RewriteCompose([a, b], [c], text, None);
    assert [a, b] + [c] == [a, b, c];
    RewriteCompose([a, b, c], [d], text, None);
    assert [a, b, c] + [d] == [a, b, c, d];
    RewriteCompose([a, b, c, d], [e], text, None);
    assert [a, b, c, d] + [e] == Pipeline;
  }

  /**
    The shape of the pipeline's output at index `i` of a suffix `u` of the text that follows
    `before`: a whitespace character there is a ' ' with a non-space, non-mark character after it
    and a non-space character before it, and the two are not both ideographs.
  */
  predicate TidyAt(u: string, i: nat, before: Option<char>)
    requires i < |u|
  {
    && u[i] == ' ' && i + 1 < |u| && !IsSpace(u[i + 1]) && !IsMark(u[i + 1])
    && var p := if i == 0 then before else Some(u[i - 1]);
       p.Some? && !IsSpace(p.value) && !(IsIdeograph(p.value) && IsIdeograph(u[i + 1]))
  }

  predicate TidyAfter(u: string, before: Option<char>) {
    forall i :: 0 <= i < |u| && IsSpace(u[i]) ==> TidyAt(u, i, before)
  }

  /** `before` matters only when the suffix starts with whitespace. */
  lemma TidyBeforeIrrelevant(u: string, b1: Option<char>, b2: Option<char>)
    requires u == [] || !IsSpace(u[0])
    requires TidyAfter(u, b1)
    ensures TidyAfter(u, b2)
  {
    forall i | 0 <= i < |u| && IsSpace(u[i])
      ensures TidyAt(u, i, b2)
    {
      assert TidyAt(u, i, b1);
    }
  }

  lemma TidyCons(c: char, rest: string, b: Option<char>)
    requires !IsSpace(c) && TidyAfter(rest, Some(c))
    ensures TidyAfter([c] + rest, b)
  {
    var u := [c] + rest;
    forall i | 0 <= i < |u| && IsSpace(u[i])
      ensures TidyAt(u, i, b)
    {
      assert i > 0 && u[i] == rest[i - 1];
      assert TidyAt(rest, i - 1, Some(c));
    }
  }

  lemma TidySpaceCons(rest: string, b: Option<char>)
    requires b.Some? && !IsSpace(b.value)
    requires rest != [] && !IsSpace(rest[0]) && !IsMark(rest[0])
    requires !(IsIdeograph(b.value) && IsIdeograph(rest[0]))
    requires TidyAfter(rest, Some(' '))
    ensures TidyAfter([' '] + rest, b)
  {
    var u := [' '] + rest;
    forall i | 0 <= i < |u| && IsSpace(u[i])
      ensures TidyAt(u, i, b)
    {
      if i > 0 {
        assert u[i] == rest[i - 1];
        assert TidyAt(rest, i - 1, Some(' '));
      }
    }
  }

  lemma TidyTail(u: string, b: Option<char>)
    requires u != [] && TidyAfter(u, b)
    ensures TidyAfter(u[1..], Some(u[0]))
  {
    var t := u[1..];
    forall i | 0 <= i < |t| && IsSpace(t[i])
      ensures TidyAt(t, i, Some(u[0]))
    {
      assert t[i] == u[i + 1];
      assert TidyAt(u, i + 1, b);
    }
  }

  /** The pipeline's output always has the tidy shape, given a sensible `before`. */
  lemma {:induction false} PipelineTidy(s: string, b: Option<char>)
    requires s == [] || !IsSpace(s[0]) || b.None? || !IsSpace(b.value)
    ensures TidyAfter(Rewrite(Pipeline, s, b), b)
    decreases |s|
  {
    if s == [] {
    } else if !IsSpace(s[0]) {
      PipelineTidy(s[1..], Some(s[0]));
      TidyCons(s[0], Rewrite(Pipeline, s[1..], Some(s[0])), b);
    } else {
      var k := RunLength(s);
      var after := if k < |s| then Some(s[k]) else None;
      var r := ApplyRules(Pipeline, b, s[..k], after);
      var rest := Rewrite(Pipeline, s[k..], Some(s[k - 1]));
      PipelineOnRun(b, s[..k], after);
      PipelineTidy(s[k..], Some(s[k - 1]));
      assert Rewrite(Pipeline, s, b) == r + rest;
      if k < |s| {
        RewriteHead(Pipeline, s[k..], Some(s[k - 1]));
      }
      if r == " " {
        TidyBeforeIrrelevant(rest, Some(s[k - 1]), Some(' '));
        TidySpaceCons(rest, b);
      } else {
        assert r + rest == rest;
        TidyBeforeIrrelevant(rest, Some(s[k - 1]), b);
      }
    }
  }

  /** The pipeline leaves an already tidy text as it is. */
  lemma {:induction false} PipelineFixes(s: string, b: Option<char>)
    requires TidyAfter(s, b)
    ensures Rewrite(Pipeline, s, b) == s
    decreases |s|
  {
    if s == [] {
    } else {
      TidyTail(s, b);
      PipelineFixes(s[1..], Some(s[0]));
      if IsSpace(s[0]) {
        assert TidyAt(s, 0, b);
        assert RunLength(s) == 1;
        assert s[..1] == " ";
        PipelineOnRun(b, s[..1], Some(s[1]));
      }
      assert s == [s[0]] + s[1..];
    }
  }

  lemma TidyAfterStartIsNormalized(u: string)
    ensures TidyAfter(u, None) <==> Normalized(u)
  {
    if TidyAfter(u, None) {
      forall i | 0 <= i < |u| && IsSpace(u[i])
        ensures u[i] == ' ' && 0 < i < |u| - 1 && !IsSpace(u[i - 1]) && !IsSpace(u[i + 1])
      {
        assert TidyAt(u, i, None);
      }
      forall i | 0 < i < |u| - 1 && IsSpace(u[i])
        ensures !(IsIdeograph(u[i - 1]) && IsIdeograph(u[i + 1])) && !IsMark(u[i + 1])
      {
        assert TidyAt(u, i, None);
      }
    }
    if Normalized(u) {
      forall i | 0 <= i < |u| && IsSpace(u[i])
        ensures TidyAt(u, i, None)
      {
        assert 0 < i < |u| - 1;
      }
    }
  }

  /**
    The output of the whitespace passes: no space at either end, every space a single ' ' between
    two non-space characters, none between two ideographs and none before a listed mark.
  */
  lemma NormalizeShape(text: string)
    ensures Normalized(Normalize(text))
  {
    NormalizeIsOneRewrite(text);
    PipelineTidy(text, None);
    TidyAfterStartIsNormalized(Normalize(text));
  }

  /** The whitespace passes only delete whitespace or replace it by a space. */
  lemma NormalizeKeepsNonSpace(text: string)
    ensures RemoveSpaces(Normalize(text)) == RemoveSpaces(text)
  {
    NormalizeIsOneRewrite(text);
    RewriteKeepsNonSpace(Pipeline, text, None);
  }

  /** A normalized text is left as it is. */
  lemma NormalizeFixesNormalized(u: string)
    requires Normalized(u)
    ensures Normalize(u) == u
  {
    TidyAfterStartIsNormalized(u);
    NormalizeIsOneRewrite(u);
    PipelineFixes(u, None);
  }

  lemma NormalizeIdempotent(text: string)
    ensures Normalize(Normalize(text)) == Normalize(text)
  {
    NormalizeShape(text);
    NormalizeFixesNormalized(Normalize(text));
  }

  // ---------------------------------------------------------------------------------------------
  // `\u` escapes
  // ---------------------------------------------------------------------------------------------

  /** `'\\u' in text`: a backslash immediately followed by 'u'. */
  predicate ContainsEscape(s: string)
    decreases |s|
  {
    |s| >= 2 && ((s[0] == '\\' && s[1] == 'u') || ContainsEscape(s[1..]))
  }

  lemma {:induction false} ContainsEscapeAppend(a: string, b: string)
    ensures ContainsEscape(a + b)
        <==> ContainsEscape(a) || ContainsEscape(b) || (a != [] && b != [] && a[|a| - 1] == '\\' && b[0] == 'u')
    decreases |a|
  {
    if a == [] {
      assert a + b == b;
    } else {
      assert (a + b)[1..] == a[1..] + b;
      ContainsEscapeAppend(a[1..], b);
      if |a| == 1 {
        assert a[1..] == [];
      }
    }
  }

  lemma {:induction false} PipelineAddsNoEscape(s: string, b: Option<char>)
    requires !ContainsEscape(s)
    requires !(b == Some('\\') && s != [] && s[0] == 'u')
    ensures var u := Rewrite(Pipeline, s, b); !ContainsEscape(u) && !(b == Some('\\') && u != [] && u[0] == 'u')
    decreases |s|
  {
    if s == [] {
    } else if !IsSpace(s[0]) {
      assert [s[0]] + s[1..] == s;
      ContainsEscapeAppend([s[0]], s[1..]);
      PipelineAddsNoEscape(s[1..], Some(s[0]));
      WordNoEscape(s, b);
    } else {
      var k := RunLength(s);
      assert s == s[..k] + s[k..];
      ContainsEscapeAppend(s[..k], s[k..]);
      PipelineAddsNoEscape(s[k..], Some(s[k - 1]));
      RunNoEscape(s, b);
    }
  }

  /** A leading non-space character is copied, and adds no escape in front of an escape-free rest. */
  lemma WordNoEscape(s: string, b: Option<char>)
    requires s != [] && !IsSpace(s[0])
    requires !(b == Some('\\') && s[0] == 'u')
    requires var rest := Rewrite(Pipeline, s[1..], Some(s[0]));
      !ContainsEscape(rest) && !(s[0] == '\\' && rest != [] && rest[0] == 'u')
    ensures var u := Rewrite(Pipeline, s, b); !ContainsEscape(u) && !(b == Some('\\') && u != [] && u[0] == 'u')
  {
    RewriteWordStep(Pipeline, s, b);
    WordAddsNoEscape(s[0], Rewrite(Pipeline, s[1..], Some(s[0])));
  }

  /** A leading whitespace run is rewritten to spaces or nothing, and adds no escape. */
  lemma RunNoEscape(s: string, b: Option<char>)
    requires s != [] && IsSpace(s[0])
    requires var k := RunLength(s); !ContainsEscape(Rewrite(Pipeline, s[k..], Some(s[k - 1])))
    ensures var u := Rewrite(Pipeline, s, b); !ContainsEscape(u) && !(b == Some('\\') && u != [] && u[0] == 'u')
  {
    var k := RunLength(s);
    var after := if k < |s| then Some(s[k]) else None;
    var rest := Rewrite(Pipeline, s[k..], Some(s[k - 1]));
    RewriteRunStep(Pipeline, s, b);
    if k < |s| {
      RewriteHead(Pipeline, s[k..], Some(s[k - 1]));
    }
    RunAddsNoEscape(b, s[..k], after, rest);
  }

  lemma WordAddsNoEscape(c: char, rest: string)
    requires !ContainsEscape(rest) && !(c == '\\' && rest != [] && rest[0] == 'u')
    ensures !ContainsEscape([c] + rest)
  {
    ContainsEscapeAppend([c], rest);
  }

  lemma RunAddsNoEscape(b: Option<char>, run: string, after: Option<char>, rest: string)
    requires run != "" && AllSpace(run) && !ContainsEscape(rest)
    requires after.None? ==> rest == []
    requires after.Some? ==> rest != [] && rest[0] == after.value
    ensures var u := ApplyRules(Pipeline, b, run, after) + rest;
      !ContainsEscape(u) && !(b == Some('\\') && u != [] && u[0] == 'u')
  {
    PipelineOnRun(b, run, after);
    var r := ApplyRules(Pipeline, b, run, after);
    ContainsEscapeAppend(r, rest);
    if r == " " {
      assert r[1..] == [];
    } else {
      assert r + rest == rest;
    }
  }

  lemma NormalizeAddsNoEscape(text: string)
    requires !ContainsEscape(text)
    ensures !ContainsEscape(Normalize(text))
  {
    NormalizeIsOneRewrite(text);
    PipelineAddsNoEscape(text, None);
  }

  // ---------------------------------------------------------------------------------------------
  // The two escape-decoding chains and the three copies of the cleanup
  // ---------------------------------------------------------------------------------------------

  /** How `text.encode('utf-8').decode('unicode_escape')` ends. */
  datatype Attempt = Decoded(text: string) | UnicodeDecodeError | OtherError

  /**
    The escape decoders the cleanup tries, from libraries outside this model; each is a partial
    function, None where it raises.
  */
  datatype EscapeDecoders = EscapeDecoders(
    jsonString: string -> Option<string>,    // json.loads(f'"{text}"')
    unicodeEscape: string -> Option<string>, // codecs.decode(text, 'unicode_escape')
    utf8Escape: string -> Attempt,           // text.encode('utf-8').decode('unicode_escape')
    latin1Escape: string -> Option<string>   // text.encode('latin-1').decode('unicode_escape')
  )

  /**
    The escape step of the AWS and Whisper copies. None when an exception leaves the chain: the
    utf-8 attempt is guarded by `except UnicodeDecodeError` only, so any other error it raises
    reaches the outer handler.
  */
  function DecodeEscapes(text: string, d: EscapeDecoders): (r: Option<string>)
    ensures !ContainsEscape(text) ==> r == Some(text)
  {
    if !ContainsEscape(text) then Some(text)
    else match d.jsonString(text)
      case Some(t) => Some(t)
      case None =>
        match d.unicodeEscape(text)
        case Some(t) => Some(t)
        case None =>
          match d.utf8Escape(text)
          case Decoded(t) => Some(t)
          case OtherError => None
          case UnicodeDecodeError =>
            match d.latin1Escape(text)
            case Some(t) => Some(t)
            case None => Some(text)
  }

  /** `clean_chinese_text` of the AWS transcription service and of the Whisper transcriber. */
  function CleanChineseText(text: string, d: EscapeDecoders): string {
    match DecodeEscapes(text, d)
    case None => text
    case Some(t) => Normalize(t)
  }

  /** The escape step of the Deepgram adapter's copy: json, then codecs, else the text unchanged. */
  function DecodeEscapesShort(text: string, d: EscapeDecoders): (r: string)
    ensures !ContainsEscape(text) ==> r == text
  {
    if !ContainsEscape(text) then text
    else match d.jsonString(text)
      case Some(t) => t
      case None =>
        match d.unicodeEscape(text)
        case Some(t) => t
        case None => text
  }

  /** `clean_chinese_text` of the Deepgram adapter. */
  function CleanChineseTextShort(text: string, d: EscapeDecoders): string {
    Normalize(DecodeEscapesShort(text, d))
  }

  /**
    Whenever the escape step completes, the cleanup's output has no whitespace at either end,
    only single ' ' characters between non-space characters, none between two ideographs and none
    before a listed mark.
  */
  lemma CleanShape(text: string, d: EscapeDecoders)
    requires DecodeEscapes(text, d).Some?
    ensures Normalized(CleanChineseText(text, d))
  {
    NormalizeShape(DecodeEscapes(text, d).value);
  }

  /** An exception that escapes the decoder chain returns the text as it was, untouched. */
  lemma CleanRecovers(text: string, d: EscapeDecoders)
    requires DecodeEscapes(text, d).None?
    ensures CleanChineseText(text, d) == text
    ensures ContainsEscape(text) && d.jsonString(text).None? && d.unicodeEscape(text).None? && d.utf8Escape(text).OtherError?
  {
  }

  /** Without `\u`, the cleanup only deletes or replaces whitespace. */
  lemma CleanKeepsNonSpace(text: string, d: EscapeDecoders)
    requires !ContainsEscape(text)
    ensures RemoveSpaces(CleanChineseText(text, d)) == RemoveSpaces(text)
  {
    NormalizeKeepsNonSpace(text);
  }

  /** Without `\u`, cleaning twice is cleaning once. */
  lemma CleanIdempotent(text: string, d: EscapeDecoders)
    requires !ContainsEscape(text)
    ensures CleanChineseText(CleanChineseText(text, d), d) == CleanChineseText(text, d)
  {
    NormalizeAddsNoEscape(text);
    NormalizeIdempotent(text);
  }

  /** The adapter's copy never gives up on the whitespace passes: its output is always normalized. */
  lemma CleanShortShape(text: string, d: EscapeDecoders)
    ensures Normalized(CleanChineseTextShort(text, d))
  {
    NormalizeShape(DecodeEscapesShort(text, d));
  }

  /** Without `\u` the two copies agree, so the adapter's copy keeps the same guarantees. */
  lemma CleanShortAgrees(text: string, d: EscapeDecoders)
    requires !ContainsEscape(text)
    ensures CleanChineseTextShort(text, d) == CleanChineseText(text, d)
    ensures RemoveSpaces(CleanChineseTextShort(text, d)) == RemoveSpaces(text)
    ensures CleanChineseTextShort(CleanChineseTextShort(text, d), d) == CleanChineseTextShort(text, d)
  {
    CleanKeepsNonSpace(text, d);
    CleanIdempotent(text, d);
    NormalizeAddsNoEscape(text);
  }
}
