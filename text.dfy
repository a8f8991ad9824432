/**
  Character classes and the whitespace rewrites the services apply with `re.sub` and `str.strip`.

  Every such rewrite in the source replaces whole runs of whitespace: `\s+` is greedy, and where the
  pattern adds a look-behind, a look-ahead or a literal after the run, that context lies outside the
  whitespace, so a match never starts or ends inside a run. A rewrite is therefore fully described by
  a rule that decides, for each maximal run, from the non-space character before it, the run itself
  and the non-space character after it (None at either end of the text), what the run becomes.
*/
module Text {
  import opened Wrappers

  /** Python's `str.isspace`, which is also what `\s` matches in a `str` pattern. */
  predicate IsSpace(c: char) {
    || c == ' ' || ('\t' <= c <= '\r') || ('\U{1c}' <= c <= '\U{1f}')
    || c == '\U{85}' || c == '\U{a0}' || c == '\U{1680}' || ('\U{2000}' <= c <= '\U{200a}')
    || c == '\U{2028}' || c == '\U{2029}' || c == '\U{202f}' || c == '\U{205f}' || c == '\U{3000}'
  }

  /** The character class `[一-鿿]` (CJK Unified Ideographs). */
  predicate IsIdeograph(c: char) {
    '\U{4e00}' <= c <= '\U{9fff}'
  }

  /** The character class `[，。！？；：,\.!?;:]`. */
  predicate IsMark(c: char) {
    c in ['，', '。', '！', '？', '；', '：', ',', '.', '!', '?', ';', ':']
  }

  predicate AllSpace(s: string) {
    forall i :: 0 <= i < |s| ==> IsSpace(s[i])
  }

  /** The text with every whitespace character deleted. */
  function RemoveSpaces(s: string): (r: string)
    ensures forall i :: 0 <= i < |r| ==> !IsSpace(r[i])
    ensures |r| <= |s|
  {
    if s == [] then ""
    else if IsSpace(s[0]) then RemoveSpaces(s[1..])
    else [s[0]] + RemoveSpaces(s[1..])
  }

  lemma {:induction false} RemoveSpacesAppend(a: string, b: string)
    ensures RemoveSpaces(a + b) == RemoveSpaces(a) + RemoveSpaces(b)
    decreases |a|
  {
    if a == [] {
      assert a + b == b;
    } else {
      assert (a + b)[0] == a[0] && (a + b)[1..] == a[1..] + b;
      RemoveSpacesAppend(a[1..], b);
      if IsSpace(a[0]) {
        assert RemoveSpaces(a + b) == RemoveSpaces(a[1..] + b);
      } else {
        assert RemoveSpaces(a + b) == [a[0]] + RemoveSpaces(a[1..] + b);
      }
    }
  }

  lemma {:induction false} RemoveSpacesOfSpaces(s: string)
    requires AllSpace(s)
    ensures RemoveSpaces(s) == ""
    decreases |s|
  {
    if s != [] {
      RemoveSpacesOfSpaces(s[1..]);
    }
  }

  lemma {:induction false} RemoveSpacesEmpty(s: string)
    ensures RemoveSpaces(s) == "" <==> AllSpace(s)
    decreases |s|
  {
    if s != [] {
      RemoveSpacesEmpty(s[1..]);
      if !IsSpace(s[0]) {
        assert RemoveSpaces(s)[0] == s[0];
      } else if !AllSpace(s) {
        var i :| 0 <= i < |s| && !IsSpace(s[i]);
        assert !IsSpace(s[1..][i - 1]);
      }
    }
  }

  // ---------------------------------------------------------------------------------------------
  // Whitespace runs and the rules that rewrite them
  // ---------------------------------------------------------------------------------------------

  /** What one whitespace pass of the source does to a maximal run. */
  datatype RunRule =
    | DropBetweenIdeographs  // re.sub(r'(?<=[一-鿿])\s+(?=[一-鿿])', '', text)
    | DropBeforeMark         // re.sub(r'\s+([，。！？；：,\.!?;:])', r'\1', text)
    | OneSpaceAfterMark      // re.sub(r'([，。！？；：,\.!?;:])\s+', r'\1 ', text)
    | DropAtEnds             // text.strip()
    | OneSpace               // re.sub(r'\s+', ' ', text)

  predicate IsIdeographAt(c: Option<char>) {
    c.Some? && IsIdeograph(c.value)
  }

  predicate IsMarkAt(c: Option<char>) {
    c.Some? && IsMark(c.value)
  }

  function ApplyRule(rule: RunRule, before: Option<char>, run: string, after: Option<char>): (r: string)
    ensures r == "" || r == " " || r == run
  {
    match rule
    case DropBetweenIdeographs => if IsIdeographAt(before) && IsIdeographAt(after) then "" else run
    case DropBeforeMark => if IsMarkAt(after) then "" else run
    case OneSpaceAfterMark => if IsMarkAt(before) then " " else run
    case DropAtEnds => if before.None? || after.None? then "" else run
    case OneSpace => " "
  }

  /** Several passes applied to one run, in order; a run one pass deletes is gone for the later ones. */
  function ApplyRules(rules: seq<RunRule>, before: Option<char>, run: string, after: Option<char>): (r: string)
    requires AllSpace(run)
    ensures AllSpace(r)
    decreases |rules|
  {
    if rules == [] then run
    else
      var r := ApplyRule(rules[0], before, run, after);
      if r == "" then "" else ApplyRules(rules[1..], before, r, after)
  }

  /** Length of the whitespace run at the start of `s`. */
  function RunLength(s: string): (k: nat)
    ensures k <= |s|
    ensures forall j :: 0 <= j < k ==> IsSpace(s[j])
    ensures k < |s| ==> !IsSpace(s[k])
    ensures k == 0 <==> (s == [] || !IsSpace(s[0]))
  {
    if s == [] || !IsSpace(s[0]) then 0 else 1 + RunLength(s[1..])
  }

  /**
    Rewrite every maximal whitespace run of `s` by `rules`; `before` is the character that precedes
    `s` in the whole text (None at its start).
  */
  function Rewrite(rules: seq<RunRule>, s: string, before: Option<char>): string
    decreases |s|
  {
    if s == [] then ""
    else if !IsSpace(s[0]) then [s[0]] + Rewrite(rules, s[1..], Some(s[0]))
    else
      var k := RunLength(s);
      var after := if k < |s| then Some(s[k]) else None;
      ApplyRules(rules, before, s[..k], after) + Rewrite(rules, s[k..], Some(s[k - 1]))
  }

  /** One `re.sub` (or `strip`) over a whole text. */
  function Pass(rule: RunRule, s: string): string {
    Rewrite([rule], s, None)
  }

  /** Python's `str.strip()`. */
  function Strip(s: string): string {
    Pass(DropAtEnds, s)
  }

  lemma {:induction false} ApplyRulesAppend(fs: seq<RunRule>, gs: seq<RunRule>, before: Option<char>, run: string, after: Option<char>)
    requires AllSpace(run) && run != ""
    ensures ApplyRules(fs + gs, before, run, after)
         == (var r := ApplyRules(fs, before, run, after); if r == "" then "" else ApplyRules(gs, before, r, after))
    decreases |fs|
  {
    if fs != [] {
      assert (fs + gs)[0] == fs[0] && (fs + gs)[1..] == fs[1..] + gs;
      var r := ApplyRule(fs[0], before, run, after);
      if r != "" {
        ApplyRulesAppend(fs[1..], gs, before, r, after);
      }
    } else {
      assert fs + gs == gs;
    }
  }

  /** The context before a text that starts with a non-space character does not matter. */
  lemma BeforeIrrelevant(rules: seq<RunRule>, s: string, b1: Option<char>, b2: Option<char>)
    requires s == [] || !IsSpace(s[0])
    ensures Rewrite(rules, s, b1) == Rewrite(rules, s, b2)
  {
  }

  /** A rewrite keeps the leading non-space character. */
  lemma RewriteHead(rules: seq<RunRule>, s: string, b: Option<char>)
    requires s != [] && !IsSpace(s[0])
    ensures Rewrite(rules, s, b) != [] && Rewrite(rules, s, b)[0] == s[0]
  {
  }

  lemma {:induction false} RunOfSpaces(r: string, rest: string)
    requires AllSpace(r)
    requires rest == [] || !IsSpace(rest[0])
    ensures RunLength(r + rest) == |r|
    ensures (r + rest)[..|r|] == r && (r + rest)[|r|..] == rest
    decreases |r|
  {
    if r == [] {
      assert r + rest == rest;
    } else {
      assert (r + rest)[0] == r[0] && (r + rest)[1..] == r[1..] + rest;
      RunOfSpaces(r[1..], rest);
    }
  }

  /** Two rewrites in a row are one rewrite by the concatenated rules. */
  lemma {:induction false} RewriteCompose(fs: seq<RunRule>, gs: seq<RunRule>, s: string, b: Option<char>)
    ensures Rewrite(gs, Rewrite(fs, s, b), b) == Rewrite(fs + gs, s, b)
    decreases |s|
  {
    if s == [] {
    } else if !IsSpace(s[0]) {
      var rest := Rewrite(fs, s[1..], Some(s[0]));
      assert ([s[0]] + rest)[1..] == rest;
      RewriteCompose(fs, gs, s[1..], Some(s[0]));
    } else {
      var k := RunLength(s);
      var after := if k < |s| then Some(s[k]) else None;
      var r1 := ApplyRules(fs, b, s[..k], after);
      var rest := Rewrite(fs, s[k..], Some(s[k - 1]));
      assert Rewrite(fs, s, b) == r1 + rest;
      ApplyRulesAppend(fs, gs, b, s[..k], after);
      RewriteCompose(fs, gs, s[k..], Some(s[k - 1]));
      if k < |s| {
        RewriteHead(fs, s[k..], Some(s[k - 1]));
      }
      if r1 == "" {
        assert r1 + rest == rest;
        BeforeIrrelevant(gs, rest, b, Some(s[k - 1]));
      } else {
        RunOfSpaces(r1, rest);
        var after' := if |r1| < |r1 + rest| then Some((r1 + rest)[|r1|]) else None;
        assert after' == after;
        BeforeIrrelevant(gs, rest, Some(r1[|r1| - 1]), Some(s[k - 1]));
      }
    }
  }

  /** Rewriting a text that starts with a non-space character keeps that character. */
  lemma RewriteWordStep(rules: seq<RunRule>, s: string, b: Option<char>)
    requires s != [] && !IsSpace(s[0])
    ensures Rewrite(rules, s, b) == [s[0]] + Rewrite(rules, s[1..], Some(s[0]))
  {
  }

  /** Rewriting a text that starts with a whitespace run rewrites that run, then the rest. */
  lemma RewriteRunStep(rules: seq<RunRule>, s: string, b: Option<char>)
    requires s != [] && IsSpace(s[0])
    ensures var k := RunLength(s);
      && 0 < k && AllSpace(s[..k]) && s == s[..k] + s[k..]
      && Rewrite(rules, s, b)
         == ApplyRules(rules, b, s[..k], if k < |s| then Some(s[k]) else None) + Rewrite(rules, s[k..], Some(s[k - 1]))
  {
    var k := RunLength(s);
    assert s == s[..k] + s[k..];
  }

  lemma KeepsWord(c: char, a: string, b: string)
    requires RemoveSpaces(b) == RemoveSpaces(a)
    ensures RemoveSpaces([c] + b) == RemoveSpaces([c] + a)
  {
    RemoveSpacesAppend([c], a);
    RemoveSpacesAppend([c], b);
  }

  lemma KeepsRun(r: string, run: string, a: string, b: string)
    requires AllSpace(r) && AllSpace(run) && RemoveSpaces(b) == RemoveSpaces(a)
    ensures RemoveSpaces(r + b) == RemoveSpaces(run + a)
  {
    RemoveSpacesAppend(r, b);
    RemoveSpacesAppend(run, a);
    RemoveSpacesOfSpaces(r);
    RemoveSpacesOfSpaces(run);
  }

  lemma {:induction false} RewriteKeepsNonSpace(rules: seq<RunRule>, s: string, b: Option<char>)
    ensures RemoveSpaces(Rewrite(rules, s, b)) == RemoveSpaces(s)
    decreases |s|
  {
    if s == [] {
    } else if !IsSpace(s[0]) {
      RewriteWordStep(rules, s, b);
      RewriteKeepsNonSpace(rules, s[1..], Some(s[0]));
      KeepsWord(s[0], s[1..], Rewrite(rules, s[1..], Some(s[0])));
      assert s == [s[0]] + s[1..];
    } else {
      var k := RunLength(s);
      var after := if k < |s| then Some(s[k]) else None;
      RewriteRunStep(rules, s, b);
      RewriteKeepsNonSpace(rules, s[k..], Some(s[k - 1]));
      KeepsRun(ApplyRules(rules, b, s[..k], after), s[..k], s[k..], Rewrite(rules, s[k..], Some(s[k - 1])));
    }
  }

  /**
    `str.strip()`: the result is a contiguous slice of the text with only whitespace outside it
    (inner whitespace is kept as it is), no whitespace at either end, and nothing but whitespace
    removed.
  */
  lemma StripSpec(s: string)
    ensures exists a, b :: 0 <= a <= b <= |s| && Strip(s) == s[a..b] && AllSpace(s[..a]) && AllSpace(s[b..])
    ensures Strip(s) == [] || (!IsSpace(Strip(s)[0]) && !IsSpace(Strip(s)[|Strip(s)| - 1]))
    ensures RemoveSpaces(Strip(s)) == RemoveSpaces(s)
    ensures Strip(s) == "" <==> AllSpace(s)
  {
    var a, b := StripSlice(s);
    StripEnds(s, None);
    RewriteKeepsNonSpace([DropAtEnds], s, None);
    RemoveSpacesEmpty(s);
    RemoveSpacesEmpty(Strip(s));
  }

  /** `strip` keeps a slice: it drops the leading run and whatever `StripTail` drops. */
  lemma StripSlice(s: string) returns (a: nat, b: nat)
    ensures a <= b <= |s| && Strip(s) == s[a..b] && AllSpace(s[..a]) && AllSpace(s[b..])
  {
    if s == [] || !IsSpace(s[0]) {
      BeforeIrrelevant([DropAtEnds], s, None, Some(' '));
      a := 0;
      b := StripTail(s, ' ');
    } else {
      a, b := StripLeadingRun(s);
    }
  }

  /** A text that starts with whitespace loses that run, then the rest is stripped after a non-space. */
  lemma StripLeadingRun(s: string) returns (a: nat, b: nat)
    requires s != [] && IsSpace(s[0])
    ensures a <= b <= |s| && Strip(s) == s[a..b] && AllSpace(s[..a]) && AllSpace(s[b..])
  {
    var k := RunLength(s);
    var after := if k < |s| then Some(s[k]) else None;
    RewriteRunStep([DropAtEnds], s, None);
    DropAtEndsRun(None, s[..k], after);
    var rest := Rewrite([DropAtEnds], s[k..], Some(s[k - 1]));
    assert Strip(s) == "" + rest == rest;
    var e := StripTail(s[k..], s[k - 1]);
    KeepSlice(s, k, e, rest);
    a, b := k, k + e;
  }

  /** `strip` on one run: gone when it touches either end of the text, kept otherwise. */
  lemma DropAtEndsRun(before: Option<char>, run: string, after: Option<char>)
    requires AllSpace(run) && run != ""
    ensures ApplyRules([DropAtEnds], before, run, after) == if before.None? || after.None? then "" else run
  {
    assert [DropAtEnds][0] == DropAtEnds && [DropAtEnds][1..] == [];
  }

  /** After a non-space character, `strip` keeps a prefix and drops only a trailing whitespace run. */
  lemma {:induction false} StripTail(s: string, c: char) returns (e: nat)
    ensures e <= |s| && Rewrite([DropAtEnds], s, Some(c)) == s[..e] && AllSpace(s[e..])
    decreases |s|
  {
    if s == [] {
      e := 0;
    } else if !IsSpace(s[0]) {
      var t := StripTail(s[1..], s[0]);
      e := StripTailWord(s, c, t);
    } else if RunLength(s) < |s| {
      var k := RunLength(s);
      var t := StripTail(s[k..], s[k - 1]);
      e := StripTailRun(s, c, t);
    } else {
      RewriteRunStep([DropAtEnds], s, Some(c));
      DropAtEndsRun(Some(c), s, None);
      e := 0;
    }
  }

  /** `StripTail` over a leading non-space character, given the result for the rest. */
  lemma StripTailWord(s: string, c: char, t: nat) returns (e: nat)
    requires s != [] && !IsSpace(s[0]) && t <= |s| - 1
    requires Rewrite([DropAtEnds], s[1..], Some(s[0])) == s[1..][..t] && AllSpace(s[1..][t..])
    ensures e <= |s| && Rewrite([DropAtEnds], s, Some(c)) == s[..e] && AllSpace(s[e..])
  {
    RewriteWordStep([DropAtEnds], s, Some(c));
    KeepPrefix(s, 1, t, Rewrite([DropAtEnds], s[1..], Some(s[0])), Rewrite([DropAtEnds], s, Some(c)));
    e := t + 1;
  }

  /** `StripTail` over an inner whitespace run, given the result for the rest. */
  lemma StripTailRun(s: string, c: char, t: nat) returns (e: nat)
    requires s != [] && IsSpace(s[0]) && RunLength(s) < |s|
    requires var k := RunLength(s);
      t <= |s| - k && Rewrite([DropAtEnds], s[k..], Some(s[k - 1])) == s[k..][..t] && AllSpace(s[k..][t..])
    ensures e <= |s| && Rewrite([DropAtEnds], s, Some(c)) == s[..e] && AllSpace(s[e..])
  {
    var k := RunLength(s);
    RewriteRunStep([DropAtEnds], s, Some(c));
    DropAtEndsRun(Some(c), s[..k], Some(s[k]));
    KeepPrefix(s, k, t, Rewrite([DropAtEnds], s[k..], Some(s[k - 1])), Rewrite([DropAtEnds], s, Some(c)));
    e := k + t;
  }

  lemma KeepSlice(s: string, k: nat, e: nat, r: string)
    requires k <= |s| && e <= |s| - k
    requires r == s[k..][..e] && AllSpace(s[k..][e..])
    ensures r == s[k..k + e] && AllSpace(s[k + e..])
  {
    assert s[k + e..] == s[k..][e..];
  }

  /** A kept head `s[..k]` followed by a kept prefix of `s[k..]` is a prefix of `s`. */
  lemma KeepPrefix(s: string, k: nat, e: nat, rest: string, r: string)
    requires k <= |s| && e <= |s| - k
    requires rest == s[k..][..e] && AllSpace(s[k..][e..])
    requires r == s[..k] + rest
    ensures r == s[..k + e] && AllSpace(s[k + e..])
  {
    assert s[k + e..] == s[k..][e..];
  }

  lemma {:induction false} StripEnds(s: string, b: Option<char>)
    ensures var r := Rewrite([DropAtEnds], s, b);
      (r != [] ==> !IsSpace(r[|r| - 1])) && (b.None? && r != [] ==> !IsSpace(r[0]))
    decreases |s|
  {
    if s == [] {
    } else if !IsSpace(s[0]) {
      RewriteWordStep([DropAtEnds], s, b);
      StripEnds(s[1..], Some(s[0]));
      StripWord(s[0], Rewrite([DropAtEnds], s[1..], Some(s[0])));
    } else {
      var k := RunLength(s);
      StripEnds(s[k..], Some(s[k - 1]));
      StripEndsRun(s, b);
    }
  }

  /** `StripEnds` over a leading whitespace run, given the result for the rest. */
  lemma StripEndsRun(s: string, b: Option<char>)
    requires s != [] && IsSpace(s[0])
    requires var k := RunLength(s); var r := Rewrite([DropAtEnds], s[k..], Some(s[k - 1]));
      r != [] ==> !IsSpace(r[|r| - 1])
    ensures var r := Rewrite([DropAtEnds], s, b);
      (r != [] ==> !IsSpace(r[|r| - 1])) && (b.None? && r != [] ==> !IsSpace(r[0]))
  {
    var k := RunLength(s);
    var after := if k < |s| then Some(s[k]) else None;
    RewriteRunStep([DropAtEnds], s, b);
    if k < |s| {
      RewriteHead([DropAtEnds], s[k..], Some(s[k - 1]));
    }
    StripRun(b, s[..k], after, Rewrite([DropAtEnds], s[k..], Some(s[k - 1])));
  }

  lemma StripWord(c: char, rest: string)
    requires !IsSpace(c) && (rest != [] ==> !IsSpace(rest[|rest| - 1]))
    ensures var r := [c] + rest; !IsSpace(r[0]) && !IsSpace(r[|r| - 1])
  {
  }

  /** `strip` on a run: gone at either end of the text, kept between two non-space characters. */
  lemma StripRun(b: Option<char>, run: string, after: Option<char>, rest: string)
    requires run != "" && AllSpace(run)
    requires after.None? ==> rest == []
    requires after.Some? ==> rest != [] && rest[0] == after.value && !IsSpace(after.value)
    requires rest != [] ==> !IsSpace(rest[|rest| - 1])
    ensures var r := ApplyRules([DropAtEnds], b, run, after) + rest;
      (r != [] ==> !IsSpace(r[|r| - 1])) && (b.None? && r != [] ==> !IsSpace(r[0]))
  {
    var x := ApplyRules([DropAtEnds], b, run, after);
    DropAtEndsRun(b, run, after);
    if b.None? || after.None? {
      assert x + rest == rest;
    }
  }

  // ---------------------------------------------------------------------------------------------
  // ' '.join and decimal numbers
  // ---------------------------------------------------------------------------------------------

  /** Python's `' '.join(words)`. */
  function JoinWords(words: seq<string>): string {
    if words == [] then ""
    else if |words| == 1 then words[0]
    else words[0] + " " + JoinWords(words[1..])
  }

  /** A word ends a sentence when it ends (`w.endswith(('.', '!', '?'))`) in '.', '!' or '?'. */
  predicate EndsSentence(w: string) {
    |w| > 0 && (w[|w| - 1] == '.' || w[|w| - 1] == '!' || w[|w| - 1] == '?')
  }

  predicate IsDigit(c: char) {
    '0' <= c <= '9'
  }

  predicate AllDigits(s: string) {
    forall i :: 0 <= i < |s| ==> IsDigit(s[i])
  }

  function DigitChar(d: nat): (c: char)
    requires d < 10
    ensures IsDigit(c)
  {
    ('0' as int + d) as char
  }

  function DigitValue(c: char): (d: nat)
    requires IsDigit(c)
    ensures d < 10 && DigitChar(d) == c
  {
    (c as int - '0' as int) as nat
  }

  /** Python's `str(n)` for a non-negative int. */
  function NatToString(n: nat): (s: string)
    ensures s != "" && AllDigits(s)
  {
    if n < 10 then [DigitChar(n)] else NatToString(n / 10) + [DigitChar(n % 10)]
  }

  /** The value of a non-empty run of decimal digits (Python's `int(s)` on such a string). */
  function ParseDigits(s: string): nat
    requires AllDigits(s)
  {
    if s == [] then 0 else 10 * ParseDigits(s[..|s| - 1]) + DigitValue(s[|s| - 1])
  }

  lemma {:induction false} ParseNatToString(n: nat)
    ensures ParseDigits(NatToString(n)) == n
  {
    if n >= 10 {
      var s := NatToString(n / 10) + [DigitChar(n % 10)];
      assert s[..|s| - 1] == NatToString(n / 10);
      ParseNatToString(n / 10);
    }
  }
}
