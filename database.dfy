/**
  The summary services' database writer: the empty-content guard and `safe_timestamp`, which
  normalises an episode's publication date into an ISO 8601 timestamp, or None. Both summary
  services carry the same code. The date parser (`dateutil.parser.parse` followed by `strftime`) is
  a parameter: None where it raises.
*/
module Database {
  import opened Wrappers
  import opened Text

  // ---------------------------------------------------------------------------------------------
  // The patterns
  // ---------------------------------------------------------------------------------------------

  /** `\d{n}` at position `i`. */
  predicate DigitsAt(s: string, i: nat, n: nat) {
    i + n <= |s| && AllDigits(s[i..i + n])
  }

  /** `\d{4}-\d{2}-\d{2}` at the start. */
  predicate DatePrefix(s: string) {
    |s| >= 10 && DigitsAt(s, 0, 4) && s[4] == '-' && DigitsAt(s, 5, 2) && s[7] == '-' && DigitsAt(s, 8, 2)
  }

  /** `re.match(r'^\d{4}-\d{2}-\d{2}T\d{2}:\d{2}:\d{2}', s)`: a prefix match. */
  predicate IsoPrefix(s: string) {
    && |s| >= 19 && DatePrefix(s) && s[10] == 'T' && DigitsAt(s, 11, 2) && s[13] == ':'
    && DigitsAt(s, 14, 2) && s[16] == ':' && DigitsAt(s, 17, 2)
  }

  /**
    `re.match(r'^\d{4}-\d{2}-\d{2}$', s)`. In Python `$` also matches just before a newline that
    ends the string, so a date followed by one '\n' matches too.
  */
  predicate DateLineMatch(s: string) {
    DatePrefix(s) && (|s| == 10 || (|s| == 11 && s[10] == '\n'))
  }

  /** A date and nothing else. */
  predicate DateOnly(s: string) {
    DatePrefix(s) && |s| == 10
  }

  /** `p in s` */
  predicate Contains(s: string, p: string) {
    |s| >= |p| && (s[..|p|] == p || Contains(s[1..], p))
  }

  /** `s.replace(p, "")`: every occurrence of `p`, scanning left to right, deleted. */
  function RemoveAll(s: string, p: string): string
    requires p != ""
  {
    if |s| < |p| then s
    else if s[..|p|] == p then RemoveAll(s[|p|..], p)
    else [s[0]] + RemoveAll(s[1..], p)
  }

  /** With no occurrence to delete, `replace` changes nothing. */
  lemma {:induction false} RemoveAllAbsent(s: string, p: string)
    requires p != "" && !Contains(s, p)
    ensures RemoveAll(s, p) == s
  {
    if |s| >= |p| {
      RemoveAllAbsent(s[1..], p);
      assert [s[0]] + s[1..] == s;
    }
  }

  /** A leading occurrence is deleted. */
  lemma RemoveAllLeading(p: string, d: string)
    requires p != ""
    ensures Contains(p + d, p) && RemoveAll(p + d, p) == RemoveAll(d, p)
  {
    assert (p + d)[..|p|] == p && (p + d)[|p|..] == d;
  }

  // ---------------------------------------------------------------------------------------------
  // safe_timestamp
  // ---------------------------------------------------------------------------------------------

  const StreamedLive: string := "Streamed live on"

  /** The text a parser is given: for a "Streamed live on" value, the rest of it, stripped. */
  function DatePart(value: string): string {
    if Contains(value, StreamedLive) then Strip(RemoveAll(value, StreamedLive + " ")) else value
  }

  /** `safe_timestamp` as written, with Python's `$`. */
  function SafeTimestampAsWritten(value: string, parse: string -> Option<string>): Option<string> {
    if value == "" || Strip(value) == "" then None
    else if IsoPrefix(value) then Some(value)
    else if DateLineMatch(value) then Some(value + "T00:00:00Z")
    else parse(DatePart(value))
  }

  /** `safe_timestamp` with the date pattern anchored at the very end of the value. */
  function SafeTimestamp(value: string, parse: string -> Option<string>): Option<string> {
    if value == "" || Strip(value) == "" then None
    else if IsoPrefix(value) then Some(value)
    else if DateOnly(value) then Some(value + "T00:00:00Z")
    else parse(DatePart(value))
  }

  /**
    Blank values give None; a value that starts with a full ISO date and time is kept as it is,
    trailing text and all; a bare date gets midnight UTC appended; anything else goes to the parser,
    whose failure gives None and never the original value.
  */
  lemma SafeTimestampCases(value: string, parse: string -> Option<string>)
    ensures AllSpace(value) ==> SafeTimestamp(value, parse) == None
    ensures IsoPrefix(value) ==> SafeTimestamp(value, parse) == Some(value)
    ensures DateOnly(value) ==> SafeTimestamp(value, parse) == Some(value + "T00:00:00Z")
    ensures !AllSpace(value) && !IsoPrefix(value) && !DateOnly(value) ==>
      SafeTimestamp(value, parse) == parse(DatePart(value))
  {
    StripSpec(value);
    if IsoPrefix(value) || DateOnly(value) {
      assert value[..4][0] == value[0];
      assert !IsSpace(value[0]);
    }
  }

  /** "Streamed live on <date>" gives the parser the date, without the phrase and surrounding whitespace. */
  lemma StreamedLiveDate(d: string, parse: string -> Option<string>)
    requires !Contains(d, StreamedLive + " ")
    ensures SafeTimestamp(StreamedLive + " " + d, parse) == parse(Strip(d))
  {
    var value := StreamedLive + " " + d;
    assert value[0] == 'S';
    assert !AllSpace(value);
    assert value[..|StreamedLive|] == StreamedLive;
    RemoveAllLeading(StreamedLive + " ", d);
    RemoveAllAbsent(d, StreamedLive + " ");
    SafeTimestampCases(value, parse);
  }

  /** A value that starts with a non-space character is not blank. */
  lemma NotBlank(v: string)
    requires v != "" && !IsSpace(v[0])
    ensures !AllSpace(v) && Strip(v) != ""
  {
    StripSpec(v);
  }

  /** A date with midnight appended has the full ISO shape. */
  lemma DateAtMidnight(value: string)
    requires DateOnly(value)
    ensures IsoPrefix(value + "T00:00:00Z")
  {
    var r := value + "T00:00:00Z";
    assert r[0..4] == value[0..4] && r[5..7] == value[5..7] && r[8..10] == value[8..10];
    assert r[11..13] == "00" && r[14..16] == "00" && r[17..19] == "00";
  }

  /** Whatever the corrected function returns without the parser is an ISO timestamp: it passes through unchanged a second time. */
  lemma SafeTimestampIso(value: string, parse: string -> Option<string>)
    requires IsoPrefix(value) || DateOnly(value)
    ensures SafeTimestamp(value, parse).Some?
    ensures IsoPrefix(SafeTimestamp(value, parse).value)
    ensures SafeTimestamp(SafeTimestamp(value, parse).value, parse) == SafeTimestamp(value, parse)
  {
    SafeTimestampCases(value, parse);
    if !IsoPrefix(value) {
      DateAtMidnight(value);
    }
    SafeTimestampCases(SafeTimestamp(value, parse).value, parse);
  }

  /**
    As written, a date followed by a newline (say "2022-08-16\n") passes the date check, and the
    result is not a timestamp; the corrected function hands such a value to the parser instead.
  */
  lemma TrailingNewlineDate(d: string, parse: string -> Option<string>)
    requires DateOnly(d)
    ensures SafeTimestampAsWritten(d + "\n", parse) == Some(d + "\nT00:00:00Z")
    ensures !IsoPrefix(d + "\nT00:00:00Z")
    ensures SafeTimestamp(d + "\n", parse) == parse(d + "\n")
  {
    var v := d + "\n";
    assert v[..10] == d && v[10] == '\n';
    assert v[0..4] == d[0..4] && v[5..7] == d[5..7] && v[8..10] == d[8..10];
    assert v + "T00:00:00Z" == d + "\nT00:00:00Z";
    assert (d + "\nT00:00:00Z")[10] == '\n';
    assert d[..4][0] == d[0];
    NotBlank(v);
    assert !Contains(v, StreamedLive);
  }

  /**
    The function as written and the corrected one differ only on a date followed by one newline:
    everywhere else they agree, and on that value the one as written appends midnight after the
    newline.
  */
  lemma AsWrittenDiffersOnlyOnNewline(value: string, parse: string -> Option<string>)
    ensures !(DateLineMatch(value) && !DateOnly(value)) ==>
      SafeTimestampAsWritten(value, parse) == SafeTimestamp(value, parse)
    ensures DateLineMatch(value) && !DateOnly(value) ==>
      && value == value[..10] + "\n" && DateOnly(value[..10])
      && SafeTimestampAsWritten(value, parse) == Some(value + "T00:00:00Z")
      && SafeTimestamp(value, parse) == parse(value)
  {
    if DateLineMatch(value) && !DateOnly(value) {
      var d := value[..10];
      assert value == d + "\n";
      assert d[0..4] == value[0..4] && d[5..7] == value[5..7] && d[8..10] == value[8..10];
      TrailingNewlineDate(d, parse);
    }
  }

  // ---------------------------------------------------------------------------------------------
  // write_to_database
  // ---------------------------------------------------------------------------------------------

  /**
    `write_to_database`: False for empty content, before any database call; otherwise the outcome of
    the insert, which is a parameter.
  */
  function WriteToDatabase(content: string, insert: string -> bool): (r: bool)
    ensures content == "" ==> !r
    ensures content != "" ==> r == insert(content)
  {
    if content == "" then false else insert(content)
  }
}
