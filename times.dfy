/**
  Time values of the transcription services, as exact integers: a decimal seconds string as AWS
  Transcribe writes it (`float(s)`, then `int(... * 1000)`), and the `HH:MM:SS` rendering of
  `time.strftime("%H:%M:%S", time.gmtime(secs))`.
*/
module Times {
  import opened Wrappers
  import opened Text

  function Pow10(n: nat): (p: nat)
    ensures p >= 1
  {
    if n == 0 then 1 else 10 * Pow10(n - 1)
  }

  /** Index of the first '.', or |s| when there is none. */
  function DotIndex(s: string): (k: nat)
    ensures k <= |s|
    ensures forall j :: 0 <= j < k ==> s[j] != '.'
    ensures k < |s| ==> s[k] == '.'
  {
    if s == [] then 0 else if s[0] == '.' then 0 else 1 + DotIndex(s[1..])
  }

  /**
    `int(float(s) * 1000)` for a decimal `digits[.digits]` string (at least one digit in all): the
    exact value in milliseconds, truncated. None where `float` would raise on these forms.
  */
  function ParseMillis(s: string): (r: Option<nat>)
    ensures r.Some? ==> s != "" && !AllSpace(s)
  {
    var k := DotIndex(s);
    var whole := s[..k];
    var frac := if k < |s| then s[k + 1..] else "";
    if !AllDigits(whole) || !AllDigits(frac) || whole + frac == "" then None
    else Some(ParseDigits(whole + frac) * 1000 / Pow10(|frac|))
  }

  /** Three digits, zero-padded: the fractional part of a millisecond count. */
  function Pad3(n: nat): (s: string)
    requires n < 1000
    ensures |s| == 3 && AllDigits(s)
  {
    [DigitChar(n / 100), DigitChar(n / 10 % 10), DigitChar(n % 10)]
  }

  /** Milliseconds written as AWS writes seconds, `S.mmm`. */
  function ShowMillis(ms: nat): string {
    NatToString(ms / 1000) + "." + Pad3(ms % 1000)
  }

  lemma AllDigitsAppend(a: string, b: string)
    requires AllDigits(a) && AllDigits(b)
    ensures AllDigits(a + b)
  {
    forall j | 0 <= j < |a + b|
      ensures IsDigit((a + b)[j])
    {
      if j < |a| {
        assert (a + b)[j] == a[j];
      } else {
        assert (a + b)[j] == b[j - |a|];
      }
    }
  }

  lemma {:induction false} ParseDigitsAppend(a: string, b: string)
    requires AllDigits(a) && AllDigits(b)
    ensures AllDigits(a + b)
    ensures ParseDigits(a + b) == ParseDigits(a) * Pow10(|b|) + ParseDigits(b)
    decreases |b|
  {
    AllDigitsAppend(a, b);
    if b == [] {
      assert a + b == a;
    } else {
      var b' := b[..|b| - 1];
      assert (a + b)[..|a + b| - 1] == a + b';
      assert (a + b)[|a + b| - 1] == b[|b| - 1];
      ParseDigitsAppend(a, b');
      ShiftDigit(ParseDigits(a + b), ParseDigits(a + b'), ParseDigits(a), Pow10(|b'|), ParseDigits(b'),
                 DigitValue(b[|b| - 1]), ParseDigits(b), Pow10(|b|));
    }
  }

  /** The arithmetic of one more digit on the right: `10 * (x * p + y) + d == x * (10 * p) + (10 * y + d)`. */
  lemma ShiftDigit(whole: int, prefix: int, x: int, p: int, y: int, d: int, tail: int, q: int)
    requires whole == 10 * prefix + d && prefix == x * p + y
    requires tail == 10 * y + d && q == 10 * p
    ensures whole == x * q + tail
  {
    assert x * q == 10 * (x * p);
  }

  /** The value of two digits, place by place. */
  lemma ParseTwo(s: string)
    requires |s| == 2 && AllDigits(s)
    ensures ParseDigits(s) == 10 * DigitValue(s[0]) + DigitValue(s[1])
  {
    var p := s[..1];
    assert p[..0] == [] && p[0] == s[0];
    assert ParseDigits(p) == DigitValue(s[0]);
  }

  /** The value of three digits, place by place. */
  lemma ParseThree(s: string)
    requires |s| == 3 && AllDigits(s)
    ensures ParseDigits(s) == 100 * DigitValue(s[0]) + 10 * DigitValue(s[1]) + DigitValue(s[2])
  {
    var p := s[..2];
    assert p[0] == s[0] && p[1] == s[1];
    ParseTwo(p);
  }

  lemma ThreePlaces(n: nat)
    requires n < 1000
    ensures n == 100 * (n / 100) + 10 * (n / 10 % 10) + n % 10
  {
  }

  lemma ParsePad3(n: nat)
    requires n < 1000
    ensures ParseDigits(Pad3(n)) == n
  {
    ParseThree(Pad3(n));
    ThreePlaces(n);
  }

  lemma {:induction false} DotIndexOfDigits(a: string, b: string)
    requires AllDigits(a)
    ensures DotIndex(a + "." + b) == |a|
    decreases |a|
  {
    var s := a + "." + b;
    if a != [] {
      assert s[0] == a[0];
      assert s[1..] == a[1..] + "." + b;
      DotIndexOfDigits(a[1..], b);
    }
  }

  /** Reading back what ShowMillis writes gives the same number of milliseconds. */
  lemma ParseShowMillis(ms: nat)
    ensures ParseMillis(ShowMillis(ms)) == Some(ms)
  {
    var whole, frac := NatToString(ms / 1000), Pad3(ms % 1000);
    var s := ShowMillis(ms);
    DotIndexOfDigits(whole, frac);
    assert s[..|whole|] == whole && s[|whole| + 1..] == frac;
    ParseDigitsAppend(whole, frac);
    ParseNatToString(ms / 1000);
    ParsePad3(ms % 1000);
    assert Pow10(3) == 1000;
    assert ParseDigits(whole + frac) == ms;
  }

  // ---------------------------------------------------------------------------------------------
  // HH:MM:SS
  // ---------------------------------------------------------------------------------------------

  function Pad2(n: nat): (s: string)
    requires n < 100
    ensures |s| == 2 && AllDigits(s)
  {
    [DigitChar(n / 10), DigitChar(n % 10)]
  }

  /** `time.strftime("%H:%M:%S", time.gmtime(secs))`: the time of day, in UTC, of a count of seconds. */
  function FormatHms(secs: nat): string {
    Pad2(secs / 3600 % 24) + ":" + Pad2(secs / 60 % 60) + ":" + Pad2(secs % 60)
  }

  /** Reads `HH:MM:SS` back into seconds since midnight. */
  function ParseHms(s: string): Option<nat> {
    if |s| == 8 && s[2] == ':' && s[5] == ':' && AllDigits(s[..2]) && AllDigits(s[3..5]) && AllDigits(s[6..])
    then Some(ParseDigits(s[..2]) * 3600 + ParseDigits(s[3..5]) * 60 + ParseDigits(s[6..]))
    else None
  }

  lemma ParsePad2(n: nat)
    requires n < 100
    ensures ParseDigits(Pad2(n)) == n
  {
    ParseTwo(Pad2(n));
  }

  /** Division and remainder are fixed by any decomposition with a remainder in range. */
  lemma DivMod(a: int, b: int, q: int, r: int)
    requires b == 24 || b == 60 || b == 3600 || b == 86400
    requires 0 <= r < b && a == b * q + r
    ensures a / b == q && a % b == r
  {
    if b == 24 {
      assert a == 24 * q + r;
    } else if b == 60 {
      assert a == 60 * q + r;
    } else if b == 3600 {
      assert a == 3600 * q + r;
    } else {
      assert a == 86400 * q + r;
    }
  }

  lemma DayClock(secs: nat)
    ensures (secs / 3600 % 24) * 3600 + (secs / 60 % 60) * 60 + secs % 60 == secs % 86400
  {
    var d, x := secs / 86400, secs % 86400;
    var h, rest := x / 3600, x % 3600;
    var m, s := rest / 60, rest % 60;
    DivMod(secs, 86400, d, x);
    DivMod(x, 3600, h, rest);
    DivMod(rest, 60, m, s);
    DivMod(secs, 3600, 24 * d + h, rest);
    DivMod(24 * d + h, 24, d, h);
    DivMod(secs, 60, 1440 * d + 60 * h + m, s);
    DivMod(1440 * d + 60 * h + m, 60, 24 * d + h, m);
  }

  /** The rendering is always eight characters and reads back as the time of day. */
  lemma FormatHmsRoundTrip(secs: nat)
    ensures |FormatHms(secs)| == 8
    ensures ParseHms(FormatHms(secs)) == Some(secs % 86400)
  {
    var h, m, s := Pad2(secs / 3600 % 24), Pad2(secs / 60 % 60), Pad2(secs % 60);
    var r := FormatHms(secs);
    assert r[..2] == h && r[3..5] == m && r[6..] == s;
    ParsePad2(secs / 3600 % 24);
    ParsePad2(secs / 60 % 60);
    ParsePad2(secs % 60);
    DayClock(secs);
  }
}
