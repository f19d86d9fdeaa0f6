/** Printing a frame duration in milliseconds, and reading it back.

    `%.3f` is taken as exact decimal digits, which is what it prints while a double
    resolves a thousandth of a millisecond.
 */
module DurationText {
  import opened Bytes
  import opened FramePeriod
  import opened Options

  predicate IsDigit(c: char) {
    '0' <= c <= '9'
  }

  predicate AllDigits(s: string) {
    forall i | 0 <= i < |s| :: IsDigit(s[i])
  }

  function DigitChar(d: nat): (c: char)
    requires d < 10
    ensures IsDigit(c) && DigitValue(c) == d
  {
    (48 + d) as char
  }

  function DigitValue(c: char): (d: nat)
    requires IsDigit(c)
    ensures d < 10
  {
    c as int - 48
  }

  /** Decimal digits, as `std::to_string` writes them. */
  function Decimal(n: nat): string {
    (if n < 10 then "" else Decimal(n / 10)) + [DigitChar(n % 10)]
  }

  /** The three fraction digits that `%.3f` writes. */
  function ThreeDigits(f: nat): string
    requires f < 1000
  {
    [DigitChar(f / 100), DigitChar(f / 10 % 10), DigitChar(f % 10)]
  }

  /** The number a digit string denotes. */
  function NumberOf(s: string): nat
    requires AllDigits(s)
  {
    if s == "" then 0 else NumberOf(s[..|s| - 1]) * 10 + DigitValue(s[|s| - 1])
  }

  /** The weight of the last of k fraction digits, in thousandths. */
  function Weight(k: nat): nat
    requires k <= 3
  {
    if k == 0 then 1000 else if k == 1 then 100 else if k == 2 then 10 else 1
  }

  /** A reader for printed durations: whole milliseconds, or whole and up to three
      fraction digits. It answers in microseconds. */
  function ReadNumber(whole: string, fraction: string): Option<nat> {
    if whole != "" && AllDigits(whole) && |fraction| <= 3 && AllDigits(fraction)
    then Some(NumberOf(whole) * 1000 + NumberOf(fraction) * Weight(|fraction|))
    else None
  }

  function DotAt(s: string): (d: nat)
    ensures d <= |s|
    ensures forall i | 0 <= i < d :: s[i] != '.'
    ensures d < |s| ==> s[d] == '.'
  {
    if s == "" || s[0] == '.' then 0 else 1 + DotAt(s[1..])
  }

  function ReadDuration(text: string): Option<nat> {
    if |text| < 3 || text[|text| - 3..] != " ms" then None
    else
      var body := text[..|text| - 3];
      var d := DotAt(body);
      if d == |body| then ReadNumber(body, "")
      else if d + 1 == |body| then None
      else ReadNumber(body[..d], body[d + 1..])
  }

  /** No leading zero beyond a lone one, and a fraction only if it ends in a digit that counts. */
  predicate Canonical(text: string) {
    && |text| >= 3
    && var body := text[..|text| - 3];
       var d := DotAt(body);
       && d > 0
       && (d > 1 ==> body[0] != '0')
       && (d < |body| ==> d + 1 < |body| && body[|body| - 1] != '0')
  }

  lemma {:induction false} DecimalIsRead(n: nat)
    ensures Decimal(n) != "" && AllDigits(Decimal(n)) && NumberOf(Decimal(n)) == n
    ensures |Decimal(n)| > 1 ==> Decimal(n)[0] != '0'
  {
    if n >= 10 {
      DecimalIsRead(n / 10);
      assert Decimal(n)[..|Decimal(n)| - 1] == Decimal(n / 10);
      if n / 10 < 10 {
        assert Decimal(n / 10) == [DigitChar(n / 10 % 10)];
      }
    } else {
      assert Decimal(n) == [DigitChar(n)];
      assert NumberOf("") == 0;
    }
  }

  lemma {:induction false} DotAfterDigits(whole: string, rest: string)
    requires AllDigits(whole)
    requires rest == "" || rest[0] == '.'
    ensures DotAt(whole + rest) == |whole|
  {
    if whole != "" {
      assert (whole + rest)[1..] == whole[1..] + rest;
      DotAfterDigits(whole[1..], rest);
    } else {
      assert whole + rest == rest;
    }
  }

  /** What the reader finds in a text put together from its parts. */
  lemma {:induction false} AssembledIsRead(whole: string, fraction: string)
    requires whole != "" && AllDigits(whole) && AllDigits(fraction)
    ensures var text := whole + (if fraction == "" then "" else "." + fraction) + " ms";
            && ReadDuration(text) == ReadNumber(whole, fraction)
            && (Canonical(text) <==> (|whole| > 1 ==> whole[0] != '0') &&
                                     (fraction == "" || fraction[|fraction| - 1] != '0'))
  {
    var rest := if fraction == "" then "" else "." + fraction;
    var body := whole + rest;
    var text := body + " ms";
    assert text[..|text| - 3] == body && text[|text| - 3..] == " ms";
    DotAfterDigits(whole, rest);
    if fraction == "" {
      assert body == whole;
    } else {
      assert body[..|whole|] == whole;
      assert body[|whole| + 1..] == fraction;
    }
  }

  /** Reading a printed number back. */
  lemma {:induction false} PrintedIsRead(n: nat, fraction: string)
    requires |fraction| <= 3 && AllDigits(fraction)
    ensures var text := Decimal(n) + (if fraction == "" then "" else "." + fraction) + " ms";
            && ReadDuration(text) == Some(n * 1000 + NumberOf(fraction) * Weight(|fraction|))
            && (Canonical(text) <==> fraction == "" || fraction[|fraction| - 1] != '0')
  {
    DecimalIsRead(n);
    AssembledIsRead(Decimal(n), fraction);
  }

  /** The value of the three digits of f cut to k of them. */
  lemma {:induction false} ThreeDigitsValue(f: nat, k: nat)
    requires f < 1000 && 1 <= k <= 3
    ensures AllDigits(ThreeDigits(f)[..k])
    ensures NumberOf(ThreeDigits(f)[..k]) == f / Weight(k)
  {
    var t := ThreeDigits(f);
    var a, b, c := f / 100, f / 10 % 10, f % 10;
    assert t[..1] == "" + [t[0]] && t[..2] == [t[0]] + [t[1]] && t[..3] == [t[0], t[1]] + [t[2]];
    OneMoreDigit("", t[0]);
    OneMoreDigit([t[0]], t[1]);
    OneMoreDigit([t[0], t[1]], t[2]);
    assert [t[0]] == t[..1] && [t[0], t[1]] == t[..2];
    assert NumberOf(t[..1]) == a && NumberOf(t[..2]) == a * 10 + b && NumberOf(t[..3]) == (a * 10 + b) * 10 + c;
    HundredsTensUnits(f);
  }

  lemma {:induction false} HundredsTensUnits(f: nat)
    ensures f / 10 == f / 100 * 10 + f / 10 % 10
    ensures f == f / 10 * 10 + f % 10
  {
  }

  /** Digits are the characters everybody reads as such. */
  lemma {:induction false} DigitTable(d: nat)
    requires d < 10
    ensures DigitChar(d) == "0123456789"[d] && DigitValue("0123456789"[d]) == d
  {
  }

  lemma {:induction false} OneMoreDigit(s: string, c: char)
    requires AllDigits(s) && IsDigit(c)
    ensures AllDigits(s + [c]) && NumberOf(s + [c]) == NumberOf(s) * 10 + DigitValue(c)
  {
    assert (s + [c])[..|s|] == s;
  }

  /** A zero at the end of the fraction can go, and it is never the only digit left. */
  lemma {:induction false} TrailingZero(f: nat, k: nat)
    requires 0 < f < 1000 && 1 <= k <= 3 && f % Weight(k) == 0
    requires ThreeDigits(f)[k - 1] == '0'
    ensures k > 1 && f % Weight(k - 1) == 0
  {
  }

  /** The printed whole and the trimmed fraction together read back as their sum. */
  lemma {:induction false} TrimmedParts(whole: nat, f: nat, k: nat)
    requires f < 1000 && 1 <= k <= 3 && f % Weight(k) == 0 && ThreeDigits(f)[k - 1] != '0'
    ensures var text := Decimal(whole) + "." + ThreeDigits(f)[..k] + " ms";
            ReadDuration(text) == Some(whole * 1000 + f) && Canonical(text)
  {
    var fraction := ThreeDigits(f)[..k];
    ThreeDigitsValue(f, k);
    assert NumberOf(fraction) * Weight(k) == f;
    PrintedIsRead(whole, fraction);
    assert Decimal(whole) + "." + fraction + " ms" == Decimal(whole) + ("." + fraction) + " ms";
  }

  lemma {:induction false} TrimmedIsRead(period: nat, k: nat)
    requires 1 <= k <= 3 && period % 1000 % Weight(k) == 0
    requires ThreeDigits(period % 1000)[k - 1] != '0'
    ensures var text := Decimal(period / 1000) + "." + ThreeDigits(period % 1000)[..k] + " ms";
            ReadDuration(text) == Some(period) && Canonical(text)
  {
    TrimmedParts(period / 1000, period % 1000, k);
  }

  /** Cut the trailing zeros of a printed fraction, and the dot if nothing follows it. */
  method TrimZeros(text: string, ghost whole: string, ghost f: nat) returns (rendered: string, ghost k: nat)
    requires 0 < f < 1000 && text == whole + "." + ThreeDigits(f)
    ensures 1 <= k <= 3 && f % Weight(k) == 0 && ThreeDigits(f)[k - 1] != '0'
    ensures rendered == whole + "." + ThreeDigits(f)[..k]
  {
    rendered, k := text, 3;
    assert ThreeDigits(f)[..3] == ThreeDigits(f);
    while |rendered| > 1 && rendered[|rendered| - 1] == '0'
      invariant 1 <= k <= 3 && f % Weight(k) == 0
      invariant rendered == whole + "." + ThreeDigits(f)[..k]
      decreases k
    {
      assert rendered[|rendered| - 1] == ThreeDigits(f)[k - 1];
      TrailingZero(f, k);
      rendered := rendered[..|rendered| - 1];
      k := k - 1;
    }
    assert rendered[|rendered| - 1] == ThreeDigits(f)[k - 1];
    if rendered != "" && rendered[|rendered| - 1] == '.' {
      rendered := rendered[..|rendered| - 1];
    }
  }

  /** The text written into the log line for a frame duration: it reads back as exactly
      the period, and it is the only canonical text that does. */
  method PeriodText(frameSamples: nat, sampleRate: nat) returns (text: string)
    requires sampleRate > 0
    ensures ReadDuration(text) == Some(PeriodMicros(frameSamples, sampleRate))
    ensures Canonical(text) && |text| > 3 && text[|text| - 3..] == " ms"
  {
    var period := PeriodMicros(frameSamples, sampleRate);
    text := MillisText(period);
  }

  method MillisText(period: nat) returns (text: string)
    ensures ReadDuration(text) == Some(period)
    ensures Canonical(text) && |text| > 3 && text[|text| - 3..] == " ms"
  {
    var whole := period / 1000;
    if period == whole * 1000 {
      PrintedIsRead(whole, "");
      text := Decimal(whole) + " ms";
      assert text == Decimal(whole) + "" + " ms";
      return;
    }
    var f := period % 1000;
    var rendered, k := TrimZeros(Decimal(whole) + "." + ThreeDigits(f), Decimal(whole), f);
    TrimmedIsRead(period, k);
    text := rendered + " ms";
  }

  lemma {:induction false} NoLeadingZero(s: string)
    requires s != "" && AllDigits(s) && s[0] != '0'
    ensures NumberOf(s) > 0
  {
    if |s| > 1 {
      NoLeadingZero(s[..|s| - 1]);
    }
  }

  /** Digit strings of the same value without leading zeros are the same. */
  lemma {:induction false} WholeUnique(s: string, t: string)
    requires s != "" && AllDigits(s) && (|s| > 1 ==> s[0] != '0')
    requires t != "" && AllDigits(t) && (|t| > 1 ==> t[0] != '0')
    requires NumberOf(s) == NumberOf(t)
    ensures s == t
  {
    var s', t' := s[..|s| - 1], t[..|t| - 1];
    assert s == s' + [s[|s| - 1]] && t == t' + [t[|t| - 1]];
    if |s| > 1 {
      NoLeadingZero(s');
    }
    if |t| > 1 {
      NoLeadingZero(t');
    }
    assert NumberOf(s') == NumberOf(t');
    if |s| > 1 {
      WholeUnique(s', t');
    }
  }

  lemma {:induction false} NumberBound(s: string)
    requires AllDigits(s) && |s| <= 3
    ensures NumberOf(s) * Weight(|s|) < 1000
    ensures s != "" && s[|s| - 1] != '0' ==> NumberOf(s) % 10 != 0
  {
    if s != "" {
      NumberBound(s[..|s| - 1]);
    }
  }

  lemma {:induction false} LastCounts(s: string)
    requires AllDigits(s) && s != "" && s[|s| - 1] != '0'
    ensures NumberOf(s) % 10 != 0
  {
    assert NumberOf(s) == NumberOf(s[..|s| - 1]) * 10 + DigitValue(s[|s| - 1]);
  }

  /** A value has one number of digits after the point if the last of them counts. */
  lemma {:induction false} FewerDigits(a: nat, la: nat, b: nat, lb: nat)
    requires la < lb <= 3 && b % 10 != 0 && (la == 0 ==> a == 0)
    ensures a * Weight(la) != b * Weight(lb)
  {
    TenTimes(a);
    assert a * 100 == b * 10 ==> b == a * 10;
    assert a * 100 == b ==> b == a * 100;
    assert a * 10 == b ==> b == a * 10;
  }

  lemma {:induction false} TenTimes(a: nat)
    ensures a * 10 % 10 == 0 && a * 100 % 10 == 0
  {
  }

  /** Two fractions of the same value that end in a digit that counts are the same. */
  lemma {:induction false} FractionUnique(s: string, t: string)
    requires AllDigits(s) && AllDigits(t) && |s| <= 3 && |t| <= 3
    requires s != "" ==> s[|s| - 1] != '0'
    requires t != "" ==> t[|t| - 1] != '0'
    requires NumberOf(s) * Weight(|s|) == NumberOf(t) * Weight(|t|)
    ensures s == t
  {
    if |s| < |t| {
      LastCounts(t);
      FewerDigits(NumberOf(s), |s|, NumberOf(t), |t|);
    } else if |t| < |s| {
      LastCounts(s);
      FewerDigits(NumberOf(t), |t|, NumberOf(s), |s|);
    } else {
      SameLengthUnique(s, t);
    }
  }

  lemma {:induction false} LastDigit(a: nat, x: nat, b: nat, y: nat)
    requires a * 10 + x == b * 10 + y && x < 10 && y < 10
    ensures a == b && x == y
  {
  }

  lemma {:induction false} SameLengthUnique(s: string, t: string)
    requires AllDigits(s) && AllDigits(t) && |s| == |t| && NumberOf(s) == NumberOf(t)
    ensures s == t
  {
    if s != "" {
      var n := |s| - 1;
      var s', t' := s[..n], t[..n];
      LastDigit(NumberOf(s'), DigitValue(s[n]), NumberOf(t'), DigitValue(t[n]));
      SameLengthUnique(s', t');
      Extend(s', t', s, t);
    }
  }

  /** Strings that agree up to their last character and in it agree. */
  lemma {:induction false} Extend(s': string, t': string, s: string, t: string)
    requires |s| == |t| > 0 && s' == s[..|s| - 1] && t' == t[..|s| - 1] && s' == t' && s[|s| - 1] == t[|s| - 1]
    ensures s == t
  {
    assert s == s' + [s[|s| - 1]] && t == t' + [t[|s| - 1]];
  }

  /** Different periods print differently, and a period has one canonical text. */
  lemma {:induction false} CanonicalUnique(a: string, b: string)
    requires Canonical(a) && Canonical(b)
    requires ReadDuration(a).Some? && ReadDuration(a) == ReadDuration(b)
    ensures a == b
  {
    var aw, af := Parts(a);
    var bw, bf := Parts(b);
    NumberBound(af);
    NumberBound(bf);
    assert NumberOf(aw) == NumberOf(bw) && NumberOf(af) * Weight(|af|) == NumberOf(bf) * Weight(|bf|);
    WholeUnique(aw, bw);
    FractionUnique(af, bf);
  }

  /** The whole and fraction digits of a canonical duration. */
  lemma {:induction false} Parts(text: string) returns (whole: string, fraction: string)
    requires Canonical(text) && ReadDuration(text).Some?
    ensures whole != "" && AllDigits(whole) && (|whole| > 1 ==> whole[0] != '0')
    ensures AllDigits(fraction) && |fraction| <= 3 && (fraction != "" ==> fraction[|fraction| - 1] != '0')
    ensures text == whole + (if fraction == "" then "" else "." + fraction) + " ms"
    ensures ReadDuration(text).value == NumberOf(whole) * 1000 + NumberOf(fraction) * Weight(|fraction|)
  {
    var body := text[..|text| - 3];
    var d := DotAt(body);
    assert text == body + " ms";
    if d == |body| {
      whole, fraction := body, "";
      assert text == whole + "" + " ms";
    } else {
      whole, fraction := body[..d], body[d + 1..];
      assert body == whole + ("." + fraction);
    }
  }

  // ---------------------------------------------------------------------------------
  // The double behind `%.3f`
  // ---------------------------------------------------------------------------------

  /** Multiples of 2^-11. Up to 2^42 all of them are doubles. */
  function Grid(k: nat): real {
    k as real / 2048.0
  }

  function Distance(x: real, y: real): real {
    if x < y then y - x else x - y
  }

  /** The nearest double to `exact` is no further from it than any multiple of 2^-11. */
  ghost predicate Nearest(x: real, exact: real) {
    forall k: nat | k <= 0x20_0000_0000_0000 :: Distance(x, exact) <= Distance(Grid(k), exact)
  }

  lemma {:induction false} NearestIsClose(x: real, exact: real)
    requires 0.0 <= exact < TWO_42 as real && Nearest(x, exact)
    ensures Distance(x, exact) * 4096.0 <= 1.0
  {
    var k := (exact * 2048.0 + 0.5).Floor;
    assert 0 <= k <= 0x20_0000_0000_0000;
    assert Distance(x, exact) <= Distance(Grid(k), exact);
    var g := Grid(k);
    assert g * 2048.0 == k as real;
  }

  /** The double does not show: for every 32-bit input, the double nearest to the quotient
      of the period by 1000 rounds to the thousandth that the exact quotient is. */
  lemma {:induction false} DoubleRoundsBack(frameSamples: nat, sampleRate: nat, quotient: real)
    requires frameSamples < TWO_32 && sampleRate > 0
    requires Nearest(quotient, PeriodMicros(frameSamples, sampleRate) as real / 1000.0)
    ensures (quotient * 1000.0 + 0.5).Floor == PeriodMicros(frameSamples, sampleRate)
  {
    var period := PeriodMicros(frameSamples, sampleRate);
    PeriodBelow(frameSamples, sampleRate);
    NearestIsClose(quotient, period as real / 1000.0);
    var off := quotient * 1000.0 - period as real;
    assert -0.25 <= off <= 0.25;
  }
}
