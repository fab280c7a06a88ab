/** The number format of httpapi/prometheus.go: six decimals, trailing zeros and point
    trimmed. Values are whole millionths, as fmt's %.6f rounds them. */
module Numbers {
  function Pow10(k: nat): (p: nat)
    ensures p > 0
  {
    if k == 0 then 1 else 10 * Pow10(k - 1)
  }

  function DigitChar(d: nat): char
    requires d < 10
  {
    (48 + d) as char
  }

  lemma DigitsAreAscii(d: nat)
    requires d < 10
    ensures DigitChar(d) == "0123456789"[d]
  {
  }

  predicate IsDigit(c: char) { '0' <= c <= '9' }

  function DigitValue(c: char): nat
    requires IsDigit(c)
  {
    c as int - 48
  }

  predicate AllDigits(s: string) { forall i :: 0 <= i < |s| ==> IsDigit(s[i]) }

  /** %d of a natural number. */
  function Decimal(n: nat): (s: string)
    ensures s != "" && AllDigits(s)
  {
    if n < 10 then [DigitChar(n)] else Decimal(n / 10) + [DigitChar(n % 10)]
  }

  function DecimalValue(s: string): nat
    requires AllDigits(s)
  {
    if s == "" then 0 else DecimalValue(s[..|s| - 1]) * 10 + DigitValue(s[|s| - 1])
  }

  lemma {:induction false} DecimalRoundTrip(n: nat)
    ensures DecimalValue(Decimal(n)) == n
  {
    if n < 10 {
      assert Decimal(n)[..0] == "";
      assert DecimalValue("") == 0;
    } else {
      DecimalRoundTrip(n / 10);
      var s := Decimal(n);
      assert s[..|s| - 1] == Decimal(n / 10);
    }
  }

  /** f with exactly k digits. */
  function Padded(f: nat, k: nat): (s: string)
    requires f < Pow10(k)
    ensures |s| == k && AllDigits(s)
  {
    if k == 0 then "" else Padded(f / 10, k - 1) + [DigitChar(f % 10)]
  }

  /** The value of fraction digits in units of the k-th decimal; missing decimals are zeros. */
  function FractionValue(s: string, k: nat): nat
    requires |s| <= k && AllDigits(s)
    decreases k - |s|
  {
    if |s| == k then DecimalValue(s) else FractionValue(s + "0", k)
  }

  lemma DigitRoundTrip(d: nat)
    requires d < 10
    ensures IsDigit(DigitChar(d)) && DigitValue(DigitChar(d)) == d
  {
  }

  lemma {:induction false} PaddedRoundTrip(f: nat, k: nat)
    requires f < Pow10(k)
    ensures FractionValue(Padded(f, k), k) == f
  {
    if k == 0 {
    } else {
      PaddedRoundTrip(f / 10, k - 1);
      DigitRoundTrip(f % 10);
      assert Padded(f, k)[..k - 1] == Padded(f / 10, k - 1);
    }
  }

  /** strings.TrimRight with a one-character cutset. */
  function TrimRight(s: string, c: char): string {
    if s != "" && s[|s| - 1] == c then TrimRight(s[..|s| - 1], c) else s
  }

  lemma {:induction false} TrimKeepsFraction(s: string, k: nat)
    requires |s| <= k && AllDigits(s)
    ensures AllDigits(TrimRight(s, '0')) && |TrimRight(s, '0')| <= |s|
    ensures FractionValue(TrimRight(s, '0'), k) == FractionValue(s, k)
  {
    if s != "" && s[|s| - 1] == '0' {
      var t := s[..|s| - 1];
      assert s == t + "0";
      TrimKeepsFraction(t, k);
    }
  }

  lemma {:induction false} TrimAfter(a: string, s: string, c: char)
    ensures TrimRight(a + s, c) == if TrimRight(s, c) == "" then TrimRight(a, c) else a + TrimRight(s, c)
  {
    if s == "" {
      assert a + s == a;
    } else {
      var t := s[..|s| - 1];
      assert (a + s)[..|a + s| - 1] == a + t;
      if s[|s| - 1] == c {
        TrimAfter(a, t, c);
      }
    }
  }

  // ------------------------------------------------------------------
  // formatFloat
  // ------------------------------------------------------------------

  const MILLION: nat := 1_000_000

  lemma Million()
    ensures Pow10(6) == MILLION
  {
    assert Pow10(3) == 1000;
  }

  function Abs(m: int): nat { if m < 0 then -m else m }

  function Sign(m: int): string { if m < 0 then "-" else "" }

  /** fmt.Sprintf("%.6f", v) for v = m millionths. */
  function SixDecimals(m: int): string {
    Million();
    Sign(m) + Decimal(Abs(m) / MILLION) + "." + Padded(Abs(m) % MILLION, 6)
  }

  function FormatFloat(m: int): string {
    TrimRight(TrimRight(SixDecimals(m), '0'), '.')
  }

  /** A point and the decimals of f millionths without trailing zeros, or nothing at all. */
  function Fraction(f: nat): string
    requires Pow10(6) == MILLION && f < MILLION
  {
    var digits := TrimRight(Padded(f, 6), '0');
    if digits == "" then "" else "." + digits
  }

  /** The printed form without the detour over trimming. */
  function Shortest(m: int): string {
    Million();
    Sign(m) + (Decimal(Abs(m) / MILLION) + Fraction(Abs(m) % MILLION))
  }

  lemma NoTrim(s: string, c: char)
    requires s == "" || s[|s| - 1] != c
    ensures TrimRight(s, c) == s
  {
  }

  lemma TrimBarePoint(whole: string, digits: string)
    requires whole != "" && IsDigit(whole[|whole| - 1]) && TrimRight(digits, '0') == ""
    ensures TrimRight(TrimRight(whole + "." + digits, '0'), '.') == whole
  {
    TrimAfter(whole + ".", digits, '0');
    NoTrim(whole + ".", '0');
    TrimAfter(whole, ".", '.');
    assert TrimRight(".", '.') == "" by {
      assert "."[..0] == "";
      NoTrim("", '.');
    }
    NoTrim(whole, '.');
  }

  lemma LastOf(a: string, b: string)
    requires b != ""
    ensures (a + b)[|a + b| - 1] == b[|b| - 1]
  {
  }

  lemma TrimAfterPoint(whole: string, digits: string, fraction: string)
    requires AllDigits(fraction) && fraction == TrimRight(digits, '0') && fraction != ""
    ensures TrimRight(TrimRight(whole + "." + digits, '0'), '.') == whole + ("." + fraction)
  {
    TrimAfter(whole + ".", digits, '0');
    assert whole + "." + fraction == whole + ("." + fraction);
    LastOf(whole + ".", fraction);
    assert IsDigit(fraction[|fraction| - 1]);
    NoTrim(whole + "." + fraction, '.');
  }

  lemma TrimmedText(sign: string, whole: string, digits: string, fraction: string)
    requires whole != "" && IsDigit(whole[|whole| - 1]) && AllDigits(fraction) && fraction == TrimRight(digits, '0')
    ensures TrimRight(TrimRight(sign + whole + "." + digits, '0'), '.')
            == sign + (whole + if fraction == "" then "" else "." + fraction)
  {
    LastOf(sign, whole);
    if fraction == "" {
      TrimBarePoint(sign + whole, digits);
      assert whole + "" == whole;
    } else {
      TrimAfterPoint(sign + whole, digits, fraction);
      assert (sign + whole) + ("." + fraction) == sign + (whole + ("." + fraction));
    }
  }

  lemma FormatIsShortest(m: int)
    ensures FormatFloat(m) == Shortest(m)
  {
    Million();
    var digits := Padded(Abs(m) % MILLION, 6);
    TrimKeepsFraction(digits, 6);
    TrimmedText(Sign(m), Decimal(Abs(m) / MILLION), digits, TrimRight(digits, '0'));
  }

  lemma {:induction false} DecimalDigits(n: nat)
    ensures n < 10 ==> Decimal(n) == ["0123456789"[n]]
    ensures n >= 10 ==> Decimal(n) == Decimal(n / 10) + ["0123456789"[n % 10]]
  {
    DigitsAreAscii(n % 10);
  }

  lemma {:induction false} ZeroPadded(k: nat)
    ensures TrimRight(Padded(0, k), '0') == ""
  {
    if k == 0 {
    } else {
      ZeroPadded(k - 1);
      DigitsAreAscii(0);
      assert Padded(0, k)[..k - 1] == Padded(0, k - 1);
    }
  }

  lemma ZeroFraction()
    requires Pow10(6) == MILLION
    ensures Fraction(0) == ""
  {
    ZeroPadded(6);
  }

  lemma WholeShortest(m: int, n: nat)
    requires Abs(m) == n * MILLION
    ensures Shortest(m) == Sign(m) + Decimal(n)
  {
    Million();
    ZeroFraction();
    assert Abs(m) / MILLION == n && Abs(m) % MILLION == 0;
    assert Decimal(n) + "" == Decimal(n);
  }

  /** Whole numbers come out clean, as "1" and not "1.000000"; zero is "0"; negatives keep a sign. */
  lemma WholeNumbersAreClean(m: int, n: nat)
    requires m == n * 1_000_000 || m == -(n * 1_000_000)
    ensures FormatFloat(m) == (if m < 0 then "-" else "") + Decimal(n)
  {
    FormatIsShortest(m);
    WholeShortest(m, n);
  }

  /** k decimals are k - 1 decimals and the last digit. */
  lemma PaddedDigits(f: nat, k: nat)
    requires 0 < k && f < Pow10(k)
    ensures Padded(f, k) == Padded(f / 10, k - 1) + ["0123456789"[f % 10]]
  {
    DigitsAreAscii(f % 10);
  }

  // ------------------------------------------------------------------
  // Reading it back
  // ------------------------------------------------------------------

  /** The characters before the first `c`, and what follows it (nothing when there is none). */
  function Before(s: string, c: char): string {
    if s == "" || s[0] == c then "" else [s[0]] + Before(s[1..], c)
  }

  lemma {:induction false} BeforeStops(a: string, c: char, rest: string)
    requires c !in a
    ensures Before(a + ([c] + rest), c) == a
    ensures Before(a, c) == a
  {
    if a == "" {
    } else {
      assert (a + ([c] + rest))[1..] == a[1..] + ([c] + rest);
      BeforeStops(a[1..], c, rest);
    }
  }

  function ReadParts(whole: string, fraction: string): int {
    if AllDigits(whole) && AllDigits(fraction) && |fraction| <= 6
    then DecimalValue(whole) * MILLION + FractionValue(fraction, 6) else -1
  }

  function ParseUnsigned(s: string): int {
    var whole := Before(s, '.');
    ReadParts(whole, if |whole| < |s| then s[|whole| + 1..] else "")
  }

  /** Millionths read from a decimal number with at most six decimals. */
  function ParseFloat(s: string): int {
    if s != "" && s[0] == '-' then -ParseUnsigned(s[1..]) else ParseUnsigned(s)
  }

  lemma NoPoint(digits: string)
    requires AllDigits(digits)
    ensures '.' !in digits
  {
    assert !IsDigit('.');
  }

  lemma AfterPoint(whole: string, fraction: string)
    ensures whole + ("." + fraction) == whole + (['.'] + fraction)
    ensures (whole + ("." + fraction))[|whole| + 1..] == fraction
  {
  }

  lemma ParseShortest(whole: string, fraction: string)
    requires AllDigits(whole)
    ensures ParseUnsigned(whole + if fraction == "" then "" else "." + fraction) == ReadParts(whole, fraction)
  {
    NoPoint(whole);
    BeforeStops(whole, '.', fraction);
    if fraction == "" {
      assert whole + "" == whole;
    } else {
      AfterPoint(whole, fraction);
    }
  }

  /** The printed magnitude, before any sign, reads back. */
  lemma MagnitudeRoundTrip(n: nat, text: string)
    requires Pow10(6) == MILLION
    requires text == Decimal(n / MILLION) + Fraction(n % MILLION)
    ensures text != "" && text[0] != '-'
    ensures ParseUnsigned(text) == n
  {
    var whole, digits := Decimal(n / MILLION), Padded(n % MILLION, 6);
    DecimalRoundTrip(n / MILLION);
    PaddedRoundTrip(n % MILLION, 6);
    TrimKeepsFraction(digits, 6);
    ParseShortest(whole, TrimRight(digits, '0'));
    assert text[0] == whole[0] && IsDigit(whole[0]);
  }

  /** The printed value reads back exactly. */
  lemma FloatRoundTrip(m: int)
    ensures ParseFloat(FormatFloat(m)) == m
  {
    Million();
    FormatIsShortest(m);
    var text := Decimal(Abs(m) / MILLION) + Fraction(Abs(m) % MILLION);
    MagnitudeRoundTrip(Abs(m), text);
    if m < 0 {
      assert Shortest(m) == "-" + text;
      assert ("-" + text)[1..] == text;
    } else {
      assert Shortest(m) == text;
    }
  }

  predicate NumberChar(c: char) { IsDigit(c) || c == '-' || c == '.' }

  lemma FormatChars(m: int)
    ensures forall i :: 0 <= i < |FormatFloat(m)| ==> NumberChar(FormatFloat(m)[i])
  {
    Million();
    FormatIsShortest(m);
    TrimKeepsFraction(Padded(Abs(m) % MILLION, 6), 6);
  }
}
