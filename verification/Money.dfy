/**
 * Decimal strings and minor units: decimalToMinor (apps/backend/src/shared/money.ts), majorToMinor
 * (apps/frontend/lib/money.ts), toMinor and toMajor (packages/utils/src/money.ts). The exponent is a parameter.
 */
module Money {
  import opened Arith
  import opened Text
  import opened Wrappers

  predicate IsDigit(c: char) { '0' <= c <= '9' }

  predicate AllDigits(s: string) {
    forall i :: 0 <= i < |s| ==> IsDigit(s[i])
  }

  /** `BigInt(s)` for a string of decimal digits; the empty string is 0. */
  function DigitsValue(s: string): nat
    requires AllDigits(s)
  {
    if s == "" then 0 else 10 * DigitsValue(s[..|s| - 1]) + (s[|s| - 1] as int - '0' as int)
  }

  function Pow10(n: nat): (p: nat)
    ensures p > 0
  {
    if n == 0 then 1 else 10 * Pow10(n - 1)
  }

  function Zeros(n: nat): (z: string)
    ensures |z| == n && AllDigits(z)
  {
    seq(n, i => '0')
  }

  datatype Decimal = Decimal(neg: bool, intPart: string, frac: string) {
    predicate Valid() {
      AllDigits(intPart) && AllDigits(frac)
    }

    /** The exact value is Mantissa / 10^|frac|, with the sign. */
    function Mantissa(): nat
      requires Valid()
    {
      DigitsValue(intPart + frac)
    }

    function Signed(magnitude: int): int {
      if neg then -magnitude else magnitude
    }
  }

  /** The regular expression: an optional minus, digits, and optionally a point with more digits. */
  function ParseDecimal(s: string): (d: Option<Decimal>)
    ensures d.Some? ==> d.value.Valid()
  {
    var neg := s != "" && s[0] == '-';
    var rest := if neg then s[1..] else s;
    var dot := IndexOf(rest, '.');
    var intPart, frac := rest[..dot], if dot < |rest| then rest[dot + 1..] else "";
    if intPart == "" || !AllDigits(intPart) || !AllDigits(frac) || (dot < |rest| && frac == "") then None
    else Some(Decimal(neg, intPart, frac))
  }

  function FracKeep(frac: string, exp: nat): (kept: string)
    requires AllDigits(frac)
    ensures |kept| == exp && AllDigits(kept)
  {
    var cut := if |frac| < exp then |frac| else exp;
    frac[..cut] + Zeros(exp - cut)
  }

  /** Keep `exp` fraction digits, padding with zeros; round half up on the first digit dropped. */
  function ScaleHalfUp(d: Decimal, exp: nat): nat
    requires d.Valid()
  {
    var base := DigitsValue(d.intPart) * Pow10(exp) + DigitsValue(FracKeep(d.frac, exp));
    if |d.frac| > exp && d.frac[exp] as int - 48 >= 5 then base + 1 else base
  }

  function DecimalToMinor(amount: Option<string>, exp: nat): Option<int> {
    if amount == None || Trim(amount.value) == "" then None
    else match ParseDecimal(Trim(amount.value))
      case None => None
      case Some(d) => Some(d.Signed(ScaleHalfUp(d, exp)))
  }

  function MajorToMinor(major: string, exp: nat): Option<string> {
    match ParseDecimal(Trim(major))
    case None => None
    case Some(d) => Some(IntToString(d.Signed(ScaleHalfUp(d, exp))))
  }

  /** None stands for the exception BigInt throws. */
  function ToMinor(amountMajor: string, minorUnit: nat): Option<int> {
    var s := Trim(amountMajor);
    var neg := s != "" && s[0] == '-';
    var pieces := Split(if neg then s[1..] else s, '.');
    var intPart, fracPart := pieces[0], if |pieces| > 1 then pieces[1] else "";
    var fracPadded := Padded(fracPart, minorUnit);
    if !AllDigits(intPart) || !AllDigits(fracPadded) then None
    else
      var abs := DigitsValue(intPart) * Pow10(minorUnit) + DigitsValue(fracPadded);
      Some(if neg then -abs else abs)
  }

  function NatToString(n: nat): (s: string)
    ensures s != "" && AllDigits(s)
  {
    var last := [('0' as int + n % 10) as char];
    if n < 10 then last else NatToString(n / 10) + last
  }

  function IntToString(n: int): string {
    if n < 0 then "-" + NatToString(-n) else NatToString(n)
  }

  function ToMajor(amountMinor: int, minorUnit: nat): string {
    var abs := if amountMinor < 0 then -amountMinor else amountMinor;
    var intPart, frac := NatToString(Quotient(abs, Pow10(minorUnit))), NatToString(Remainder(abs, Pow10(minorUnit)));
    var fracPart := (if |frac| < minorUnit then Zeros(minorUnit - |frac|) else "") + frac;
    var formatted := if minorUnit > 0 then intPart + "." + fracPart else intPart;
    if amountMinor < 0 then "-" + formatted else formatted
  }

  /** The whole major units a reminder title shows (reminderScanner.ts), before grouping. */
  function WholeUnits(amountMinor: int, exp: nat): int {
    var scale := Pow10(exp);
    var abs := if amountMinor < 0 then -amountMinor else amountMinor;
    var whole := if exp == 0 then abs else (abs + scale / 2) / scale;
    if amountMinor < 0 then -whole else whole
  }

  // ---- Digits ----

  lemma PowZero()
    ensures Pow10(0) == 1
  {
  }

  lemma Tenfold(x: int, n: nat)
    ensures x * Pow10(n + 1) == 10 * (x * Pow10(n))
  {
    var p := Pow10(n);
    assert Pow10(n + 1) == 10 * p;
  }

  lemma {:induction false} DigitsConcat(a: string, b: string)
    requires AllDigits(a) && AllDigits(b)
    ensures AllDigits(a + b) && DigitsValue(a + b) == DigitsValue(a) * Pow10(|b|) + DigitsValue(b)
  {
    if b == "" {
      assert a + b == a;
    } else {
      var b' := b[..|b| - 1];
      assert (a + b)[..|a + b| - 1] == a + b';
      DigitsConcat(a, b');
      Tenfold(DigitsValue(a), |b| - 1);
    }
  }

  lemma {:induction false} DigitsBound(s: string)
    requires AllDigits(s)
    ensures DigitsValue(s) < Pow10(|s|)
  {
    if s != "" {
      DigitsBound(s[..|s| - 1]);
    }
  }

  lemma {:induction false} ZerosValue(n: nat)
    ensures DigitsValue(Zeros(n)) == 0
  {
    if n > 0 {
      assert Zeros(n)[..n - 1] == Zeros(n - 1);
      ZerosValue(n - 1);
    }
  }

  lemma {:induction false} PowAdd(a: nat, b: nat)
    ensures Pow10(a + b) == Pow10(a) * Pow10(b)
  {
    if a > 0 {
      PowAdd(a - 1, b);
    }
  }

  lemma {:induction false} PrintedValue(n: nat)
    ensures DigitsValue(NatToString(n)) == n
    ensures forall e :: e > 0 && n < Pow10(e) ==> |NatToString(n)| <= e
  {
    var s := NatToString(n);
    if n >= 10 {
      PrintedValue(n / 10);
      assert s[..|s| - 1] == NatToString(n / 10);
      forall e: nat | e > 0 && n < Pow10(e) ensures |s| <= e {
        assert n / 10 < Pow10(e - 1);
        assert e > 1;
      }
    } else {
      assert s[..0] == "";
    }
  }

  // ---- What the conversions compute ----

  /** floor(|x| * 10^e + 1/2) for x = m / 10^f, in integers. */
  function RoundHalfUp(m: nat, f: nat, e: nat): int {
    (2 * m * Pow10(e) + Pow10(f)) / (2 * Pow10(f))
  }

  /** floor(|x| * 10^e). */
  function Truncate(m: nat, f: nat, e: nat): int {
    m * Pow10(e) / Pow10(f)
  }

  /** Both roundings when no digit is dropped. */
  lemma ExactScale(m: nat, f: nat, e: nat)
    requires f <= e
    ensures RoundHalfUp(m, f, e) == m * Pow10(e - f) && Truncate(m, f, e) == m * Pow10(e - f)
  {
    hide Pow10;
    var p, x := Pow10(f), m * Pow10(e - f);
    PowAdd(f, e - f);
    Scaled(m, p, Pow10(e - f));
    assert x * (2 * p) == 2 * (x * p);
    DivMod(2 * (x * p) + p, 2 * p, x, p);
    DivMod(x * p, p, x, 0);
  }

  lemma Scaled(m: int, p: int, q: int)
    ensures m * (p * q) == m * q * p && 2 * m * (p * q) == 2 * (m * q * p)
  {
    assert m * (p * q) == m * q * p;
  }

  /** Both roundings when the last f - e digits, worth `rest`, are dropped from `kept`. */
  lemma DroppedScale(m: nat, f: nat, e: nat, kept: nat, rest: nat)
    requires f > e && m == kept * Pow10(f - e) + rest && rest < Pow10(f - e)
    ensures Truncate(m, f, e) == kept
    ensures RoundHalfUp(m, f, e) == if 2 * rest >= Pow10(f - e) then kept + 1 else kept
  {
    hide Pow10;
    var p, q := Pow10(e), Pow10(f - e);
    PowAdd(e, f - e);
    DivCancel(m, q, p);
    DivMod(m, q, kept, rest);
    DivCancel(2 * m + q, 2 * q, p);
    HalfUp(m, kept, rest, q);
    Factors(m, p, q);
  }

  lemma Factors(m: int, p: int, q: int)
    ensures (2 * m + q) * p == 2 * m * p + p * q && 2 * q * p == 2 * (p * q) && q * p == p * q
  {
  }

  lemma TopDigit(t: int, p: int, r: int)
    requires 0 <= r < p
    ensures 2 * (t * p + r) >= 10 * p <==> t >= 5
  {
    if t >= 5 {
      if t > 5 { MulLess(5, t, p); }
    } else if t < 4 {
      MulLess(t, 4, p);
    }
  }

  /** The first digit of a run of digits decides whether it is worth at least half. */
  lemma LeadingDigit(s: string)
    requires s != "" && AllDigits(s)
    ensures 2 * DigitsValue(s) >= Pow10(|s|) <==> s[0] as int - 48 >= 5
  {
    hide Pow10;
    var head, tail := s[..1], s[1..];
    assert s == head + tail && head[..0] == "";
    DigitsConcat(head, tail);
    DigitsBound(tail);
    assert DigitsValue(head) == s[0] as int - 48;
    assert Pow10(|s|) == 10 * Pow10(|tail|) by { Tenfold(1, |tail|); }
    hide DigitsValue;
    TopDigit(s[0] as int - 48, Pow10(|tail|), DigitsValue(tail));
  }

  lemma Distribute(a: int, p: int, b: int, q: int)
    ensures (a * p + b) * q == a * (p * q) + b * q
  {
    assert a * p * q == a * (p * q);
    assert (a * p + b) * q == a * p * q + b * q;
  }

  /** The fraction, padded with zeros and cut to `exp` digits. */
  function Padded(frac: string, exp: nat): string {
    (frac + Zeros(exp))[..exp]
  }

  /** When nothing is dropped the kept digits are the exact value. */
  lemma ScalePads(d: Decimal, exp: nat)
    requires d.Valid() && |d.frac| <= exp
    ensures Padded(d.frac, exp) == d.frac + Zeros(exp - |d.frac|) && AllDigits(Padded(d.frac, exp))
    ensures DigitsValue(d.intPart) * Pow10(exp) + DigitsValue(Padded(d.frac, exp)) == d.Mantissa() * Pow10(exp - |d.frac|)
  {
    hide Pow10;
    var f := |d.frac|;
    assert Padded(d.frac, exp) == d.frac + Zeros(exp - f);
    DigitsConcat(d.intPart, d.frac);
    DigitsConcat(d.frac, Zeros(exp - f));
    ZerosValue(exp - f);
    PowAdd(f, exp - f);
    Distribute(DigitsValue(d.intPart), Pow10(f), DigitsValue(d.frac), Pow10(exp - f));
  }

  /** Otherwise it is the kept digits scaled, plus what is dropped; and the first digit dropped decides the rounding. */
  lemma ScaleDrops(d: Decimal, exp: nat)
    requires d.Valid() && |d.frac| > exp
    ensures Padded(d.frac, exp) == d.frac[..exp] && AllDigits(d.frac[..exp]) && AllDigits(d.frac[exp..])
    ensures var base, rest, q :=
              DigitsValue(d.intPart) * Pow10(exp) + DigitsValue(d.frac[..exp]), DigitsValue(d.frac[exp..]), Pow10(|d.frac| - exp);
      d.Mantissa() == base * q + rest && rest < q && (2 * rest >= q <==> d.frac[exp] as int - 48 >= 5)
  {
    hide Pow10, DigitsValue;
    var kept, dropped := d.frac[..exp], d.frac[exp..];
    assert d.frac == kept + dropped;
    DigitsConcat(d.intPart, d.frac);
    DigitsConcat(kept, dropped);
    DigitsBound(dropped);
    LeadingDigit(dropped);
    PowAdd(exp, |d.frac| - exp);
    Distribute(DigitsValue(d.intPart), Pow10(exp), DigitsValue(kept), Pow10(|d.frac| - exp));
  }

  /** The kept digits are the truncated value; rounding on the first dropped digit is rounding half up. */
  lemma ScaleExact(d: Decimal, exp: nat)
    requires d.Valid()
    ensures AllDigits(Padded(d.frac, exp))
    ensures var t := Truncate(d.Mantissa(), |d.frac|, exp);
      && DigitsValue(d.intPart) * Pow10(exp) + DigitsValue(Padded(d.frac, exp)) == t
      && ScaleHalfUp(d, exp) == RoundHalfUp(d.Mantissa(), |d.frac|, exp)
      && ScaleHalfUp(d, exp) in {t, t + 1}
  {
    hide Pow10, RoundHalfUp, Truncate, DigitsValue, Zeros;
    if |d.frac| <= exp {
      ScalePads(d, exp);
      ExactScale(d.Mantissa(), |d.frac|, exp);
      assert d.frac[..|d.frac|] == d.frac;
    } else {
      ScaleDrops(d, exp);
      assert d.frac[..exp] + Zeros(0) == d.frac[..exp];
      DroppedScale(d.Mantissa(), |d.frac|, exp,
                   DigitsValue(d.intPart) * Pow10(exp) + DigitsValue(d.frac[..exp]), DigitsValue(d.frac[exp..]));
    }
  }

  /** decimalToMinor accepts exactly the well-formed strings and rounds their exact value half up, away from zero. */
  lemma DecimalToMinorExact(amount: Option<string>, exp: nat)
    ensures DecimalToMinor(amount, exp) ==
      if amount.None? || ParseDecimal(Trim(amount.value)).None? then None
      else
        var d := ParseDecimal(Trim(amount.value)).value;
        Some(d.Signed(RoundHalfUp(d.Mantissa(), |d.frac|, exp)))
  {
    if amount.Some? && ParseDecimal(Trim(amount.value)).Some? {
      ScaleExact(ParseDecimal(Trim(amount.value)).value, exp);
    }
  }

  /**
   * The browser's conversion accepts the same strings, prints their exact value rounded half up, and so agrees with
   * the server.
   */
  lemma MajorToMinorAgrees(major: string, exp: nat)
    ensures MajorToMinor(major, exp) ==
      match ParseDecimal(Trim(major))
      case None => None
      case Some(d) => Some(IntToString(d.Signed(RoundHalfUp(d.Mantissa(), |d.frac|, exp))))
    ensures MajorToMinor(major, exp).Some? <==> DecimalToMinor(Some(major), exp).Some?
    ensures MajorToMinor(major, exp).Some? ==>
      MajorToMinor(major, exp).value == IntToString(DecimalToMinor(Some(major), exp).value)
  {
    hide ScaleHalfUp;
    if ParseDecimal(Trim(major)).Some? {
      ScaleExact(ParseDecimal(Trim(major)).value, exp);
    }
  }

  lemma IntToStringInjective(m: int, n: int)
    ensures IntToString(m) == IntToString(n) <==> m == n
  {
    PrintedValue(if m < 0 then -m else m);
    PrintedValue(if n < 0 then -n else n);
    assert m < 0 ==> IntToString(m)[1..] == NatToString(-m);
    assert n < 0 ==> IntToString(n)[1..] == NatToString(-n);
  }

  lemma SplitOnce(s: string)
    ensures var pieces, dot := Split(s, '.'), IndexOf(s, '.');
      && pieces[0] == s[..dot]
      && (dot == |s| ==> |pieces| == 1)
      && (dot < |s| && '.' !in s[dot + 1..] ==> |pieces| == 2 && pieces[1] == s[dot + 1..])
  {
    var dot := IndexOf(s, '.');
    if dot < |s| && '.' !in s[dot + 1..] {
      var rest := s[dot + 1..];
      assert IndexOf(rest, '.') == |rest|;
      assert Split(rest, '.') == [rest];
    }
  }

  /** toMinor cuts a well-formed string where the regular expression does. */
  lemma SplitsLikeParse(s: string)
    requires ParseDecimal(s).Some?
    ensures var d, neg := ParseDecimal(s).value, s != "" && s[0] == '-';
      var pieces := Split(if neg then s[1..] else s, '.');
      d.neg == neg && pieces[0] == d.intPart && (if |pieces| > 1 then pieces[1] else "") == d.frac
  {
    hide Split;
    var neg := s != "" && s[0] == '-';
    var rest := if neg then s[1..] else s;
    var dot := IndexOf(rest, '.');
    SplitOnce(rest);
    if dot < |rest| {
      NoDot(rest[dot + 1..]);
    }
  }

  lemma NoDot(digits: string)
    requires AllDigits(digits)
    ensures '.' !in digits
  {
  }

  /** On well-formed strings toMinor truncates toward zero, so it is decimalToMinor or one unit nearer zero. */
  lemma ToMinorTruncates(s: string, exp: nat)
    requires ParseDecimal(Trim(s)).Some?
    ensures var d := ParseDecimal(Trim(s)).value;
      var t := Truncate(d.Mantissa(), |d.frac|, exp);
      && ToMinor(s, exp) == Some(d.Signed(t))
      && DecimalToMinor(Some(s), exp) in {Some(d.Signed(t)), Some(d.Signed(t + 1))}
  {
    hide Pow10, RoundHalfUp, Truncate, ScaleHalfUp, Trim, Split, DigitsValue, Padded, ParseDecimal, AllDigits;
    ScaleExact(ParseDecimal(Trim(s)).value, exp);
    SplitsLikeParse(Trim(s));
    NotBlank(Trim(s));
  }

  lemma NotBlank(s: string)
    ensures ParseDecimal(s).Some? ==> s != "" && AllDigits(ParseDecimal(s).value.intPart)
  {
  }

  // ---- Round trips ----

  function Body(d: Decimal): string {
    d.intPart + if d.frac == "" then "" else "." + d.frac
  }

  /** The text of a decimal, as the regular expression reads it. */
  function Format(d: Decimal): string {
    if d.neg then "-" + Body(d) else Body(d)
  }

  /** The unsigned text: it starts and ends with a digit, and its first point ends the integer part. */
  lemma BodyParts(d: Decimal)
    requires d.Valid() && d.intPart != ""
    ensures var body := Body(d);
      && body != "" && IsDigit(body[0]) && IsDigit(body[|body| - 1])
      && IndexOf(body, '.') == |d.intPart| && body[..|d.intPart|] == d.intPart
      && (if d.frac == "" then |body| == |d.intPart| else |d.intPart| < |body| && body[|d.intPart| + 1..] == d.frac)
  {
    hide IndexOf;
    var tail := if d.frac == "" then "" else "." + d.frac;
    var body := d.intPart + tail;
    assert body[0] == d.intPart[0];
    assert body[|body| - 1] == if d.frac == "" then d.intPart[|d.intPart| - 1] else d.frac[|d.frac| - 1];
    FirstDot(d.intPart, tail);
  }

  lemma FormatParses(d: Decimal)
    requires d.Valid() && d.intPart != ""
    ensures ParseDecimal(Format(d)) == Some(d) && Trim(Format(d)) == Format(d)
  {
    hide IndexOf, Trim, Body, AllDigits;
    BodyParts(d);
    var body := Body(d);
    assert ("-" + body)[1..] == body;
    TrimFixed(Format(d));
  }

  /** What toMajor prints: the quotient, and the remainder padded to the exponent. */
  lemma ToMajorFormats(n: int, e: nat)
    ensures var abs: nat := if n < 0 then -n else n;
      var d := Decimal(n < 0, NatToString(Quotient(abs, Pow10(e))), if e == 0 then "" else PrintPadded(Remainder(abs, Pow10(e)), e));
      ToMajor(n, e) == Format(d) && d.Valid() && |d.frac| == e
  {
    hide Pow10, NatToString, AllDigits, Zeros, DigitsValue;
    var abs: nat := if n < 0 then -n else n;
    var intPart, frac := NatToString(Quotient(abs, Pow10(e))), PrintPadded(Remainder(abs, Pow10(e)), e);
    PrintedValue(Remainder(abs, Pow10(e)));
    PrintPaddedValue(Remainder(abs, Pow10(e)), e);
    NoDigits();
    assert (intPart + ".") + frac == intPart + ("." + frac) && intPart + "" == intPart;
  }

  lemma NoDigits()
    ensures AllDigits("")
  {
  }

  function PrintPadded(r: nat, e: nat): string {
    var s := NatToString(r);
    (if |s| < e then Zeros(e - |s|) else "") + s
  }

  lemma PrintPaddedValue(r: nat, e: nat)
    ensures AllDigits(PrintPadded(r, e)) && DigitsValue(PrintPadded(r, e)) == r
  {
    hide Pow10, NatToString, DigitsValue;
    var s := NatToString(r);
    PrintedValue(r);
    if |s| < e {
      ZerosValue(e - |s|);
      DigitsConcat(Zeros(e - |s|), s);
    } else {
      assert "" + s == s;
    }
  }

  /** What toMajor prints parses back to the number it was given, in units of 10^-minorUnit. */
  lemma ToMajorParses(n: int, e: nat)
    ensures var d := ParseDecimal(Trim(ToMajor(n, e)));
      d.Some? && d.value.neg == (n < 0) && |d.value.frac| == e && d.value.Mantissa() == if n < 0 then -n else n
  {
    hide Pow10, NatToString, DigitsValue, ToMajor, Format, PrintPadded, ParseDecimal, Trim;
    var abs: nat := if n < 0 then -n else n;
    var q, r := Quotient(abs, Pow10(e)), Remainder(abs, Pow10(e));
    var frac := if e == 0 then "" else PrintPadded(r, e);
    var d := Decimal(n < 0, NatToString(q), frac);
    ToMajorFormats(n, e);
    FormatParses(d);
    QuotientRemainder(abs, Pow10(e));
    PrintedValue(q);
    PrintPaddedValue(r, e);
    DigitsConcat(d.intPart, frac);
    if e == 0 {
      NoFraction(abs);
    }
  }

  lemma NoFraction(abs: nat)
    ensures Remainder(abs, Pow10(0)) == 0 && DigitsValue("") == 0
  {
  }

  lemma {:induction false} FirstDot(digits: string, tail: string)
    requires AllDigits(digits) && (tail != "" ==> tail[0] == '.')
    ensures IndexOf(digits + tail, '.') == |digits|
  {
    if digits == "" {
      assert digits + tail == tail;
    } else {
      assert (digits + tail)[1..] == digits[1..] + tail;
      FirstDot(digits[1..], tail);
    }
  }

  /** Every amount survives printing and parsing, by all three parsers and at every exponent. */
  lemma MoneyRoundTrip(n: int, e: nat)
    ensures ToMinor(ToMajor(n, e), e) == Some(n)
    ensures DecimalToMinor(Some(ToMajor(n, e)), e) == Some(n)
    ensures MajorToMinor(ToMajor(n, e), e) == Some(IntToString(n))
  {
    hide Pow10, Trim, ToMajor, ParseDecimal, RoundHalfUp, Truncate, DecimalToMinor, ToMinor, DigitsValue, ScaleHalfUp;
    var s := ToMajor(n, e);
    ToMajorParses(n, e);
    var d := ParseDecimal(Trim(s)).value;
    ExactScale(d.Mantissa(), e, e);
    assert Pow10(0) == 1 by { PowZero(); }
    DecimalToMinorExact(Some(s), e);
    ToMinorTruncates(s, e);
    MajorToMinorAgrees(s, e);
  }

  /** The whole units shown in a reminder are the printed amount rounded half up to exponent 0. */
  lemma WholeUnitsRound(n: int, e: nat)
    ensures DecimalToMinor(Some(ToMajor(n, e)), 0) == Some(WholeUnits(n, e))
  {
    hide Pow10, Trim, ToMajor, ParseDecimal, RoundHalfUp, DecimalToMinor, DigitsValue;
    ToMajorParses(n, e);
    DecimalToMinorExact(Some(ToMajor(n, e)), 0);
    RoundToUnits(if n < 0 then -n else n, e);
  }

  lemma RoundToUnits(m: nat, e: nat)
    ensures RoundHalfUp(m, e, 0) == if e == 0 then m else (m + Pow10(e) / 2) / Pow10(e)
  {
    if e == 0 {
      ExactScale(m, 0, 0);
    } else {
      var half := 5 * Pow10(e - 1);
      assert Pow10(e) == 2 * half && Pow10(0) == 1;
      DivCancel(m + half, 2 * half, 2);
    }
  }
}
