/** Amounts in rupees (iic_booking/communication/email_branding.py, format_inr): printed, and read again. */
module Money {
  import opened Common
  import opened Text
  import opened Lines

  /** A decimal value. A number is sign, digits and power of ten; zero has a sign. A NaN may carry a payload, 0 for
      none, and a signalling one makes every operation on it fail. */
  datatype Dec =
    | Dec(neg: bool, coefficient: nat, exponent: int)
    | Infinite(neg: bool)
    | NaN(neg: bool, payload: nat)
    | SignallingNaN(neg: bool, payload: nat)

  /** What a call does: it returns a text, or the rounding raises an error that nothing catches. */
  datatype Outcome = Returned(text: string) | Raised

  const RUPEE := '\U{20B9}'

  /** No more than 28 digits fit in a rounded number. */
  const PRECISION: nat := 28

  /* ---- Rounding to hundredths ---------------------------------------------------------------------------------- */

  function Power10(n: nat): (r: nat)
    ensures r > 0
  {
    if n == 0 then 1 else 10 * Power10(n - 1)
  }

  /** n / unit, rounded to the nearest, and to the even one of two. */
  function HalfEven(n: nat, unit: nat): nat
    requires unit > 0
  {
    var q, r := n / unit, n % unit;
    if 2 * r > unit || (2 * r == unit && q % 2 == 1) then q + 1 else q
  }

  /** The number of hundredths, rounded. */
  function Hundredths(d: Dec): nat
    requires d.Dec?
  {
    if d.exponent >= -2 then d.coefficient * Power10(d.exponent + 2)
    else HalfEven(d.coefficient, Power10(-2 - d.exponent))
  }

  /** No whole number is nearer to n / unit, and a tie goes to the even one. */
  lemma HalfEvenIsNearest(n: nat, unit: nat)
    requires unit > 0
    ensures var q := HalfEven(n, unit);
            && 2 * (n - q * unit) <= unit && 2 * (q * unit - n) <= unit
            && (2 * (n - q * unit) == unit || 2 * (q * unit - n) == unit ==> q % 2 == 0)
  {
    var q, r := n / unit, n % unit;
    assert n == q * unit + r && (q + 1) * unit == q * unit + unit;
  }

  lemma ProductMonotone(a: int, b: int, unit: nat)
    requires a <= b
    ensures a * unit <= b * unit
  {
  }

  /** Rounding reaches an even bound from half a unit below it on. */
  lemma HalfEvenReaches(n: nat, unit: nat, bound: nat)
    requires unit > 0 && bound % 2 == 0 && bound > 0
    ensures HalfEven(n, unit) >= bound <==> 2 * n >= 2 * bound * unit - unit
  {
    var q, r := n / unit, n % unit;
    assert n == q * unit + r;
    if q >= bound {
      ProductMonotone(bound, q, unit);
    } else if q + 1 < bound {
      ProductMonotone(q + 2, bound, unit);
      assert (q + 2) * unit == q * unit + 2 * unit;
      assert 2 * bound * unit == 2 * (bound * unit);
    } else {
      assert bound * unit == q * unit + unit;
      assert 2 * bound * unit == 2 * (bound * unit);
    }
  }

  /* ---- Printing ------------------------------------------------------------------------------------------------ */

  function ThreeDigits(n: nat): (s: string)
    requires n < 1000
    ensures |s| == 3 && AllDigits(s)
  {
    [DigitChar(n / 100), DigitChar(n / 10 % 10), DigitChar(n % 10)]
  }

  /** A whole number with a comma before every third digit from the end. */
  function Grouped(n: nat): string {
    if n < 1000 then Decimal(n) else Grouped(n / 1000) + "," + ThreeDigits(n % 1000)
  }

  function Sign(neg: bool): string {
    if neg then "-" else ""
  }

  /** An amount of hundredths, printed with the rupee sign, commas and two decimals. */
  function Print(neg: bool, hundredths: nat): string {
    [RUPEE] + Sign(neg) + Grouped(hundredths / 100) + "." + TwoDigits(hundredths % 100)
  }

  function PrintNaN(neg: bool, payload: nat): string {
    [RUPEE] + Sign(neg) + "NaN" + if payload == 0 then "" else Decimal(payload)
  }

  /** The rupee sign comes first, then the minus sign; a NaN is called that, with its payload behind it. */
  lemma SignsFirst(neg: bool, hundredths: nat, payload: nat)
    ensures Print(neg, hundredths)[0] == '\U{20B9}'
    ensures neg ==> Print(neg, hundredths)[1] == '-'
    ensures !neg ==> IsDigit(Print(neg, hundredths)[1])
    ensures PrintNaN(neg, payload) ==
              (if neg then "\U{20B9}-NaN" else "\U{20B9}NaN") + if payload == 0 then "" else Decimal(payload)
  {
    hide Grouped, TwoDigits, IsDigit, Decimal;
    GroupedBegins(hundredths / 100);
    NaNBegins(neg);
    hide Sign;
    SignThen(Sign(neg), Grouped(hundredths / 100), "." + TwoDigits(hundredths % 100));
  }

  lemma NaNBegins(neg: bool)
    ensures Sign(neg) == if neg then "-" else ""
    ensures [RUPEE] + Sign(neg) + "NaN" == if neg then "\U{20B9}-NaN" else "\U{20B9}NaN"
  {
  }

  lemma SignThen(sign: string, digits: string, rest: string)
    requires digits != "" && |sign| <= 1
    ensures [RUPEE] + sign + digits + rest != ""
    ensures ([RUPEE] + sign + digits + rest)[1] == if sign == "" then digits[0] else sign[0]
  {
  }

  lemma {:induction false} GroupedBegins(n: nat)
    ensures Grouped(n) != "" && IsDigit(Grouped(n)[0])
  {
    if n >= 1000 {
      GroupedBegins(n / 1000);
    }
  }

  /** Rounding refuses infinities and signalling NaNs; it keeps the last digits of the payload of a quiet one. */
  function FormatDecimal(d: Dec): Outcome {
    match d
    case Dec(neg, _, _) =>
      if Hundredths(d) >= Power10(PRECISION) then Raised else Returned(Print(neg, Hundredths(d)))
    case NaN(neg, payload) => Returned(PrintNaN(neg, payload % Power10(PRECISION)))
    case Infinite(_) => Raised
    case SignallingNaN(_, _) => Raised
  }

  /* ---- Reading ------------------------------------------------------------------------------------------------- */

  function Remove(s: string, c: char): string {
    if s == "" then "" else (if s[0] == c then "" else [s[0]]) + Remove(s[1..], c)
  }

  function FirstDot(s: string): (k: nat)
    ensures k <= |s|
  {
    if s == "" || s[0] == '.' then 0 else 1 + FirstDot(s[1..])
  }

  /** Digits with at most one decimal point among them, and at least one digit. */
  function ReadUnsigned(s: string, neg: bool): Option<Dec> {
    var k := FirstDot(s);
    var whole, fraction := s[..k], if k < |s| then s[k + 1..] else "";
    if AllDigits(whole) && AllDigits(fraction) && |whole| + |fraction| > 0
    then Some(Dec(neg, ParseNat(whole + fraction), -|fraction|))
    else None
  }

  /** Infinities and NaNs, in any case; digits after NaN are its payload. */
  function ReadSpecial(s: string, neg: bool): Option<Dec> {
    var l := Lower(s);
    if l == "inf" || l == "infinity" then Some(Infinite(neg))
    else if "nan" <= l && AllDigits(s[3..]) then Some(NaN(neg, ParseNat(s[3..])))
    else if "snan" <= l && AllDigits(s[4..]) then Some(SignallingNaN(neg, ParseNat(s[4..])))
    else None
  }

  function ReadUnsignedAny(s: string, neg: bool): Option<Dec> {
    if ReadUnsigned(s, neg).Some? then ReadUnsigned(s, neg) else ReadSpecial(s, neg)
  }

  function ReadPlain(s: string): Option<Dec> {
    if s != "" && (s[0] == '-' || s[0] == '+') then ReadUnsignedAny(s[1..], s[0] == '-') else ReadUnsignedAny(s, false)
  }

  /** What the decimal reader makes of other texts: numbers such as 1e5, or no number at all. */
  type OtherReader = string -> Option<Dec>

  function ReadNumber(s: string, other: OtherReader): Option<Dec> {
    if ReadPlain(s).Some? then ReadPlain(s) else other(s)
  }

  function FormatText(text: string, other: OtherReader): Outcome {
    if text == "" then Returned("")
    else
      match ReadNumber(Trim(Remove(Remove(text, ','), RUPEE)), other)
      case None => Returned("")
      case Some(d) => FormatDecimal(d)
  }

  /* ---- The printer and the reader undo each other -------------------------------------------------------------- */

  lemma {:induction false} RemoveAppend(a: string, b: string, c: char)
    ensures Remove(a + b, c) == Remove(a, c) + Remove(b, c)
  {
    if a == "" {
      assert a + b == b;
    } else {
      RemoveAppend(a[1..], b, c);
      assert (a + b)[1..] == a[1..] + b && (a + b)[0] == a[0];
      Regroup(if a[0] == c then "" else [a[0]], Remove(a[1..], c), Remove(b, c));
    }
  }

  lemma {:induction false} RemoveNone(s: string, c: char)
    requires c !in s
    ensures Remove(s, c) == s
  {
    if s != "" {
      RemoveNone(s[1..], c);
    }
  }

  lemma NotDigits(s: string)
    requires AllDigits(s)
    ensures ',' !in s && RUPEE !in s
  {
  }

  lemma RemoveGroup(high: string, low: string)
    requires AllDigits(low)
    ensures Remove(high + "," + low, ',') == Remove(high, ',') + low
  {
    RemoveAppend(high + ",", low, ',');
    RemoveAppend(high, ",", ',');
    RemoveSeparator();
    NotDigits(low);
    RemoveNone(low, ',');
  }

  lemma RemoveSeparator()
    ensures Remove(",", ',') == ""
  {
  }

  lemma {:induction false} RemoveCommas(n: nat)
    ensures Remove(Grouped(n), ',') == Decimal(n)
  {
    hide Remove, Decimal, ThreeDigits;
    if n < 1000 {
      NotDigits(Decimal(n));
      RemoveNone(Decimal(n), ',');
    } else {
      RemoveCommas(n / 1000);
      RemoveGroup(Grouped(n / 1000), ThreeDigits(n % 1000));
      LastThree(n);
    }
  }

  lemma {:induction false} DecimalLength(n: nat)
    requires n < 1000
    ensures |Decimal(n)| <= 3
  {
    if n >= 10 {
      assert Decimal(n) == Decimal(n / 10) + [DigitChar(n % 10)];
      if n >= 100 {
        assert Decimal(n / 10) == Decimal(n / 10 / 10) + [DigitChar(n / 10 % 10)];
      }
    }
  }

  /** Counted from the end, every fourth character is a comma and no other, and none stands first. */
  ghost predicate Commas(s: string) {
    s != "" && s[0] != ',' && forall i :: 0 <= i < |s| ==> (s[|s| - 1 - i] == ',' <==> i % 4 == 3)
  }

  lemma FourLater(i: nat)
    requires i >= 4
    ensures i % 4 == (i - 4) % 4
  {
  }

  lemma GroupAdded(high: string, low: string)
    requires |low| == 3 && ',' !in low && Commas(high)
    ensures Commas(high + "," + low)
  {
    var s := high + "," + low;
    forall i | 0 <= i < |s|
      ensures s[|s| - 1 - i] == ',' <==> i % 4 == 3
    {
      if i >= 4 {
        assert s[|s| - 1 - i] == high[|high| - 1 - (i - 4)];
        FourLater(i);
      } else if i < 3 {
        assert s[|s| - 1 - i] == low[2 - i];
      }
    }
  }

  /** A whole number is grouped by thousands. */
  lemma {:induction false} CommasEveryThree(n: nat)
    ensures Commas(Grouped(n))
  {
    if n < 1000 {
      DecimalLength(n);
    } else {
      NotDigits(ThreeDigits(n % 1000));
      CommasEveryThree(n / 1000);
      GroupAdded(Grouped(n / 1000), ThreeDigits(n % 1000));
    }
  }

  lemma DigitsOfThousand(n: nat)
    ensures n / 10 / 10 == n / 100 && n / 100 / 10 == n / 1000
    ensures n % 1000 / 100 == n / 100 % 10 && n % 1000 / 10 % 10 == n / 10 % 10 && n % 1000 % 10 == n % 10
  {
  }

  lemma LastThree(n: nat)
    requires n >= 1000
    ensures Decimal(n) == Decimal(n / 1000) + ThreeDigits(n % 1000)
  {
    DigitsOfThousand(n);
    assert Decimal(n) == Decimal(n / 10) + [DigitChar(n % 10)];
    assert Decimal(n / 10) == Decimal(n / 100) + [DigitChar(n / 10 % 10)];
    assert Decimal(n / 100) == Decimal(n / 1000) + [DigitChar(n / 100 % 10)];
  }

  lemma RemoveParts(a: string, b: string, b': string, c: string, d: string, gone: char)
    requires gone !in a && gone !in c && gone !in d && Remove(b, gone) == b'
    ensures Remove(a + b + c + d, gone) == a + b' + c + d
  {
    RemoveAppend(a + b + c, d, gone);
    RemoveAppend(a + b, c, gone);
    RemoveAppend(a, b, gone);
    RemoveNone(a, gone);
    RemoveNone(c, gone);
    RemoveNone(d, gone);
  }

  lemma RupeeGoes(rest: string)
    requires RUPEE !in rest
    ensures Remove([RUPEE] + rest, RUPEE) == rest
  {
    RemoveNone(rest, RUPEE);
    assert ([RUPEE] + rest)[1..] == rest;
  }

  /** An amount without sign, commas and rupee sign. */
  function Body(hundredths: nat): string {
    Decimal(hundredths / 100) + "." + TwoDigits(hundredths % 100)
  }

  lemma BodyEnds(hundredths: nat)
    ensures var s := Body(hundredths);
            s != "" && RUPEE !in s && IsDigit(s[0]) && IsDigit(s[|s| - 1])
  {
  }

  lemma CommasGo(neg: bool, hundredths: nat)
    ensures Remove(Print(neg, hundredths), ',') == [RUPEE] + (Sign(neg) + Body(hundredths))
  {
    var n, cents := hundredths / 100, TwoDigits(hundredths % 100);
    NotDigits(cents);
    RemoveCommas(n);
    RemoveParts([RUPEE] + Sign(neg), Grouped(n), Decimal(n), ".", cents, ',');
    Regrouped([RUPEE], Sign(neg), Decimal(n), ".", cents);
  }

  lemma Regrouped(a: string, b: string, c: string, d: string, e: string)
    ensures a + b + c + d + e == a + (b + (c + d + e))
  {
  }

  /** The text without commas and rupee sign. */
  lemma Cleaned(neg: bool, hundredths: nat)
    ensures Trim(Remove(Remove(Print(neg, hundredths), ','), RUPEE)) == Sign(neg) + Body(hundredths)
  {
    CommasGo(neg, hundredths);
    BodyEnds(hundredths);
    SignedEnds(neg, Body(hundredths));
    RupeeGoes(Sign(neg) + Body(hundredths));
    TrimNothing(Sign(neg) + Body(hundredths));
  }

  lemma SignedEnds(neg: bool, body: string)
    requires body != "" && RUPEE !in body && IsDigit(body[0]) && IsDigit(body[|body| - 1])
    ensures var s := Sign(neg) + body;
            s != "" && RUPEE !in s && !IsSpace(s[0]) && !IsSpace(s[|s| - 1])
  {
  }

  lemma {:induction false} FirstDotAt(whole: string, rest: string)
    requires AllDigits(whole)
    ensures FirstDot(whole + "." + rest) == |whole|
  {
    if whole != "" {
      FirstDotAt(whole[1..], rest);
      assert (whole + "." + rest)[1..] == whole[1..] + "." + rest;
    }
  }

  lemma ParseTwoMore(whole: string, n: nat)
    requires AllDigits(whole) && n < 100
    ensures ParseNat(whole + TwoDigits(n)) == 100 * ParseNat(whole) + n
  {
    var s := whole + TwoDigits(n);
    assert s[..|s| - 1] == whole + [DigitChar(n / 10)];
    assert (whole + [DigitChar(n / 10)])[..|whole|] == whole;
  }

  lemma ReadsUnsigned(neg: bool, hundredths: nat)
    ensures ReadUnsigned(Body(hundredths), neg) == Some(Dec(neg, hundredths, -2))
  {
    var whole, cents := Decimal(hundredths / 100), TwoDigits(hundredths % 100);
    FirstDotAt(whole, cents);
    ParseTwoMore(whole, hundredths % 100);
    ParseOfDecimal(hundredths / 100);
    PartsRead(whole, cents, neg);
  }

  lemma PartsRead(whole: string, fraction: string, neg: bool)
    requires AllDigits(whole) && AllDigits(fraction) && whole + fraction != ""
    requires FirstDot(whole + "." + fraction) == |whole|
    ensures ReadUnsigned(whole + "." + fraction, neg) == Some(Dec(neg, ParseNat(whole + fraction), -|fraction|))
  {
    var s := whole + "." + fraction;
    assert s[..|whole|] == whole && s[|whole| + 1..] == fraction;
    assert |whole + fraction| == |whole| + |fraction|;
  }

  lemma SignRead(neg: bool, s: string, d: Dec)
    requires s != "" && s[0] != '-' && s[0] != '+' && ReadUnsignedAny(s, neg) == Some(d)
    ensures ReadPlain(Sign(neg) + s) == Some(d)
  {
    var t := Sign(neg) + s;
    if neg {
      assert t[0] == '-' && t[1..] == s;
    } else {
      assert t == s;
    }
  }

  /** For every signed amount in hundredths, the printed text without commas and rupee sign reads as that amount. */
  lemma PrintReadsBack(neg: bool, hundredths: nat, other: OtherReader)
    ensures ReadNumber(Trim(Remove(Remove(Print(neg, hundredths), ','), RUPEE)), other)
         == Some(Dec(neg, hundredths, -2))
  {
    Cleaned(neg, hundredths);
    BodyEnds(hundredths);
    ReadsUnsigned(neg, hundredths);
    SignRead(neg, Body(hundredths), Dec(neg, hundredths, -2));
  }

  /** Two amounts with the same text are the same amount with the same sign. */
  lemma PrintInjective(neg: bool, hundredths: nat, neg': bool, hundredths': nat)
    requires Print(neg, hundredths) == Print(neg', hundredths')
    ensures neg == neg' && hundredths == hundredths'
  {
    PrintReadsBack(neg, hundredths, s => None);
    PrintReadsBack(neg', hundredths', s => None);
  }

  lemma PayloadDigits(payload: nat)
    ensures var s := if payload == 0 then "" else Decimal(payload);
            AllDigits(s) && ParseNat(s) == payload
  {
    ParseOfDecimal(payload);
  }

  lemma ReadsNaN(neg: bool, digits: string)
    requires AllDigits(digits)
    ensures ReadUnsignedAny("NaN" + digits, neg) == Some(NaN(neg, ParseNat(digits)))
  {
    var s := "NaN" + digits;
    var l := Lower(s);
    assert s[3..] == digits;
    assert l[0] == 'n' && l[..3] == "nan";
    FirstNotDigit(s);
  }

  lemma FirstNotDigit(s: string)
    requires s != "" && !IsDigit(s[0]) && s[0] != '.'
    ensures ReadUnsigned(s, false).None? && ReadUnsigned(s, true).None?
  {
    assert FirstDot(s) > 0 && s[..FirstDot(s)][0] == s[0];
  }

  lemma NaNEnds(neg: bool, digits: string)
    requires AllDigits(digits)
    ensures var s := Sign(neg) + ("NaN" + digits);
            s != "" && ',' !in s && RUPEE !in s && !IsSpace(s[0]) && !IsSpace(s[|s| - 1])
  {
    NotDigits(digits);
  }

  /** A text that only the rupee sign separates from its reading. */
  lemma OnlyRupeeGoes(rest: string)
    requires rest != "" && ',' !in rest && RUPEE !in rest && !IsSpace(rest[0]) && !IsSpace(rest[|rest| - 1])
    ensures Trim(Remove(Remove([RUPEE] + rest, ','), RUPEE)) == rest
  {
    RemoveNone([RUPEE] + rest, ',');
    RupeeGoes(rest);
    TrimNothing(rest);
  }

  lemma NaNText(neg: bool, payload: nat)
    ensures var digits := if payload == 0 then "" else Decimal(payload);
            PrintNaN(neg, payload) == [RUPEE] + (Sign(neg) + ("NaN" + digits))
  {
  }

  lemma NaNReadsBack(neg: bool, payload: nat, other: OtherReader)
    ensures ReadNumber(Trim(Remove(Remove(PrintNaN(neg, payload), ','), RUPEE)), other) == Some(NaN(neg, payload))
  {
    var digits := if payload == 0 then "" else Decimal(payload);
    PayloadDigits(payload);
    NaNText(neg, payload);
    NaNEnds(neg, digits);
    OnlyRupeeGoes(Sign(neg) + ("NaN" + digits));
    ReadsNaN(neg, digits);
    SignRead(neg, "NaN" + digits, NaN(neg, payload));
  }

  /** Formatting what was formatted changes nothing, for every text and every value. */
  lemma FormatTwice(d: Dec, text: string, other: OtherReader)
    ensures FormatDecimal(d).Returned? ==> FormatText(FormatDecimal(d).text, other) == FormatDecimal(d)
    ensures FormatText(text, other).Returned? ==>
              FormatText(FormatText(text, other).text, other) == FormatText(text, other)
  {
    FormatDecimalTwice(d, other);
    var number := ReadNumber(Trim(Remove(Remove(text, ','), RUPEE)), other);
    if text != "" && number.Some? {
      FormatDecimalTwice(number.value, other);
    }
  }

  lemma FormatDecimalTwice(d: Dec, other: OtherReader)
    ensures FormatDecimal(d).Returned? ==> FormatText(FormatDecimal(d).text, other) == FormatDecimal(d)
  {
    hide Power10, Hundredths, Print, PrintNaN;
    match d
    case Dec(neg, _, _) =>
      if Hundredths(d) < Power10(PRECISION) {
        FormatNumberTwice(neg, Hundredths(d), other);
      }
    case NaN(neg, payload) => FormatNaNTwice(neg, payload % Power10(PRECISION), other);
    case _ =>
  }

  lemma HundredthsOfCents(neg: bool, hundredths: nat)
    ensures Hundredths(Dec(neg, hundredths, -2)) == hundredths
  {
    assert Power10(0) == 1;
  }

  lemma FormatNumberTwice(neg: bool, hundredths: nat, other: OtherReader)
    requires hundredths < Power10(PRECISION)
    ensures FormatText(Print(neg, hundredths), other) == Returned(Print(neg, hundredths))
  {
    hide Power10, Hundredths;
    PrintReadsBack(neg, hundredths, other);
    HundredthsOfCents(neg, hundredths);
    FormatIsOfNumber(Print(neg, hundredths), other, Dec(neg, hundredths, -2));
  }

  lemma FormatNaNTwice(neg: bool, payload: nat, other: OtherReader)
    requires payload < Power10(PRECISION)
    ensures FormatText(PrintNaN(neg, payload), other) == Returned(PrintNaN(neg, payload))
  {
    NaNReadsBack(neg, payload, other);
    SmallRemainder(payload, Power10(PRECISION));
    FormatIsOfNumber(PrintNaN(neg, payload), other, NaN(neg, payload));
  }

  lemma FormatIsOfNumber(text: string, other: OtherReader, d: Dec)
    requires text != "" && ReadNumber(Trim(Remove(Remove(text, ','), RUPEE)), other) == Some(d)
    ensures FormatText(text, other) == FormatDecimal(d)
  {
  }

  lemma SmallRemainder(n: nat, m: nat)
    requires n < m
    ensures n % m == n
  {
  }

  /* ---- What the text says -------------------------------------------------------------------------------------- */

  /** The text of a decimal, without commas and rupee sign, reads as its number of hundredths, with its sign: all of it
      when it has no more than two decimals, and the nearest with ties to even otherwise. */
  lemma FormatSays(d: Dec, text: string, other: OtherReader) returns (h: nat)
    requires d.Dec? && FormatDecimal(d) == Returned(text)
    ensures ReadNumber(Trim(Remove(Remove(text, ','), RUPEE)), other) == Some(Dec(d.neg, h, -2))
    ensures d.exponent >= -2 ==> h == d.coefficient * Power10(d.exponent + 2)
    ensures d.exponent < -2 ==>
              var unit := Power10(-2 - d.exponent);
              && 2 * (h * unit - d.coefficient) <= unit && 2 * (d.coefficient - h * unit) <= unit
              && (2 * (h * unit - d.coefficient) == unit || 2 * (d.coefficient - h * unit) == unit ==> h % 2 == 0)
  {
    hide Print, Power10, Remove, Trim, ReadNumber;
    h := Hundredths(d);
    PrintReadsBack(d.neg, h, other);
    if d.exponent < -2 {
      HalfEvenIsNearest(d.coefficient, Power10(-2 - d.exponent));
    }
  }

  /** And so for a text that reads as a decimal. */
  lemma FormatTextSays(text: string, d: Dec, other: OtherReader) returns (h: nat)
    requires text != "" && ReadNumber(Trim(Remove(Remove(text, ','), RUPEE)), other) == Some(d)
    requires d.Dec? && FormatText(text, other).Returned?
    ensures ReadNumber(Trim(Remove(Remove(FormatText(text, other).text, ','), RUPEE)), other) == Some(Dec(d.neg, h, -2))
    ensures d.exponent >= -2 ==> h == d.coefficient * Power10(d.exponent + 2)
    ensures d.exponent < -2 ==>
              var unit := Power10(-2 - d.exponent);
              && 2 * (h * unit - d.coefficient) <= unit && 2 * (d.coefficient - h * unit) <= unit
              && (2 * (h * unit - d.coefficient) == unit || 2 * (d.coefficient - h * unit) == unit ==> h % 2 == 0)
  {
    hide FormatDecimal, Power10, Remove, Trim, ReadNumber;
    h := FormatSays(d, FormatText(text, other).text, other);
  }

  /** Digits with a point before, among or behind them read as the number they write. */
  lemma PointRead(whole: string, fraction: string, neg: bool)
    requires AllDigits(whole) && AllDigits(fraction) && whole + fraction != ""
    ensures ReadUnsigned(whole + "." + fraction, neg) == Some(Dec(neg, ParseNat(whole + fraction), -|fraction|))
  {
    hide FirstDot, ReadUnsigned, ParseNat;
    FirstDotAt(whole, fraction);
    PartsRead(whole, fraction, neg);
  }

  /** And so do digits alone. */
  lemma WholeRead(whole: string, neg: bool)
    requires AllDigits(whole) && whole != ""
    ensures ReadUnsigned(whole, neg) == Some(Dec(neg, ParseNat(whole), 0))
  {
    hide FirstDot, ParseNat, AllDigits;
    NoDot(whole);
    NoDigits();
    assert whole[..|whole|] == whole && whole + "" == whole;
  }

  /** Nothing else is read as a number: there is a digit, and there are only digits and points. */
  lemma OnlyNumbersRead(s: string, neg: bool, i: nat)
    requires i < |s|
    ensures ReadUnsigned(s, neg).Some? ==> s != "." && (IsDigit(s[i]) || s[i] == '.')
    ensures ReadUnsigned("", neg) == None
  {
    var k := FirstDot(s);
    DotAt(s);
    if ReadUnsigned(s, neg).Some? && i != k {
      assert i < k ==> s[..k][i] == s[i];
      assert i > k ==> s[k + 1..][i - k - 1] == s[i];
    }
  }

  lemma {:induction false} DotAt(s: string)
    ensures FirstDot(s) < |s| ==> s[FirstDot(s)] == '.'
  {
    if s != "" {
      DotAt(s[1..]);
    }
  }

  /** A sign in front is read as such, a missing one as plus. */
  lemma SignsRead(digits: string)
    requires AllDigits(digits) && digits != ""
    ensures ReadPlain(digits) == Some(Dec(false, ParseNat(digits), 0)) == ReadPlain("+" + digits)
    ensures ReadPlain("-" + digits) == Some(Dec(true, ParseNat(digits), 0))
  {
    hide ReadUnsigned, ParseNat, ReadSpecial;
    WholeRead(digits, false);
    WholeRead(digits, true);
    assert IsDigit(digits[0]);
    assert ("+" + digits)[1..] == digits && ("-" + digits)[1..] == digits;
  }

  /** Infinities and NaNs are read in any case. */
  lemma SpecialsRead(neg: bool)
    ensures ReadSpecial("Inf", neg) == Some(Infinite(neg)) == ReadSpecial("Infinity", neg)
    ensures ReadSpecial("NaN", neg) == Some(NaN(neg, 0)) && ReadSpecial("sNaN", neg) == Some(SignallingNaN(neg, 0))
  {
    assert Lower("Inf") == "inf" && Lower("Infinity") == "infinity";
    assert Lower("NaN") == "nan" && Lower("sNaN") == "snan";
    assert "NaN"[3..] == "" && "sNaN"[4..] == "";
  }

  lemma NoDigits()
    ensures AllDigits("")
  {
  }

  lemma {:induction false} NoDot(s: string)
    requires AllDigits(s)
    ensures FirstDot(s) == |s|
  {
    if s != "" {
      NoDot(s[1..]);
    }
  }

  lemma PaddedDigits()
    ensures ThreeDigits(80) == "080" && TwoDigits(0) == "00" && Decimal(7) == "7"
  {
    DigitsWritten();
  }

  lemma GroupedThousands()
    ensures Grouped(7_080) == "7,080"
  {
    PaddedDigits();
    assert Grouped(7) == Decimal(7);
    assert Grouped(7_080) == Grouped(7) + "," + ThreeDigits(80);
  }

  lemma ThousandsPrinted()
    ensures Print(false, 708_000) == "\U{20B9}7,080.00"
  {
    hide Grouped;
    GroupedThousands();
    PaddedDigits();
  }

  lemma ReadThousands()
    ensures ParseNat("7080") == 7080
  {
    assert "7080"[..3] == "708" && "708"[..2] == "70" && "70"[..1] == "7" && "7"[..0] == "";
  }

  lemma NothingToClean(s: string)
    requires s != "" && ',' !in s && RUPEE !in s && !IsSpace(s[0]) && !IsSpace(s[|s| - 1])
    ensures Trim(Remove(Remove(s, ','), RUPEE)) == s
  {
    RemoveNone(s, ',');
    RemoveNone(s, RUPEE);
    TrimNothing(s);
  }

  lemma CleanedThousands()
    ensures Trim(Remove(Remove("7080", ','), RUPEE)) == "7080"
  {
    hide Trim, Remove;
    ThousandsAreDigits();
    NotDigits("7080");
    NothingToClean("7080");
  }

  lemma ThousandsAreDigits()
    ensures AllDigits("7080") && RUPEE !in "7080" && !IsSpace("7080"[0]) && !IsSpace("7080"[3])
  {
  }

  lemma ThousandsRead(other: OtherReader)
    ensures ReadNumber("7080", other) == Some(Dec(false, 7080, 0))
  {
    hide ReadUnsigned, ReadSpecial, ParseNat;
    WholeRead("7080", false);
    ReadThousands();
  }

  /** As the documentation of format_inr has it. */
  lemma SevenThousandEighty(other: OtherReader)
    ensures FormatText("7080", other) == Returned("\U{20B9}7,080.00")
  {
    hide FormatDecimal, ReadNumber, Trim, Remove, Print;
    CleanedThousands();
    ThousandsRead(other);
    ThousandsPrinted();
    WholeRupees(7080);
  }

  lemma WholeRupees(n: nat)
    requires n < 100_000_000
    ensures FormatDecimal(Dec(false, n, 0)) == Returned(Print(false, 100 * n))
  {
    hide Print;
    PrecisionIs();
    assert Power10(2) == 100;
  }

  /** The largest rounded number has 28 digits. */
  lemma PrecisionIs()
    ensures Power10(PRECISION) == 10_000_000_000_000_000_000_000_000_000
  {
    hide Power10;
    assert Power10(1) == 10 by {
      PowerOne();
    }
    Thousandfold(1);
    Thousandfold(4);
    Thousandfold(7);
    Thousandfold(10);
    Thousandfold(13);
    Thousandfold(16);
    Thousandfold(19);
    Thousandfold(22);
    Thousandfold(25);
  }

  lemma PowerOne()
    ensures Power10(1) == 10
  {
    assert Power10(0) == 1;
  }

  lemma Thousandfold(n: nat)
    ensures Power10(n + 3) == 1000 * Power10(n)
  {
    assert Power10(n + 1) == 10 * Power10(n);
    assert Power10(n + 2) == 10 * Power10(n + 1);
    assert Power10(n + 3) == 10 * Power10(n + 2);
  }

  /* ---- When it raises ------------------------------------------------------------------------------------------ */

  /** The number is at least bound - 1/2 hundredths; without rounding, at least bound hundredths. */
  predicate AtLeast(d: Dec, bound: nat)
    requires d.Dec?
  {
    if d.exponent >= -2 then d.coefficient * Power10(d.exponent + 2) >= bound
    else var unit := Power10(-2 - d.exponent); 2 * d.coefficient >= 2 * bound * unit - unit
  }

  /** What cannot be rounded to hundredths: numbers from 10^28 hundredths less one half on, infinities, and signalling
      NaNs. */
  predicate Unroundable(d: Dec) {
    (d.Dec? && AtLeast(d, Power10(PRECISION))) || d.Infinite? || d.SignallingNaN?
  }

  /** Formatting raises exactly for these. */
  lemma RaisesIff(d: Dec)
    ensures FormatDecimal(d).Raised? <==> Unroundable(d)
  {
    if d.Dec? {
      BoundIsEven(PRECISION);
      HundredthsReach(d, Power10(PRECISION));
    }
  }

  /** And a text makes it raise exactly when it is read as one of these. */
  lemma TextRaisesIff(text: string, other: OtherReader)
    ensures
      var number := ReadNumber(Trim(Remove(Remove(text, ','), RUPEE)), other);
      FormatText(text, other).Raised? <==> text != "" && number.Some? && Unroundable(number.value)
  {
    var number := ReadNumber(Trim(Remove(Remove(text, ','), RUPEE)), other);
    if number.Some? {
      RaisesIff(number.value);
    }
  }

  lemma InfIsRead()
    ensures ReadPlain("inf") == Some(Infinite(false))
  {
    FirstNotDigit("inf");
    assert Lower("inf") == "inf";
  }

  lemma InfCleaned()
    ensures Trim(Remove(Remove("inf", ','), RUPEE)) == "inf"
  {
    InfIsClean();
    NothingToClean("inf");
  }

  lemma InfIsClean()
    ensures ',' !in "inf" && RUPEE !in "inf"
    ensures !IsSpace("inf"[0]) && !IsSpace("inf"[2])
  {
  }

  /** An infinite float arrives as the text inf, and raises. */
  lemma InfRaises(other: OtherReader)
    ensures FormatText("inf", other).Raised?
  {
    InfCleaned();
    InfIsRead();
  }

  /** So does the amount 10^26. */
  lemma LargeRaises()
    ensures FormatDecimal(Dec(false, 1, 26)).Raised?
  {
  }

  lemma HundredthsReach(d: Dec, bound: nat)
    requires d.Dec? && bound % 2 == 0 && bound > 0
    ensures Hundredths(d) >= bound <==> AtLeast(d, bound)
  {
    if d.exponent < -2 {
      HalfEvenReaches(d.coefficient, Power10(-2 - d.exponent), bound);
    }
  }

  lemma BoundIsEven(n: nat)
    requires n > 0
    ensures Power10(n) % 2 == 0
  {
    assert Power10(n) == 2 * (5 * Power10(n - 1));
  }
}
