/** Weeks of the year as section 4.1.4 of ISO 8601:2004 numbers them, on ordinal days of the Gregorian calendar
    (iic_booking/automation/oic_alerts.py, last_full_week and week_key). */
module WeekDates {
  import opened Text

  /** Days count from 1, the first of January of the year 1, which is a Monday. */
  type Day = d: int | d >= 1 witness 1

  /** Monday is 0. */
  function Weekday(d: Day): (w: nat)
    ensures w < 7
  {
    (d - 1) % 7
  }

  function MondayOf(d: Day): Day {
    d - Weekday(d)
  }

  /** The first of January of year y. */
  function NewYear(y: int): int
    requires y >= 1
  {
    var before := y - 1;
    365 * before + before / 4 - before / 100 + before / 400 + 1
  }

  /** The year a day is in, looked for from year y on. */
  function YearFrom(d: Day, y: int): (r: int)
    requires y >= 1 && NewYear(y) <= d
    ensures r >= y && NewYear(r) <= d < NewYear(r + 1)
    decreases d - NewYear(y)
  {
    if d < NewYear(y + 1) then y else YearFrom(d, y + 1)
  }

  function YearOf(d: Day): int {
    YearFrom(d, 1)
  }

  /** How often a whole number of years is reached from n to n + 1. */
  lemma Steps(n: nat)
    ensures (n + 1) / 4 == n / 4 + if (n + 1) % 4 == 0 then 1 else 0
    ensures (n + 1) / 100 == n / 100 + if (n + 1) % 100 == 0 then 1 else 0
    ensures (n + 1) / 400 == n / 400 + if (n + 1) % 400 == 0 then 1 else 0
  {
  }

  lemma OfHundred(y: nat, q: nat)
    requires y == 100 * q
    ensures y % 4 == 0
  {
    assert y == 4 * (25 * q);
  }

  lemma OfFourHundred(y: nat, q: nat)
    requires y == 400 * q
    ensures y % 100 == 0
  {
    assert y == 100 * (4 * q);
  }

  /** Every fourth year has a day more, except for the hundredth ones that are not four-hundredth. */
  lemma LeapYears(y: int)
    requires y >= 1
    ensures NewYear(1) == 1
    ensures NewYear(y + 1) - NewYear(y) == if y % 4 == 0 && (y % 100 != 0 || y % 400 == 0) then 366 else 365
  {
    Steps(y - 1);
    if y % 100 == 0 {
      OfHundred(y, y / 100);
    }
    if y % 400 == 0 {
      OfFourHundred(y, y / 400);
    }
  }

  lemma YearLength(y: int)
    requires y >= 1
    ensures 365 <= NewYear(y + 1) - NewYear(y) <= 366
  {
    LeapYears(y);
  }

  lemma {:induction false} YearsAscend(y: int, z: int)
    requires 1 <= y <= z
    ensures NewYear(y) <= NewYear(z)
    decreases z - y
  {
    if y < z {
      YearsAscend(y, z - 1);
      YearLength(z - 1);
    }
  }

  /** The year of a day is the only one it can be in. */
  lemma YearIs(d: Day, y: int)
    requires y >= 1
    ensures YearOf(d) == y <==> NewYear(y) <= d < NewYear(y + 1)
  {
    var r := YearOf(d);
    hide NewYear;
    if r < y {
      YearsAscend(r + 1, y);
    } else if y < r {
      YearsAscend(y + 1, r);
    }
  }

  /** From a Monday on, the days of the week follow each other. */
  lemma WeekdaysFollow(d: Day)
    ensures Weekday(1) == 0
    ensures Weekday(d + 1) == if Weekday(d) == 6 then 0 else Weekday(d) + 1
  {
  }

  /** The week belongs to the year its Thursday is in. */
  function Thursday(d: Day): Day {
    MondayOf(d) + 3
  }

  function WeekYear(d: Day): int {
    YearOf(Thursday(d))
  }

  function WeekNumber(d: Day): int {
    (Thursday(d) - NewYear(WeekYear(d))) / 7 + 1
  }

  /** The fourth of January is in the first week of its year. */
  lemma FirstWeek(y: int)
    requires y >= 1
    ensures WeekYear(NewYear(y) + 3) == y && WeekNumber(NewYear(y) + 3) == 1
  {
    YearsAscend(1, y);
    YearLength(y);
    YearIs(Thursday(NewYear(y) + 3), y);
  }

  /** A week on, the number is one higher, unless a new year begins with number 1. */
  lemma WeeksFollow(d: Day)
    ensures WeekYear(d + 7) == WeekYear(d) ==> WeekNumber(d + 7) == WeekNumber(d) + 1
    ensures WeekYear(d + 7) != WeekYear(d) ==> WeekYear(d + 7) == WeekYear(d) + 1 && WeekNumber(d + 7) == 1
  {
    var y := WeekYear(d);
    WeekApart(d);
    YearLength(y);
    YearLength(y + 1);
    YearIs(Thursday(d + 7), y);
    YearIs(Thursday(d + 7), y + 1);
  }

  lemma WeekApart(d: Day)
    ensures Thursday(d + 7) == Thursday(d) + 7
  {
  }

  lemma WeekNumberBounds(d: Day)
    ensures WeekYear(d) >= 1 && 1 <= WeekNumber(d) <= 53
  {
    YearLength(WeekYear(d));
  }

  lemma NearThursdays(a: Day, b: Day)
    requires -7 < Thursday(a) - Thursday(b) < 7
    ensures MondayOf(a) == MondayOf(b)
  {
    var i, j := (a - 1) / 7, (b - 1) / 7;
    assert MondayOf(a) == 7 * i + 1 && MondayOf(b) == 7 * j + 1;
  }

  /** The year and the number of a week name that week: two days have both in common exactly when they are in the
      same week. */
  lemma WeekNamesMonday(a: Day, b: Day)
    ensures WeekYear(a) == WeekYear(b) && WeekNumber(a) == WeekNumber(b) <==> MondayOf(a) == MondayOf(b)
  {
    if WeekYear(a) == WeekYear(b) && WeekNumber(a) == WeekNumber(b) {
      var start := NewYear(WeekYear(a));
      assert (Thursday(a) - start) / 7 == (Thursday(b) - start) / 7;
      NearThursdays(a, b);
    }
  }

  function PadTwo(n: nat): string {
    if n < 10 then "0" + Decimal(n) else Decimal(n)
  }

  /** `f"{y}-W{w:02d}"` */
  function WeekKey(d: Day): string {
    WeekNumberBounds(d);
    Decimal(WeekYear(d)) + "-W" + PadTwo(WeekNumber(d))
  }

  /** The key of the first of January 2024, a Monday. */
  lemma KeyOfNewYear2024()
    ensures NewYear(2024) == 738886 && Weekday(738886) == 0
    ensures WeekKey(738886) == "2024-W01"
  {
    NewYear2024();
    hide NewYear, Weekday, MondayOf, WeekYear, WeekNumber, Decimal, PadTwo;
    FirstWeek(2024);
    WeekNamesMonday(738886, 738889);
    Written2024();
    assert WeekKey(738886) == "2024" + "-W" + "01";
  }

  lemma NewYear2024()
    ensures NewYear(2024) == 738886 && Weekday(738886) == 0 && MondayOf(738886) == MondayOf(738889)
  {
  }

  lemma Written2024()
    ensures Decimal(2024) == "2024" && PadTwo(1) == "01"
  {
    DigitsWritten();
    assert Decimal(2) == "2";
    assert Decimal(20) == Decimal(2) + [DigitChar(0)];
    assert Decimal(202) == Decimal(20) + [DigitChar(2)];
    assert Decimal(2024) == Decimal(202) + [DigitChar(4)];
  }

  lemma PadTwoInjective(m: nat, n: nat)
    requires PadTwo(m) == PadTwo(n)
    ensures m == n
  {
    ParsePadded(m);
    ParsePadded(n);
  }

  lemma ParsePadded(n: nat)
    ensures AllDigits(PadTwo(n)) && ParseNat(PadTwo(n)) == n
  {
    ParseOfDecimal(n);
    if n < 10 {
      var s := PadTwo(n);
      assert s == ['0', DigitChar(n)] && s[..1] == ['0'] && ['0'][..0] == [];
      assert ParseNat(['0']) == 0;
    }
  }

  function LeadingDigits(s: string): nat {
    if s != "" && IsDigit(s[0]) then 1 + LeadingDigits(s[1..]) else 0
  }

  lemma {:induction false} LeadingDigitsOf(a: string, s: string)
    requires AllDigits(a) && s != "" && !IsDigit(s[0])
    ensures LeadingDigits(a + s) == |a|
  {
    if a == "" {
      assert a + s == s;
    } else {
      LeadingDigitsOf(a[1..], s);
      assert (a + s)[1..] == a[1..] + s;
    }
  }

  /** Digits up to a character that is not a digit can be read off. */
  lemma SplitAtNonDigit(a: string, s: string, b: string, t: string)
    requires AllDigits(a) && AllDigits(b) && s != "" && t != "" && !IsDigit(s[0]) && !IsDigit(t[0])
    requires a + s == b + t
    ensures a == b && s == t
  {
    LeadingDigitsOf(a, s);
    LeadingDigitsOf(b, t);
    assert (a + s)[..|a|] == a && (b + t)[..|b|] == b;
    assert (a + s)[|a|..] == s && (b + t)[|b|..] == t;
  }

  lemma KeyParts(d: Day)
    ensures WeekYear(d) >= 1 && WeekNumber(d) >= 1
    ensures WeekKey(d) == Decimal(WeekYear(d)) + ("-W" + PadTwo(WeekNumber(d)))
  {
    WeekNumberBounds(d);
  }

  /** Two days have the same week key exactly when they are in the same week; so distinct Mondays have distinct keys. */
  lemma WeekKeyNamesWeek(a: Day, b: Day)
    ensures WeekKey(a) == WeekKey(b) <==> MondayOf(a) == MondayOf(b)
  {
    WeekNamesMonday(a, b);
    KeyParts(a);
    KeyParts(b);
    if WeekKey(a) == WeekKey(b) {
      var s, t := "-W" + PadTwo(WeekNumber(a)), "-W" + PadTwo(WeekNumber(b));
      SplitAtNonDigit(Decimal(WeekYear(a)), s, Decimal(WeekYear(b)), t);
      DecimalInjective(WeekYear(a), WeekYear(b));
      assert s[2..] == PadTwo(WeekNumber(a)) && t[2..] == PadTwo(WeekNumber(b));
      PadTwoInjective(WeekNumber(a), WeekNumber(b));
    }
  }

  /** The Monday of the last full week before the week of `today`. */
  function LastFullWeek(today: Day): int {
    today - (Weekday(today) + 7)
  }

  /** It is a Monday whose Sunday is over, and no later Monday is one. */
  lemma LastFullWeekIsLast(today: Day, monday: Day)
    requires today > 7
    ensures LastFullWeek(today) >= 1 && Weekday(LastFullWeek(today)) == 0 && LastFullWeek(today) + 6 < today
    ensures Weekday(monday) == 0 && monday + 6 < MondayOf(today) ==> monday <= LastFullWeek(today)
    ensures Weekday(monday) == 0 && monday + 6 < today ==> monday <= LastFullWeek(today)
  {
  }
}
