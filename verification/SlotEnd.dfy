/** Ends of slots (iic_booking/communication/email_branding.py, strftime_slot_end and slot_end_on_start_day): midnight
    is shown as 24:00 of the day before, as section 4.2.3 of ISO 8601:2004 allows. */
module SlotEnd {
  import opened ClockFormat
  import opened Text

  /** A local date and time, in microseconds since the start of day 0, the first day of year 1. */
  type Instant = int

  /** Dates end with year 9999. */
  const DAYS := 3_652_059

  const SECOND := 1_000_000
  const MINUTE := 60 * SECOND
  const HOUR := 60 * MINUTE
  const DAY := 24 * HOUR

  function DayOf(t: Instant): int {
    t / DAY
  }

  function ClockOf(t: Instant): nat {
    t % DAY
  }

  function SecondsOf(t: Instant): nat {
    ClockOf(t) / SECOND
  }

  function HourOf(t: Instant): (h: nat)
    ensures h < 24
  {
    SecondsOf(t) / 60 / 60
  }

  function MinuteOf(t: Instant): (m: nat)
    ensures m < 60
  {
    SecondsOf(t) / 60 % 60
  }

  function SecondOf(t: Instant): (s: nat)
    ensures s < 60
  {
    SecondsOf(t) % 60
  }

  /* ---- strftime ------------------------------------------------------------------------------------------------ */

  /** How a format writes a calendar day. */
  type DayWriter = int -> string

  /** 12, 1, 2, ..., 11, twice a day */
  function TwelveHour(h: nat): (r: nat)
    requires h < 24
    ensures 1 <= r <= 12
  {
    if h % 12 == 0 then 12 else h % 12
  }

  function FaceOf(t: Instant, days: DayWriter): Face {
    Face(days(DayOf(t)), TwoDigits(HourOf(t)), TwoDigits(TwelveHour(HourOf(t))), TwoDigits(MinuteOf(t)),
         TwoDigits(SecondOf(t)), if HourOf(t) < 12 then "AM" else "PM")
  }

  /** What the directives write at a given hour, minute and second. */
  lemma FaceSays(d: int, h: nat, m: nat, s: nat, rest: nat, days: DayWriter)
    requires h < 24 && m < 60 && s < 60 && rest < 1_000_000
    ensures
      FaceOf(d * DAY + h * HOUR + m * MINUTE + s * SECOND + rest, days) ==
        Face(days(d), TwoDigits(h), TwoDigits(if h == 0 then 12 else if h <= 12 then h else h - 12),
             TwoDigits(m), TwoDigits(s), if h >= 12 then "PM" else "AM")
  {
    var t := d * DAY + h * HOUR + m * MINUTE + s * SECOND + rest;
    var clock := h * HOUR + m * MINUTE + s * SECOND + rest;
    assert t == d * DAY + clock;
    ClockIs(h, m, s, rest);
    DayIs(d, clock);
    TimeAt(t, h, m, s);
    hide TwoDigits, DayOf, HourOf, MinuteOf, SecondOf;
    FaceAt(t, h, m, s, days);
  }

  lemma FaceAt(t: Instant, h: nat, m: nat, s: nat, days: DayWriter)
    requires h < 24 && HourOf(t) == h && MinuteOf(t) == m && SecondOf(t) == s
    ensures
      FaceOf(t, days) ==
        Face(days(DayOf(t)), TwoDigits(h), TwoDigits(if h == 0 then 12 else if h <= 12 then h else h - 12),
             TwoDigits(m), TwoDigits(s), if h >= 12 then "PM" else "AM")
  {
    hide TwoDigits, DayOf, HourOf, MinuteOf, SecondOf;
    assert TwelveHour(h) == if h == 0 then 12 else if h <= 12 then h else h - 12;
  }

  lemma TimeAt(t: Instant, h: nat, m: nat, s: nat)
    requires h < 24 && m < 60 && s < 60 && SecondsOf(t) == 3600 * h + 60 * m + s
    ensures HourOf(t) == h && MinuteOf(t) == m && SecondOf(t) == s
  {
    HourIs(h, m, s);
    hide SecondsOf;
  }

  lemma DayIs(d: int, clock: nat)
    requires clock < DAY
    ensures DayOf(d * DAY + clock) == d && ClockOf(d * DAY + clock) == clock
  {
  }

  lemma ClockIs(h: nat, m: nat, s: nat, rest: nat)
    requires h < 24 && m < 60 && s < 60 && rest < 1_000_000
    ensures h * HOUR + m * MINUTE + s * SECOND + rest < DAY
    ensures (h * HOUR + m * MINUTE + s * SECOND + rest) / SECOND == 3600 * h + 60 * m + s
  {
  }

  lemma HourIs(h: nat, m: nat, s: nat)
    requires m < 60 && s < 60
    ensures (3600 * h + 60 * m + s) / 60 / 60 == h && (3600 * h + 60 * m + s) / 60 % 60 == m
    ensures (3600 * h + 60 * m + s) % 60 == s
  {
    assert (3600 * h + 60 * m + s) / 60 == 60 * h + m;
  }

  function Strftime(t: Instant, format: Format, days: DayWriter): string {
    Written(FaceOf(t, days), format)
  }

  /* ---- strftime_slot_end --------------------------------------------------------------------------------------- */

  function StrftimeEnd(t: Instant, format: Format, days: DayWriter): string {
    if ClockOf(t) != 0 then Strftime(t, format, days) else Strftime(t - DAY, EndFormat(format), days)
  }

  /* ---- Reading an end ------------------------------------------------------------------------------------------ */

  ghost predicate WholeMinute(t: Instant) {
    exists k :: t == k * MINUTE
  }

  ghost predicate WholeSecond(t: Instant) {
    exists k :: t == k * SECOND
  }

  /** Hour and minute can be told from the format. */
  predicate TellsTime(format: Format) {
    Minute in format && (Hour24 in format || (Hour12 in format && AmPm in format))
  }

  /** The instant is no finer than the format. */
  ghost predicate Fits(t: Instant, format: Format) {
    if Second in format then WholeSecond(t) else WholeMinute(t)
  }

  function Number(s: string): nat {
    if |s| == 2 && IsDigit(s[0]) && IsDigit(s[1]) then 10 * DigitValue(s[0]) + DigitValue(s[1]) else 0
  }

  function ReadHour(text: string, format: Format, w: nat): nat
    requires TellsTime(format)
  {
    if Hour24 in format then Number(Field(text, format, Hour24, w))
    else Number(Field(text, format, Hour12, w)) % 12 + if Field(text, format, AmPm, w) == "PM" then 12 else 0
  }

  /** The time of an end, counted from the start of its day. A text shorter than its format has had a twelve-hour clock
      replaced by 24:00; and an end at the start of a day belongs to the day before. */
  function ReadTime(text: string, format: Format, w: nat): nat
    requires TellsTime(format)
  {
    if |text| < TotalWidth(format, w) then DAY
    else
      var time := ReadHour(text, format, w) * HOUR + Number(Field(text, format, Minute, w)) * MINUTE
                  + if Second in format then Number(Field(text, format, Second, w)) * SECOND else 0;
      if time == 0 then DAY else time
  }

  /** The day of an end, as written. */
  function ReadDay(text: string, format: Format, w: nat): string {
    Field(text, if |text| < TotalWidth(format, w) then EndFormat(format) else format, Date, w)
  }

  ghost predicate OneWidth(days: DayWriter, w: nat) {
    forall d :: 0 <= d < DAYS ==> |days(d)| == w
  }

  /** Days are written at one width, and different days differently. */
  ghost predicate Calendar(days: DayWriter, w: nat) {
    OneWidth(days, w) && forall d, e :: 0 <= d < DAYS && 0 <= e < DAYS && days(d) == days(e) ==> d == e
  }

  /** The day an end belongs to: that of the last instant before it. */
  function EndDay(t: Instant): int {
    DayOf(t - 1)
  }

  /** The end belongs to a date. The very first midnight does not: there is no day before it. */
  predicate HasDate(t: Instant) {
    0 <= EndDay(t) < DAYS
  }

  /** Every day by two characters. */
  function TwoChars(d: int): string {
    if 0 <= d < DAYS then [(d / 2000) as char, (d % 2000) as char] else ""
  }

  /** There are calendars: these two characters make one. */
  lemma CalendarsExist()
    ensures Calendar(TwoChars, 2)
  {
    forall d, e | 0 <= d < DAYS && 0 <= e < DAYS && TwoChars(d) == TwoChars(e)
      ensures d == e
    {
      assert TwoChars(d)[0] == TwoChars(e)[0] && TwoChars(d)[1] == TwoChars(e)[1];
      assert d == 2000 * (d / 2000) + d % 2000 && e == 2000 * (e / 2000) + e % 2000;
    }
  }

  lemma ClockParts(t: Instant)
    requires WholeSecond(t)
    ensures ClockOf(t) == HourOf(t) * HOUR + MinuteOf(t) * MINUTE + SecondOf(t) * SECOND
  {
    var k :| t == k * SECOND;
    var s := k - DayOf(t) * 86400;
    assert ClockOf(t) == s * SECOND;
    assert SecondsOf(t) == s;
  }

  lemma MinuteParts(t: Instant)
    requires WholeMinute(t)
    ensures WholeSecond(t) && SecondOf(t) == 0
  {
    var k :| t == k * MINUTE;
    assert t == k * 60 * SECOND;
    var s := k * 60 - DayOf(t) * 86400;
    assert ClockOf(t) == s * SECOND;
    assert SecondsOf(t) == s == 60 * (k - DayOf(t) * 1440);
  }

  lemma FaceIsEven(t: Instant, days: DayWriter, w: nat)
    requires OneWidth(days, w) && 0 <= DayOf(t) < DAYS
    ensures Even(FaceOf(t, days), w)
  {
  }

  lemma NumberOfDigits(n: nat)
    requires n < 100
    ensures Number(TwoDigits(n)) == n
  {
  }

  /** The face that is written for an end, as long as no twelve-hour clock is replaced. */
  function EndFace(t: Instant, days: DayWriter): Face {
    if ClockOf(t) != 0 then FaceOf(t, days) else FaceOf(t - DAY, days).(hour24 := "24")
  }

  /** An instant at midnight, and the day before it at midnight. */
  lemma DayBefore(t: Instant)
    requires ClockOf(t) == 0
    ensures ClockOf(t - DAY) == 0 && DayOf(t - DAY) == DayOf(t) - 1
    ensures HourOf(t - DAY) == 0 && MinuteOf(t - DAY) == 0 && SecondOf(t - DAY) == 0
  {
  }

  lemma EndWritten(t: Instant, format: Format, days: DayWriter, w: nat)
    requires OneWidth(days, w) && HasDate(t)
    ensures Even(EndFace(t, days), w)
    ensures ClockOf(t) == 0 ==> Even(FaceOf(t - DAY, days), w)
    ensures var text := StrftimeEnd(t, format, days);
            || text == Written(EndFace(t, days), format)
            || (ClockOf(t) == 0 && |text| < TotalWidth(format, w))
  {
    EndDayParts(t);
    if ClockOf(t) != 0 {
      FaceIsEven(t, days, w);
    } else {
      DayBefore(t);
      FaceIsEven(t - DAY, days, w);
      var face := FaceOf(t - DAY, days);
      HourIs24(face, Without12(format));
      Without12Shorter(format, w);
      WrittenWidth(face.(hour24 := "24"), Without12(format), w);
    }
  }

  lemma TwelveHourRead(h: nat)
    requires h < 24
    ensures TwelveHour(h) % 12 + (if h < 12 then 0 else 12) == h
  {
  }

  lemma HourRead(t: Instant, format: Format, days: DayWriter, w: nat)
    requires TellsTime(format) && Even(EndFace(t, days), w)
    ensures ReadHour(Written(EndFace(t, days), format), format, w)
         == if ClockOf(t) != 0 then HourOf(t) else if Hour24 in format then 24 else 0
  {
    var face := EndFace(t, days);
    NumberOfDigits(HourOf(t));
    NumberOfDigits(TwelveHour(HourOf(t)));
    TwelveHourRead(HourOf(t));
    if ClockOf(t) == 0 {
      DayBefore(t);
      NumberOfDigits(12);
    }
    if Hour24 in format {
      FieldIsShown(face, format, Hour24, w);
    } else {
      FieldIsShown(face, format, Hour12, w);
      FieldIsShown(face, format, AmPm, w);
    }
  }

  lemma MinuteAndSecondRead(t: Instant, format: Format, days: DayWriter, w: nat)
    requires Minute in format && Even(EndFace(t, days), w)
    ensures Number(Field(Written(EndFace(t, days), format), format, Minute, w)) == MinuteOf(t)
    ensures Second in format ==> Number(Field(Written(EndFace(t, days), format), format, Second, w)) == SecondOf(t)
  {
    var face := EndFace(t, days);
    if ClockOf(t) == 0 {
      DayBefore(t);
    }
    FieldIsShown(face, format, Minute, w);
    NumberOfDigits(MinuteOf(t));
    if Second in format {
      FieldIsShown(face, format, Second, w);
      NumberOfDigits(SecondOf(t));
    }
  }

  lemma FitsParts(t: Instant, format: Format)
    requires Fits(t, format)
    ensures ClockOf(t) == HourOf(t) * HOUR + MinuteOf(t) * MINUTE + if Second in format then SecondOf(t) * SECOND else 0
  {
    if Second !in format {
      MinuteParts(t);
    }
    ClockParts(t);
  }

  lemma EndDayParts(t: Instant)
    ensures t == EndDay(t) * DAY + if ClockOf(t) == 0 then DAY else ClockOf(t)
  {
  }

  lemma WrittenTime(t: Instant, format: Format, days: DayWriter, w: nat)
    requires TellsTime(format) && Fits(t, format) && Even(EndFace(t, days), w)
    ensures ReadTime(Written(EndFace(t, days), format), format, w) == t - EndDay(t) * DAY
  {
    WrittenWidth(EndFace(t, days), format, w);
    HourRead(t, format, days, w);
    MinuteAndSecondRead(t, format, days, w);
    FitsParts(t, format);
    EndDayParts(t);
    if ClockOf(t) == 0 {
      DayBefore(t);
    }
  }

  /** In every format that tells the time, the time of an end reads back, counted from the start of its day: from one
      unit of the format up to 24:00. */
  lemma EndTimeReadsBack(t: Instant, format: Format, days: DayWriter, w: nat)
    requires TellsTime(format) && Fits(t, format) && OneWidth(days, w) && HasDate(t)
    ensures ReadTime(StrftimeEnd(t, format, days), format, w) == t - EndDay(t) * DAY
  {
    EndWritten(t, format, days, w);
    if StrftimeEnd(t, format, days) == Written(EndFace(t, days), format) {
      WrittenTime(t, format, days, w);
    } else {
      EndDayParts(t);
    }
  }

  lemma FaceDay(face: Face, format: Format, w: nat)
    requires Date in format && Even(face, w)
    ensures ReadDay(Written(face, format), format, w) == face.day
  {
    WrittenWidth(face, format, w);
    FieldIsShown(face, format, Date, w);
  }

  lemma EndFaceDay(t: Instant, days: DayWriter)
    ensures EndFace(t, days).day == days(EndDay(t))
    ensures ClockOf(t) == 0 ==> FaceOf(t - DAY, days).day == days(EndDay(t))
  {
    hide TwoDigits, TwelveHour, HourOf, MinuteOf, SecondOf;
    EndDayParts(t);
    if ClockOf(t) == 0 {
      DayBefore(t);
    }
  }

  lemma MidnightDay(face: Face, format: Format, w: nat)
    requires Date in format && Even(face, w) && |Written(face, EndFormat(format))| < TotalWidth(format, w)
    ensures ReadDay(Written(face, EndFormat(format)), format, w) == face.day
  {
    DateStays(format);
    FieldIsShown(face, EndFormat(format), Date, w);
  }

  /** In every format with a date, the day that is shown is the day of the last instant before the end. */
  lemma PrintedDay(t: Instant, format: Format, days: DayWriter, w: nat)
    requires Date in format && OneWidth(days, w) && HasDate(t)
    ensures ReadDay(StrftimeEnd(t, format, days), format, w) == days(EndDay(t))
  {
    EndWritten(t, format, days, w);
    EndFaceDay(t, days);
    if StrftimeEnd(t, format, days) == Written(EndFace(t, days), format) {
      FaceDay(EndFace(t, days), format, w);
    } else {
      MidnightDay(FaceOf(t - DAY, days), format, w);
    }
  }

  /** The display of an end loses nothing: in every format with a date that tells the time, the printed day and time
      read back to the same instant, at midnight as at any other time. */
  lemma EndReadsBack(t: Instant, format: Format, days: DayWriter, w: nat, day: int)
    requires Date in format && TellsTime(format) && Fits(t, format) && Calendar(days, w) && HasDate(t)
    requires 0 <= day < DAYS && days(day) == ReadDay(StrftimeEnd(t, format, days), format, w)
    ensures day * DAY + ReadTime(StrftimeEnd(t, format, days), format, w) == t
  {
    EndTimeReadsBack(t, format, days, w);
    PrintedDay(t, format, days, w);
    assert day == EndDay(t);
  }

  /** So no two ends look alike. */
  lemma EndsLookDifferent(t: Instant, u: Instant, format: Format, days: DayWriter, w: nat)
    requires Date in format && TellsTime(format) && Calendar(days, w)
    requires Fits(t, format) && Fits(u, format) && HasDate(t) && HasDate(u)
    requires StrftimeEnd(t, format, days) == StrftimeEnd(u, format, days)
    ensures t == u
  {
    PrintedDay(t, format, days, w);
    EndReadsBack(t, format, days, w, EndDay(t));
    EndReadsBack(u, format, days, w, EndDay(t));
  }

  /* ---- The formats in use -------------------------------------------------------------------------------------- */

  const FORMAT_24 := [Date, Literal(' '), Hour24, Literal(':'), Minute]
  const FORMAT_24_SECONDS := [Date, Literal(' '), Hour24, Literal(':'), Minute, Literal(':'), Second]
  const FORMAT_12 := [Date, Literal(','), Literal(' ')] + CLOCK_12
  const FORMAT_TIME := [Hour24, Literal(':'), Minute]

  /** An end in the twenty-four-hour format: at midnight the day before and 24:00, otherwise day and time. */
  lemma EndShown(t: Instant, days: DayWriter)
    ensures
      StrftimeEnd(t, [Date, Literal(' '), Hour24, Literal(':'), Minute], days) ==
        if ClockOf(t) == 0 then days(DayOf(t) - 1) + " " + "24" + ":" + "00"
        else days(DayOf(t)) + " " + TwoDigits(HourOf(t)) + ":" + TwoDigits(MinuteOf(t))
  {
    hide TwoDigits, TwelveHour, HourOf, MinuteOf, SecondOf, DayOf, EndFormat, Written;
    var face := FaceOf(if ClockOf(t) == 0 then t - DAY else t, days);
    var front, back := [Date, Literal(' ')], [Literal(':'), Minute];
    assert [Date, Literal(' '), Hour24, Literal(':'), Minute] == front + [Hour24] + back;
    PartsShown(face);
    ShownAround(face, front, [Hour24], back);
    if ClockOf(t) == 0 {
      DayBefore(t);
      NoMinutes();
      MidnightHour(front, back);
      WithoutHour(front);
      WithoutHour(back);
      MidnightTexts(face);
      ShownAround(face, front, TEXT_24, back);
    }
  }

  lemma ShownAround(face: Face, front: Format, middle: Format, back: Format)
    ensures Written(face, front + middle + back) == Written(face, front) + Written(face, middle) + Written(face, back)
  {
    WrittenAppend(face, front + middle, back);
    WrittenAppend(face, front, middle);
  }

  lemma NoMinutes()
    ensures TwoDigits(0) == "00"
  {
    DigitsWritten();
  }

  lemma PartsShown(face: Face)
    ensures Written(face, [Date, Literal(' ')]) == face.day + " "
    ensures Written(face, [Literal(':'), Minute]) == ":" + face.minute && Written(face, [Hour24]) == face.hour24
  {
    WrittenAppend(face, [Date], [Literal(' ')]);
    WrittenAppend(face, [Literal(':')], [Minute]);
  }

  lemma FormatsTellTime()
    ensures TellsTime(FORMAT_24) && TellsTime(FORMAT_24_SECONDS) && TellsTime(FORMAT_12) && TellsTime(FORMAT_TIME)
    ensures Date in FORMAT_24 && Date in FORMAT_24_SECONDS && Date in FORMAT_12
  {
    assert FORMAT_12[0] == Date && FORMAT_12[3] == Hour12 && FORMAT_12[5] == Minute && FORMAT_12[7] == AmPm;
    assert FORMAT_24[0] == Date && FORMAT_24[2] == Hour24 && FORMAT_24[4] == Minute;
    assert FORMAT_24_SECONDS[0] == Date && FORMAT_24_SECONDS[2] == Hour24 && FORMAT_24_SECONDS[4] == Minute;
    assert FORMAT_TIME[0] == Hour24 && FORMAT_TIME[2] == Minute;
  }

  /** The formats in use that show a date. */
  lemma FormatsReadBack(t: Instant, format: Format, days: DayWriter, w: nat, day: int)
    requires format in {FORMAT_24, FORMAT_24_SECONDS, FORMAT_12} && Fits(t, format) && HasDate(t)
    requires Calendar(days, w) && 0 <= day < DAYS && days(day) == ReadDay(StrftimeEnd(t, format, days), format, w)
    ensures TellsTime(format) && day * DAY + ReadTime(StrftimeEnd(t, format, days), format, w) == t
  {
    FormatsTellTime();
    EndReadsBack(t, format, days, w, day);
  }

  /** And the one that shows the time alone. */
  lemma TimeReadsBack(t: Instant, days: DayWriter, w: nat)
    requires WholeMinute(t) && OneWidth(days, w) && HasDate(t)
    ensures TellsTime(FORMAT_TIME) && ReadTime(StrftimeEnd(t, FORMAT_TIME, days), FORMAT_TIME, w) == t - EndDay(t) * DAY
  {
    FormatsTellTime();
    EndTimeReadsBack(t, FORMAT_TIME, days, w);
  }

  /* ---- A clock that is not replaced ---------------------------------------------------------------------------- */

  lemma TwelveAtMidnight(t: Instant, days: DayWriter)
    requires ClockOf(t) == 0
    ensures FaceOf(t - DAY, days).hour12 == "12"
  {
    DayBefore(t);
    assert TwelveHour(0) == 12;
  }

  /** In a format with a twelve-hour directive that begins neither clock, midnight is shown as 12. */
  lemma StrayClockShowsTwelve(t: Instant, format: Format, days: DayWriter, w: nat)
    requires ClockOf(t) == 0 && OneWidth(days, w) && HasDate(t) && !WholeClocks(format)
    ensures Hour12 in EndFormat(format)
    ensures Field(StrftimeEnd(t, format, days), EndFormat(format), Hour12, w) == "12"
  {
    NoHourLeftIff(format);
    EndWritten(t, format, days, w);
    TwelveAtMidnight(t, days);
    FieldIsShown(FaceOf(t - DAY, days), EndFormat(format), Hour12, w);
  }

  /** A twelve-hour clock without the space before AM or PM is such a format; none in use is. */
  lemma UnspacedClockIsStray()
    ensures !WholeClocks([Date, Literal(' '), Hour12, Literal(':'), Minute, AmPm])
    ensures WholeClocks(FORMAT_24) && WholeClocks(FORMAT_24_SECONDS)
    ensures WholeClocks(FORMAT_12) && WholeClocks(FORMAT_TIME)
  {
    var clock := [Hour12, Literal(':'), Minute, AmPm];
    assert clock[3] != CLOCK_12[3] && clock[3] != CLOCK_12_SECONDS[3];
    WholeClocksAfter([Date, Literal(' ')], clock);
    assert [Date, Literal(' ')] + clock == [Date, Literal(' '), Hour12, Literal(':'), Minute, AmPm];
    NoTwelveHour(FORMAT_24);
    NoTwelveHour(FORMAT_24_SECONDS);
    NoTwelveHour(FORMAT_TIME);
    WholeClocksAfter([Date, Literal(','), Literal(' ')], CLOCK_12);
    WholeClock(CLOCK_12, []);
    assert CLOCK_12 + [] == CLOCK_12;
  }

  lemma NoTwelveHour(format: Format)
    requires Hour12 !in format
    ensures WholeClocks(format)
  {
    WholeClocksAfter(format, []);
    assert format + [] == format;
  }

  /* ---- The day an end is on ------------------------------------------------------------------------------------ */

  /** slot_end_on_start_day */
  predicate EndOnStartDay(start: Instant, end: Instant) {
    var endDay := if ClockOf(end) == 0 && end > start then DayOf(end - DAY) else DayOf(end);
    endDay == DayOf(start)
  }

  /** An end after its start is on the day of the start exactly when the last instant before the end is, and for a
      whole-minute end exactly when the last minute before it is. An end that is not after its start is taken as it
      stands. */
  lemma EndOnStartDayIff(start: Instant, end: Instant)
    ensures end > start ==> (EndOnStartDay(start, end) <==> EndDay(end) == DayOf(start))
    ensures end > start && WholeMinute(end) ==> (EndOnStartDay(start, end) <==> DayOf(end - MINUTE) == DayOf(start))
    ensures end <= start ==> (EndOnStartDay(start, end) <==> DayOf(end) == DayOf(start))
  {
    if ClockOf(end) != 0 && WholeMinute(end) {
      var k :| end == k * MINUTE;
      assert ClockOf(end) == (k - DayOf(end) * 1440) * MINUTE;
      assert ClockOf(end) >= MINUTE;
    }
  }
}
