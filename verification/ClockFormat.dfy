/** Formats for strftime, and what strftime_slot_end (iic_booking/communication/email_branding.py) makes of them at
    midnight. */
module ClockFormat {
  import opened Common

  /** A format; `Date` stands for a stretch of directives that write the calendar day. */
  datatype Piece = Date | Hour24 | Hour12 | Minute | Second | AmPm | Literal(c: char)

  type Format = seq<Piece>

  /** What each directive writes. */
  datatype Face = Face(day: string, hour24: string, hour12: string, minute: string, second: string, half: string)

  function Shown(face: Face, p: Piece): string {
    match p
    case Date => face.day
    case Hour24 => face.hour24
    case Hour12 => face.hour12
    case Minute => face.minute
    case Second => face.second
    case AmPm => face.half
    case Literal(c) => [c]
  }

  function Written(face: Face, format: Format): string {
    if format == [] then "" else Shown(face, format[0]) + Written(face, format[1..])
  }

  /* ---- What is replaced at midnight ---------------------------------------------------------------------------- */

  /** `format.replace(pattern, text)` */
  function Replace(format: Format, pattern: Format, text: Format): Format
    requires pattern != []
  {
    if format == [] then []
    else if pattern <= format then text + Replace(format[|pattern|..], pattern, text)
    else [format[0]] + Replace(format[1..], pattern, text)
  }

  const CLOCK_12 := [Hour12, Literal(':'), Minute, Literal(' '), AmPm]
  const CLOCK_12_SECONDS := [Hour12, Literal(':'), Minute, Literal(':'), Second, Literal(' '), AmPm]
  const TEXT_24 := [Literal('2'), Literal('4')]
  const TEXT_24_00 := [Literal('2'), Literal('4'), Literal(':'), Literal('0'), Literal('0')]
  const TEXT_24_00_00 :=
    [Literal('2'), Literal('4'), Literal(':'), Literal('0'), Literal('0'), Literal(':'), Literal('0'), Literal('0')]

  /** The format with its twelve-hour clocks replaced. */
  function Without12(format: Format): Format {
    Replace(Replace(format, CLOCK_12_SECONDS, TEXT_24_00_00), CLOCK_12, TEXT_24_00)
  }

  function EndFormat(format: Format): Format {
    Replace(Without12(format), [Hour24], TEXT_24)
  }

  /* ---- Where each directive stands ----------------------------------------------------------------------------- */

  function Width(p: Piece, w: nat): nat {
    match p
    case Date => w
    case Literal(_) => 1
    case _ => 2
  }

  function TotalWidth(format: Format, w: nat): nat {
    if format == [] then 0 else Width(format[0], w) + TotalWidth(format[1..], w)
  }

  /** What is written in front of the first p. */
  function Offset(format: Format, p: Piece, w: nat): nat {
    if format == [] || format[0] == p then 0 else Width(format[0], w) + Offset(format[1..], p, w)
  }

  ghost predicate Even(face: Face, w: nat) {
    && |face.day| == w && |face.hour24| == |face.hour12| == |face.minute| == |face.second| == |face.half| == 2
  }

  /** What stands where the format has its first p. */
  function Field(text: string, format: Format, p: Piece, w: nat): string {
    var i := Offset(format, p, w);
    if i + Width(p, w) <= |text| then text[i..i + Width(p, w)] else ""
  }

  lemma {:induction false} WrittenWidth(face: Face, format: Format, w: nat)
    requires Even(face, w)
    ensures |Written(face, format)| == TotalWidth(format, w)
  {
    if format != [] {
      WrittenWidth(face, format[1..], w);
    }
  }

  lemma SliceAfter(head: string, rest: string, i: nat, n: nat)
    requires i + n <= |rest|
    ensures (head + rest)[|head| + i..|head| + i + n] == rest[i..i + n]
  {
  }

  lemma FieldAtStart(head: string, rest: string, format: Format, w: nat)
    requires format != [] && |head| == Width(format[0], w)
    ensures Field(head + rest, format, format[0], w) == head
  {
    assert (head + rest)[..|head|] == head;
  }

  lemma FieldLater(head: string, rest: string, format: Format, p: Piece, w: nat)
    requires format != [] && format[0] != p && |head| == Width(format[0], w)
    requires Offset(format[1..], p, w) + Width(p, w) <= |rest|
    ensures Field(head + rest, format, p, w) == Field(rest, format[1..], p, w)
  {
    OffsetLater(format, p, w);
    hide Offset, Width;
    SliceAfter(head, rest, Offset(format[1..], p, w), Width(p, w));
  }

  lemma OffsetLater(format: Format, p: Piece, w: nat)
    requires format != [] && format[0] != p
    ensures Offset(format, p, w) == Width(format[0], w) + Offset(format[1..], p, w)
  {
  }

  lemma {:induction false} FieldFits(format: Format, p: Piece, w: nat)
    requires p in format
    ensures Offset(format, p, w) + Width(p, w) <= TotalWidth(format, w)
  {
    if format[0] != p {
      FieldFits(format[1..], p, w);
    }
  }

  lemma {:induction false} FieldIsShown(face: Face, format: Format, p: Piece, w: nat)
    requires Even(face, w) && p in format
    ensures Field(Written(face, format), format, p, w) == Shown(face, p)
  {
    var head, rest := Shown(face, format[0]), Written(face, format[1..]);
    if format[0] == p {
      FieldAtStart(head, rest, format, w);
    } else {
      FieldIsShown(face, format[1..], p, w);
      FieldFits(format[1..], p, w);
      WrittenWidth(face, format[1..], w);
      FieldLater(head, rest, format, p, w);
    }
  }

  /* ---- What the replacements do to a format -------------------------------------------------------------------- */

  lemma {:induction false} WidthAppend(a: Format, b: Format, w: nat)
    ensures TotalWidth(a + b, w) == TotalWidth(a, w) + TotalWidth(b, w)
  {
    if a == [] {
      assert a + b == b;
    } else {
      WidthAppend(a[1..], b, w);
      assert (a + b)[1..] == a[1..] + b;
    }
  }

  /** Replacing a pattern by something shorter leaves the format as it is or makes it shorter. */
  lemma {:induction false} Shortened(format: Format, pattern: Format, text: Format, w: nat)
    requires pattern != [] && TotalWidth(text, w) < TotalWidth(pattern, w)
    ensures Replace(format, pattern, text) == format ||
            TotalWidth(Replace(format, pattern, text), w) < TotalWidth(format, w)
    ensures TotalWidth(Replace(format, pattern, text), w) <= TotalWidth(format, w)
  {
    if format != [] {
      if pattern <= format {
        var rest := format[|pattern|..];
        Shortened(rest, pattern, text, w);
        WidthAppend(text, Replace(rest, pattern, text), w);
        WidthAppend(pattern, rest, w);
        assert pattern + rest == format;
      } else {
        Shortened(format[1..], pattern, text, w);
        WidthAppend([format[0]], Replace(format[1..], pattern, text), w);
      }
    }
  }

  lemma {:induction false} LiteralWidth(format: Format, w: nat)
    requires forall i :: 0 <= i < |format| ==> format[i].Literal?
    ensures TotalWidth(format, w) == |format|
  {
    if format != [] {
      LiteralWidth(format[1..], w);
    }
  }

  lemma WidthOfOne(p: Piece, w: nat)
    ensures TotalWidth([p], w) == Width(p, w)
  {
    assert [p][1..] == [];
  }

  lemma WidthOfTwo(p: Piece, q: Piece, w: nat)
    ensures TotalWidth([p, q], w) == Width(p, w) + Width(q, w)
  {
    WidthOfOne(p, w);
    WidthOfOne(q, w);
    WidthAppend([p], [q], w);
    assert [p] + [q] == [p, q];
  }

  lemma ClockWidths(w: nat)
    ensures TotalWidth(TEXT_24_00, w) == 5 && TotalWidth(CLOCK_12, w) == 8
    ensures TotalWidth(TEXT_24_00_00, w) == 8 && TotalWidth(CLOCK_12_SECONDS, w) == 11
  {
    LiteralWidth(TEXT_24_00, w);
    LiteralWidth(TEXT_24_00_00, w);
    var start, middle, end := [Hour12, Literal(':')], [Minute, Literal(':')], [Literal(' '), AmPm];
    WidthOfTwo(Hour12, Literal(':'), w);
    WidthOfTwo(Minute, Literal(':'), w);
    WidthOfTwo(Literal(' '), AmPm, w);
    WidthOfOne(Minute, w);
    WidthOfOne(Second, w);
    WidthAppend(start, [Minute], w);
    WidthAppend(start + [Minute], end, w);
    WidthAppend(start, middle, w);
    WidthAppend(start + middle, [Second], w);
    WidthAppend(start + middle + [Second], end, w);
    assert start + [Minute] + end == CLOCK_12 && start + middle + [Second] + end == CLOCK_12_SECONDS;
  }

  /** The midnight format is shorter exactly when a twelve-hour clock was replaced. */
  lemma Without12Shorter(format: Format, w: nat)
    ensures TotalWidth(Without12(format), w) <= TotalWidth(format, w)
    ensures Without12(format) == format || TotalWidth(Without12(format), w) < TotalWidth(format, w)
  {
    ClockWidths(w);
    Shortened(format, CLOCK_12_SECONDS, TEXT_24_00_00, w);
    Shortened(Replace(format, CLOCK_12_SECONDS, TEXT_24_00_00), CLOCK_12, TEXT_24_00, w);
  }

  /** A directive that no pattern has stays in the format. */
  lemma {:induction false} Stays(format: Format, pattern: Format, text: Format, p: Piece)
    requires pattern != [] && p in format && p !in pattern
    ensures p in Replace(format, pattern, text)
  {
    if pattern <= format {
      assert pattern + format[|pattern|..] == format;
      Stays(format[|pattern|..], pattern, text, p);
    } else if format[0] != p {
      assert [format[0]] + format[1..] == format;
      Stays(format[1..], pattern, text, p);
    }
  }

  lemma DateStays(format: Format)
    requires Date in format
    ensures Date in EndFormat(format)
  {
    Stays(format, CLOCK_12_SECONDS, TEXT_24_00_00, Date);
    Stays(Replace(format, CLOCK_12_SECONDS, TEXT_24_00_00), CLOCK_12, TEXT_24_00, Date);
    Stays(Without12(format), [Hour24], TEXT_24, Date);
  }

  /** With 24 put for the hour in the format, the text is that of a clock whose hour reads 24. */
  lemma {:induction false} HourIs24(face: Face, format: Format)
    ensures Written(face, Replace(format, [Hour24], TEXT_24)) == Written(face.(hour24 := "24"), format)
  {
    if format != [] {
      HourIs24(face, format[1..]);
      var rest := Replace(format[1..], [Hour24], TEXT_24);
      if format[0] == Hour24 {
        assert [Hour24] <= format;
        assert (TEXT_24 + rest)[1..] == [Literal('4')] + rest && ([Literal('4')] + rest)[1..] == rest;
        assert "2" + ("4" + Written(face, rest)) == "24" + Written(face, rest);
      } else {
        assert ([format[0]] + rest)[1..] == rest;
      }
    }
  }

  /* ---- What midnight looks like -------------------------------------------------------------------------------- */

  /** Up to where a pattern can begin nothing is replaced. */
  lemma {:induction false} ReplaceAfter(before: Format, rest: Format, pattern: Format, text: Format)
    requires pattern != [] && pattern[0] !in before
    ensures Replace(before + rest, pattern, text) == before + Replace(rest, pattern, text)
  {
    if before == [] {
      assert before + rest == rest;
      assert before + Replace(rest, pattern, text) == Replace(rest, pattern, text);
    } else {
      ReplaceAfter(before[1..], rest, pattern, text);
      assert before + rest == [before[0]] + (before[1..] + rest);
      Regroup([before[0]], before[1..], Replace(rest, pattern, text));
      assert [before[0]] + before[1..] == before;
    }
  }

  lemma ReplaceStep(p: Piece, rest: Format, pattern: Format, text: Format)
    requires pattern != [] && !(pattern <= [p] + rest)
    ensures Replace([p] + rest, pattern, text) == [p] + Replace(rest, pattern, text)
  {
    assert ([p] + rest)[1..] == rest;
  }

  lemma ReplaceHere(pattern: Format, rest: Format, text: Format)
    requires pattern != []
    ensures Replace(pattern + rest, pattern, text) == text + Replace(rest, pattern, text)
  {
    assert pattern <= pattern + rest && (pattern + rest)[|pattern|..] == rest;
  }

  lemma MatchAcross(before: Format, rest: Format, pattern: Format)
    requires rest != [] && pattern <= before + rest && |pattern| > |before| > 0
    ensures rest[0] in pattern[1..]
  {
    assert pattern[1..][|before| - 1] == (before + rest)[|before|];
  }

  lemma NoMatchAcross(before: Format, rest: Format, pattern: Format)
    requires before != [] && rest != [] && pattern != [] && rest[0] !in pattern[1..]
    ensures pattern <= before + rest ==> pattern <= before
  {
    if pattern <= before + rest && |pattern| > |before| {
      MatchAcross(before, rest, pattern);
    }
  }

  /** Replacing on both sides of a piece that no match runs over. */
  lemma {:induction false} ReplaceApart(before: Format, rest: Format, pattern: Format, text: Format)
    requires pattern != [] && rest != [] && rest[0] !in pattern[1..]
    ensures Replace(before + rest, pattern, text) == Replace(before, pattern, text) + Replace(rest, pattern, text)
    decreases |before|
  {
    assert Replace([], pattern, text) == [];
    hide Replace;
    if before == [] {
      assert before + rest == rest;
      assert [] + Replace(rest, pattern, text) == Replace(rest, pattern, text);
    } else if pattern <= before {
      var later := before[|pattern|..];
      ReplaceApart(later, rest, pattern, text);
      assert before == pattern + later;
      ReplaceHere(pattern, later, text);
      ReplaceHere(pattern, later + rest, text);
      ApartBehind(pattern, text, later, rest, pattern, text);
    } else {
      var p, later := before[0], before[1..];
      NoMatchAcross(before, rest, pattern);
      ReplaceApart(later, rest, pattern, text);
      assert before == [p] + later;
      Regroup([p], later, rest);
      ReplaceStep(p, later, pattern, text);
      ReplaceStep(p, later + rest, pattern, text);
      ApartBehind([p], [p], later, rest, pattern, text);
    }
  }

  lemma ApartBehind(head: Format, out: Format, later: Format, rest: Format, pattern: Format, text: Format)
    requires pattern != []
    requires Replace(later + rest, pattern, text) == Replace(later, pattern, text) + Replace(rest, pattern, text)
    requires Replace(head + later, pattern, text) == out + Replace(later, pattern, text)
    requires Replace(head + (later + rest), pattern, text) == out + Replace(later + rest, pattern, text)
    ensures Replace(head + later + rest, pattern, text)
         == Replace(head + later, pattern, text) + Replace(rest, pattern, text)
  {
    hide Replace;
    Regroup(head, later, rest);
    Regroup(out, Replace(later, pattern, text), Replace(rest, pattern, text));
  }

  lemma HourBetween(before: Format, after: Format, pattern: Format, text: Format)
    requires pattern != [] && Hour24 !in pattern
    ensures Replace(before + [Hour24] + after, pattern, text)
         == Replace(before, pattern, text) + [Hour24] + Replace(after, pattern, text)
  {
    Regroup(before, [Hour24], after);
    ReplaceApart(before, [Hour24] + after, pattern, text);
    ReplaceStep(Hour24, after, pattern, text);
    Regroup(Replace(before, pattern, text), [Hour24], Replace(after, pattern, text));
  }

  /** Where a format has a twenty-four-hour directive, midnight reads 24, and the rest of the format is treated as if it
      stood alone. */
  lemma MidnightHour(before: Format, after: Format)
    ensures EndFormat(before + [Hour24] + after) == EndFormat(before) + TEXT_24 + EndFormat(after)
  {
    HourBetween(before, after, CLOCK_12_SECONDS, TEXT_24_00_00);
    HourBetween(Replace(before, CLOCK_12_SECONDS, TEXT_24_00_00), Replace(after, CLOCK_12_SECONDS, TEXT_24_00_00),
                CLOCK_12, TEXT_24_00);
    ReplacedBetween(Without12(before), [Hour24], Without12(after), TEXT_24);
  }

  lemma ReplacedBetween(before: Format, pattern: Format, after: Format, text: Format)
    requires pattern != [] && pattern[0] !in pattern[1..]
    ensures Replace(before + pattern + after, pattern, text)
         == Replace(before, pattern, text) + text + Replace(after, pattern, text)
  {
    Regroup(before, pattern, after);
    ReplaceApart(before, pattern + after, pattern, text);
    ReplaceHere(pattern, after, text);
    Regroup(Replace(before, pattern, text), text, Replace(after, pattern, text));
  }

  /** A stretch that no pattern begins in stays, and separates what is around it. */
  lemma StretchBetween(before: Format, middle: Format, after: Format, pattern: Format, text: Format)
    requires pattern != [] && middle != [] && middle[0] !in pattern[1..]
    requires Replace(middle + after, pattern, text) == middle + Replace(after, pattern, text)
    ensures Replace(before + middle + after, pattern, text)
         == Replace(before, pattern, text) + middle + Replace(after, pattern, text)
  {
    Regroup(before, middle, after);
    ReplaceApart(before, middle + after, pattern, text);
    Regroup(Replace(before, pattern, text), middle, Replace(after, pattern, text));
  }

  lemma NotAtClock(after: Format)
    ensures Replace(CLOCK_12 + after, CLOCK_12_SECONDS, TEXT_24_00_00)
         == CLOCK_12 + Replace(after, CLOCK_12_SECONDS, TEXT_24_00_00)
  {
    var tail := CLOCK_12[1..];
    assert CLOCK_12 + after == [Hour12] + (tail + after);
    assert ([Hour12] + (tail + after))[3] == Literal(' ') && CLOCK_12_SECONDS[3] == Literal(':');
    ReplaceStep(Hour12, tail + after, CLOCK_12_SECONDS, TEXT_24_00_00);
    ReplaceAfter(tail, after, CLOCK_12_SECONDS, TEXT_24_00_00);
    Regroup([Hour12], tail, Replace(after, CLOCK_12_SECONDS, TEXT_24_00_00));
    assert [Hour12] + tail == CLOCK_12;
  }

  lemma Without12Clock(before: Format, after: Format)
    ensures Without12(before + CLOCK_12 + after) == Without12(before) + TEXT_24_00 + Without12(after)
  {
    NotAtClock(after);
    StretchBetween(before, CLOCK_12, after, CLOCK_12_SECONDS, TEXT_24_00_00);
    ReplacedBetween(Replace(before, CLOCK_12_SECONDS, TEXT_24_00_00), CLOCK_12,
                    Replace(after, CLOCK_12_SECONDS, TEXT_24_00_00), TEXT_24_00);
  }

  lemma Without12Seconds(before: Format, after: Format)
    ensures Without12(before + CLOCK_12_SECONDS + after) == Without12(before) + TEXT_24_00_00 + Without12(after)
  {
    var a, b := Replace(before, CLOCK_12_SECONDS, TEXT_24_00_00), Replace(after, CLOCK_12_SECONDS, TEXT_24_00_00);
    ReplacedBetween(before, CLOCK_12_SECONDS, after, TEXT_24_00_00);
    ReplaceAfter(TEXT_24_00_00, b, CLOCK_12, TEXT_24_00);
    StretchBetween(a, TEXT_24_00_00, b, CLOCK_12, TEXT_24_00);
  }

  /** Where a format has a twelve-hour clock, midnight reads 24:00 or 24:00:00, without AM or PM, and the rest of the
      format is treated as if it stood alone. */
  lemma MidnightClock(before: Format, after: Format)
    ensures EndFormat(before + CLOCK_12 + after) == EndFormat(before) + TEXT_24_00 + EndFormat(after)
    ensures EndFormat(before + CLOCK_12_SECONDS + after) == EndFormat(before) + TEXT_24_00_00 + EndFormat(after)
  {
    Without12Clock(before, after);
    Without12Seconds(before, after);
    ReplaceAfter(TEXT_24_00, Without12(after), [Hour24], TEXT_24);
    StretchBetween(Without12(before), TEXT_24_00, Without12(after), [Hour24], TEXT_24);
    ReplaceAfter(TEXT_24_00_00, Without12(after), [Hour24], TEXT_24);
    StretchBetween(Without12(before), TEXT_24_00_00, Without12(after), [Hour24], TEXT_24);
  }

  /** What midnight reads there. */
  lemma MidnightTexts(face: Face)
    ensures Written(face, TEXT_24) == "24" && Written(face, TEXT_24_00) == "24:00"
    ensures Written(face, TEXT_24_00_00) == "24:00:00"
  {
    LiteralWritten(face, '2');
    LiteralWritten(face, '4');
    LiteralWritten(face, '0');
    LiteralWritten(face, ':');
    hide Written;
    var zeros := [Literal('0'), Literal('0')];
    assert TEXT_24 == [Literal('2')] + [Literal('4')] && TEXT_24_00 == TEXT_24 + [Literal(':')] + zeros;
    assert TEXT_24_00_00 == TEXT_24_00 + [Literal(':')] + zeros && zeros == [Literal('0')] + [Literal('0')];
    WrittenAppend(face, [Literal('2')], [Literal('4')]);
    WrittenAppend(face, [Literal('0')], [Literal('0')]);
    WrittenAppend(face, TEXT_24, [Literal(':')]);
    WrittenAppend(face, TEXT_24 + [Literal(':')], zeros);
    WrittenAppend(face, TEXT_24_00, [Literal(':')]);
    WrittenAppend(face, TEXT_24_00 + [Literal(':')], zeros);
  }

  lemma {:induction false} WrittenAppend(face: Face, a: Format, b: Format)
    ensures Written(face, a + b) == Written(face, a) + Written(face, b)
  {
    hide Shown;
    if a == [] {
      assert a + b == b;
    } else {
      WrittenAppend(face, a[1..], b);
      FirstWritten(face, a);
      FirstWritten(face, a + b);
      hide Written;
      assert (a + b)[0] == a[0] && (a + b)[1..] == a[1..] + b;
      Regroup(Shown(face, a[0]), Written(face, a[1..]), Written(face, b));
    }
  }

  lemma FirstWritten(face: Face, format: Format)
    requires format != []
    ensures Written(face, format) == Shown(face, format[0]) + Written(face, format[1..])
  {
  }

  lemma LiteralWritten(face: Face, c: char)
    ensures Written(face, [Literal(c)]) == [c]
  {
  }

  /** A format without an hour is written at midnight as at any other time. */
  lemma WithoutHour(format: Format)
    requires Hour24 !in format && Hour12 !in format
    ensures EndFormat(format) == format
  {
    assert format + [] == format;
    ReplaceAfter(format, [], CLOCK_12_SECONDS, TEXT_24_00_00);
    ReplaceAfter(format, [], CLOCK_12, TEXT_24_00);
    ReplaceAfter(format, [], [Hour24], TEXT_24);
  }

  /* ---- When no twelve is left ---------------------------------------------------------------------------------- */

  /** Every twelve-hour directive begins a clock that is replaced. */
  predicate WholeClocks(format: Format) {
    format == [] ||
    ((format[0] == Hour12 ==> CLOCK_12 <= format || CLOCK_12_SECONDS <= format) && WholeClocks(format[1..]))
  }

  lemma {:induction false} WholeClocksAfter(before: Format, rest: Format)
    requires Hour12 !in before
    ensures WholeClocks(before + rest) <==> WholeClocks(rest)
  {
    if before == [] {
      assert before + rest == rest;
    } else {
      WholeClocksAfter(before[1..], rest);
      assert (before + rest)[1..] == before[1..] + rest;
    }
  }

  lemma FirstOfFront(front: Format, text: Format, rest: Format)
    requires front != [] && text != [] && front <= text + rest
    ensures front[0] == text[0]
  {
    assert front[0] == (text + rest)[0];
  }

  /** What replacing leaves at the front without a piece of the new text was there before. */
  lemma {:induction false} FrontKept(format: Format, front: Format, pattern: Format, text: Format)
    requires pattern != [] && text != [] && text[0] !in front && front <= Replace(format, pattern, text)
    ensures front <= format
  {
    if front != [] && format != [] {
      if pattern <= format {
        FirstOfFront(front, text, Replace(format[|pattern|..], pattern, text));
        assert false;
      } else {
        FrontKept(format[1..], front[1..], pattern, text);
      }
    }
  }

  lemma NoNewClock(rest: Format)
    requires CLOCK_12 <= [Hour12] + Replace(rest, CLOCK_12_SECONDS, TEXT_24_00_00)
    ensures CLOCK_12 <= [Hour12] + rest
  {
    var later := Replace(rest, CLOCK_12_SECONDS, TEXT_24_00_00);
    assert CLOCK_12[1..] <= ([Hour12] + later)[1..] == later;
    FrontKept(rest, CLOCK_12[1..], CLOCK_12_SECONDS, TEXT_24_00_00);
    assert [Hour12] + CLOCK_12[1..] <= [Hour12] + rest;
    assert [Hour12] + CLOCK_12[1..] == CLOCK_12;
  }

  lemma StrayClock(rest: Format)
    requires !(CLOCK_12 <= [Hour12] + rest) && !(CLOCK_12_SECONDS <= [Hour12] + rest)
    ensures Without12([Hour12] + rest) == [Hour12] + Without12(rest)
  {
    var later := Replace(rest, CLOCK_12_SECONDS, TEXT_24_00_00);
    ReplaceStep(Hour12, rest, CLOCK_12_SECONDS, TEXT_24_00_00);
    if CLOCK_12 <= [Hour12] + later {
      NoNewClock(rest);
    }
    ReplaceStep(Hour12, later, CLOCK_12, TEXT_24_00);
  }

  lemma NoClockHere(p: Piece, rest: Format)
    requires p != Hour12
    ensures Without12([p] + rest) == [p] + Without12(rest)
    ensures WholeClocks([p] + rest) <==> WholeClocks(rest)
  {
    ReplaceAfter([p], rest, CLOCK_12_SECONDS, TEXT_24_00_00);
    ReplaceAfter([p], Replace(rest, CLOCK_12_SECONDS, TEXT_24_00_00), CLOCK_12, TEXT_24_00);
    WholeClocksAfter([p], rest);
  }

  lemma WholeClock(clock: Format, rest: Format)
    requires clock == CLOCK_12 || clock == CLOCK_12_SECONDS
    ensures WholeClocks(clock + rest) <==> WholeClocks(rest)
  {
    assert clock + rest == [Hour12] + (clock[1..] + rest);
    assert ([Hour12] + (clock[1..] + rest))[1..] == clock[1..] + rest;
    assert clock <= clock + rest;
    WholeClocksAfter(clock[1..], rest);
  }

  lemma NothingLeft()
    ensures Without12([]) == []
  {
  }

  lemma ClockReplaced(rest: Format)
    ensures Without12(CLOCK_12 + rest) == TEXT_24_00 + Without12(rest) && |CLOCK_12| == 5
    ensures Without12(CLOCK_12_SECONDS + rest) == TEXT_24_00_00 + Without12(rest) && |CLOCK_12_SECONDS| == 7
  {
    NothingLeft();
    Without12Clock([], rest);
    Without12Seconds([], rest);
    assert [] + CLOCK_12 == CLOCK_12 && [] + CLOCK_12_SECONDS == CLOCK_12_SECONDS;
    assert [] + TEXT_24_00 == TEXT_24_00 && [] + TEXT_24_00_00 == TEXT_24_00_00;
  }

  lemma {:induction false} NoTwelveLeft(format: Format)
    ensures Hour12 !in Without12(format) <==> WholeClocks(format)
    decreases |format|
  {
    hide Without12, CLOCK_12, CLOCK_12_SECONDS;
    if format == [] {
      NothingLeft();
    } else if CLOCK_12_SECONDS <= format {
      var rest := format[|CLOCK_12_SECONDS|..];
      assert format == CLOCK_12_SECONDS + rest;
      ClockReplaced(rest);
      NoTwelveLeft(rest);
      WholeClock(CLOCK_12_SECONDS, rest);
    } else if CLOCK_12 <= format {
      var rest := format[|CLOCK_12|..];
      assert format == CLOCK_12 + rest;
      ClockReplaced(rest);
      NoTwelveLeft(rest);
      WholeClock(CLOCK_12, rest);
    } else {
      var rest := format[1..];
      assert format == [format[0]] + rest;
      if format[0] == Hour12 {
        StrayClock(rest);
      } else {
        NoTwelveLeft(rest);
        NoClockHere(format[0], rest);
      }
    }
  }

  lemma {:induction false} HoursReplaced(format: Format)
    ensures var r := Replace(format, [Hour24], TEXT_24); Hour24 !in r && (Hour12 in r <==> Hour12 in format)
  {
    if format != [] {
      HoursReplaced(format[1..]);
    }
  }

  /** At midnight no directive of the hour is left in a format, so that it reads 24 wherever it shows the hour, if and
      only if each of its twelve-hour directives begins one of the two clocks that are replaced. */
  lemma NoHourLeftIff(format: Format)
    ensures Hour24 !in EndFormat(format)
    ensures Hour12 !in EndFormat(format) <==> WholeClocks(format)
  {
    NoTwelveLeft(format);
    HoursReplaced(Without12(format));
  }
}
