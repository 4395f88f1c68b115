/** The line filter on whole texts: split, read, filter, join and trim. */
module NoteText {
  import opened Common
  import opened Text
  import opened Lines
  import opened NoteFilter

  /** What a line without outer white space is. */
  type Reader = string -> Kind

  ghost predicate Coherent(kind: Reader) {
    forall core :: kind(core).Blank? <==> core == ""
  }

  function Read(kind: Reader, raw: string): Line {
    Line(kind(Trim(raw)), Trim(raw), TrimRight(raw))
  }

  function ReadAll(kind: Reader, raws: seq<string>): (r: seq<Line>)
    ensures |r| == |raws|
  {
    if raws == [] then [] else ReadAll(kind, raws[..|raws| - 1]) + [Read(kind, raws[|raws| - 1])]
  }

  function Texts(lines: seq<Line>): (r: seq<string>)
    ensures |r| == |lines|
  {
    if lines == [] then [] else Texts(lines[..|lines| - 1]) + [lines[|lines| - 1].text]
  }

  /** What the filter makes of a text. */
  function Strip(kind: Reader, text: string): string {
    Trim(JoinLines(Texts(Kept(ReadAll(kind, SplitLines(text))))))
  }

  /* ---- Reading lines ------------------------------------------------------------------------------------------- */

  ghost predicate WellRead(kind: Reader, line: Line) {
    && OneLine(line.text) && TrimRight(line.text) == line.text && Trim(line.text) == line.core
    && line.kind == kind(line.core) && (line.kind.Blank? <==> line.text == "")
  }

  ghost predicate AllWellRead(kind: Reader, lines: seq<Line>) {
    forall i :: 0 <= i < |lines| ==> WellRead(kind, lines[i])
  }

  lemma ReadIsWell(kind: Reader, raw: string)
    requires Coherent(kind) && OneLine(raw)
    ensures WellRead(kind, Read(kind, raw))
  {
    TrimRightPrefix(raw);
    BlankIff(raw);
  }

  lemma {:induction false} ReadAllIsWell(kind: Reader, raws: seq<string>)
    requires Coherent(kind) && AllOneLine(raws)
    ensures AllWellRead(kind, ReadAll(kind, raws))
  {
    if raws != [] {
      ReadAllIsWell(kind, raws[..|raws| - 1]);
      ReadIsWell(kind, raws[|raws| - 1]);
    }
  }

  /** Written out and read again, lines are the same. */
  lemma {:induction false} ReadOfTexts(kind: Reader, lines: seq<Line>)
    requires AllWellRead(kind, lines)
    ensures ReadAll(kind, Texts(lines)) == lines
  {
    if lines != [] {
      ReadOfTexts(kind, lines[..|lines| - 1]);
      assert WellRead(kind, lines[|lines| - 1]);
    }
  }

  lemma {:induction false} TextsAt(lines: seq<Line>, i: nat)
    requires i < |lines|
    ensures Texts(lines)[i] == lines[i].text
  {
    if i < |lines| - 1 {
      TextsAt(lines[..|lines| - 1], i);
    }
  }

  lemma TextsOneLine(kind: Reader, lines: seq<Line>)
    requires AllWellRead(kind, lines)
    ensures AllOneLine(Texts(lines))
  {
  }

  /* ---- The outer trim ------------------------------------------------------------------------------------------ */

  lemma {:induction false} JoinEnd(lines: seq<string>)
    requires lines != [] && lines[|lines| - 1] != ""
    ensures var s, last := JoinLines(lines), lines[|lines| - 1];
            s != "" && s[|s| - 1] == last[|last| - 1]
  {
    if |lines| > 1 {
      JoinEnd(lines[1..]);
    }
  }

  lemma TrimRightOfJoin(lines: seq<string>)
    requires lines != [] && lines[|lines| - 1] != "" && TrimRight(lines[|lines| - 1]) == lines[|lines| - 1]
    ensures TrimRight(JoinLines(lines)) == JoinLines(lines)
    ensures TrimRight(JoinLines(lines + [""])) == JoinLines(lines)
  {
    JoinEnd(lines);
    TrimRightPrefix(lines[|lines| - 1]);
    BreakTrimmed(JoinLines(lines));
    JoinBlank(lines);
  }

  lemma JoinBlank(lines: seq<string>)
    requires lines != []
    ensures JoinLines(lines + [""]) == JoinLines(lines) + "\n"
  {
    JoinAppend(lines, [""]);
    assert JoinLines(lines) + "\n" + "" == JoinLines(lines) + "\n";
  }

  lemma BreakTrimmed(s: string)
    requires s != "" && !IsSpace(s[|s| - 1])
    ensures TrimRight(s) == s && TrimRight(s + "\n") == s
  {
    assert (s + "\n")[..|s|] == s;
  }

  lemma TrimLeftOfJoin(lines: seq<string>)
    requires lines != [] && TrimLeft(lines[0]) != ""
    ensures TrimLeft(JoinLines(lines)) == JoinLines([TrimLeft(lines[0])] + lines[1..])
  {
    if |lines| > 1 {
      var rest := "\n" + JoinLines(lines[1..]);
      assert JoinLines(lines) == lines[0] + rest;
      TrimLeftOf(lines[0], rest);
      assert ([TrimLeft(lines[0])] + lines[1..])[1..] == lines[1..];
    }
  }

  /** A blank line at the end. */
  function WithoutEnd(lines: seq<Line>): seq<Line> {
    if lines != [] && lines[|lines| - 1].kind.Blank? then lines[..|lines| - 1] else lines
  }

  /** The white space before the first line. */
  function Undented(lines: seq<Line>): seq<Line> {
    if lines == [] then [] else [lines[0].(text := lines[0].core)] + lines[1..]
  }

  /** Tidy, and with no white space at either end. */
  ghost predicate Clean(kind: Reader, lines: seq<Line>) {
    && Tidy(lines) && AllWellRead(kind, lines)
    && (lines != [] ==> lines[0].text == lines[0].core && !lines[|lines| - 1].kind.Blank?)
  }

  lemma FirstUndented(kind: Reader, first: Line)
    requires Coherent(kind) && WellRead(kind, first)
    ensures WellRead(kind, first.(text := first.core))
  {
    TrimTwice(first.text);
    TrimLeftSuffix(first.text);
    BlankIff(first.text);
  }

  lemma UndentedIsWell(kind: Reader, lines: seq<Line>)
    requires Coherent(kind) && AllWellRead(kind, lines)
    ensures AllWellRead(kind, Undented(lines))
  {
    var r := Undented(lines);
    forall i | 0 <= i < |r|
      ensures WellRead(kind, r[i])
    {
      assert WellRead(kind, lines[i]);
      if i == 0 {
        FirstUndented(kind, lines[0]);
      }
    }
  }

  lemma UndentedIsClean(kind: Reader, lines: seq<Line>)
    requires Coherent(kind) && Tidy(lines) && AllWellRead(kind, lines)
    ensures Clean(kind, Undented(WithoutEnd(lines)))
  {
    UndentedIsWell(kind, WithoutEnd(lines));
  }

  lemma TextsOfUndented(lines: seq<Line>)
    requires lines != []
    ensures Texts(Undented(lines)) == [lines[0].core] + Texts(lines)[1..]
  {
    var r := Undented(lines);
    forall i | 0 <= i < |r|
      ensures Texts(r)[i] == ([lines[0].core] + Texts(lines)[1..])[i]
    {
      TextsAt(r, i);
      TextsAt(lines, i);
    }
  }

  /** Trimming the joined lines takes away a blank line at the end and the white space before the first line. */
  lemma OuterTrim(kind: Reader, lines: seq<Line>)
    requires Coherent(kind) && Tidy(lines) && AllWellRead(kind, lines)
    ensures Trim(JoinLines(Texts(lines))) == JoinLines(Texts(Undented(WithoutEnd(lines))))
  {
    if lines != [] {
      var all := WithoutEnd(lines);
      var texts := Texts(all);
      var n := |all| - 1;
      assert WellRead(kind, all[0]) && WellRead(kind, all[n]);
      TextsAt(all, 0);
      TextsAt(all, n);
      TrimRightOfJoin(texts);
      if |all| < |lines| {
        assert WellRead(kind, lines[n + 1]);
        assert Texts(lines) == texts + [""];
      }
      TrimLeftOfJoin(texts);
      TextsOfUndented(all);
    }
  }

  /** A text of clean lines splits into them, and passes the filter unchanged. */
  lemma CleanTextPasses(kind: Reader, lines: seq<Line>)
    requires Coherent(kind) && Clean(kind, lines)
    ensures SplitLines(JoinLines(Texts(lines))) == Texts(lines)
    ensures ReadAll(kind, Texts(lines)) == lines
    ensures Strip(kind, JoinLines(Texts(lines))) == JoinLines(Texts(lines))
  {
    SplitOfTexts(kind, lines);
    ReadOfTexts(kind, lines);
    TidyIsKept(lines);
    OuterTrim(kind, lines);
    NothingToTrim(kind, lines);
  }

  lemma NothingToTrim(kind: Reader, lines: seq<Line>)
    requires Clean(kind, lines)
    ensures Undented(WithoutEnd(lines)) == lines
  {
    if lines != [] {
      assert lines == [lines[0]] + lines[1..];
    }
  }

  /** The lines of the result. */
  lemma StripLines(kind: Reader, text: string) returns (result: seq<Line>)
    requires Coherent(kind)
    ensures result == Undented(WithoutEnd(Kept(ReadAll(kind, SplitLines(text)))))
    ensures Clean(kind, result) && Strip(kind, text) == JoinLines(Texts(result))
    ensures ReadAll(kind, SplitLines(Strip(kind, text))) == result
  {
    var lines := ReadAll(kind, SplitLines(text));
    SplitIsOneLine(text);
    ReadAllIsWell(kind, SplitLines(text));
    KeptIsTidy(lines);
    KeptIsWell(kind, lines);
    OuterTrim(kind, Kept(lines));
    UndentedIsClean(kind, Kept(lines));
    result := Undented(WithoutEnd(Kept(lines)));
    CleanTextPasses(kind, result);
  }

  lemma KeptIsWell(kind: Reader, lines: seq<Line>)
    requires AllWellRead(kind, lines)
    ensures AllWellRead(kind, Kept(lines))
  {
  }

  /* ---- What the filter does to a text -------------------------------------------------------------------------- */

  lemma StripTwice(kind: Reader, text: string)
    requires Coherent(kind)
    ensures Strip(kind, Strip(kind, text)) == Strip(kind, text)
  {
    var result := StripLines(kind, text);
    CleanTextPasses(kind, result);
  }

  lemma NoSummaryLeft(kind: Reader, text: string)
    requires Coherent(kind)
    ensures Tidy(ReadAll(kind, SplitLines(Strip(kind, text))))
  {
    var result := StripLines(kind, text);
  }

  lemma {:induction false} CoresAt(lines: seq<Line>, i: nat)
    requires i < |lines|
    ensures Cores(lines)[i] == lines[i].core
  {
    if i < |lines| - 1 {
      CoresAt(lines[..|lines| - 1], i);
    }
  }

  lemma CoresOfUndented(lines: seq<Line>)
    ensures Cores(Undented(lines)) == Cores(lines)
  {
    var r := Undented(lines);
    forall i | 0 <= i < |r|
      ensures Cores(r)[i] == Cores(lines)[i]
    {
      CoresAt(r, i);
      CoresAt(lines, i);
    }
  }

  /** Outer white space aside, the lines of the result are lines of the text, in the same order. */
  lemma StripIsSubsequence(kind: Reader, text: string)
    requires Coherent(kind)
    ensures Subsequence(Cores(ReadAll(kind, SplitLines(Strip(kind, text)))), Cores(ReadAll(kind, SplitLines(text))))
  {
    var result := StripLines(kind, text);
    var lines := ReadAll(kind, SplitLines(text));
    var kept := Kept(lines);
    KeptIsSubsequence(lines);
    CoresOfUndented(WithoutEnd(kept));
    if |WithoutEnd(kept)| < |kept| {
      SubsequenceInit(Cores(kept), Cores(lines));
    }
  }

  lemma SplitOfTexts(kind: Reader, lines: seq<Line>)
    requires AllWellRead(kind, lines) && (lines == [] || !lines[|lines| - 1].kind.Blank?)
    ensures ReadAll(kind, SplitLines(JoinLines(Texts(lines)))) == lines
    ensures SplitLines(JoinLines(Texts(lines))) == Texts(lines)
  {
    TextsOneLine(kind, lines);
    if lines != [] {
      TextsAt(lines, |lines| - 1);
      assert WellRead(kind, lines[|lines| - 1]);
    }
    SplitOfJoin(Texts(lines));
    ReadOfTexts(kind, lines);
  }

  /* ---- A text in two parts ------------------------------------------------------------------------------------- */

  lemma SolidResult(lines: seq<Line>)
    requires Tidy(lines)
    ensures |Solid(Undented(WithoutEnd(lines)))| == |Solid(lines)|
  {
    SolidSame(Undented(WithoutEnd(lines)), WithoutEnd(lines));
  }

  /** The front part of a text and the extra text that its remaining lines amount to: the filter makes of the text
      exactly the extra text, if and only if it leaves nothing of the front part and changes nothing of the extra
      text. */
  lemma ExtraRemainsIff(kind: Reader, text: string, front: seq<Line>, rest: seq<Line>, extra: string)
    requires Coherent(kind) && ReadAll(kind, SplitLines(text)) == front + rest && !Skipping(front)
    requires Kept(rest) == Kept(ReadAll(kind, SplitLines(extra)))
    requires Contents(rest) == Contents(ReadAll(kind, SplitLines(extra)))
    ensures Strip(kind, text) == extra <==> Contents(front) == [] && Strip(kind, extra) == extra
  {
    if Contents(front) == [] {
      KeptNone(front);
      KeptAfter(front, rest);
    } else if Strip(kind, text) == extra {
      FrontShows(kind, text, front, rest);
      assert false;
    }
  }

  /** What has contents in front of what the filter makes of it cannot be. */
  lemma FrontShows(kind: Reader, text: string, front: seq<Line>, rest: seq<Line>)
    requires Coherent(kind) && ReadAll(kind, SplitLines(text)) == front + rest && !Skipping(front)
    requires Contents(rest) == Contents(ReadAll(kind, SplitLines(Strip(kind, text))))
    ensures Contents(front) == []
  {
    var all := front + rest;
    var result := StripLines(kind, text);
    TidyIsKept(result);
    ContentsStay(result);
    ContentsStay(all);
    ContentsAppend(front, rest);
    KeptIsTidy(all);
    SolidResult(Kept(all));
  }

  /** A blank line between the parts. */
  lemma ExtraBelowIff(kind: Reader, front: string, extra: string)
    requires Coherent(kind) && front != "" && !IsBreak(front[|front| - 1])
    requires !Skipping(ReadAll(kind, SplitLines(front)))
    ensures Strip(kind, front + ("\n" + ("\n" + extra))) == extra
       <==> Contents(ReadAll(kind, SplitLines(front))) == [] && Strip(kind, extra) == extra
  {
    var blank, lines := Read(kind, ""), ReadAll(kind, SplitLines(extra));
    SplitAppend(front, "\n" + extra);
    SplitFirst("", extra);
    assert "" + "\n" + extra == "\n" + extra;
    ReadAllAppend(kind, SplitLines(front), [""] + SplitLines(extra));
    ReadAllAppend(kind, [""], SplitLines(extra));
    ReadOne(kind, "");
    BlankAlone(blank);
    KeptAfter([blank], lines);
    ContentsAppend([blank], lines);
    ExtraRemainsIff(kind, front + ("\n" + ("\n" + extra)), ReadAll(kind, SplitLines(front)), [blank] + lines, extra);
  }

  lemma BlankAlone(blank: Line)
    requires blank.kind.Blank?
    ensures Kept([blank]) == [] && !Skipping([blank]) && Contents([blank]) == []
  {
  }

  /* ---- A heading ----------------------------------------------------------------------------------------------- */

  lemma {:induction false} ReadAllAt(kind: Reader, raws: seq<string>, i: nat)
    requires i < |raws|
    ensures ReadAll(kind, raws)[i] == Read(kind, raws[i])
  {
    if i < |raws| - 1 {
      ReadAllAt(kind, raws[..|raws| - 1], i);
    }
  }

  lemma {:induction false} ReadAllAppend(kind: Reader, a: seq<string>, b: seq<string>)
    ensures ReadAll(kind, a + b) == ReadAll(kind, a) + ReadAll(kind, b)
  {
    if b == [] {
      assert a + b == a;
    } else {
      ReadAllAppend(kind, a, b[..|b| - 1]);
      assert (a + b)[..|a + b| - 1] == a + b[..|b| - 1];
    }
  }

  lemma ReadOne(kind: Reader, raw: string)
    ensures ReadAll(kind, [raw]) == [Read(kind, raw)]
  {
    assert [raw][..0] == [];
  }

  /** A heading of five values; the second may have several lines. */
  ghost predicate HeadingOk(first: string, name: string, s: string, t: string) {
    && OneLine(first) && first != "" && !IsSpace(first[0])
    && name != "" && !IsBreak(name[|name| - 1])
    && OneLine(s) && OneLine(t) && TrimRight(t) != ""
  }

  function HeadingText(first: string, name: string, s: string, t: string): string {
    JoinLines([first, name, "", s, t])
  }

  /** The lines of a joined text, one part at a time. */
  lemma SplitJoinStep(a: string, rest: seq<string>)
    requires rest != [] && (a == "" || !IsBreak(a[|a| - 1]))
    ensures SplitLines(JoinLines([a] + rest)) == (if a == "" then [""] else SplitLines(a)) + SplitLines(JoinLines(rest))
  {
    var below := JoinLines(rest);
    assert ([a] + rest)[1..] == rest;
    Regroup(a, "\n", below);
    if a == "" {
      SplitFirst(a, below);
    } else {
      SplitAppend(a, below);
    }
  }

  lemma HeadingSplits(first: string, name: string, s: string, t: string)
    requires HeadingOk(first, name, s, t)
    ensures SplitLines(HeadingText(first, name, s, t)) == [first] + SplitLines(name) + ["", s, t]
  {
    var tail := ["", s, t];
    SplitTail(s, t);
    SplitJoinStep(name, tail);
    SplitJoinStep(first, [name] + tail);
    SplitWhole(first);
    InParts(first, name, s, t);
    Regroup([first], SplitLines(name), tail);
  }

  lemma InParts(first: string, name: string, s: string, t: string)
    ensures [first, name, "", s, t] == [first] + ([name] + ["", s, t])
  {
  }

  lemma SplitTail(s: string, t: string)
    requires OneLine(s) && OneLine(t) && t != ""
    ensures SplitLines(JoinLines(["", s, t])) == ["", s, t]
  {
    assert AllOneLine(["", s, t]);
    SplitOfJoin(["", s, t]);
  }

  lemma TrimRightNotEmpty(t: string)
    requires TrimRight(t) != ""
    ensures t != "" && (OneLine(t) ==> OneLine(TrimRight(t)))
    ensures var r := TrimRight(t); !IsSpace(r[|r| - 1]) && TrimRight(r) == r && Trim(r) == Trim(t)
  {
    TrimRightPrefix(t);
  }

  lemma EndTrimmed(lines: seq<string>, last: string)
    requires lines != [] && TrimRight(last) != ""
    ensures TrimRight(JoinLines(lines + [last])) == JoinLines(lines + [TrimRight(last)])
  {
    JoinAppend(lines, [last]);
    JoinAppend(lines, [TrimRight(last)]);
    var head := JoinLines(lines) + "\n";
    TrimRightInner(head, last);
    assert JoinLines(lines + [last]) == head + last;
  }

  /** Outer trimming only takes white space from the end of the last line. */
  lemma HeadingTrimmed(first: string, name: string, s: string, t: string)
    requires HeadingOk(first, name, s, t)
    ensures Trim(HeadingText(first, name, s, t)) == HeadingText(first, name, s, TrimRight(t))
    ensures HeadingOk(first, name, s, TrimRight(t))
  {
    TrimRightNotEmpty(t);
    var lines := [first, name, "", s];
    assert lines + [t] == [first, name, "", s, t] && lines + [TrimRight(t)] == [first, name, "", s, TrimRight(t)];
    EndTrimmed(lines, t);
    HeadingEnds(first, name, s, TrimRight(t));
  }

  lemma HeadingReads(kind: Reader, first: string, name: string, s: string, t: string)
    requires Coherent(kind) && HeadingOk(first, name, s, t)
    requires kind(Trim(first)).BareHeader? && kind(Trim(s)).Summary? && kind(Trim(t)).Summary?
    ensures SplitLines(name) != []
    ensures
      var lines := ReadAll(kind, SplitLines(HeadingText(first, name, s, t)));
      Contents(lines) == Contents(ReadAll(kind, SplitLines(name)[1..])) && !Skipping(lines)
  {
    HeadingSplits(first, name, s, t);
    NamedHeading(kind, first, SplitLines(name), s, t);
  }

  lemma NamedHeading(kind: Reader, first: string, names: seq<string>, s: string, t: string)
    requires Coherent(kind) && names != []
    requires kind(Trim(first)).BareHeader? && kind(Trim(s)).Summary? && kind(Trim(t)).Summary?
    ensures
      var lines := ReadAll(kind, [first] + names + ["", s, t]);
      Contents(lines) == Contents(ReadAll(kind, names[1..])) && !Skipping(lines)
  {
    assert [first] + names + ["", s, t] == [first, names[0]] + names[1..] + ["", s, t];
    ReadAllAppend(kind, [first, names[0]] + names[1..], ["", s, t]);
    ReadAllAppend(kind, [first, names[0]], names[1..]);
    ReadTwo(kind, first, names[0]);
    ReadThree(kind, "", s, t);
    HeadingContents(Read(kind, first), Read(kind, names[0]), ReadAll(kind, names[1..]),
                    Read(kind, ""), Read(kind, s), Read(kind, t));
  }

  lemma ReadTwo(kind: Reader, a: string, b: string)
    ensures ReadAll(kind, [a, b]) == [Read(kind, a), Read(kind, b)]
  {
    ReadAllAppend(kind, [a], [b]);
    ReadOne(kind, a);
    ReadOne(kind, b);
    assert [a] + [b] == [a, b];
  }

  lemma ReadThree(kind: Reader, a: string, b: string, c: string)
    ensures ReadAll(kind, [a, b, c]) == [Read(kind, a), Read(kind, b), Read(kind, c)]
  {
    ReadAllAppend(kind, [a, b], [c]);
    ReadTwo(kind, a, b);
    ReadOne(kind, c);
    assert [a, b] + [c] == [a, b, c];
  }

  /** The filter makes of a heading with an extra text below it exactly the extra text, if and only if it leaves nothing
      of the name beyond its first line and changes nothing of the extra text. */
  lemma HeadingAndExtraIff(kind: Reader, first: string, name: string, s: string, t: string, extra: string)
    requires Coherent(kind) && HeadingOk(first, name, s, t)
    requires kind(Trim(first)).BareHeader? && kind(Trim(s)).Summary? && kind(Trim(t)).Summary?
    requires extra != "" && !IsSpace(extra[|extra| - 1])
    ensures SplitLines(name) != []
    ensures
      var text := Trim(HeadingText(first, name, s, t) + ("\n" + ("\n" + extra)));
      var nameGoes := Contents(ReadAll(kind, SplitLines(name)[1..])) == [];
      Strip(kind, text) == extra <==> nameGoes && Strip(kind, extra) == extra
  {
    hide ReadAll, Contents, Strip, HeadingText, SplitLines;
    var heading := HeadingText(first, name, s, t);
    var text := heading + ("\n" + ("\n" + extra));
    HeadingReads(kind, first, name, s, t);
    HeadingEnds(first, name, s, t);
    assert text[0] == heading[0] && text[|text| - 1] == extra[|extra| - 1];
    TrimNothing(text);
    ExtraBelowIff(kind, heading, extra);
  }

  lemma HeadingEnds(first: string, name: string, s: string, t: string)
    requires HeadingOk(first, name, s, t)
    ensures var heading := HeadingText(first, name, s, t);
            heading != "" && heading[0] == first[0] && heading[|heading| - 1] == t[|t| - 1] && !IsBreak(t[|t| - 1])
  {
    TrimRightNotEmpty(t);
    assert [first] + [name, "", s, t] == [first, name, "", s, t];
    JoinEnd([first, name, "", s, t]);
  }

  /** Without an extra text, nothing is left under the same condition on the name. */
  lemma HeadingAloneIff(kind: Reader, first: string, name: string, s: string, t: string)
    requires Coherent(kind) && HeadingOk(first, name, s, t)
    requires kind(Trim(first)).BareHeader? && kind(Trim(s)).Summary? && kind(Trim(t)).Summary?
    ensures SplitLines(name) != []
    ensures Strip(kind, Trim(HeadingText(first, name, s, t))) == ""
       <==> Contents(ReadAll(kind, SplitLines(name)[1..])) == []
  {
    HeadingTrimmed(first, name, s, t);
    TrimRightNotEmpty(t);
    HeadingReads(kind, first, name, s, TrimRight(t));
    NothingBelow(kind, HeadingText(first, name, s, TrimRight(t)));
  }

  lemma NothingBelow(kind: Reader, text: string)
    requires Coherent(kind) && !Skipping(ReadAll(kind, SplitLines(text)))
    ensures Strip(kind, text) == "" <==> Contents(ReadAll(kind, SplitLines(text))) == []
  {
    var lines := ReadAll(kind, SplitLines(text));
    assert lines + [] == lines;
    EmptyText(kind);
    ExtraRemainsIff(kind, text, lines, [], "");
  }

  /** The same for a text joined from the heading and sections that begin with a blank line. */
  lemma JoinedIff(kind: Reader, first: string, name: string, s: string, t: string, sections: seq<string>)
    requires Coherent(kind) && HeadingOk(first, name, s, t)
    requires kind(Trim(first)).BareHeader? && kind(Trim(s)).Summary? && kind(Trim(t)).Summary?
    requires |sections| > 1 && sections[0] == "" && EndsShown(JoinLines(sections[1..]))
    ensures SplitLines(name) != []
    ensures
      var text, extra := Trim(JoinLines([first, name, "", s, t] + sections)), JoinLines(sections[1..]);
      var nameGoes := Contents(ReadAll(kind, SplitLines(name)[1..])) == [];
      Strip(kind, text) == extra <==> nameGoes && Strip(kind, extra) == extra
  {
    BelowHeading([first, name, "", s, t], sections);
    HeadingAndExtraIff(kind, first, name, s, t, JoinLines(sections[1..]));
  }

  ghost predicate EndsShown(s: string) {
    s != "" && !IsSpace(s[|s| - 1])
  }

  lemma BelowHeading(heading: seq<string>, sections: seq<string>)
    requires heading != [] && |sections| > 1 && sections[0] == ""
    ensures JoinLines(heading + sections) == JoinLines(heading) + ("\n" + ("\n" + JoinLines(sections[1..])))
  {
    JoinAppend(heading, sections);
    assert JoinLines(sections) == "\n" + JoinLines(sections[1..]);
    Regroup(JoinLines(heading), "\n", JoinLines(sections));
  }

  lemma EmptyText(kind: Reader)
    ensures ReadAll(kind, SplitLines("")) == [] && Strip(kind, "") == ""
  {
    assert Texts([]) == [] && Trim("") == "";
  }

  /* ---- Sections as texts --------------------------------------------------------------------------------------- */

  /** A value that stands on one line, without outer white space. */
  ghost predicate Shown(s: string) {
    OneLine(s) && Trim(s) == s
  }

  ghost predicate AllShown(lines: seq<string>) {
    forall i :: 0 <= i < |lines| ==> Shown(lines[i]) && lines[i] != ""
  }

  ghost predicate ReadPlain(kind: Reader, lines: seq<string>) {
    forall i :: 0 <= i < |lines| ==> lines[i] == "" || kind(lines[i]).Plain?
  }

  /** Lines of sections: each section begins with a blank line, and no two blank lines are in a row. */
  ghost predicate SectionTexts(texts: seq<string>) {
    && (texts != [] ==> texts[0] == "" && texts[|texts| - 1] != "")
    && (forall i :: 0 <= i < |texts| ==> Shown(texts[i]))
    && (forall i :: 0 < i < |texts| ==> texts[i - 1] != "" || texts[i] != "")
  }

  lemma SectionsConcat(kind: Reader, a: seq<string>, b: seq<string>)
    requires SectionTexts(a) && SectionTexts(b)
    ensures SectionTexts(a + b) && (ReadPlain(kind, a + b) <==> ReadPlain(kind, a) && ReadPlain(kind, b))
  {
    PlainTogether(kind, a, b);
  }

  lemma PlainTogether(kind: Reader, a: seq<string>, b: seq<string>)
    ensures ReadPlain(kind, a + b) <==> ReadPlain(kind, a) && ReadPlain(kind, b)
  {
    assert forall i :: 0 <= i < |a| ==> (a + b)[i] == a[i];
    assert forall i :: 0 <= i < |b| ==> (a + b)[|a| + i] == b[i];
  }

  lemma OneSection(kind: Reader, lines: seq<string>)
    requires AllShown(lines) && lines != []
    ensures SectionTexts([""] + lines) && (ReadPlain(kind, [""] + lines) <==> ReadPlain(kind, lines))
  {
    var s := [""] + lines;
    assert forall i :: 0 <= i < |lines| ==> s[i + 1] == lines[i];
    assert Trim("") == "";
  }

  lemma ThreeLines(kind: Reader, a: string, b: string, c: string)
    requires Shown(a) && Shown(b) && Shown(c) && a != "" && b != "" && c != ""
    requires kind(a).Plain? && kind(b).Plain? && kind(c).Plain?
    ensures SectionTexts(["", a, b, c]) && ReadPlain(kind, ["", a, b, c])
  {
    OneSection(kind, [a, b, c]);
    assert [""] + [a, b, c] == ["", a, b, c];
  }

  lemma TitledSection(kind: Reader, title: string, lines: seq<string>)
    requires Shown(title) && title != "" && kind(title).Plain? && AllShown(lines) && lines != []
    ensures SectionTexts(["", title, ""] + lines)
    ensures ReadPlain(kind, ["", title, ""] + lines) <==> ReadPlain(kind, lines)
  {
    OneSection(kind, [title]);
    OneSection(kind, lines);
    SectionsConcat(kind, [""] + [title], [""] + lines);
    assert [""] + [title] + ([""] + lines) == ["", title, ""] + lines;
  }

  lemma {:induction false} TextsOfSections(kind: Reader, texts: seq<string>)
    requires forall i :: 0 <= i < |texts| ==> Shown(texts[i])
    ensures Texts(ReadAll(kind, texts)) == texts
  {
    if texts != [] {
      var n := |texts| - 1;
      TextsOfSections(kind, texts[..n]);
      assert Shown(texts[n]);
      TrimTwice(texts[n]);
      assert ReadAll(kind, texts)[..n] == ReadAll(kind, texts[..n]);
    }
  }

  /** The lines of sections pass the filter as a text of their own, if and only if none of them reads as a header or a
      summary line. */
  lemma SectionsPassIff(kind: Reader, sections: seq<string>)
    requires Coherent(kind) && SectionTexts(sections) && sections != []
    ensures Strip(kind, JoinLines(sections[1..])) == JoinLines(sections[1..]) <==> ReadPlain(kind, sections)
  {
    var rest := sections[1..];
    var lines := ReadAll(kind, rest);
    SectionsRead(kind, sections);
    TextsOfSections(kind, rest);
    SplitOfJoin(rest);
    if ReadPlain(kind, sections) {
      SectionsClean(kind, sections);
      CleanTextPasses(kind, lines);
    } else if Strip(kind, JoinLines(rest)) == JoinLines(rest) {
      NoSummaryLeft(kind, JoinLines(rest));
      SummaryAmong(kind, sections);
      assert false;
    }
  }

  lemma SectionsRead(kind: Reader, sections: seq<string>)
    requires SectionTexts(sections) && sections != []
    ensures sections[1..] != [] && AllOneLine(sections[1..])
    ensures sections[|sections| - 1] == sections[1..][|sections| - 2]
    ensures forall i :: 0 <= i < |sections[1..]| ==> Shown(sections[1..][i])
  {
    assert forall i :: 0 <= i < |sections| ==> Shown(sections[i]);
  }

  lemma ShownIsRead(kind: Reader, s: string)
    requires Coherent(kind) && Shown(s)
    ensures WellRead(kind, Read(kind, s)) && Read(kind, s) == Line(kind(s), s, s)
  {
    ReadIsWell(kind, s);
    TrimTwice(s);
  }

  lemma SectionsClean(kind: Reader, sections: seq<string>)
    requires Coherent(kind) && SectionTexts(sections) && sections != [] && ReadPlain(kind, sections)
    ensures Clean(kind, ReadAll(kind, sections[1..]))
  {
    var rest := sections[1..];
    var lines := ReadAll(kind, rest);
    SectionsRead(kind, sections);
    forall i | 0 <= i < |lines|
      ensures lines[i] == Line(kind(sections[i + 1]), sections[i + 1], sections[i + 1]) && WellRead(kind, lines[i])
    {
      ReadAllAt(kind, rest, i);
      ShownIsRead(kind, rest[i]);
    }
  }

  lemma SummaryAmong(kind: Reader, sections: seq<string>)
    requires Coherent(kind) && SectionTexts(sections) && sections != [] && Tidy(ReadAll(kind, sections[1..]))
    ensures ReadPlain(kind, sections)
  {
    var rest := sections[1..];
    SectionsRead(kind, sections);
    forall i | 0 < i < |sections|
      ensures sections[i] == "" || kind(sections[i]).Plain?
    {
      ReadAllAt(kind, rest, i - 1);
      ShownIsRead(kind, rest[i - 1]);
    }
  }
}
