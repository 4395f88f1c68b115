/** The line filter under strip_booking_summary_from_note (iic_booking/communication/email_branding.py), for any
    way of telling summary lines from others. */
module NoteFilter {
  import opened Common

  /** What a line is to the filter. A bare header is one that announces the equipment name on the next line. */
  datatype Kind = Blank | BareHeader | Header | Summary | Plain

  /** A line with its outer white space removed, and with only the white space at its end removed. */
  datatype Line = Line(kind: Kind, core: string, text: string)

  /** The line after a bare header is the equipment name, and is not itself read as a header. */
  predicate Skipping(lines: seq<Line>) {
    lines != [] && lines[|lines| - 1].kind.BareHeader? && !Skipping(lines[..|lines| - 1])
  }

  predicate Keeps(before: seq<Line>, skipping: bool, line: Line) {
    match line.kind
    case Blank => before != [] && !before[|before| - 1].kind.Blank?
    case Plain => !skipping
    case _ => false
  }

  /** The lines that are left. */
  function Kept(lines: seq<Line>): seq<Line> {
    if lines == [] then []
    else
      var init, line := lines[..|lines| - 1], lines[|lines| - 1];
      if Keeps(Kept(init), Skipping(init), line) then Kept(init) + [line] else Kept(init)
  }

  /** A line is an equipment name exactly when an odd number of bare headers stands directly before it. */
  lemma {:induction false} SkippingIff(lines: seq<Line>) returns (m: nat)
    ensures m <= |lines| && forall i :: |lines| - m <= i < |lines| ==> lines[i].kind.BareHeader?
    ensures m < |lines| ==> !lines[|lines| - m - 1].kind.BareHeader?
    ensures Skipping(lines) <==> m % 2 == 1
  {
    m := 0;
    if lines != [] && lines[|lines| - 1].kind.BareHeader? {
      m := SkippingIff(lines[..|lines| - 1]);
      m := m + 1;
    }
  }

  /* ---- What is left is tidy ------------------------------------------------------------------------------------ */

  /** No header and no summary line, no blank line first, no two blank lines in a row. */
  ghost predicate Tidy(lines: seq<Line>) {
    && (forall i :: 0 <= i < |lines| ==> lines[i].kind.Blank? || lines[i].kind.Plain?)
    && (lines != [] ==> !lines[0].kind.Blank?)
    && (forall i :: 0 < i < |lines| ==> !lines[i - 1].kind.Blank? || !lines[i].kind.Blank?)
  }

  lemma {:induction false} KeptIsTidy(lines: seq<Line>)
    ensures Tidy(Kept(lines))
  {
    if lines != [] {
      KeptIsTidy(lines[..|lines| - 1]);
    }
  }

  /** Tidy lines are left alone. */
  lemma {:induction false} TidyIsKept(lines: seq<Line>)
    requires Tidy(lines)
    ensures Kept(lines) == lines && !Skipping(lines)
  {
    if lines != [] {
      var init, line := lines[..|lines| - 1], lines[|lines| - 1];
      TidyIsKept(init);
      assert Keeps(init, false, line);
      assert lines == init + [line];
    }
  }

  /** The lines that are not blank. */
  function Solid(lines: seq<Line>): seq<Line> {
    if lines == [] then []
    else
      var line := lines[|lines| - 1];
      Solid(lines[..|lines| - 1]) + if line.kind.Blank? then [] else [line]
  }

  /** The plain lines, without those that stand for an equipment name. */
  function Contents(lines: seq<Line>): seq<Line> {
    if lines == [] then []
    else
      var init, line := lines[..|lines| - 1], lines[|lines| - 1];
      Contents(init) + if line.kind.Plain? && !Skipping(init) then [line] else []
  }

  /** Nothing else is lost: blank lines aside, what is left is every plain line but the equipment names, in order. */
  lemma {:induction false} ContentsStay(lines: seq<Line>)
    ensures Solid(Kept(lines)) == Contents(lines)
  {
    if lines != [] {
      var init, line := lines[..|lines| - 1], lines[|lines| - 1];
      ContentsStay(init);
    }
  }

  /** a is b with some elements left out. */
  ghost predicate Subsequence<T>(a: seq<T>, b: seq<T>) {
    a == [] ||
    (b != [] &&
     var init := b[..|b| - 1];
     Subsequence(a, init) || (a[|a| - 1] == b[|b| - 1] && Subsequence(a[..|a| - 1], init)))
  }

  lemma {:induction false} KeptIsSubsequence(lines: seq<Line>)
    ensures Subsequence(Cores(Kept(lines)), Cores(lines))
  {
    if lines != [] {
      KeptIsSubsequence(lines[..|lines| - 1]);
    }
  }

  lemma {:induction false} SubsequenceInit<T>(a: seq<T>, b: seq<T>)
    requires a != [] && Subsequence(a, b)
    ensures Subsequence(a[..|a| - 1], b)
  {
    var init := b[..|b| - 1];
    if Subsequence(a, init) {
      SubsequenceInit(a, init);
    }
  }

  function Cores(lines: seq<Line>): (r: seq<string>)
    ensures |r| == |lines|
  {
    if lines == [] then [] else Cores(lines[..|lines| - 1]) + [lines[|lines| - 1].core]
  }

  /* ---- Lines that go, then lines that stay --------------------------------------------------------------------- */

  /** Lines of which nothing is kept do not change what is kept after them. */
  lemma {:induction false} KeptAfter(front: seq<Line>, lines: seq<Line>)
    requires Kept(front) == [] && !Skipping(front)
    ensures Kept(front + lines) == Kept(lines) && Skipping(front + lines) == Skipping(lines)
  {
    if lines == [] {
      assert front + lines == front;
    } else {
      KeptAfter(front, lines[..|lines| - 1]);
      assert (front + lines)[..|front + lines| - 1] == front + lines[..|lines| - 1];
    }
  }

  lemma {:induction false} ContentsAppend(front: seq<Line>, lines: seq<Line>)
    requires !Skipping(front)
    ensures Contents(front + lines) == Contents(front) + Contents(lines)
    ensures Skipping(front + lines) == Skipping(lines)
  {
    if lines == [] {
      assert front + lines == front;
      assert Contents(front) + [] == Contents(front);
    } else {
      var init, line := lines[..|lines| - 1], lines[|lines| - 1];
      ContentsAppend(front, init);
      assert (front + lines)[..|front + lines| - 1] == front + init;
      Regroup(Contents(front), Contents(init), if line.kind.Plain? && !Skipping(init) then [line] else []);
    }
  }

  /** Without contents nothing is kept. */
  lemma KeptNone(lines: seq<Line>)
    requires Contents(lines) == []
    ensures Kept(lines) == []
  {
    ContentsStay(lines);
    KeptIsTidy(lines);
    if Kept(lines) != [] {
      SolidFirst(Kept(lines));
    }
  }

  lemma {:induction false} SolidFirst(lines: seq<Line>)
    requires lines != [] && !lines[0].kind.Blank?
    ensures Solid(lines) != []
  {
    if |lines| > 1 {
      SolidFirst(lines[..|lines| - 1]);
    }
  }

  lemma {:induction false} SolidSame(a: seq<Line>, b: seq<Line>)
    requires |a| == |b| && forall i :: 0 <= i < |a| ==> a[i].kind == b[i].kind
    ensures |Solid(a)| == |Solid(b)|
  {
    if a != [] {
      SolidSame(a[..|a| - 1], b[..|b| - 1]);
    }
  }

  lemma ContentsNone(lines: seq<Line>, line: Line)
    requires line.kind.Plain? ==> Skipping(lines)
    ensures Contents(lines + [line]) == Contents(lines)
    ensures Skipping(lines + [line]) <==> line.kind.BareHeader? && !Skipping(lines)
  {
    assert (lines + [line])[..|lines|] == lines;
  }

  /** Of a bare header, an equipment name, a blank line and two summary lines, only what the name has beyond its first
      line can be left. */
  lemma HeadingContents(h: Line, name: Line, more: seq<Line>, blank: Line, s: Line, t: Line)
    requires h.kind.BareHeader? && blank.kind.Blank? && s.kind.Summary? && t.kind.Summary?
    ensures Contents([h, name] + more + [blank, s, t]) == Contents(more)
    ensures !Skipping([h, name] + more + [blank, s, t])
  {
    ContentsNone([], h);
    assert [] + [h] == [h];
    ContentsNone([h], name);
    assert [h] + [name] == [h, name];
    ContentsAppend([h, name], more);
    var front := [h, name] + more;
    assert Contents(front) == Contents(more);
    ContentsNone(front, blank);
    ContentsNone(front + [blank], s);
    ContentsNone(front + [blank] + [s], t);
    assert front + [blank] + [s] + [t] == front + [blank, s, t];
  }
}
