/** The words of booking notes (iic_booking/communication/email_branding.py): which lines the comment on creation
    holds, and which lines the filter drops. */
module NoteWording {
  import opened Common
  import opened Text
  import opened Lines
  import opened NoteFilter
  import opened NoteText
  import opened BookingNote

  /* ---- The comment --------------------------------------------------------------------------------------------- */

  lemma FallbackIs()
    ensures ORG_FALLBACK == "Indian Institute of Technology Roorkee"
  {
  }

  lemma BehalfIs()
    ensures BEHALF == "This booking was created on behalf of:"
  {
  }

  lemma AtmosphereIs()
    ensures ATMOSPHERE == "Atmosphere-sensitive sample:"
  {
  }

  lemma SubmitIs()
    ensures SUBMIT == "\U{2022} Submit the sample at slot start."
  {
  }

  lemma SlotBegins()
    ensures "Utilized before the " + "slot begins." == "Utilized before the slot begins."
  {
  }

  lemma DoNotMark(end: string)
    requires end == "Utilized before the slot begins."
    ensures "Do not mark Not " + end == "Do not mark Not Utilized before the slot begins."
  {
  }

  lemma NoEarlyMarkIs()
    ensures NO_EARLY_MARK == "\U{2022} " + "Do not mark Not Utilized before the slot begins."
  {
    SlotBegins();
    DoNotMark("Utilized before the " + "slot begins.");
  }

  lemma {:induction false} ContainsIff(text: string, part: string)
    ensures Contains(text, part) <==> exists i :: 0 <= i <= |text| && part <= text[i..]
  {
    if part <= text {
      assert part <= text[0..];
    } else if text != "" {
      ContainsIff(text[1..], part);
      assert forall i :: 0 < i <= |text| ==> text[i..] == text[1..][i - 1..];
      assert forall i :: 0 <= i <= |text| - 1 ==> text[1..][i..] == text[i + 1..];
    }
  }

  /** Who a booking was made for: the name, or the email address without one; then department and organisation, or
      else the email address where the name does not hold it already, in any case. */
  lemma PersonShown(p: Person, setting: string)
    requires p.name != "" || p.email != ""
    ensures
      var named := exists i :: 0 <= i <= |p.name| && Lower(p.email) <= Lower(p.name)[i..];
      var organisation := if Trim(setting) == "" then "Indian Institute of Technology Roorkee" else Trim(setting);
      PersonLines(p, LegalName(setting)) ==
        if p.department != "" then [if p.name == "" then p.email else p.name, p.department, organisation]
        else if p.name == "" then [p.email]
        else if p.email == "" || named then [p.name]
        else [p.name, p.email]
  {
    FallbackIs();
    ContainsIff(Lower(p.name), Lower(p.email));
    hide Lower, Trim, Contains, ORG_FALLBACK;
  }

  /** The lines of the comment, from top to bottom. */
  lemma CommentHolds(note: Note)
    ensures
      var heading := [
        if note.isHold then "Hold created for" else "Booking created for",
        if Trim(note.equipment) == "" then "equipment" else Trim(note.equipment),
        "", "Duration: " + note.duration, "Charges: " + note.charges];
      var pending := if note.pending.None? then [] else ["", "Payment pending: " + note.pending.value];
      var behalf :=
        if note.person.None? || (Trim(note.person.value.name) == "" && Trim(note.person.value.email) == "") then []
        else ["", "This booking was created on behalf of:", ""] + PersonSection(note);
      var sample :=
        if !note.atmosphere then []
        else ["", "Atmosphere-sensitive sample:", "\U{2022} Submit the sample at slot start.",
              "\U{2022} " + "Do not mark Not Utilized before the slot begins."];
      Build(note) == Trim(JoinLines(heading + (pending + behalf + sample)))
  {
    BuildIsFlat(note);
    BehalfIs();
    AtmosphereIs();
    SubmitIs();
    NoEarlyMarkIs();
    hide Trim, Build, JoinLines, PersonSection, BEHALF, ATMOSPHERE, SUBMIT, NO_EARLY_MARK;
  }

  /* ---- The filter ---------------------------------------------------------------------------------------------- */

  lemma {:induction false} ColonsOff(s: string)
    ensures
      var r := WithoutColons(s);
      && |r| <= |s| && r == s[..|r|] && (forall i :: |r| <= i < |s| ==> s[i] == ':')
      && (r == "" || r[|r| - 1] != ':')
  {
    if s != "" && s[|s| - 1] == ':' {
      ColonsOff(s[..|s| - 1]);
    }
  }

  /** Nothing but colons stands behind the words. */
  lemma OnlyColonsBehind(s: string, words: string)
    requires words != "" && words[|words| - 1] != ':'
    ensures WithoutColons(s) == words <==> words <= s && forall i :: |words| <= i < |s| ==> s[i] == ':'
  {
    ColonsOff(s);
    var r := WithoutColons(s);
    if words <= s && forall i :: |words| <= i < |s| ==> s[i] == ':' {
      assert s[|words| - 1] != ':';
    }
  }

  lemma LowerAt(line: string, i: nat)
    requires i < |line|
    ensures var c := Lower(line)[i]; IsWordChar(line[i]) <==> '0' <= c <= '9' || 'a' <= c <= 'z' || c == '_'
  {
  }

  /** What a line without outer white space is read as, said on its letters. */
  lemma LineReadAs(line: string)
    ensures
      var l := Lower(line);
      var words := if "booking" <= l then "booking created for" else "hold created for";
      var end := |words|;
      var created := words <= l && (|l| == end || !('0' <= l[end] <= '9' || 'a' <= l[end] <= 'z' || l[end] == '_'));
      var colons := words <= l && forall i :: end <= i < |l| ==> l[i] == ':';
      KindOf(line) ==
        if line == "" then Blank
        else if created then (if colons then BareHeader else Header)
        else if
          || "booked by:" <= l || "booked by your student:" <= l || "charged to the wallet of:" <= l
          || "duration:" <= l || "charges:" <= l || l == "this booking is charged to your wallet."
        then Summary
        else Plain
  {
    hide Lower, WithoutColons, IsWordChar;
    var l := Lower(line);
    HeadersDiffer(l);
    OnlyColonsBehind(l, "booking created for");
    OnlyColonsBehind(l, "hold created for");
    if |l| > 19 {
      LowerAt(line, 19);
    }
    if |l| > 16 {
      LowerAt(line, 16);
    }
  }

  lemma HeadersDiffer(l: string)
    ensures "booking created for" <= l ==> "booking" <= l
    ensures "booking" <= l ==> !("hold created for" <= l)
    ensures |"booking created for"| == 19 && |"hold created for"| == 16
  {
    assert "booking" <= "booking created for";
    assert "booking"[0] == 'b' && "hold created for"[0] == 'h';
  }

  /** What the filter makes of a text of one line: a header or a summary line goes, any other stays without its outer
      white space. */
  lemma StripOfLine(line: string)
    requires OneLine(line)
    ensures Strip(KindOf, line) == if KindOf(Trim(line)).Plain? then Trim(line) else ""
  {
    EmptyText(KindOf);
    TrimNothing("");
    NothingJoined();
    KindOfIsCoherent();
    BlankIff(line);
    hide KindOf, Trim, TrimRight, FirstLine, SplitLines, JoinLines, ReadAll, Kept, Texts;
    if line != "" {
      SplitWhole(line);
      ReadOne(KindOf, line);
      KeptOne(Read(KindOf, line));
      if KindOf(Trim(line)).Plain? {
        TrimRightNotEmpty(line);
      }
    }
  }

  /** Behind a bare header the next line goes too, whatever it says. */
  lemma NextLineGoes(header: string, next: string)
    requires OneLine(header) && OneLine(next) && KindOf(Trim(header)).BareHeader?
    ensures Strip(KindOf, header + "\n" + next) == ""
  {
    EmptyText(KindOf);
    TrimNothing("");
    NothingJoined();
    hide KindOf, Trim, TrimRight, FirstLine, JoinLines, Texts;
    SplitFirst(header, next);
    if next == "" {
      ReadOne(KindOf, header);
      KeptOne(Read(KindOf, header));
    } else {
      SplitWhole(next);
      ReadTwo(header, next);
      KeptTwo(Read(KindOf, header), Read(KindOf, next));
    }
  }

  /** Two plain lines stay as they are, but for the white space in front of the first and at the end of both. */
  lemma TwoLinesStay(first: string, next: string)
    requires OneLine(first) && OneLine(next) && KindOf(Trim(first)).Plain? && KindOf(Trim(next)).Plain?
    ensures Strip(KindOf, first + "\n" + next) == Trim(first) + "\n" + TrimRight(next)
  {
    KindOfIsCoherent();
    EmptyText(KindOf);
    TrimNothing("");
    BlankIff(first);
    BlankIff(next);
    hide KindOf, FirstLine, ReadAll, Kept;
    SplitFirst(first, next);
    SplitWhole(next);
    ReadTwo(first, next);
    PlainTwo(Read(KindOf, first), Read(KindOf, next));
    JoinedTwo(first, next);
  }

  lemma PlainTwo(first: Line, next: Line)
    requires first.kind.Plain? && next.kind.Plain?
    ensures Kept([first, next]) == [first, next] && Texts([first, next]) == [first.text, next.text]
  {
    assert [first, next][..1] == [first];
    KeptOne(first);
  }

  lemma JoinedTwo(first: string, next: string)
    requires TrimRight(first) != "" && TrimRight(next) != "" && Trim(first) != ""
    ensures Trim(JoinLines([TrimRight(first), TrimRight(next)])) == Trim(first) + "\n" + TrimRight(next)
  {
    var a, b := TrimRight(first), TrimRight(next);
    hide TrimLeft, TrimRight;
    assert JoinLines([a, b]) == a + "\n" + b;
    TrimRightNotEmpty(next);
    TrimRightInner(a + "\n", b);
    TrimLeftOf(a, "\n" + b);
    Regroup(a, "\n", b);
    Regroup(TrimLeft(a), "\n", b);
  }

  lemma ReadTwo(a: string, b: string)
    ensures ReadAll(KindOf, [a] + [b]) == [Read(KindOf, a), Read(KindOf, b)]
  {
    assert ([a] + [b])[..1] == [a];
    ReadOne(KindOf, a);
  }

  lemma KeptTwo(header: Line, next: Line)
    requires header.kind.BareHeader?
    ensures Kept([header, next]) == []
  {
    assert [header, next][..1] == [header];
    KeptOne(header);
  }

  lemma NothingJoined()
    ensures JoinLines(Texts([])) == "" && forall s :: JoinLines([s]) == s
  {
  }

  lemma KeptOne(line: Line)
    ensures Kept([line]) == if line.kind.Plain? then [line] else []
    ensures Texts([line]) == [line.text]
  {
  }
}
