/** Booking notes (iic_booking/communication/email_branding.py): the comment that is written when a booking is
    created, and the filter that takes the booking summary out of it again. */
module BookingNote {
  import opened Common
  import opened Text
  import opened Lines
  import opened NoteFilter
  import opened NoteText

  /* ---- Reading a line ------------------------------------------------------------------------------------------ */

  predicate IsWordChar(c: char) {
    IsDigit(c) || 'a' <= c <= 'z' || 'A' <= c <= 'Z' || c == '_'
  }

  predicate StartsWithWords(line: string, words: string) {
    words <= Lower(line) && (|line| == |words| || !IsWordChar(line[|words|]))
  }

  /** `^(booking|hold) created for\b`, in any case */
  predicate IsCreatedFor(line: string) {
    StartsWithWords(line, "booking created for") || StartsWithWords(line, "hold created for")
  }

  function WithoutColons(s: string): string {
    if s != "" && s[|s| - 1] == ':' then WithoutColons(s[..|s| - 1]) else s
  }

  predicate IsBare(line: string) {
    WithoutColons(Lower(line)) == "booking created for" || WithoutColons(Lower(line)) == "hold created for"
  }

  predicate IsSummaryLine(line: string) {
    var l := Lower(line);
    || "booked by:" <= l || "booked by your student:" <= l || "charged to the wallet of:" <= l
    || "duration:" <= l || "charges:" <= l || l == "this booking is charged to your wallet."
  }

  function KindFrom(blank: bool, createdFor: bool, bare: bool, summary: bool): Kind {
    if blank then Blank
    else if createdFor then (if bare then BareHeader else Header)
    else if summary then Summary
    else Plain
  }

  function KindOf(line: string): Kind {
    KindFrom(line == "", IsCreatedFor(line), IsBare(line), IsSummaryLine(line))
  }

  lemma KindOfIsCoherent()
    ensures Coherent(KindOf)
  {
  }

  /** Whether the next line is kept, told from the lines put out so far. */
  predicate GoesOut(kind: Kind, skipping: bool, out: seq<string>) {
    match kind
    case Blank => out != [] && out[|out| - 1] != ""
    case Plain => !skipping
    case _ => false
  }

  lemma NextLine(raws: seq<string>, i: nat)
    requires i < |raws| && AllOneLine(raws)
    ensures var lines, next := ReadAll(KindOf, raws[..i]), ReadAll(KindOf, raws[..i + 1]);
            var out, kind := Texts(Kept(lines)), KindOf(Trim(raws[i]));
            && (Skipping(next) <==> kind.BareHeader? && !Skipping(lines))
            && Texts(Kept(next)) == if GoesOut(kind, Skipping(lines), out) then out + [TrimRight(raws[i])] else out
  {
    assert raws[..i + 1][..i] == raws[..i];
    var lines, line := ReadAll(KindOf, raws[..i]), Read(KindOf, raws[i]);
    KindOfIsCoherent();
    ReadAllIsWell(KindOf, raws[..i]);
    KeptIsWell(KindOf, lines);
    LineRead(KindOf, lines, line);
  }

  /** Reads line i, and says what that makes of the lines before it. */
  method ReadLine(raws: seq<string>, i: nat) returns (createdFor: bool, bare: bool, summary: bool)
    requires i < |raws| && AllOneLine(raws)
    ensures Trim(raws[i]) == "" ==> !createdFor && !summary
    ensures var lines, next := ReadAll(KindOf, raws[..i]), ReadAll(KindOf, raws[..i + 1]);
            var out, kind := Texts(Kept(lines)), KindFrom(Trim(raws[i]) == "", createdFor, bare, summary);
            && (Skipping(next) <==> kind.BareHeader? && !Skipping(lines))
            && Texts(Kept(next)) == if GoesOut(kind, Skipping(lines), out) then out + [TrimRight(raws[i])] else out
  {
    var line := Trim(raws[i]);
    createdFor, bare, summary := IsCreatedFor(line), IsBare(line), IsSummaryLine(line);
    NextLine(raws, i);
  }

  lemma LineRead(kind: Reader, lines: seq<Line>, line: Line)
    requires AllWellRead(kind, Kept(lines))
    ensures var out, next := Texts(Kept(lines)), lines + [line];
            && (Skipping(next) <==> line.kind.BareHeader? && !Skipping(lines))
            && Texts(Kept(next)) == if GoesOut(line.kind, Skipping(lines), out) then out + [line.text] else out
  {
  }

  method StripNote(text: string) returns (result: string)
    ensures result == Strip(KindOf, text)
  {
    var raws := SplitLines(text);
    SplitIsOneLine(text);
    var out: seq<string> := [];
    var skipEquipmentLine := false;
    for i := 0 to |raws|
      invariant out == Texts(Kept(ReadAll(KindOf, raws[..i])))
      invariant skipEquipmentLine == Skipping(ReadAll(KindOf, raws[..i]))
    {
      var raw := raws[i];
      var line := Trim(raw);
      var createdFor, bare, summary := ReadLine(raws, i);
      if skipEquipmentLine {
        skipEquipmentLine := false;
        if line != "" {
          continue;
        }
      }
      if createdFor {
        skipEquipmentLine := bare;
        continue;
      }
      if summary {
        continue;
      }
      if line == "" && (out == [] || out[|out| - 1] == "") {
        continue;
      }
      out := out + [TrimRight(raw)];
    }
    assert raws[..|raws|] == raws;
    result := Trim(JoinLines(out));
  }

  /* ---- The comment on creation --------------------------------------------------------------------------------- */

  /** The person a booking is made for: display name, email address and department. */
  datatype Person = Person(name: string, email: string, department: string)

  /** `duration`, `charges` and `pending` are amounts already put into words; `person` is set when somebody else created
      the booking; `organisation` is the legal name in the settings, which may be empty. */
  datatype Note = Note(
    isHold: bool, equipment: string, duration: string, charges: string, pending: Option<string>,
    person: Option<Person>, organisation: string, atmosphere: bool)

  predicate Contains(text: string, part: string) {
    part <= text || (text != "" && Contains(text[1..], part))
  }

  /** The values as shown, without outer white space. */
  function Cleaned(p: Person): Person {
    Person(Trim(p.name), Trim(p.email), Trim(p.department))
  }

  /** org_legal_name */
  function LegalName(setting: string): string {
    if Trim(setting) != "" then Trim(setting) else ORG_FALLBACK
  }

  /** What shows who the person is. */
  function PersonLines(p: Person, organisation: string): seq<string> {
    [if p.name != "" then p.name else p.email] +
    (if p.department != "" then [p.department, organisation]
     else if p.email != "" && p.name != "" && !Contains(Lower(p.name), Lower(p.email)) then [p.email]
     else [])
  }

  // The longer texts are put together from short ones: the verifier reads a literal character by character, and
  // gives up on a property of all characters when there are many.
  const ORG_FALLBACK := "Indian Institute of " + ("Technology " + "Roorkee")
  const BEHALF := "This booking was " + ("created on " + "behalf of:")
  const ATMOSPHERE := "Atmosphere-sensitive " + "sample:"
  const SUBMIT := "\U{2022} Submit the sample " + "at slot start."
  const NO_EARLY_MARK := "\U{2022} " + ("Do not mark Not " + ("Utilized before the " + "slot begins."))

  /** format_on_behalf_of_user */
  function OnBehalf(p: Person, organisation: string): string {
    if p.name == "" && p.email == "" then "" else JoinLines([BEHALF, ""] + PersonLines(p, organisation))
  }

  function Name(note: Note): string {
    if Trim(note.equipment) != "" then Trim(note.equipment) else "equipment"
  }

  function Heading(note: Note): seq<string> {
    [if note.isHold then "Hold created for" else "Booking created for",
     Name(note),
     "",
     "Duration: " + note.duration,
     "Charges: " + note.charges]
  }

  function Build(note: Note): string {
    var behalf := if note.person.Some? then OnBehalf(Cleaned(note.person.value), LegalName(note.organisation)) else "";
    Trim(JoinLines(
      Heading(note) +
      (if note.pending.Some? then ["", "Payment pending: " + note.pending.value] else []) +
      (if behalf != "" then ["", behalf] else []) +
      (if note.atmosphere then ["", ATMOSPHERE, SUBMIT, NO_EARLY_MARK] else [])))
  }

  /* ---- The optional sections, line by line --------------------------------------------------------------------- */

  function PendingSection(note: Note): seq<string> {
    if note.pending.Some? then ["", "Payment pending: " + note.pending.value] else []
  }

  predicate Shows(note: Note) {
    note.person.Some? && (Trim(note.person.value.name) != "" || Trim(note.person.value.email) != "")
  }

  function PersonSection(note: Note): seq<string>
    requires Shows(note)
  {
    PersonLines(Cleaned(note.person.value), LegalName(note.organisation))
  }

  function BehalfSection(note: Note): seq<string> {
    if Shows(note) then ["", BEHALF, ""] + PersonSection(note) else []
  }

  function AtmosphereSection(note: Note): seq<string> {
    if note.atmosphere then ["", ATMOSPHERE, SUBMIT, NO_EARLY_MARK] else []
  }

  function OptionalSections(note: Note): seq<string> {
    PendingSection(note) + BehalfSection(note) + AtmosphereSection(note)
  }

  /** The text of the optional sections. */
  function Extra(note: Note): string {
    if OptionalSections(note) == [] then "" else JoinLines(OptionalSections(note)[1..])
  }

  /** The amounts stand on one line, and the amount due has no outer white space. */
  ghost predicate AmountsOk(note: Note) {
    && OneLine(note.duration) && OneLine(note.charges)
    && (note.pending.Some? ==> Shown(note.pending.value) && note.pending.value != "")
  }

  /** So does every value that shows the person. */
  ghost predicate PersonOneLine(note: Note) {
    && (note.person.Some? ==>
          && OneLine(Trim(note.person.value.name)) && OneLine(Trim(note.person.value.email))
          && OneLine(Trim(note.person.value.department)))
    && OneLine(Trim(note.organisation))
  }

  lemma ShownWithHead(head: string, s: string)
    requires Shown(s) && s != "" && OneLine(head) && head != "" && !IsSpace(head[0])
    ensures Shown(head + s)
  {
    TrimmedEnds(s);
    OneLineConcat(head, s);
    var t := head + s;
    assert t[|t| - 1] == s[|s| - 1];
    TrimNothing(t);
  }

  lemma ShownTrimmed(s: string)
    requires OneLine(Trim(s))
    ensures Shown(Trim(s))
  {
    TrimTwice(s);
  }

  lemma ShownBehalf()
    ensures Shown(BEHALF)
  {
    ShownWithHead("created on ", "behalf of:");
    ShownWithHead("This booking was ", "created on " + "behalf of:");
  }

  lemma ShownAtmosphere()
    ensures Shown(ATMOSPHERE)
  {
    ShownWithHead("Atmosphere-sensitive ", "sample:");
  }

  lemma ShownSubmit()
    ensures Shown(SUBMIT)
  {
    ShownWithHead("\U{2022} Submit the sample ", "at slot start.");
  }

  lemma ShownBeforeSlot()
    ensures Shown("Utilized before the " + "slot begins.")
  {
    ShownWithHead("Utilized before the ", "slot begins.");
  }

  lemma ShownNoEarlyMark()
    ensures Shown(NO_EARLY_MARK)
  {
    ShownBeforeSlot();
    ShownWithHead("Do not mark Not ", "Utilized before the " + "slot begins.");
    ShownWithHead("\U{2022} ", "Do not mark Not " + ("Utilized before the " + "slot begins."));
  }

  /** A line that starts with none of the letters of the summary lines stays. */
  lemma PlainByFirstLetter(line: string)
    requires line != "" && LowerChar(line[0]) !in {'b', 'h', 'c', 'd', 't'}
    ensures KindOf(line).Plain?
  {
    assert Lower(line)[0] == LowerChar(line[0]);
  }

  lemma BehalfIsPlain()
    ensures KindOf(BEHALF).Plain?
  {
    var l := Lower(BEHALF);
    assert l[0] == 't' && l[13] == 'w';
  }

  lemma PendingStays(note: Note)
    requires AmountsOk(note)
    ensures SectionTexts(PendingSection(note)) && ReadPlain(KindOf, PendingSection(note))
  {
    if note.pending.Some? {
      var line := "Payment pending: " + note.pending.value;
      ShownWithHead("Payment pending: ", note.pending.value);
      PlainByFirstLetter(line);
      OneSection(KindOf, [line]);
      assert [""] + [line] == PendingSection(note);
    }
  }

  lemma AtmosphereStays(note: Note)
    ensures SectionTexts(AtmosphereSection(note)) && ReadPlain(KindOf, AtmosphereSection(note))
  {
    ShownAtmosphere();
    ShownSubmit();
    ShownNoEarlyMark();
    PlainByFirstLetter(ATMOSPHERE);
    PlainByFirstLetter(SUBMIT);
    PlainByFirstLetter(NO_EARLY_MARK);
    ThreeLines(KindOf, ATMOSPHERE, SUBMIT, NO_EARLY_MARK);
  }

  /** No line that shows the person reads as a header or a summary line. */
  ghost predicate PersonReadsPlain(note: Note) {
    Shows(note) ==> ReadPlain(KindOf, PersonSection(note))
  }

  lemma PersonLinesShown(p: Person, organisation: string)
    requires Shown(p.name) && Shown(p.email) && Shown(p.department) && Shown(organisation) && organisation != ""
    requires p.name != "" || p.email != ""
    ensures AllShown(PersonLines(p, organisation))
  {
  }

  lemma LegalNameShown(setting: string)
    requires OneLine(Trim(setting))
    ensures Shown(LegalName(setting)) && LegalName(setting) != ""
  {
    ShownTrimmed(setting);
    ShownWithHead("Technology ", "Roorkee");
    ShownWithHead("Indian Institute of ", "Technology " + "Roorkee");
  }

  lemma PersonSectionShown(note: Note)
    requires PersonOneLine(note) && Shows(note)
    ensures AllShown(PersonSection(note))
  {
    hide LegalName, PersonLines, Shown;
    ShownTrimmed(note.person.value.name);
    ShownTrimmed(note.person.value.email);
    ShownTrimmed(note.person.value.department);
    LegalNameShown(note.organisation);
    PersonLinesShown(Cleaned(note.person.value), LegalName(note.organisation));
  }

  lemma BehalfStaysIff(note: Note)
    requires PersonOneLine(note)
    ensures SectionTexts(BehalfSection(note))
    ensures ReadPlain(KindOf, BehalfSection(note)) <==> PersonReadsPlain(note)
  {
    if Shows(note) {
      ShownBehalf();
      BehalfIsPlain();
      PersonSectionShown(note);
      TitledSection(KindOf, BEHALF, PersonSection(note));
    }
  }

  lemma FlatText(heading: seq<string>, before: seq<string>, lines: seq<string>, after: seq<string>)
    requires heading != [] && lines != []
    ensures JoinLines(heading + before + ["", JoinLines(lines)] + after)
         == JoinLines(heading + (before + ([""] + lines) + after))
  {
    var front := heading + before + [""];
    JoinNested(front, lines, after);
    assert heading + before + ["", JoinLines(lines)] + after == front + [JoinLines(lines)] + after;
    assert heading + (before + ([""] + lines) + after) == front + lines + after;
  }

  /** The nested on-behalf text stands in the comment line by line. */
  lemma BuildIsFlat(note: Note)
    ensures Build(note) == Trim(JoinLines(Heading(note) + OptionalSections(note)))
  {
    var p, b, a := PendingSection(note), BehalfSection(note), AtmosphereSection(note);
    if b != [] {
      var lines := [BEHALF, ""] + PersonSection(note);
      FlatText(Heading(note), p, lines, a);
      assert b == [""] + lines;
    } else {
      assert Heading(note) + p + [] + a == Heading(note) + (p + b + a);
    }
  }

  /* ---- The heading goes ---------------------------------------------------------------------------------------- */

  /** A value behind a label keeps the label in front when it is trimmed. */
  lemma LabelKept(label0: string, value: string)
    requires label0 != "" && !IsSpace(label0[0]) && !IsSpace(label0[|label0| - 1])
    ensures label0 <= Trim(label0 + value) && TrimRight(label0 + value) != ""
  {
    TrimRightOf(label0, value);
    var t := label0 + TrimRight(value);
    assert t[0] == label0[0];
  }

  lemma LowerPrefix(prefix: string, line: string)
    requires prefix <= line
    ensures Lower(prefix) <= Lower(line)
  {
  }

  lemma DurationGoes(value: string)
    ensures KindOf(Trim("Duration: " + value)).Summary?
  {
    LabelKept("Duration:", " " + value);
    assert "Duration:" + (" " + value) == "Duration: " + value;
    var line := Trim("Duration: " + value);
    LowerPrefix("Duration:", line);
    assert Lower("Duration:") == "duration:";
    assert Lower(line)[0] == 'd';
  }

  lemma ChargesGo(value: string)
    ensures KindOf(Trim("Charges: " + value)).Summary?
  {
    LabelKept("Charges:", " " + value);
    assert "Charges:" + (" " + value) == "Charges: " + value;
    var line := Trim("Charges: " + value);
    LowerPrefix("Charges:", line);
    assert Lower("Charges:") == "charges:";
    assert Lower(line)[0] == 'c';
  }

  lemma BookingCreatedForIsBare()
    ensures KindOf(Trim("Booking created for")).BareHeader?
  {
    TrimNothing("Booking created for");
    assert Lower("Booking created for") == "booking created for";
  }

  lemma HoldCreatedForIsBare()
    ensures KindOf(Trim("Hold created for")).BareHeader?
  {
    TrimNothing("Hold created for");
    assert Lower("Hold created for") == "hold created for";
  }

  lemma FirstIsOneLine()
    ensures OneLine("Booking created for") && OneLine("Hold created for") && OneLine("equipment")
  {
  }

  lemma NameEnds(note: Note)
    ensures Name(note) != "" && !IsBreak(Name(note)[|Name(note)| - 1])
  {
    TrimmedEnds(note.equipment);
  }

  lemma HeadingIsOk(note: Note)
    requires AmountsOk(note)
    ensures var h := Heading(note); HeadingOk(h[0], h[1], h[3], h[4])
  {
    FirstIsOneLine();
    NameEnds(note);
    LabelKept("Charges:", " " + note.charges);
    assert "Charges:" + (" " + note.charges) == "Charges: " + note.charges;
    OneLineConcat("Duration: ", note.duration);
    OneLineConcat("Charges: ", note.charges);
  }

  lemma HeadingKinds(note: Note)
    ensures var h := Heading(note);
            KindOf(Trim(h[0])).BareHeader? && KindOf(Trim(h[3])).Summary? && KindOf(Trim(h[4])).Summary?
  {
    DurationGoes(note.duration);
    ChargesGo(note.charges);
    if note.isHold {
      HoldCreatedForIsBare();
    } else {
      BookingCreatedForIsBare();
    }
  }

  /** The extra text ends in a shown character. */
  lemma ExtraEnds(note: Note)
    requires AmountsOk(note) && OptionalSections(note) != []
    ensures EndsShown(Extra(note))
  {
    LastSection(note);
    TailEnds(OptionalSections(note));
  }

  lemma TailEnds(sections: seq<string>)
    requires |sections| > 1 && EndsShown(sections[|sections| - 1])
    ensures EndsShown(JoinLines(sections[1..]))
  {
    JoinEnd(sections[1..]);
  }

  lemma LastSection(note: Note)
    requires AmountsOk(note) && OptionalSections(note) != []
    ensures |OptionalSections(note)| > 1 && OptionalSections(note)[0] == ""
    ensures EndsShown(OptionalSections(note)[|OptionalSections(note)| - 1])
  {
    if note.atmosphere {
      ShownNoEarlyMark();
      TrimmedEnds(NO_EARLY_MARK);
    } else if Shows(note) {
      LastOfPerson(Cleaned(note.person.value), LegalName(note.organisation), note);
    } else {
      TrimmedEnds(note.pending.value);
    }
  }

  lemma LastOfPerson(p: Person, organisation: string, note: Note)
    requires note.person.Some? && p == Cleaned(note.person.value) && organisation == LegalName(note.organisation)
    requires p.name != "" || p.email != ""
    ensures var lines := PersonLines(p, organisation); lines != [] && EndsShown(lines[|lines| - 1])
  {
    TrimmedEnds(note.person.value.name);
    TrimmedEnds(note.person.value.email);
    TrimmedEnds(note.person.value.department);
    TrimmedEnds(note.organisation);
    TrimmedEnds(ORG_FALLBACK);
  }

  /** Nothing is left of the lines of the equipment name after its first. */
  ghost predicate NameGoes(note: Note) {
    var lines := SplitLines(Name(note));
    lines != [] && Contents(ReadAll(KindOf, lines[1..])) == []
  }

  /** Whatever the values, stripping the comment of a new booking leaves exactly the text of its optional sections, if
      and only if nothing is left of further lines of the equipment name, and that text passes the filter itself. */
  lemma StripOfBuilt(note: Note)
    requires AmountsOk(note)
    ensures Strip(KindOf, Build(note)) == Extra(note) <==> NameGoes(note) && Strip(KindOf, Extra(note)) == Extra(note)
  {
    BuildIsFlat(note);
    if OptionalSections(note) == [] {
      StripOfHeading(note);
    } else {
      LastSection(note);
      ExtraEnds(note);
      StripOfSections(note, OptionalSections(note));
    }
  }

  lemma StripOfHeading(note: Note)
    requires AmountsOk(note)
    ensures Strip(KindOf, Trim(JoinLines(Heading(note) + []))) == "" <==> NameGoes(note)
    ensures Strip(KindOf, "") == ""
  {
    KindOfIsCoherent();
    HeadingIsOk(note);
    HeadingKinds(note);
    var h := Heading(note);
    assert h + [] == h == [h[0], h[1], "", h[3], h[4]];
    HeadingAloneIff(KindOf, h[0], h[1], h[3], h[4]);
    EmptyText(KindOf);
  }

  lemma StripOfSections(note: Note, sections: seq<string>)
    requires AmountsOk(note) && |sections| > 1 && sections[0] == "" && EndsShown(JoinLines(sections[1..]))
    ensures
      var extra := JoinLines(sections[1..]);
      Strip(KindOf, Trim(JoinLines(Heading(note) + sections))) == extra <==>
        NameGoes(note) && Strip(KindOf, extra) == extra
  {
    KindOfIsCoherent();
    HeadingIsOk(note);
    HeadingKinds(note);
    var h := Heading(note);
    assert h == [h[0], h[1], "", h[3], h[4]];
    JoinedIff(KindOf, h[0], h[1], h[3], h[4], sections);
  }

  lemma OneLineNameGoes(note: Note)
    requires OneLine(Trim(note.equipment))
    ensures NameGoes(note)
  {
    FirstIsOneLine();
    NameEnds(note);
    SplitWhole(Name(note));
  }

  /** When the person is shown on single lines, the optional sections pass if and only if none of these lines reads as a
      header or a summary line. */
  lemma ExtraPassesIff(note: Note)
    requires AmountsOk(note) && PersonOneLine(note)
    ensures Strip(KindOf, Extra(note)) == Extra(note) <==> PersonReadsPlain(note)
  {
    KindOfIsCoherent();
    SectionsStayIff(note);
    if OptionalSections(note) == [] {
      EmptyText(KindOf);
    } else {
      SectionsPassIff(KindOf, OptionalSections(note));
    }
  }

  /** For single-line values: exactly the optional sections remain, if and only if no line that shows the person reads
      as a header or a summary line. */
  lemma StripOfSingleLines(note: Note)
    requires AmountsOk(note) && PersonOneLine(note) && OneLine(Trim(note.equipment))
    ensures Strip(KindOf, Build(note)) == Extra(note) <==> PersonReadsPlain(note)
  {
    StripOfBuilt(note);
    OneLineNameGoes(note);
    ExtraPassesIff(note);
  }

  lemma NameIsShown(note: Note)
    requires note.person.Some? && Trim(note.person.value.name) != ""
    ensures Shows(note) && PersonSection(note)[0] == Trim(note.person.value.name)
  {
  }

  /** What the comment shows first of the person is lost when it reads as a header or a summary line. */
  lemma LostIfNotPlain(note: Note)
    requires AmountsOk(note) && PersonOneLine(note) && OneLine(Trim(note.equipment))
    requires Shows(note) && PersonSection(note)[0] != "" && !KindOf(PersonSection(note)[0]).Plain?
    ensures Strip(KindOf, Build(note)) != Extra(note)
  {
    StripOfSingleLines(note);
  }

  lemma MistakenNote(note: Note)
    requires note == Note(false, "SEM", "1", "1", None, Some(Person("Charges: Office", "", "")), "", false)
    ensures AmountsOk(note) && PersonOneLine(note) && OneLine(Trim(note.equipment))
    ensures Shows(note) && PersonSection(note)[0] == "Charges: Office"
  {
    TrimNothing("Charges: Office");
    TrimNothing("SEM");
    TrimNothing("");
    NameIsShown(note);
  }

  /** A person named like a line of charges is taken for one, and lost. */
  lemma PersonMistaken(note: Note)
    requires note == Note(false, "SEM", "1", "1", None, Some(Person("Charges: Office", "", "")), "", false)
    ensures Strip(KindOf, Build(note)) != Extra(note)
  {
    MistakenNote(note);
    MistakenShown();
    LostIfNotPlain(note);
  }

  lemma MistakenShown()
    ensures Trim("Charges: Office") == "Charges: Office" && KindOf("Charges: Office").Summary?
  {
    assert "Charges: " + "Office" == "Charges: Office";
    TrimNothing("Charges: Office");
    ChargesGo("Office");
  }

  /** A second line of the equipment name that reads as neither stays, ahead of the sections. */
  lemma SecondNameLineStays(note: Note, first: string, second: string)
    requires AmountsOk(note) && Trim(note.equipment) == first + ("\n" + second)
    requires OneLine(first) && OneLine(second) && first != "" && second != "" && KindOf(Trim(second)).Plain?
    ensures Strip(KindOf, Build(note)) != Extra(note)
  {
    Regroup(first, "\n", second);
    SplitFirst(first, second);
    SplitWhole(second);
    assert ([first] + [second])[1..] == [second];
    ReadOne(KindOf, second);
    PlainAlone(Read(KindOf, second));
    StripOfBuilt(note);
  }

  lemma PlainAlone(line: Line)
    requires line.kind.Plain?
    ensures Contents([line]) == [line]
  {
  }

  lemma SectionsStayIff(note: Note)
    requires AmountsOk(note) && PersonOneLine(note)
    ensures SectionTexts(OptionalSections(note))
    ensures ReadPlain(KindOf, OptionalSections(note)) <==> PersonReadsPlain(note)
  {
    PendingStays(note);
    BehalfStaysIff(note);
    AtmosphereStays(note);
    SectionsConcat(KindOf, PendingSection(note), BehalfSection(note));
    SectionsConcat(KindOf, PendingSection(note) + BehalfSection(note), AtmosphereSection(note));
  }

  /** On any text: stripping twice is stripping once; no header or summary line, leading blank line or second blank
      line in a row is left; and outer white space aside the lines left are lines of the text, in order. */
  lemma StripOfAnyText(text: string)
    ensures Strip(KindOf, Strip(KindOf, text)) == Strip(KindOf, text)
    ensures Tidy(ReadAll(KindOf, SplitLines(Strip(KindOf, text))))
    ensures Subsequence(Cores(ReadAll(KindOf, SplitLines(Strip(KindOf, text)))),
                        Cores(ReadAll(KindOf, SplitLines(text))))
  {
    KindOfIsCoherent();
    StripTwice(KindOf, text);
    NoSummaryLeft(KindOf, text);
    StripIsSubsequence(KindOf, text);
  }
}
