/** `str.splitlines`, `"\n".join` and outer white space. */
module Lines {
  import opened Common
  import opened Text

  /** The characters `str.splitlines` breaks at. */
  predicate IsBreak(c: char) {
    var n := c as int;
    10 <= n <= 13 || 28 <= n <= 30 || n == 0x85 || n == 0x2028 || n == 0x2029
  }

  lemma BreaksAre(c: char)
    ensures IsBreak(c) <==> c in "\n\r\U{0b}\U{0c}\U{1c}\U{1d}\U{1e}\U{85}\U{2028}\U{2029}"
  {
    assert "\n"[0] as int == 10 && "\r"[0] as int == 13;
  }

  predicate OneLine(s: string) {
    forall i :: 0 <= i < |s| ==> !IsBreak(s[i])
  }

  /** The part of s before its first line break. */
  function FirstLine(s: string): (r: string)
    ensures |r| <= |s| && r == s[..|r|] && OneLine(r)
    ensures |r| < |s| ==> IsBreak(s[|r|])
  {
    if s == "" || IsBreak(s[0]) then "" else [s[0]] + FirstLine(s[1..])
  }

  /** Drops one line break; carriage return and line feed together are one. */
  function AfterBreak(s: string): (r: string)
    ensures |r| <= |s| && (s != "" ==> |r| < |s|)
  {
    if s == "" then ""
    else if s[0] == '\r' && |s| > 1 && s[1] == '\n' then s[2..]
    else s[1..]
  }

  function SplitLines(s: string): seq<string>
    decreases |s|
  {
    if s == "" then []
    else
      var line := FirstLine(s);
      [line] + SplitLines(AfterBreak(s[|line|..]))
  }

  function JoinLines(lines: seq<string>): string {
    if lines == [] then ""
    else if |lines| == 1 then lines[0]
    else lines[0] + "\n" + JoinLines(lines[1..])
  }

  ghost predicate AllOneLine(lines: seq<string>) {
    forall i :: 0 <= i < |lines| ==> OneLine(lines[i])
  }

  lemma {:induction false} SplitIsOneLine(s: string)
    ensures AllOneLine(SplitLines(s))
    decreases |s|
  {
    if s != "" {
      SplitIsOneLine(AfterBreak(s[|FirstLine(s)|..]));
    }
  }

  lemma {:induction false} FirstLineOf(line: string, rest: string)
    requires OneLine(line) && (rest == "" || IsBreak(rest[0]))
    ensures FirstLine(line + rest) == line
  {
    if line == "" {
      assert line + rest == rest;
    } else {
      FirstLineOf(line[1..], rest);
      assert (line + rest)[1..] == line[1..] + rest;
    }
  }

  lemma SplitFirst(line: string, rest: string)
    requires OneLine(line)
    ensures SplitLines(line + "\n" + rest) == [line] + SplitLines(rest)
  {
    var tail := "\n" + rest;
    var s := line + tail;
    assert line + "\n" + rest == s;
    FirstLineOf(line, tail);
    assert s[|line|..] == tail && tail[1..] == rest;
  }

  /** Joined lines split into the same lines, provided the last one is not empty: a final line break adds no line. */
  lemma {:induction false} SplitOfJoin(lines: seq<string>)
    requires AllOneLine(lines) && (lines == [] || lines[|lines| - 1] != "")
    ensures SplitLines(JoinLines(lines)) == lines
  {
    if |lines| == 1 {
      FirstLineOf(lines[0], "");
      assert lines[0] + "" == lines[0];
    } else if |lines| > 1 {
      SplitOfJoin(lines[1..]);
      SplitFirst(lines[0], JoinLines(lines[1..]));
    }
  }

  lemma AfterBreakAppend(rest: string, more: string)
    requires rest != "" && AfterBreak(rest) != ""
    ensures AfterBreak(rest + more) == AfterBreak(rest) + more
  {
    var s := rest + more;
    assert s[0] == rest[0] && s[1] == rest[1];
    assert s[1..] == rest[1..] + more && s[2..] == rest[2..] + more;
  }

  lemma SplitBelow(line: string, rest: string)
    requires OneLine(line) && rest != "" && IsBreak(rest[0])
    ensures SplitLines(line + rest) == [line] + SplitLines(AfterBreak(rest))
  {
    FirstLineOf(line, rest);
    assert (line + rest)[|line|..] == rest;
  }

  /** Any break ends a line; a carriage return and the line feed behind it end one together. */
  lemma BreaksRead(line: string, c: char, rest: string)
    requires OneLine(line)
    ensures SplitLines(line + ("\r\n" + rest)) == [line] + SplitLines(rest)
    ensures IsBreak(c) && (c != '\r' || rest == "" || rest[0] != '\n') ==>
              SplitLines(line + ([c] + rest)) == [line] + SplitLines(rest)
  {
    SplitBelow(line, "\r\n" + rest);
    assert ("\r\n" + rest)[2..] == rest;
    if IsBreak(c) {
      SplitBelow(line, [c] + rest);
      assert ([c] + rest)[1..] == rest;
    }
  }

  /** A text that does not end in a line break keeps its lines when another is put below it. */
  lemma {:induction false} SplitAppend(a: string, b: string)
    requires a != "" && !IsBreak(a[|a| - 1])
    ensures SplitLines(a + ("\n" + b)) == SplitLines(a) + SplitLines(b)
    decreases |a|
  {
    var line, more := FirstLine(a), "\n" + b;
    if line == a {
      Regroup(a, "\n", b);
      SplitFirst(a, b);
      SplitWhole(a);
    } else {
      var rest := a[|line|..];
      assert line + rest == a && rest[|rest| - 1] == a[|a| - 1];
      SplitAppend(AfterBreak(rest), b);
      SplitBelow(line, rest);
      AppendBelow(line, rest, more);
      Regroup([line], SplitLines(AfterBreak(rest)), SplitLines(b));
    }
  }

  lemma AppendBelow(line: string, rest: string, more: string)
    requires OneLine(line) && rest != "" && IsBreak(rest[0]) && AfterBreak(rest) != ""
    ensures SplitLines(line + rest + more) == [line] + SplitLines(AfterBreak(rest) + more)
  {
    Regroup(line, rest, more);
    AfterBreakAppend(rest, more);
    SplitBelow(line, rest + more);
  }

  lemma SplitWhole(line: string)
    requires OneLine(line) && line != ""
    ensures SplitLines(line) == [line]
  {
    FirstLineOf(line, "");
    assert line + "" == line;
  }

  lemma {:induction false} JoinAppend(a: seq<string>, b: seq<string>)
    requires a != [] && b != []
    ensures JoinLines(a + b) == JoinLines(a) + "\n" + JoinLines(b)
  {
    if |a| == 1 {
      assert (a + b)[1..] == b;
    } else {
      JoinAppend(a[1..], b);
      assert (a + b)[1..] == a[1..] + b;
    }
  }

  /** Lines joined beforehand stand in the result one by one. */
  lemma JoinNested(a: seq<string>, b: seq<string>, c: seq<string>)
    requires a != [] && b != []
    ensures JoinLines(a + [JoinLines(b)] + c) == JoinLines(a + b + c)
  {
    JoinAppend(a, b);
    JoinAppend(a, [JoinLines(b)]);
    if c == [] {
      assert a + [JoinLines(b)] + c == a + [JoinLines(b)] && a + b + c == a + b;
    } else {
      JoinAppend(a + b, c);
      JoinAppend(a + [JoinLines(b)], c);
    }
  }

  lemma OneLineConcat(a: string, b: string)
    requires OneLine(a) && OneLine(b)
    ensures OneLine(a + b)
  {
  }

  /* ---- Outer white space --------------------------------------------------------------------------------------- */

  lemma {:induction false} TrimLeftSuffix(s: string)
    ensures var r := TrimLeft(s); |r| <= |s| && r == s[|s| - |r|..] && (r == "" || !IsSpace(r[0]))
  {
    if s != "" && IsSpace(s[0]) {
      TrimLeftSuffix(s[1..]);
    }
  }

  lemma {:induction false} TrimRightPrefix(s: string)
    ensures var r := TrimRight(s); |r| <= |s| && r == s[..|r|] && (r == "" || !IsSpace(r[|r| - 1]))
  {
    if s != "" && IsSpace(s[|s| - 1]) {
      TrimRightPrefix(s[..|s| - 1]);
    }
  }

  lemma {:induction false} TrimLeftOf(a: string, b: string)
    requires TrimLeft(a) != ""
    ensures TrimLeft(a + b) == TrimLeft(a) + b
  {
    if IsSpace(a[0]) {
      TrimLeftOf(a[1..], b);
      assert (a + b)[1..] == a[1..] + b;
    }
  }

  lemma {:induction false} TrimRightOf(a: string, b: string)
    requires a != "" && !IsSpace(a[|a| - 1])
    ensures TrimRight(a + b) == a + TrimRight(b)
  {
    if b == "" {
      assert a + b == a;
    } else if IsSpace(b[|b| - 1]) {
      TrimRightOf(a, b[..|b| - 1]);
      assert (a + b)[..|a + b| - 1] == a + b[..|b| - 1];
    }
  }

  lemma {:induction false} TrimRightInner(a: string, b: string)
    requires TrimRight(b) != ""
    ensures TrimRight(a + b) == a + TrimRight(b)
  {
    if IsSpace(b[|b| - 1]) {
      TrimRightInner(a, b[..|b| - 1]);
      assert (a + b)[..|a + b| - 1] == a + b[..|b| - 1];
    }
  }

  /** Trimming leaves no white space at either end. */
  lemma TrimmedEnds(s: string)
    ensures var r := Trim(s); r == "" || (!IsSpace(r[0]) && !IsSpace(r[|r| - 1]))
  {
    TrimRightPrefix(s);
    TrimLeftSuffix(TrimRight(s));
  }

  /** A string without white space at its ends is left alone. */
  lemma TrimNothing(s: string)
    requires s == "" || (!IsSpace(s[0]) && !IsSpace(s[|s| - 1]))
    ensures TrimLeft(s) == s && TrimRight(s) == s && Trim(s) == s
  {
  }

  lemma TrimTwice(s: string)
    ensures TrimLeft(Trim(s)) == Trim(s) && TrimRight(Trim(s)) == Trim(s) && Trim(Trim(s)) == Trim(s)
  {
    TrimmedEnds(s);
    TrimNothing(Trim(s));
  }

  /** Only a string without any other character is trimmed away. */
  lemma {:induction false} TrimLeftEmpty(s: string)
    ensures TrimLeft(s) == "" <==> (forall i :: 0 <= i < |s| ==> IsSpace(s[i]))
  {
    if s != "" && IsSpace(s[0]) {
      TrimLeftEmpty(s[1..]);
    }
  }

  lemma BlankIff(s: string)
    ensures Trim(s) == "" <==> TrimRight(s) == ""
  {
    TrimRightPrefix(s);
    TrimLeftEmpty(TrimRight(s));
  }
}
