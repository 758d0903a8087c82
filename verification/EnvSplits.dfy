/** What cutting a text into lines and reporting an update mean, said of the text and its lines alone. */
module EnvSplits {
  import opened Common
  import opened EnvLine
  import opened EnvFile
  import opened EnvReading
  import opened EnvText

  // ----- lines

  predicate BreakChar(c: char) {
    c as int in {0x0A, 0x0B, 0x0C, 0x0D, 0x1C, 0x1D, 0x1E, 0x85, 0x2028, 0x2029}
  }

  predicate Terminator(t: string) {
    t == "\r\n" || (|t| == 1 && BreakChar(t[0]))
  }

  function Joined(lines: seq<string>, ends: seq<string>): string
    requires |lines| == |ends|
  {
    if lines == [] then "" else lines[0] + ends[0] + Joined(lines[1..], ends[1..])
  }

  /** Lines without line ends in them, each with its terminator; only the last may lack one, if it is not empty, and CR LF
      is one terminator. */
  ghost predicate CutInto(lines: seq<string>, ends: seq<string>) {
    && |lines| == |ends|
    && (forall i, c :: 0 <= i < |lines| && c in lines[i] ==> !BreakChar(c))
    && (forall i :: 0 <= i < |lines| ==> Terminator(ends[i]) || (i == |lines| - 1 && ends[i] == "" && lines[i] != ""))
    && (forall i :: 0 <= i < |lines| - 1 && ends[i] == "\r" && lines[i + 1] == "" ==> ends[i + 1] != "\n")
  }

  lemma NoBreakIs(s: string)
    ensures NoBreak(s) <==> forall c :: c in s ==> !BreakChar(c)
  {
    hide IsLineBreak, BreakChar;
    forall i | 0 <= i < |s| ensures IsLineBreak(s[i]) <==> BreakChar(s[i]) {
      BreakCharIs(s[i]);
    }
  }

  lemma BreakCharIs(c: char)
    ensures IsLineBreak(c) <==> BreakChar(c)
  {
    LineBreaksAre(c);
  }

  lemma CutTail(lines: seq<string>, ends: seq<string>)
    requires CutInto(lines, ends) && lines != []
    ensures CutInto(lines[1..], ends[1..])
  {
    hide BreakChar, Terminator;
    var ls, es := lines[1..], ends[1..];
    assert forall i :: 0 <= i < |ls| ==> ls[i] == lines[i + 1] && es[i] == ends[i + 1];
    forall i | 0 <= i < |ls| - 1 && es[i] == "\r" && ls[i + 1] == "" ensures es[i + 1] != "\n" {
      assert ends[i + 1] == "\r" && lines[i + 2] == "";
    }
    forall i, c | 0 <= i < |ls| && c in ls[i] ensures !BreakChar(c) {
      assert c in lines[i + 1];
    }
  }

  /** What follows a CR does not start with a LF. */
  lemma NoNewlineNext(lines: seq<string>, ends: seq<string>)
    requires CutInto(lines, ends) && lines != [] && ends[0] == "\r"
    ensures var rest := Joined(lines[1..], ends[1..]); rest == "" || rest[0] != '\n'
  {
    hide BreakChar;
    if |lines| > 1 {
      if lines[1] == "" {
        assert ends[1] != "\n";
        assert Terminator(ends[1]);
      } else {
        assert lines[1][0] in lines[1];
        NewlineIsBreak();
      }
    }
  }

  lemma NewlineIsBreak()
    ensures BreakChar('\n') && BreakChar('\r')
  {
  }

  /** The first cut of a joined text. */
  lemma FirstCut(line: string, end: string, rest: string)
    requires NoBreak(line) && Terminator(end) && (end == "\r" ==> rest == "" || rest[0] != '\n')
    ensures SplitLines(line + end + rest) == [line] + SplitLines(rest)
  {
    hide SplitLines, BreakAt, BreakChar, IsLineBreak;
    var text := line + end + rest;
    assert text == line + (end + rest);
    NewlineIsBreak();
    BreakCharIs(end[0]);
    BreakBefore(line, end + rest);
    assert (end + rest)[0] == end[0];
    SplitStep(text, |line|, |end|);
    assert text[..|line|] == line && text[|line| + |end|..] == rest;
  }

  lemma {:induction false} SplitJoined(lines: seq<string>, ends: seq<string>)
    requires CutInto(lines, ends)
    ensures SplitLines(Joined(lines, ends)) == lines
    decreases |lines|
  {
    hide BreakChar, SplitLines, BreakAt;
    if lines == [] {
      NothingSplit();
    } else {
      NoBreakIs(lines[0]);
      CutTail(lines, ends);
      var rest := Joined(lines[1..], ends[1..]);
      if ends[0] == "" {
        assert Joined(lines, ends) == lines[0];
        LastLine(lines[0]);
      } else {
        if ends[0] == "\r" { NoNewlineNext(lines, ends); }
        FirstCut(lines[0], ends[0], rest);
        SplitJoined(lines[1..], ends[1..]);
      }
    }
  }

  lemma NothingSplit()
    ensures SplitLines("") == []
  {
  }

  lemma LastLine(line: string)
    requires NoBreak(line) && line != ""
    ensures SplitLines(line) == [line]
  {
    hide IsLineBreak;
    assert BreakAt(line) == |line|;
  }

  lemma {:induction false} SplitCuts(text: string) returns (ends: seq<string>)
    ensures CutInto(SplitLines(text), ends) && Joined(SplitLines(text), ends) == text
    decreases |text|
  {
    hide BreakChar, IsLineBreak, BreakAt, BreakLength, CutInto, Joined, Terminator, SplitLines;
    if text == "" {
      ends := [];
      NothingSplit();
      NothingJoined();
    } else {
      var i := BreakAt(text);
      if i == |text| {
        ends := [""];
        LastLine(text);
        LastCut(text);
      } else {
        var n := BreakLength(text, i);
        SplitStep(text, i, n);
        var rest := text[i + n..];
        var more := SplitCuts(rest);
        ends := [text[i..i + n]] + more;
        NoBreakIs(text[..i]);
        BreakIs(text, i);
        CutGrows(text[..i], text[i..i + n], SplitLines(rest), more, rest);
        assert text == text[..i] + text[i..i + n] + rest;
      }
    }
  }

  lemma NothingJoined()
    ensures CutInto([], []) && Joined([], []) == ""
  {
  }

  lemma LastCut(text: string)
    requires NoBreak(text) && text != ""
    ensures CutInto([text], [""]) && Joined([text], [""]) == text
  {
    hide IsLineBreak, BreakChar;
    NoBreakIs(text);
    assert [text][1..] == [] && [""][1..] == [];
  }

  lemma BreakIs(text: string, i: nat)
    requires i < |text| && IsLineBreak(text[i])
    ensures var n := BreakLength(text, i);
            Terminator(text[i..i + n]) && (text[i..i + n] == "\r" ==> i + n == |text| || text[i + n] != '\n')
  {
    hide BreakChar, IsLineBreak;
    BreakCharIs(text[i]);
  }

  lemma CutGrows(line: string, end: string, lines: seq<string>, ends: seq<string>, rest: string)
    requires CutInto(lines, ends) && Joined(lines, ends) == rest
    requires (forall c :: c in line ==> !BreakChar(c)) && Terminator(end) && (end == "\r" ==> rest == "" || rest[0] != '\n')
    ensures CutInto([line] + lines, [end] + ends) && Joined([line] + lines, [end] + ends) == line + end + rest
  {
    hide BreakChar, Terminator;
    var ls, es := [line] + lines, [end] + ends;
    assert ls[1..] == lines && es[1..] == ends;
    forall i | 0 <= i < |ls| - 1 && es[i] == "\r" && ls[i + 1] == "" ensures es[i + 1] != "\n" {
      if i == 0 {
        assert es[1] == ends[0] && rest == lines[0] + ends[0] + Joined(lines[1..], ends[1..]);
      } else {
        assert es[i] == ends[i - 1] && ls[i + 1] == lines[i] && es[i + 1] == ends[i];
      }
    }
    forall i, c | 0 <= i < |ls| && c in ls[i] ensures !BreakChar(c) {
      if i > 0 { assert c in lines[i - 1]; }
    }
    forall i | 0 <= i < |ls| ensures Terminator(es[i]) || (i == |ls| - 1 && es[i] == "" && ls[i] != "") {
      if i > 0 { assert es[i] == ends[i - 1] && ls[i] == lines[i - 1]; }
    }
  }

  /** MAIN RESULT: the lines of a text are the one way to cut it at its line ends. */
  lemma SplitExact(text: string, lines: seq<string>)
    ensures SplitLines(text) == lines <==> exists ends :: CutInto(lines, ends) && Joined(lines, ends) == text
  {
    hide SplitLines, Joined;
    if SplitLines(text) == lines {
      var ends := SplitCuts(text);
    }
    forall ends | CutInto(lines, ends) && Joined(lines, ends) == text ensures SplitLines(text) == lines {
      SplitJoined(lines, ends);
    }
  }

  /** A rendered text is its lines in order, each with one newline behind it. */
  lemma {:induction false} UnlinesJoins(lines: seq<string>)
    ensures Unlines(lines) == Joined(lines, seq(|lines|, _ => "\n"))
  {
    if lines != [] {
      UnlinesJoins(lines[1..]);
      assert seq(|lines|, _ => "\n")[1..] == seq(|lines| - 1, _ => "\n");
    }
  }

  // ----- the report

  lemma OldValuesStep(front: seq<string>, line: string, name: string)
    ensures OldValues(front + [line], name) ==
              OldValues(front, name) + if Assigns(line, name) then [ParseLine(line).value.value.1] else []
  {
    hide ParseLine;
    assert (front + [line])[..|front|] == front;
  }

  lemma {:induction false} OldValuesNone(lines: seq<string>, name: string)
    ensures OldValues(lines, name) == [] <==> forall i :: 0 <= i < |lines| ==> !Assigns(lines[i], name)
  {
    hide Assigns, OldValues;
    if lines == [] {
      NoOldValues(name);
    } else {
      var n := |lines| - 1;
      var front, line := lines[..n], lines[n];
      OldValuesNone(front, name);
      assert lines == front + [line];
      OldValuesStep(front, line, name);
      assert (forall i :: 0 <= i < n ==> !Assigns(lines[i], name)) <==> forall i :: 0 <= i < n ==> !Assigns(front[i], name);
    }
  }

  lemma NoOldValues(name: string)
    ensures OldValues([], name) == []
  {
  }

  lemma {:induction false} OldValuesOne(lines: seq<string>, name: string, i: nat)
    requires i < |lines| && Assigns(lines[i], name)
    requires forall j :: 0 <= j < |lines| && j != i ==> !Assigns(lines[j], name)
    ensures OldValues(lines, name) == [ParseLine(lines[i]).value.value.1]
  {
    hide ParseLine, OldValues;
    var n := |lines| - 1;
    var front, line := lines[..n], lines[n];
    assert lines == front + [line] && forall j :: 0 <= j < n ==> front[j] == lines[j];
    OldValuesStep(front, line, name);
    if i < n {
      OldValuesOne(front, name, i);
    } else {
      OldValuesNone(front, name);
    }
  }

  lemma {:induction false} OldValuesTwo(lines: seq<string>, name: string, i: nat, j: nat)
    requires i < j < |lines| && Assigns(lines[i], name) && Assigns(lines[j], name)
    ensures |OldValues(lines, name)| >= 2
  {
    hide ParseLine, OldValues;
    var n := |lines| - 1;
    var front, line := lines[..n], lines[n];
    assert lines == front + [line] && forall k :: 0 <= k < n ==> front[k] == lines[k];
    OldValuesStep(front, line, name);
    if j < n {
      OldValuesTwo(front, name, i, j);
    } else {
      OldValuesNone(front, name);
    }
  }

  /** A name is added if no line gave it a value, unchanged if one line alone gave it this value, and updated otherwise. */
  lemma ChangesMean(lines: seq<string>, a: Assignments, name: string)
    requires name in a.values
    ensures ChangeOf(lines, a, name) == IsAdded <==> forall i :: 0 <= i < |lines| ==> !Assigns(lines[i], name)
    ensures ChangeOf(lines, a, name) == IsUnchanged <==>
            exists i :: 0 <= i < |lines| && ParseLine(lines[i]) == Success(Some((name, a.values[name])))
                        && forall j :: 0 <= j < |lines| && j != i ==> !Assigns(lines[j], name)
  {
    hide ParseLine, OldValues;
    OldValuesNone(lines, name);
    if i :| 0 <= i < |lines| && Assigns(lines[i], name) {
      if j :| 0 <= j < |lines| && j != i && Assigns(lines[j], name) {
        var (x, y) := if i < j then (i, j) else (j, i);
        OldValuesTwo(lines, name, x, y);
      } else {
        OldValuesOne(lines, name, i);
      }
    }
  }

  /** The lists of the report: the names of each change, in the order of the assignments. */
  lemma {:induction false} ChangedIs(names: seq<string>, lines: seq<string>, a: Assignments, c: Change)
    requires forall n :: n in names ==> n in a.values
    ensures forall n :: n in Changed(names, lines, a, c) <==> n in names && ChangeOf(lines, a, n) == c
  {
    hide ChangeOf;
    if names != [] {
      ChangedIs(names[1..], lines, a, c);
    }
  }

  lemma {:induction false} ChangedAppend(x: seq<string>, y: seq<string>, lines: seq<string>, a: Assignments, c: Change)
    ensures Changed(x + y, lines, a, c) == Changed(x, lines, a, c) + Changed(y, lines, a, c)
  {
    hide ChangeOf;
    if x == [] {
      assert x + y == y;
    } else {
      assert (x + y)[1..] == x[1..] + y;
      ChangedAppend(x[1..], y, lines, a, c);
    }
  }
}
