/** A whole `.env` file: reading it as a mapping, and rewriting it so that given names get given values. */
module EnvFile {
  import opened Common
  import opened EnvLine

  /** Names in order with their values: the assignments dictionary. */
  datatype Assignments = Assignments(names: seq<string>, values: map<string, string>) {
    ghost predicate Valid() {
      && Distinct(names)
      && (forall n :: n in names <==> n in values)
      && (forall n :: n in values ==> IsKey(n) && ValidValue(values[n]))
    }
  }

  // ----- reading

  /** What one line contributes to the mapping. */
  function Binding(line: string): map<string, string> {
    match ParseLine(line)
    case Success(Some(pair)) => map[pair.0 := pair.1]
    case _ => map[]
  }

  /** The mapping of a file: later lines win. */
  function ParseAll(lines: seq<string>): map<string, string> {
    if lines == [] then map[] else Binding(lines[0]) + ParseAll(lines[1..])
  }

  lemma {:induction false} ParseAppend(a: seq<string>, b: seq<string>)
    ensures ParseAll(a + b) == ParseAll(a) + ParseAll(b)
  {
    hide Binding;
    if a == [] {
      assert a + b == b;
    } else {
      assert (a + b)[1..] == a[1..] + b;
      ParseAppend(a[1..], b);
      UpdatesAssociate(Binding(a[0]), ParseAll(a[1..]), ParseAll(b));
    }
  }

  lemma UpdatesAssociate(x: map<string, string>, y: map<string, string>, z: map<string, string>)
    ensures x + (y + z) == (x + y) + z
  {
  }

  lemma ParseNothing()
    ensures ParseAll([]) == map[]
  {
  }

  lemma ParseOne(line: string)
    ensures ParseAll([line]) == Binding(line)
  {
    hide Binding;
    assert [line][1..] == [];
  }

  /** The loop of `read_project_env_with_status`. */
  method ReadLines(lines: seq<string>) returns (loaded: map<string, string>)
    ensures loaded == ParseAll(lines)
  {
    hide ParseLine, ParseAll;
    loaded := map[];
    ParseNothing();
    assert lines[..0] == [];
    var i := 0;
    while i < |lines|
      invariant 0 <= i <= |lines|
      invariant loaded == ParseAll(lines[..i])
    {
      assert lines[..i + 1] == lines[..i] + [lines[i]];
      ParseAppend(lines[..i], [lines[i]]);
      ParseOne(lines[i]);
      var parsed := ParseLine(lines[i]);
      if parsed.Success? && parsed.value.Some? {
        loaded := loaded[parsed.value.value.0 := parsed.value.value.1];
      }
      i := i + 1;
    }
    assert lines[..i] == lines;
  }

  // ----- rewriting

  /** The name a line assigns, if it is one of those to be set. */
  function Target(line: string, a: Assignments): Option<string> {
    match ParseLine(line)
    case Success(Some(pair)) => if pair.0 in a.values then Some(pair.0) else None
    case _ => None
  }

  function Assigned(a: Assignments, name: string): string
    requires name in a.values
  {
    FormatLine(name, a.values[name])
  }

  /** The old lines with the first line of each name rewritten and its later ones dropped; `seen` was rewritten before. */
  function Rewritten(lines: seq<string>, a: Assignments, seen: set<string>): seq<string> {
    if lines == [] then []
    else
      match Target(lines[0], a)
      case None => [lines[0]] + Rewritten(lines[1..], a, seen)
      case Some(name) =>
        (if name in seen then [] else [Assigned(a, name)]) + Rewritten(lines[1..], a, seen + {name})
  }

  function Seen(lines: seq<string>, a: Assignments): set<string> {
    if lines == [] then {}
    else Seen(lines[1..], a) + if Target(lines[0], a).Some? then {Target(lines[0], a).value} else {}
  }

  /** The names without a line yet, in order, as new lines. */
  function Added(names: seq<string>, a: Assignments, seen: set<string>): seq<string> {
    if names == [] then []
    else if names[0] in seen || names[0] !in a.values then Added(names[1..], a, seen)
    else [Assigned(a, names[0])] + Added(names[1..], a, seen)
  }

  /** A blank line before new ones, unless the file ends in one. */
  function Gap(rewritten: seq<string>, added: seq<string>): seq<string> {
    if added != [] && rewritten != [] && Strip(rewritten[|rewritten| - 1]) != "" then [""] else []
  }

  function Rendered(lines: seq<string>, a: Assignments): seq<string> {
    var rewritten := Rewritten(lines, a, {});
    var added := Added(a.names, a, Seen(lines, a));
    rewritten + Gap(rewritten, added) + added
  }

  // ----- the mapping after rewriting

  lemma AssignedReadsBack(a: Assignments, name: string)
    requires a.Valid() && name in a.values
    ensures ParseLine(Assigned(a, name)) == Success(Some((name, a.values[name])))
    ensures Binding(Assigned(a, name)) == map[name := a.values[name]]
    ensures Target(Assigned(a, name), a) == Some(name)
  {
    hide ParseLine;
    LineRoundTrip(name, a.values[name]);
  }

  /** Rewriting keeps every other name's value and gives each name met, unless already seen, its new one. */
  lemma {:induction false} RewrittenParses(lines: seq<string>, a: Assignments, seen: set<string>)
    requires a.Valid()
    ensures var before, now := ParseAll(lines), ParseAll(Rewritten(lines, a, seen));
            && (forall n :: n !in a.values ==> (n in now <==> n in before) && (n in before ==> now[n] == before[n]))
            && (forall n :: n in a.values ==> (n in now <==> n in Seen(lines, a) && n !in seen))
            && (forall n :: n in a.values && n in now ==> now[n] == a.values[n])
  {
    hide ParseLine;
    if lines != [] {
      var rest := lines[1..];
      match Target(lines[0], a) {
        case None =>
          RewrittenParses(rest, a, seen);
          ParseAppend([lines[0]], Rewritten(rest, a, seen));
          assert ParseAll([lines[0]]) == Binding(lines[0]) + ParseAll([lines[0]][1..]);
        case Some(name) =>
          RewrittenParses(rest, a, seen + {name});
          AssignedReadsBack(a, name);
          ParseAppend([Assigned(a, name)], Rewritten(rest, a, seen + {name}));
          assert ParseAll([Assigned(a, name)]) == Binding(Assigned(a, name)) + ParseAll([Assigned(a, name)][1..]);
          assert [] + Rewritten(rest, a, seen + {name}) == Rewritten(rest, a, seen + {name});
      }
    }
  }

  lemma {:induction false} AddedParses(names: seq<string>, a: Assignments, seen: set<string>)
    requires a.Valid()
    ensures var now := ParseAll(Added(names, a, seen));
            && (forall n :: n in now <==> n in names && n in a.values && n !in seen)
            && (forall n :: n in now ==> n in a.values && now[n] == a.values[n])
  {
    hide ParseLine;
    if names != [] {
      AddedParses(names[1..], a, seen);
      if names[0] in a.values && names[0] !in seen {
        AssignedReadsBack(a, names[0]);
        ParseAppend([Assigned(a, names[0])], Added(names[1..], a, seen));
        assert ParseAll([Assigned(a, names[0])]) == Binding(Assigned(a, names[0])) + ParseAll([Assigned(a, names[0])][1..]);
      }
    }
  }

  lemma BlankParses()
    ensures ParseAll([""]) == map[]
  {
    assert Strip("") == "";
    assert ParseLine("") == Success(None);
  }

  lemma GapParses(rewritten: seq<string>, added: seq<string>)
    ensures ParseAll(rewritten + Gap(rewritten, added) + added) == ParseAll(rewritten) + ParseAll(added)
  {
    hide ParseLine, Binding, Strip;
    var gap := Gap(rewritten, added);
    BlankParses();
    ParseAppend(rewritten + gap, added);
    ParseAppend(rewritten, gap);
    assert ParseAll(gap) == map[];
  }

  /** MAIN RESULT: the new file means the old one with the assignments laid over it. */
  lemma RenderedParses(lines: seq<string>, a: Assignments)
    requires a.Valid()
    ensures ParseAll(Rendered(lines, a)) == ParseAll(lines) + a.values
  {
    hide ParseAll, Rewritten, Added, Seen, Strip;
    var rewritten := Rewritten(lines, a, {});
    var added := Added(a.names, a, Seen(lines, a));
    RewrittenParses(lines, a, {});
    AddedParses(a.names, a, Seen(lines, a));
    BlankParses();
    GapParses(rewritten, added);
    assert ParseAll(Rendered(lines, a)) == ParseAll(rewritten) + ParseAll(added);
  }

  // ----- the lines after rewriting

  /** The lines that assign none of the names. */
  function Others(lines: seq<string>, a: Assignments): seq<string> {
    if lines == [] then []
    else (if Target(lines[0], a).None? then [lines[0]] else []) + Others(lines[1..], a)
  }

  /** The lines that assign one given name. */
  function LinesOf(lines: seq<string>, a: Assignments, name: string): seq<string> {
    if lines == [] then []
    else (if Target(lines[0], a) == Some(name) then [lines[0]] else []) + LinesOf(lines[1..], a, name)
  }

  lemma {:induction false} OthersAppend(x: seq<string>, y: seq<string>, a: Assignments)
    ensures Others(x + y, a) == Others(x, a) + Others(y, a)
  {
    hide ParseLine;
    if x == [] {
      assert x + y == y;
    } else {
      assert (x + y)[1..] == x[1..] + y;
      OthersAppend(x[1..], y, a);
    }
  }

  lemma {:induction false} LinesOfAppend(x: seq<string>, y: seq<string>, a: Assignments, name: string)
    ensures LinesOf(x + y, a, name) == LinesOf(x, a, name) + LinesOf(y, a, name)
  {
    hide ParseLine;
    if x == [] {
      assert x + y == y;
    } else {
      assert (x + y)[1..] == x[1..] + y;
      LinesOfAppend(x[1..], y, a, name);
    }
  }

  lemma {:induction false} RewrittenLines(lines: seq<string>, a: Assignments, seen: set<string>, name: string)
    requires a.Valid() && name in a.values
    ensures Others(Rewritten(lines, a, seen), a) == Others(lines, a)
    ensures LinesOf(Rewritten(lines, a, seen), a, name)
         == if name in Seen(lines, a) && name !in seen then [Assigned(a, name)] else []
  {
    hide ParseLine;
    if lines != [] {
      var rest := lines[1..];
      match Target(lines[0], a) {
        case None =>
          RewrittenLines(rest, a, seen, name);
          assert Rewritten(lines, a, seen)[1..] == Rewritten(rest, a, seen);
        case Some(other) =>
          RewrittenLines(rest, a, seen + {other}, name);
          AssignedReadsBack(a, other);
          var tail := Rewritten(rest, a, seen + {other});
          assert ([Assigned(a, other)] + tail)[1..] == tail;
          assert [] + tail == tail;
      }
    }
  }

  lemma {:induction false} AddedLines(names: seq<string>, a: Assignments, seen: set<string>, name: string)
    requires a.Valid() && name in a.values && Distinct(names)
    ensures Others(Added(names, a, seen), a) == []
    ensures LinesOf(Added(names, a, seen), a, name) == if name in names && name !in seen then [Assigned(a, name)] else []
  {
    hide ParseLine;
    if names != [] {
      assert names[0] !in names[1..];
      AddedLines(names[1..], a, seen, name);
      if names[0] in a.values && names[0] !in seen {
        AssignedReadsBack(a, names[0]);
        var tail := Added(names[1..], a, seen);
        assert ([Assigned(a, names[0])] + tail)[1..] == tail;
      }
    }
  }

  /** Every other line stays, in order (at most one blank line is added), and each name has exactly its new line. */
  lemma RenderedLines(lines: seq<string>, a: Assignments, name: string)
    requires a.Valid() && name in a.values
    ensures Others(Rendered(lines, a), a) == Others(lines, a) || Others(Rendered(lines, a), a) == Others(lines, a) + [""]
    ensures LinesOf(Rendered(lines, a), a, name) == [Assigned(a, name)]
  {
    hide ParseLine, Rewritten, Added, Seen, Others, LinesOf, Gap, Assigned;
    var rewritten := Rewritten(lines, a, {});
    var added := Added(a.names, a, Seen(lines, a));
    var gap := Gap(rewritten, added);
    RewrittenLines(lines, a, {}, name);
    AddedLines(a.names, a, Seen(lines, a), name);
    OthersAppend(rewritten + gap, added, a);
    OthersAppend(rewritten, gap, a);
    LinesOfAppend(rewritten + gap, added, a, name);
    LinesOfAppend(rewritten, gap, a, name);
    GapIsOther(rewritten, added, a, name);
  }

  lemma GapIsOther(rewritten: seq<string>, added: seq<string>, a: Assignments, name: string)
    ensures Others(Gap(rewritten, added), a) in {[], [""]} && LinesOf(Gap(rewritten, added), a, name) == []
  {
    hide ParseLine, Strip, Others, LinesOf;
    BlankIsOther(a, name);
    NothingIsOther(a, name);
  }

  lemma NothingIsOther(a: Assignments, name: string)
    ensures Others([], a) == [] && LinesOf([], a, name) == []
  {
  }

  lemma BlankIsOther(a: Assignments, name: string)
    ensures Others([""], a) == [""] && LinesOf([""], a, name) == []
  {
    assert Strip("") == "" && ParseLine("") == Success(None);
    assert [""][1..] == [];
  }

  // ----- what the file's parts are, line by line

  ghost predicate Assigns(line: string, name: string) {
    ParseLine(line).Success? && ParseLine(line).value.Some? && ParseLine(line).value.value.0 == name
  }

  /** A file gives a name a value exactly if a line of it does, and the value is that of the last such line. */
  lemma {:induction false} LastWins(lines: seq<string>, name: string)
    ensures name in ParseAll(lines) <==> exists i :: 0 <= i < |lines| && Assigns(lines[i], name)
    ensures forall i :: 0 <= i < |lines| && Assigns(lines[i], name)
                        && (forall j :: i < j < |lines| ==> !Assigns(lines[j], name)) ==>
              ParseAll(lines)[name] == ParseLine(lines[i]).value.value.1
  {
    hide ParseLine;
    if lines != [] {
      var rest := lines[1..];
      LastWins(rest, name);
      assert forall i :: 0 <= i < |rest| ==> rest[i] == lines[i + 1];
      assert forall i :: 0 < i < |lines| ==> lines[i] == rest[i - 1];
      if Assigns(lines[0], name) {
        assert name in Binding(lines[0]);
      }
    }
  }

  lemma {:induction false} RewrittenAppend(x: seq<string>, y: seq<string>, a: Assignments, seen: set<string>)
    ensures Rewritten(x + y, a, seen) == Rewritten(x, a, seen) + Rewritten(y, a, seen + Seen(x, a))
  {
    hide Target, Rewritten, Seen, Assigned;
    RewrittenNone(y, a, seen);
    if x == [] {
      assert x + y == y && seen + {} == seen;
    } else {
      var rest := x[1..];
      assert x == [x[0]] + rest && x + y == [x[0]] + (rest + y);
      RewrittenCons(x[0], rest + y, a, seen);
      RewrittenCons(x[0], rest, a, seen);
      var more := match Target(x[0], a) case None => {} case Some(name) => {name};
      RewrittenAppend(rest, y, a, seen + more);
      assert seen + {} == seen;
      assert seen + more + Seen(rest, a) == seen + Seen(x, a);
    }
  }

  lemma RewrittenNone(y: seq<string>, a: Assignments, seen: set<string>)
    ensures Rewritten([], a, seen) == [] && Seen([], a) == {} && [] + Rewritten(y, a, seen) == Rewritten(y, a, seen)
  {
  }

  lemma RewrittenCons(line: string, rest: seq<string>, a: Assignments, seen: set<string>)
    ensures Rewritten([line] + rest, a, seen) ==
              match Target(line, a)
              case None => [line] + Rewritten(rest, a, seen)
              case Some(name) => (if name in seen then [] else [Assigned(a, name)]) + Rewritten(rest, a, seen + {name})
    ensures Seen([line] + rest, a) == Seen(rest, a) + match Target(line, a) case None => {} case Some(name) => {name}
  {
    hide ParseLine;
    assert ([line] + rest)[1..] == rest;
  }

  /** The new line of a name stands where its first old one stood: the other lines before and behind it are the same. */
  lemma RewrittenInPlace(x: seq<string>, line: string, y: seq<string>, a: Assignments, name: string)
    requires a.Valid() && name in a.values && Assigns(line, name) && forall l :: l in x ==> !Assigns(l, name)
    ensures var front, back := Rewritten(x, a, {}), Rewritten(y, a, Seen(x, a) + {name});
            && Rewritten(x + [line] + y, a, {}) == front + [FormatLine(name, a.values[name])] + back
            && Others(front, a) == Others(x, a) && Others(back, a) == Others(y, a)
  {
    hide ParseLine, Rewritten, Seen, Others, LinesOf, Assigned;
    RewrittenAppend(x + [line], y, a, {});
    RewrittenAppend(x, [line], a, {});
    assert {} + Seen(x, a) == Seen(x, a) && {} + Seen(x + [line], a) == Seen(x + [line], a);
    TargetIs(line, a, name);
    SeenNot(x, a, name);
    SeenNext(x, line, a, name);
    RewriteOne(line, a, Seen(x, a), name);
    RewrittenLines(x, a, {}, name);
    RewrittenLines(y, a, Seen(x, a) + {name}, name);
  }

  lemma TargetIs(line: string, a: Assignments, name: string)
    requires name in a.values && Assigns(line, name)
    ensures Target(line, a) == Some(name)
  {
    hide ParseLine;
  }

  lemma RewriteOne(line: string, a: Assignments, seen: set<string>, name: string)
    requires Target(line, a) == Some(name) && name !in seen
    ensures name in a.values && Rewritten([line], a, seen) == [FormatLine(name, a.values[name])]
  {
    hide ParseLine;
    assert [line][1..] == [];
  }

  lemma {:induction false} SeenNot(x: seq<string>, a: Assignments, name: string)
    requires forall l :: l in x ==> !Assigns(l, name)
    ensures name !in Seen(x, a)
  {
    hide ParseLine;
    if x != [] {
      SeenNot(x[1..], a, name);
      assert !Assigns(x[0], name);
    }
  }

  lemma {:induction false} SeenNext(x: seq<string>, line: string, a: Assignments, name: string)
    requires Target(line, a) == Some(name)
    ensures Seen(x + [line], a) == Seen(x, a) + {name}
  {
    hide ParseLine;
    if x == [] {
      assert x + [line] == [line] && [line][1..] == [];
    } else {
      assert (x + [line])[1..] == x[1..] + [line];
      SeenNext(x[1..], line, a, name);
    }
  }

  /** New lines stand in the order of the assignments. */
  lemma {:induction false} AddedInOrder(names: seq<string>, a: Assignments, seen: set<string>, i: nat, j: nat)
    returns (p: nat, q: nat)
    requires i < j < |names| && names[i] in a.values && names[j] in a.values && names[i] !in seen && names[j] !in seen
    ensures p < q < |Added(names, a, seen)|
    ensures Added(names, a, seen)[p] == FormatLine(names[i], a.values[names[i]])
    ensures Added(names, a, seen)[q] == FormatLine(names[j], a.values[names[j]])
    decreases |names|
  {
    if i == 0 {
      q := AddedAt(names[1..], a, seen, j - 1);
      p, q := 0, q + 1;
    } else {
      p, q := AddedInOrder(names[1..], a, seen, i - 1, j - 1);
      if names[0] !in seen && names[0] in a.values {
        p, q := p + 1, q + 1;
      }
    }
  }

  lemma {:induction false} AddedAt(names: seq<string>, a: Assignments, seen: set<string>, j: nat) returns (q: nat)
    requires j < |names| && names[j] in a.values && names[j] !in seen
    ensures q < |Added(names, a, seen)| && Added(names, a, seen)[q] == FormatLine(names[j], a.values[names[j]])
    decreases |names|
  {
    if j == 0 {
      q := 0;
    } else {
      q := AddedAt(names[1..], a, seen, j - 1);
      if names[0] !in seen && names[0] in a.values {
        q := q + 1;
      }
    }
  }

  /** New lines come last, behind a blank one exactly if there are any and the line before is not blank itself. */
  lemma AddedBehindBlank(lines: seq<string>, a: Assignments)
    requires a.Valid()
    ensures var front, added := Rewritten(lines, a, {}), Added(a.names, a, Seen(lines, a));
            var missing := exists n :: n in a.names && n !in ParseAll(lines);
            && (added != [] <==> missing)
            && Rendered(lines, a) == front
                 + (if missing && front != [] && !Blank(front[|front| - 1]) then [""] else [])
                 + added
  {
    hide ParseLine, IsSpace, Strip, Rewritten, ParseAll, Added, Seen, Blank, Assigned;
    var front := Rewritten(lines, a, {});
    SeenIs(lines, a);
    if n :| n in a.names && n !in ParseAll(lines) {
      var j :| 0 <= j < |a.names| && a.names[j] == n;
      var q := AddedAt(a.names, a, Seen(lines, a), j);
    } else {
      AddedNothing(a.names, a, Seen(lines, a));
    }
    if front != [] {
      var last := front[|front| - 1];
      StripBlank(last);
    }
  }

  ghost predicate Blank(s: string) {
    forall i :: 0 <= i < |s| ==> IsSpace(s[i])
  }

  lemma StripBlank(s: string)
    ensures Strip(s) == "" <==> Blank(s)
  {
    hide IsSpace;
    LStripBlank(s);
    if LStrip(s) != "" {
      RStripHead(LStrip(s));
    }
  }

  lemma {:induction false} LStripBlank(s: string)
    ensures LStrip(s) == "" <==> Blank(s)
  {
    hide IsSpace;
    if s != "" {
      LStripBlank(s[1..]);
      assert forall i :: 0 <= i < |s| - 1 ==> s[1..][i] == s[i + 1];
      if !Blank(s) && IsSpace(s[0]) {
        var i :| 0 <= i < |s| && !IsSpace(s[i]);
        assert s[1..][i - 1] == s[i];
      }
    }
  }

  lemma {:induction false} RStripHead(s: string)
    requires s != "" && !IsSpace(s[0])
    ensures RStrip(s) != ""
  {
    hide IsSpace;
    if |s| > 1 && IsSpace(s[|s| - 1]) {
      RStripHead(s[..|s| - 1]);
    }
  }

  // ----- rewriting twice

  /** Each line is either about something else or is the new line of its name, and no name comes twice or is in `seen`. */
  predicate Fixed(lines: seq<string>, a: Assignments, seen: set<string>) {
    lines == []
    || (match Target(lines[0], a)
        case None => Fixed(lines[1..], a, seen)
        case Some(name) => name !in seen && lines[0] == Assigned(a, name) && Fixed(lines[1..], a, seen + {name}))
  }

  lemma {:induction false} FixedStays(lines: seq<string>, a: Assignments, seen: set<string>)
    requires Fixed(lines, a, seen)
    ensures Rewritten(lines, a, seen) == lines
  {
    hide ParseLine;
    if lines != [] {
      match Target(lines[0], a)
      case None => FixedStays(lines[1..], a, seen);
      case Some(name) => FixedStays(lines[1..], a, seen + {name});
    }
  }

  lemma {:induction false} RewrittenFixed(lines: seq<string>, a: Assignments, seen: set<string>)
    requires a.Valid()
    ensures Fixed(Rewritten(lines, a, seen), a, seen)
  {
    hide ParseLine;
    if lines != [] {
      match Target(lines[0], a) {
        case None =>
          RewrittenFixed(lines[1..], a, seen);
          assert Rewritten(lines, a, seen)[1..] == Rewritten(lines[1..], a, seen);
        case Some(name) =>
          RewrittenFixed(lines[1..], a, seen + {name});
          AssignedReadsBack(a, name);
          var tail := Rewritten(lines[1..], a, seen + {name});
          assert ([Assigned(a, name)] + tail)[1..] == tail;
          assert [] + tail == tail;
          assert name in seen ==> seen + {name} == seen;
      }
    }
  }

  lemma {:induction false} AddedFixed(names: seq<string>, a: Assignments, seen: set<string>, before: set<string>)
    requires a.Valid() && Distinct(names)
    requires forall n :: n in names && n in before ==> n in seen
    ensures Fixed(Added(names, a, seen), a, before)
  {
    hide ParseLine;
    if names != [] {
      assert names[0] !in names[1..];
      assert forall n :: n in names[1..] ==> n in names;
      if names[0] in a.values && names[0] !in seen {
        AssignedReadsBack(a, names[0]);
        AddedFixed(names[1..], a, seen, before + {names[0]});
        var tail := Added(names[1..], a, seen);
        assert ([Assigned(a, names[0])] + tail)[1..] == tail;
      } else {
        AddedFixed(names[1..], a, seen, before);
      }
    }
  }

  lemma {:induction false} FixedAppend(x: seq<string>, y: seq<string>, a: Assignments, seen: set<string>)
    ensures Fixed(x + y, a, seen) <==> Fixed(x, a, seen) && Fixed(y, a, seen + Seen(x, a))
  {
    hide ParseLine;
    if x == [] {
      assert x + y == y && seen + {} == seen;
    } else {
      assert (x + y)[1..] == x[1..] + y;
      match Target(x[0], a)
      case None =>
        FixedAppend(x[1..], y, a, seen);
        assert Seen(x, a) == Seen(x[1..], a);
      case Some(name) =>
        FixedAppend(x[1..], y, a, seen + {name});
        assert seen + {name} + Seen(x[1..], a) == seen + Seen(x, a);
    }
  }

  lemma {:induction false} SeenIs(lines: seq<string>, a: Assignments)
    requires a.Valid()
    ensures forall n :: n in Seen(lines, a) <==> n in a.values && n in ParseAll(lines)
  {
    hide ParseLine;
    if lines != [] {
      SeenIs(lines[1..], a);
    }
  }

  lemma {:induction false} AddedNothing(names: seq<string>, a: Assignments, seen: set<string>)
    requires forall n :: n in names ==> n in seen
    ensures Added(names, a, seen) == []
  {
    hide ParseLine;
    if names != [] {
      AddedNothing(names[1..], a, seen);
    }
  }

  /** MAIN RESULT: rendering a rendered file changes nothing. */
  lemma RenderIdempotent(lines: seq<string>, a: Assignments)
    requires a.Valid()
    ensures Rendered(Rendered(lines, a), a) == Rendered(lines, a)
  {
    hide ParseLine;
    var rewritten := Rewritten(lines, a, {});
    var seen := Seen(lines, a);
    var added := Added(a.names, a, seen);
    var gap := Gap(rewritten, added);
    var once := rewritten + gap + added;
    RewrittenFixed(lines, a, {});
    BlankFixed(a);
    RewrittenParses(lines, a, {});
    SeenIs(rewritten, a);
    FixedAppend(rewritten, gap, a, {});
    BlankParses();
    ParseAppend(rewritten, gap);
    SeenIs(rewritten + gap, a);
    AddedFixed(a.names, a, seen, {} + Seen(rewritten + gap, a));
    FixedAppend(rewritten + gap, added, a, {});
    FixedStays(once, a, {});
    RenderedParses(lines, a);
    SeenIs(once, a);
    AddedNothing(a.names, a, Seen(once, a));
    assert Rewritten(once, a, {}) == once;
    assert once + [] + [] == once;
  }

  lemma BlankFixed(a: Assignments)
    ensures forall seen :: Fixed([""], a, seen)
  {
    assert Strip("") == "" && ParseLine("") == Success(None);
    assert [""][1..] == [];
  }
}
