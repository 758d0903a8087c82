/** What one line of a `.env` file means: blank and comment lines, assignments with their margins, and the four kinds of value. */
module EnvLines {
  import opened Common
  import opened EnvLine
  import opened EnvReading

  /** A line without an assignment is blank, or its first character other than white space is a '#'. */
  lemma NothingAssigned(line: string)
    ensures ParseLine(line) == Success(None) <==>
            AllSpace(line) || exists i :: 0 <= i < |line| && line[i] == '#' && AllSpace(line[..i])
  {
    hide IsSpace, Strip, StripQuotes, StripInlineComment, IsKey;
    var l, m, t := Margins(line);
    HashIsNoSpace();
    if m == "" {
      assert line == l + t;
    } else {
      assert line[|l|] == m[0] && !IsSpace(line[|l|]);
      assert line[..|l|] == l;
      assert forall i :: 0 <= i < |l| ==> line[i] == l[i] && IsSpace(line[i]);
      assert forall i :: |l| < i <= |line| ==> line[..i][|l|] == line[|l|];
      assert forall i :: 0 <= i < |line| && line[i] == '#' && AllSpace(line[..i]) ==> i == |l|;
    }
  }

  lemma HashIsNoSpace()
    ensures !IsSpace('#') && !IsSpace('=') && IsSpace(' ')
  {
  }

  /** The value part of an assignment, as the line's own reader takes it. */
  function ValueRead(name: string, v: string): Result<Option<(string, string)>, LineError> {
    var value := StripQuotes(StripInlineComment(v));
    if value.Failure? then Failure(value.error)
    else if exists i :: 0 <= i < |value.value| && value.value[i] in {'\0', '\r', '\n'} then Failure(ControlCharacter)
    else Success(Some((name, value.value)))
  }

  lemma PrefixAt(p: string, s: string)
    requires |p| <= |s| && s[..|p|] == p
    ensures p <= s
  {
  }

  lemma ControlsAre()
    ensures forall value: string :: ValidValue(value) <==> !exists i :: 0 <= i < |value| && value[i] in {'\0', '\r', '\n'}
  {
  }

  /** A name as it stands in a line: no '=', no margins, and without "export " no comment and no export line. */
  ghost predicate NameStands(exported: bool, sp: string, name: string, s1: string) {
    && AllSpace(sp) && AllSpace(s1) && Tight(name) && '=' !in name && (name == "" ==> s1 == "")
    && (!exported ==> sp == "" && (name == "" || name[0] != '#') && !("export " <= name + s1))
  }

  /** MAIN RESULT: a line with a '=' may be indented, exported, and have white space on both sides of its name; what stands
      before the first '=' must be a key, and the rest is the value. */
  lemma AssignmentRead(l: string, exported: bool, sp: string, name: string, s1: string, v: string, t: string)
    requires AllSpace(l) && NameStands(exported, sp, name, s1) && AllSpace(t) && (v == "" || !IsSpace(v[|v| - 1]))
    ensures ParseLine(l + (if exported then "export " else "") + sp + name + s1 + "=" + v + t)
         == if IsKey(name) then ValueRead(name, v) else Failure(InvalidName)
  {
    hide IsSpace, Strip, StripQuotes, StripInlineComment, IsKey, IndexOf, AllSpace, Tight, ParseLine, ValueRead;
    var body := name + s1 + "=" + v;
    BodyTight(name, s1, v);
    if exported {
      ExportTight(sp, body);
      StripExact(l, "export " + sp + body, t);
      assert l + "export " + sp + name + s1 + "=" + v + t == l + ("export " + sp + body) + t;
      StripExact(sp, body, "");
      ExportStripped(sp, body);
      LineReads(l + "export " + sp + name + s1 + "=" + v + t, name, s1, v);
    } else {
      StripExact(l, body, t);
      assert l + "" + sp + name + s1 + "=" + v + t == l + body + t;
      BareBody(name, s1, v);
      LineReads(l + "" + sp + name + s1 + "=" + v + t, name, s1, v);
    }
  }

  lemma ExportStripped(sp: string, body: string)
    ensures var s := "export " + sp + body;
            EXPORT <= s && s[0] != '#' && s[7..] == sp + body + ""
  {
  }

  /** A line read from its stripped body on. */
  lemma LineReads(line: string, name: string, s1: string, v: string)
    requires AllSpace(s1) && Tight(name) && '=' !in name
    requires var stripped := Strip(line);
             && stripped != "" && stripped[0] != '#'
             && (if EXPORT <= stripped then Strip(stripped[7..]) else stripped) == name + s1 + "=" + v
    ensures ParseLine(line) == if IsKey(name) then ValueRead(name, v) else Failure(InvalidName)
  {
    hide IsSpace, Strip, StripQuotes, StripInlineComment, IsKey, IndexOf, AllSpace, Tight;
    BodyReads(name, s1, v);
    ControlsAre();
  }

  /** The body comes apart at its first '='. */
  lemma BodyReads(name: string, s1: string, v: string)
    requires AllSpace(s1) && Tight(name) && '=' !in name
    ensures var body := name + s1 + "=" + v;
            var at := IndexOf(body, '=');
            at < |body| && Strip(body[..at]) == name && body[at + 1..] == v
  {
    hide IsSpace, Strip, Tight;
    var body, n := name + s1 + "=" + v, |name| + |s1|;
    HashIsNoSpace();
    assert forall k :: 0 <= k < |name| ==> body[k] == name[k] != '=';
    assert forall k :: |name| <= k < n ==> body[k] == s1[k - |name|] != '=';
    assert body[n] == '=' && IndexOf(body, '=') == n;
    assert body[..n] == "" + name + s1;
    assert AllSpace("");
    StripExact("", name, s1);
  }

  lemma BareBody(name: string, s1: string, v: string)
    requires (name == "" ==> s1 == "") && (name == "" || name[0] != '#') && !("export " <= name + s1)
    ensures var body := name + s1 + "=" + v;
            !(EXPORT <= body) && body[0] != '#'
  {
    var body, n := name + s1 + "=" + v, |name| + |s1|;
    assert body[n] == '=' && body[..n] == name + s1;
    if n >= 7 {
      assert body[..7] == (name + s1)[..7] != EXPORT;
    } else {
      assert EXPORT[0] == 'e' && EXPORT[1] == 'x' && EXPORT[2] == 'p' && EXPORT[3] == 'o' && EXPORT[4] == 'r' && EXPORT[5] == 't';
      assert body[n] != EXPORT[n];
    }
  }

  lemma BodyTight(name: string, s1: string, v: string)
    requires Tight(name) && (name == "" ==> s1 == "") && (v == "" || !IsSpace(v[|v| - 1]))
    ensures Tight(name + s1 + "=" + v) && AllSpace("")
  {
    hide IsSpace;
    HashIsNoSpace();
  }

  lemma ExportTight(sp: string, body: string)
    requires Tight(body) && body != ""
    ensures Tight("export " + sp + body)
  {
    var s := "export " + sp + body;
    assert s[0] == 'e' && s[|s| - 1] == body[|body| - 1];
  }

  /** A line with something on it that is no comment and has no '=' is an error. */
  lemma NoEquals(line: string)
    requires ParseLine(line) != Success(None) && '=' !in line
    ensures ParseLine(line) == Failure(MissingEquals)
  {
    hide IsSpace, Strip, StripQuotes, StripInlineComment, IsKey, AllSpace, Tight;
    var l, m, t := Margins(line);
    assert forall k :: 0 <= k < |m| ==> m[k] == line[|l| + k] != '=';
    if EXPORT <= m {
      var l', b', t' := Margins(m[7..]);
      assert forall k :: 0 <= k < |b'| ==> b'[k] == m[7..][|l'| + k] == m[7 + |l'| + k];
    }
  }

  // ----- the kinds of value

  function ValueOrControl(name: string, value: string): Result<Option<(string, string)>, LineError> {
    if exists i :: 0 <= i < |value| && value[i] in {'\0', '\r', '\n'} then Failure(ControlCharacter)
    else Success(Some((name, value)))
  }

  function Bares(v: string): seq<Segment> {
    seq(|v|, i requires 0 <= i < |v| => Bare(v[i]))
  }

  lemma {:induction false} BaresText(v: string)
    ensures SegmentTexts(Bares(v)) == v
  {
    if v != "" {
      BaresText(v[1..]);
      assert Bares(v)[1..] == Bares(v[1..]);
      assert v == [v[0]] + v[1..];
    }
  }

  lemma BaresHold(v: string)
    requires '\'' !in v && '"' !in v && '#' !in v
    ensures NoComment(Bares(v), true)
    ensures SpaceBefore(Bares(v), |v|, true) <==> v == "" || IsSpace(v[|v| - 1])
  {
    hide IsSpace;
    forall k | 0 <= k < |v| ensures SegmentOk(Bares(v)[k]) && Bares(v)[k] != Bare('#') {
      assert v[k] in v;
    }
  }

  /** An unquoted value without '#' loses its comment and the white space around it. */
  lemma CommentCut(v: string, c: string)
    requires '\'' !in v && '"' !in v && '#' !in v
    ensures v == "" || IsSpace(v[|v| - 1]) ==> StripInlineComment(v + "#" + c) == RStrip(v)
    ensures StripInlineComment(v) == v
  {
    hide IsSpace, NoComment, SpaceBefore, StripInlineComment, SegmentTexts;
    BaresText(v);
    BaresHold(v);
    NothingCut(Bares(v));
    if v == "" || IsSpace(v[|v| - 1]) {
      CutAtComment(Bares(v), c);
    }
  }

  lemma StripAgain(v: string)
    ensures Strip(RStrip(v)) == Strip(v) && Strip(v + " ") == Strip(v)
    ensures forall x :: x in Strip(v) ==> x in v
  {
    hide IsSpace, Strip, RStrip, LStrip;
    var l, m, t := Margins(v);
    HashIsNoSpace();
    assert v + " " == l + m + (t + " ");
    StripExact(l, m, t + " ");
    assert forall k :: 0 <= k < |m| ==> v[|l| + k] == m[k];
    assert AllSpace("");
    if m == "" {
      assert v == "" + (l + t);
      RStripExact("", l + t);
      StripExact("", "", "");
      assert "" + "" + "" == "";
    } else {
      assert v == (l + m) + t;
      RStripExact(l + m, t);
      StripExact(l, m, "");
      assert l + m + "" == l + m;
    }
  }

  /** The end of a line is stripped before anything else. */
  lemma Ends(c: string) returns (c': string, t: string)
    ensures c == c' + t && AllSpace(t) && (c' == "" || !IsSpace(c'[|c'| - 1]))
  {
    hide IsSpace;
    c', t := c, "";
    while c' != "" && IsSpace(c'[|c'| - 1])
      invariant c == c' + t && AllSpace(t)
      decreases |c'|
    {
      t := [c'[|c'| - 1]] + t;
      c' := c'[..|c'| - 1];
    }
  }

  lemma KeyStands(name: string)
    requires IsKey(name)
    ensures NameStands(false, "", name, "") && AllSpace("")
  {
    hide IsSpace, IsKeyStart, IsKeyChar;
    KeyStripped(name);
    KeyCharNotSpace(name[0]);
    KeyCharNotSpace(name[|name| - 1]);
    if |name| >= 7 {
      KeyCharNotSpace(name[6]);
      HashIsNoSpace();
      assert (name + "")[6] == name[6] != "export "[6];
    }
  }

  /** The plain line of a key, with its comment. */
  lemma CommentedRead(name: string, v: string, c: string)
    requires IsKey(name)
    ensures exists c' :: c' <= c && ParseLine(name + "=" + v + "#" + c) == ValueRead(name, v + "#" + c')
  {
    hide IsSpace, AllSpace, IsKey, ParseLine, ValueRead;
    var c', t := Ends(c);
    KeyStands(name);
    HashIsNoSpace();
    QuotesAreNoSpace();
    var value := v + "#" + c';
    assert value[|value| - 1] == if c' == "" then '#' else c'[|c'| - 1];
    AssignmentRead("", false, "", name, "", value, t);
    assert "" + "" + "" + name + "" + "=" + value + t == name + "=" + v + "#" + c;
  }

  /** An unquoted value: what stands between '=' and the comment, stripped. */
  lemma PlainRead(name: string, v: string, c: string)
    requires IsKey(name) && '\'' !in v && '"' !in v && '#' !in v
    ensures ParseLine(name + "=" + v + " #" + c) == ValueOrControl(name, Strip(v))
  {
    hide IsSpace, IsKey, ParseLine, Strip, StripInlineComment, RStrip;
    var w := v + " ";
    CommentedRead(name, w, c);
    assert name + "=" + w + "#" + c == name + "=" + v + " #" + c;
    var c' :| c' <= c && ParseLine(name + "=" + w + "#" + c) == ValueRead(name, w + "#" + c');
    HashIsNoSpace();
    CommentCut(w, c');
    StripAgain(v);
    StripAgain(w);
  }

  /** A single-quoted value is taken as it stands, with every '#' and white space in it. */
  lemma SingleRead(name: string, body: string, c: string)
    requires IsKey(name) && '\'' !in body
    ensures ParseLine(name + "='" + body + "' #" + c) == ValueOrControl(name, body)
  {
    hide IsSpace, IsKey, ParseLine, Strip, StripInlineComment, RStrip;
    var q := "'" + body + "'";
    QuotesAreNoSpace();
    QuotedCommentCut(Single(body), q, name, c);
    assert name + "='" + body + "' #" + c == name + "=" + q + " #" + c;
    StripIdentity(q);
    assert q[1..|q| - 1] == body;
  }

  lemma QuotedCommentCut(g: Segment, q: string, name: string, c: string)
    requires IsKey(name) && SegmentOk(g) && !g.Bare? && SegmentText(g) == q && q != "" && !IsSpace(q[|q| - 1])
    ensures ParseLine(name + "=" + q + " #" + c) == ValueRead(name, q) && StripInlineComment(q) == q
  {
    hide IsSpace, IsKey, ParseLine, Strip, RStrip, StripInlineComment, StripQuotes, NoComment, SpaceBefore, SegmentTexts;
    HashIsNoSpace();
    SpaceBehind(g);
    CommentedRead(name, q + " ", c);
    assert name + "=" + (q + " ") + "#" + c == name + "=" + q + " #" + c;
    var c' :| c' <= c && ParseLine(name + "=" + (q + " ") + "#" + c) == ValueRead(name, q + " " + "#" + c');
    CutAtComment([g, Bare(' ')], c');
    assert AllSpace(" ");
    RStripExact(q, " ");
    NothingCut([g]);
  }

  lemma SpaceBehind(g: Segment)
    requires SegmentOk(g) && !g.Bare?
    ensures SegmentTexts([g]) == SegmentText(g) && NoComment([g], true)
    ensures SegmentTexts([g, Bare(' ')]) == SegmentText(g) + " "
    ensures NoComment([g, Bare(' ')], true) && SpaceBefore([g, Bare(' ')], 2, true)
  {
    hide IsSpace;
    HashIsNoSpace();
    var gs := [g, Bare(' ')];
    assert gs[1..] == [Bare(' ')] && gs[1..][1..] == [] && [g][1..] == [];
    assert SegmentTexts([Bare(' ')]) == " " by { assert [Bare(' ')][1..] == []; }
  }

  /** The writer's quotes hold every '#' and quote of the value. */
  lemma {:induction false} EscapedUnits(value: string) returns (units: seq<string>)
    ensures (forall u :: u in units ==> UnitOk(u)) && Concat(units) == EscapeAll(value)
  {
    if value == "" {
      units := [];
    } else {
      var more := EscapedUnits(value[1..]);
      var e := Escape(value[0]);
      units := (if |e| <= 2 then [e] else [e[..2], [e[2]], [e[3]], [e[4]], [e[5]]]) + more;
      EscapeUnits(value[0], more);
    }
  }

  lemma EscapeUnits(c: char, more: seq<string>)
    ensures var e := Escape(c);
            var us := if |e| <= 2 then [e] else [e[..2], [e[2]], [e[3]], [e[4]], [e[5]]];
            (forall u :: u in us ==> UnitOk(u)) && Concat(us + more) == e + Concat(more)
  {
    var e := Escape(c);
    if |e| <= 2 {
      ConcatOne(e, more);
    } else {
      FiveUnits(e, more);
    }
  }

  lemma FiveUnits(e: string, more: seq<string>)
    requires |e| == 6
    ensures Concat([e[..2], [e[2]], [e[3]], [e[4]], [e[5]]] + more) == e + Concat(more)
  {
    hide Concat;
    var four := [[e[5]]] + more;
    var three := [[e[4]]] + four;
    var two := [[e[3]]] + three;
    var one := [[e[2]]] + two;
    assert [e[..2], [e[2]], [e[3]], [e[4]], [e[5]]] + more == [e[..2]] + one;
    ConcatOne([e[5]], more);
    ConcatOne([e[4]], four);
    ConcatOne([e[3]], three);
    ConcatOne([e[2]], two);
    ConcatOne(e[..2], one);
    assert e == e[..2] + [e[2]] + [e[3]] + [e[4]] + [e[5]];
  }

  lemma ConcatOne(u: string, more: seq<string>)
    ensures Concat([u] + more) == u + Concat(more)
  {
    assert ([u] + more)[1..] == more;
  }

  /** A JSON-quoted value is read back whole, whatever comment follows. */
  lemma QuotedRead(name: string, value: string, c: string)
    requires IsKey(name) && ValidValue(value)
    ensures ParseLine(name + "=" + Quoted(value) + " #" + c) == Success(Some((name, value)))
  {
    hide IsSpace, IsKey, ParseLine, StripInlineComment, StripQuotes, EscapeAll;
    var units := EscapedUnits(value);
    QuotedEnds(value);
    QuotedCommentCut(Double(units), Quoted(value), name, c);
    QuotedReadsBack(value);
    NothingCut([Double(units)]);
    ControlsAre();
  }
}
