/** What the readers of module EnvLine decide, said without their scans: white space, comments, JSON strings, lines. */
module EnvReading {
  import opened Common
  import opened EnvLine

  // ----- characters

  lemma SpacesAre(c: char)
    ensures IsSpace(c) <==>
            c as int in {0x09, 0x0A, 0x0B, 0x0C, 0x0D, 0x1C, 0x1D, 0x1E, 0x1F, 0x20, 0x85, 0xA0, 0x1680,
                         0x2000, 0x2001, 0x2002, 0x2003, 0x2004, 0x2005, 0x2006, 0x2007, 0x2008, 0x2009, 0x200A,
                         0x2028, 0x2029, 0x202F, 0x205F, 0x3000}
  {
  }

  lemma LineBreaksAre(c: char)
    ensures IsLineBreak(c) <==> c as int in {0x0A, 0x0B, 0x0C, 0x0D, 0x1C, 0x1D, 0x1E, 0x85, 0x2028, 0x2029}
  {
  }

  /** A key is an ASCII letter or underscore, then letters, digits and underscores. */
  lemma KeysAre(name: string)
    ensures IsKey(name) <==>
            && name != "" && !(0x30 <= name[0] as int <= 0x39)
            && forall i :: 0 <= i < |name| ==>
                 var n := name[i] as int;
                 0x30 <= n <= 0x39 || 0x41 <= n <= 0x5A || n == 0x5F || 0x61 <= n <= 0x7A
  {
  }

  // ----- stripping

  ghost predicate AllSpace(s: string) {
    forall i :: 0 <= i < |s| ==> IsSpace(s[i])
  }

  ghost predicate Tight(s: string) {
    s == "" || (!IsSpace(s[0]) && !IsSpace(s[|s| - 1]))
  }

  lemma {:induction false} RStripExact(s: string, t: string)
    requires AllSpace(t) && (s == "" || !IsSpace(s[|s| - 1]))
    ensures RStrip(s + t) == s
    decreases |t|
  {
    hide IsSpace;
    if t == "" {
      assert s + t == s;
    } else {
      assert (s + t)[..|s + t| - 1] == s + t[..|t| - 1];
      RStripExact(s, t[..|t| - 1]);
    }
  }

  lemma {:induction false} LStripExact(l: string, s: string)
    requires AllSpace(l) && (s == "" || !IsSpace(s[0]))
    ensures LStrip(l + s) == s
    decreases |l|
  {
    hide IsSpace;
    if l == "" {
      assert l + s == s;
    } else {
      assert (l + s)[1..] == l[1..] + s;
      LStripExact(l[1..], s);
    }
  }

  /** Stripping takes off white space at both ends and nothing else. */
  lemma StripExact(l: string, s: string, t: string)
    requires AllSpace(l) && Tight(s) && AllSpace(t)
    ensures Strip(l + s + t) == s
  {
    hide IsSpace, LStrip, RStrip;
    if s == "" {
      assert l + s + t == (l + t) + "";
      LStripExact(l + t, "");
      assert RStrip("") == "";
    } else {
      assert l + s + t == l + (s + t);
      LStripExact(l, s + t);
      RStripExact(s, t);
    }
  }

  /** Every text comes apart this way. */
  lemma Margins(s: string) returns (l: string, m: string, t: string)
    ensures s == l + m + t && AllSpace(l) && Tight(m) && AllSpace(t) && Strip(s) == m
  {
    hide IsSpace, LStrip, RStrip, Strip;
    var i := 0;
    while i < |s| && IsSpace(s[i])
      invariant 0 <= i <= |s| && AllSpace(s[..i])
    {
      i := i + 1;
    }
    var j := |s|;
    while j > i && IsSpace(s[j - 1])
      invariant i <= j <= |s| && AllSpace(s[j..])
    {
      j := j - 1;
    }
    l, m, t := s[..i], s[i..j], s[j..];
    assert s == l + m + t;
    StripExact(l, m, t);
  }

  // ----- comments

  /** A value is a row of these: a character outside quotes, a single-quoted or a double-quoted stretch. Between double
      quotes a backslash takes the next character along. */
  datatype Segment = Bare(c: char) | Single(body: string) | Double(units: seq<string>)

  ghost predicate SegmentOk(g: Segment) {
    match g
    case Bare(c) => c != '\'' && c != '"'
    case Single(body) => '\'' !in body
    case Double(units) => forall u :: u in units ==> UnitOk(u)
  }

  predicate UnitOk(u: string) {
    (|u| == 1 && u[0] != '"' && u[0] != '\\') || (|u| == 2 && u[0] == '\\')
  }

  function Concat(us: seq<string>): string {
    if us == [] then "" else us[0] + Concat(us[1..])
  }

  function SegmentText(g: Segment): string {
    match g
    case Bare(c) => [c]
    case Single(body) => "'" + body + "'"
    case Double(units) => "\"" + Concat(units) + "\""
  }

  function SegmentTexts(gs: seq<Segment>): string {
    if gs == [] then "" else SegmentText(gs[0]) + SegmentTexts(gs[1..])
  }

  /** White space outside quotes stands right before segment k; before the first one it does if `space` says so. */
  predicate SpaceBefore(gs: seq<Segment>, k: nat, space: bool)
    requires k <= |gs|
  {
    if k == 0 then space else gs[k - 1].Bare? && IsSpace(gs[k - 1].c)
  }

  /** Well-formed segments without a '#' outside quotes at the start or behind white space. */
  ghost predicate NoComment(gs: seq<Segment>, space: bool) {
    && (forall k :: 0 <= k < |gs| ==> SegmentOk(gs[k]))
    && (forall k :: 0 <= k < |gs| && gs[k] == Bare('#') ==> !SpaceBefore(gs, k, space))
  }

  function Shift(at: Option<nat>, n: nat): Option<nat> {
    if at.Some? then Some(at.value + n) else None
  }

  lemma {:induction false} SkipSingle(body: string, rest: string, space: bool)
    requires '\'' !in body
    ensures CommentAt(body + "'" + rest, space, Some('\''), false) == Shift(CommentAt(rest, IsSpace('\''), None, false), |body| + 1)
    decreases |body|
  {
    hide IsSpace;
    if body == "" {
      assert (body + "'" + rest)[1..] == rest;
    } else {
      assert (body + "'" + rest)[1..] == body[1..] + "'" + rest;
      assert forall c :: c in body[1..] ==> c in body;
      SkipSingle(body[1..], rest, IsSpace(body[0]));
    }
  }

  lemma SkipUnit(u: string, tail: string, space: bool)
    requires UnitOk(u)
    ensures CommentAt(u + tail, space, Some('"'), false) == Shift(CommentAt(tail, IsSpace(u[|u| - 1]), Some('"'), false), |u|)
  {
    hide IsSpace;
    var s := u + tail;
    if |u| == 1 {
      assert s[1..] == tail;
    } else {
      assert s[1..][0] == u[1] && s[1..][1..] == tail;
      assert CommentAt(s[1..], IsSpace(s[0]), Some('"'), true) == Later(CommentAt(tail, IsSpace(u[1]), Some('"'), false));
    }
  }

  lemma LeaveDouble(rest: string, space: bool)
    ensures CommentAt("\"" + rest, space, Some('"'), false) == Later(CommentAt(rest, IsSpace('"'), None, false))
  {
    hide IsSpace;
    assert ("\"" + rest)[1..] == rest;
  }

  lemma {:induction false} SkipDouble(units: seq<string>, rest: string, space: bool)
    requires forall u :: u in units ==> UnitOk(u)
    ensures CommentAt(Concat(units) + "\"" + rest, space, Some('"'), false)
         == Shift(CommentAt(rest, IsSpace('"'), None, false), |Concat(units)| + 1)
    decreases |units|
  {
    hide IsSpace, CommentAt, UnitOk;
    if units == [] {
      assert Concat(units) + "\"" + rest == "\"" + rest;
      LeaveDouble(rest, space);
    } else {
      var u, more := units[0], units[1..];
      assert UnitOk(u);
      assert |u| >= 1 by { UnitLong(u); }
      assert Concat(units) + "\"" + rest == u + (Concat(more) + "\"" + rest);
      SkipUnit(u, Concat(more) + "\"" + rest, space);
      SkipDouble(more, rest, IsSpace(u[|u| - 1]));
    }
  }

  lemma UnitLong(u: string)
    requires UnitOk(u)
    ensures |u| >= 1
  {
  }

  lemma EnterQuotes(q: char, rest: string, space: bool)
    requires q == '\'' || q == '"'
    ensures CommentAt([q] + rest, space, None, false) == Later(CommentAt(rest, IsSpace(q), Some(q), false))
  {
    hide IsSpace;
    assert ([q] + rest)[1..] == rest;
  }

  lemma SkipBare(c: char, rest: string, space: bool)
    requires c != '\'' && c != '"' && !(c == '#' && space)
    ensures CommentAt([c] + rest, space, None, false) == Later(CommentAt(rest, IsSpace(c), None, false))
  {
    hide IsSpace;
    assert ([c] + rest)[1..] == rest;
  }

  lemma QuotesAreNoSpace()
    ensures !IsSpace('\'') && !IsSpace('"') && !IsSpace('#')
  {
  }

  lemma SkipSingleSegment(body: string, rest: string, space: bool)
    requires '\'' !in body
    ensures CommentAt("'" + body + "'" + rest, space, None, false) == Shift(CommentAt(rest, false, None, false), |body| + 2)
  {
    hide IsSpace, CommentAt;
    QuotesAreNoSpace();
    var tail := body + "'" + rest;
    assert "'" + body + "'" + rest == ['\''] + tail;
    EnterQuotes('\'', tail, space);
    SkipSingle(body, rest, IsSpace('\''));
  }

  lemma SkipDoubleSegment(units: seq<string>, rest: string, space: bool)
    requires forall u :: u in units ==> UnitOk(u)
    ensures CommentAt("\"" + Concat(units) + "\"" + rest, space, None, false)
         == Shift(CommentAt(rest, false, None, false), |Concat(units)| + 2)
  {
    hide IsSpace, CommentAt, UnitOk, Concat;
    QuotesAreNoSpace();
    var tail := Concat(units) + "\"" + rest;
    assert "\"" + Concat(units) + "\"" + rest == ['"'] + tail;
    EnterQuotes('"', tail, space);
    SkipDouble(units, rest, IsSpace('"'));
  }

  lemma SkipSegment(g: Segment, rest: string, space: bool)
    requires SegmentOk(g) && !(g == Bare('#') && space)
    ensures CommentAt(SegmentText(g) + rest, space, None, false)
         == Shift(CommentAt(rest, g.Bare? && IsSpace(g.c), None, false), |SegmentText(g)|)
  {
    hide IsSpace, CommentAt, UnitOk, Concat;
    match g
    case Bare(c) => SkipBare(c, rest, space);
    case Single(body) => SkipSingleSegment(body, rest, space);
    case Double(units) => SkipDoubleSegment(units, rest, space);
  }

  lemma NoCommentTail(gs: seq<Segment>, space: bool)
    requires NoComment(gs, space) && gs != []
    ensures NoComment(gs[1..], SpaceBefore(gs, 1, space))
    ensures SpaceBefore(gs[1..], |gs| - 1, SpaceBefore(gs, 1, space)) == SpaceBefore(gs, |gs|, space)
    ensures SegmentOk(gs[0]) && !(gs[0] == Bare('#') && space)
  {
    hide IsSpace;
    var rest := gs[1..];
    forall k | 0 <= k < |rest| && rest[k] == Bare('#') ensures !SpaceBefore(rest, k, SpaceBefore(gs, 1, space)) {
      assert rest[k] == gs[k + 1];
      assert !SpaceBefore(gs, k + 1, space);
    }
  }

  /** The scan walks over segments without a comment. */
  lemma {:induction false} SkipSegments(gs: seq<Segment>, rest: string, space: bool)
    requires NoComment(gs, space)
    ensures CommentAt(SegmentTexts(gs) + rest, space, None, false)
         == Shift(CommentAt(rest, SpaceBefore(gs, |gs|, space), None, false), |SegmentTexts(gs)|)
    decreases |gs|
  {
    hide IsSpace, SegmentText, SegmentOk, CommentAt;
    if gs == [] {
      assert SegmentTexts(gs) + rest == rest;
    } else {
      NoCommentTail(gs, space);
      assert SegmentTexts(gs) + rest == SegmentText(gs[0]) + (SegmentTexts(gs[1..]) + rest);
      SkipSegments(gs[1..], rest, SpaceBefore(gs, 1, space));
      SkipSegment(gs[0], SegmentTexts(gs[1..]) + rest, space);
    }
  }

  /** A scan that finds a comment from inside single quotes has seen them close. */
  lemma {:induction false} SingleCloses(s: string, space: bool) returns (body: string)
    requires CommentAt(s, space, Some('\''), false).Some?
    ensures '\'' !in body && |body| < |s| && body + "'" <= s
    decreases |s|
  {
    hide IsSpace;
    if s[0] == '\'' {
      body := "";
    } else {
      var rest := SingleCloses(s[1..], IsSpace(s[0]));
      body := [s[0]] + rest;
      assert s == [s[0]] + s[1..];
    }
  }

  lemma {:induction false} DoubleCloses(s: string, space: bool) returns (units: seq<string>)
    requires CommentAt(s, space, Some('"'), false).Some?
    ensures (forall u :: u in units ==> UnitOk(u)) && |Concat(units)| < |s| && Concat(units) + "\"" <= s
    decreases |s|
  {
    hide IsSpace;
    if s[0] == '"' {
      units := [];
    } else if s[0] == '\\' {
      assert CommentAt(s[1..], IsSpace(s[0]), Some('"'), true).Some?;
      assert s[1..] != "";
      assert s[1..][1..] == s[2..];
      var rest := DoubleCloses(s[2..], IsSpace(s[1]));
      units := [s[..2]] + rest;
      assert s == s[..2] + s[2..] && Concat(units) == s[..2] + Concat(rest);
    } else {
      var rest := DoubleCloses(s[1..], IsSpace(s[0]));
      units := [s[..1]] + rest;
      assert s == s[..1] + s[1..] && Concat(units) == s[..1] + Concat(rest);
    }
  }

  /** What stands before a comment is a row of segments without one. */
  lemma {:induction false} BeforeComment(s: string, space: bool) returns (gs: seq<Segment>)
    requires CommentAt(s, space, None, false).Some?
    ensures var n := CommentAt(s, space, None, false).value;
            s[n] == '#' && NoComment(gs, space) && SegmentTexts(gs) == s[..n] && SpaceBefore(gs, |gs|, space)
    decreases |s|
  {
    hide IsSpace, NoComment, SegmentText, SegmentOk;
    var n := CommentAt(s, space, None, false).value;
    if s[0] == '#' && space {
      gs := [];
      NothingBefore(space);
    } else {
      var g := FirstSegment(s, space);
      var k := |SegmentText(g)|;
      SkipSegment(g, s[k..], space);
      assert s == SegmentText(g) + s[k..];
      hide CommentAt;
      var rest := BeforeComment(s[k..], g.Bare? && IsSpace(g.c));
      gs := [g] + rest;
      SegmentsJoin(g, rest, space);
      assert s[..n] == SegmentText(g) + s[k..][..n - k];
    }
  }

  lemma NothingBefore(space: bool)
    ensures NoComment([], space)
  {
  }

  lemma SegmentsJoin(g: Segment, rest: seq<Segment>, space: bool)
    requires SegmentOk(g) && !(g == Bare('#') && space) && NoComment(rest, g.Bare? && IsSpace(g.c))
    ensures NoComment([g] + rest, space)
    ensures SpaceBefore([g] + rest, |rest| + 1, space) == SpaceBefore(rest, |rest|, g.Bare? && IsSpace(g.c))
    ensures SegmentTexts([g] + rest) == SegmentText(g) + SegmentTexts(rest)
  {
    hide IsSpace, SegmentOk, SegmentText;
    var gs := [g] + rest;
    assert gs[1..] == rest;
    forall k | 0 <= k < |gs| && gs[k] == Bare('#') ensures !SpaceBefore(gs, k, space) {
      if k > 0 {
        assert rest[k - 1] == gs[k];
        assert !SpaceBefore(rest, k - 1, g.Bare? && IsSpace(g.c));
      }
    }
  }

  lemma FirstSegment(s: string, space: bool) returns (g: Segment)
    requires CommentAt(s, space, None, false).Some? && !(s[0] == '#' && space)
    ensures SegmentOk(g) && SegmentText(g) <= s && !(g == Bare('#') && space) && |SegmentText(g)| >= 1
  {
    hide IsSpace;
    if s[0] == '\'' {
      var body := SingleCloses(s[1..], IsSpace(s[0]));
      g := Single(body);
      assert s == "'" + s[1..];
    } else if s[0] == '"' {
      var units := DoubleCloses(s[1..], IsSpace(s[0]));
      g := Double(units);
      assert s == "\"" + s[1..];
    } else {
      g := Bare(s[0]);
      assert SegmentText(g) == s[..1];
    }
  }

  /** MAIN RESULT: a value is cut at n exactly if a '#' stands there, behind whole segments that hold no comment, at the
      start or right behind white space outside quotes. */
  lemma CommentExact(value: string, n: nat)
    ensures CommentAt(value, true, None, false) == Some(n) <==>
            && n < |value| && value[n] == '#'
            && exists gs :: NoComment(gs, true) && SegmentTexts(gs) == value[..n] && SpaceBefore(gs, |gs|, true)
  {
    hide NoComment, SpaceBefore, SegmentTexts;
    if CommentAt(value, true, None, false) == Some(n) {
      var gs := BeforeComment(value, true);
    } else if n < |value| && value[n] == '#' {
      forall gs | NoComment(gs, true) && SegmentTexts(gs) == value[..n] && SpaceBefore(gs, |gs|, true) ensures false {
        SkipSegments(gs, value[n..], true);
        assert value == value[..n] + value[n..];
        CommentHere(value[n..]);
      }
    }
  }

  lemma CommentHere(rest: string)
    requires rest != "" && rest[0] == '#'
    ensures CommentAt(rest, true, None, false) == Some(0)
  {
  }

  /** The value without its comment, and without the white space before that. */
  lemma CutAtComment(gs: seq<Segment>, c: string)
    requires NoComment(gs, true) && SpaceBefore(gs, |gs|, true)
    ensures StripInlineComment(SegmentTexts(gs) + "#" + c) == RStrip(SegmentTexts(gs))
  {
    hide NoComment, SpaceBefore, SegmentTexts;
    var v, rest := SegmentTexts(gs), "#" + c;
    assert v + "#" + c == v + rest && (v + rest)[..|v|] == v;
    SkipSegments(gs, rest, true);
    CommentHere(rest);
  }

  /** A '#' inside quotes, or right behind anything but white space, cuts nothing. */
  lemma NothingCut(gs: seq<Segment>)
    requires NoComment(gs, true)
    ensures StripInlineComment(SegmentTexts(gs)) == SegmentTexts(gs)
  {
    hide NoComment, SpaceBefore, SegmentTexts;
    var v := SegmentTexts(gs);
    SkipSegments(gs, "", true);
    assert v + "" == v;
    CommentNowhere();
  }

  // ----- JSON strings, by the grammar of section 7 of RFC 8259

  /** A character as it is, one of the eight short escapes, a code of four hexadecimal digits, or a surrogate pair of two. */
  datatype Unit = Literal(c: char) | Short(letter: char, means: char) | Code(digits: string, values: seq<nat>)
                | Pair(high: string, highs: seq<nat>, low: string, lows: seq<nat>)

  predicate ShortEscape(letter: char, means: char) {
    || (letter == '"' && means == '"') || (letter == '\\' && means == '\\') || (letter == '/' && means == '/')
    || (letter == 'b' && means as int == 0x08) || (letter == 'f' && means as int == 0x0C)
    || (letter == 'n' && means as int == 0x0A) || (letter == 'r' && means as int == 0x0D)
    || (letter == 't' && means as int == 0x09)
  }

  /** `c` is the hexadecimal digit of value n, in either case. */
  predicate Digit(c: char, n: nat) {
    var code := c as int;
    || (n < 10 && code == 0x30 + n)
    || (10 <= n < 16 && (code == 0x41 + (n - 10) || code == 0x61 + (n - 10)))
  }

  predicate Digits(d: string, values: seq<nat>) {
    |d| == |values| == 4 && forall i :: 0 <= i < 4 ==> Digit(d[i], values[i])
  }

  function Number(values: seq<nat>): nat
    requires |values| == 4
  {
    ((values[0] * 16 + values[1]) * 16 + values[2]) * 16 + values[3]
  }

  predicate JsonOk(u: Unit) {
    match u
    case Literal(c) => c as int >= 0x20 && c != '"' && c != '\\'
    case Short(letter, means) => ShortEscape(letter, means)
    case Code(digits, values) => Digits(digits, values) && !(0xD800 <= Number(values) < 0xE000)
    case Pair(high, highs, low, lows) =>
      Digits(high, highs) && Digits(low, lows) && 0xD800 <= Number(highs) < 0xDC00 && 0xDC00 <= Number(lows) < 0xE000
  }

  function JsonText(u: Unit): string {
    match u
    case Literal(c) => [c]
    case Short(letter, _) => ['\\', letter]
    case Code(digits, _) => "\\u" + digits
    case Pair(high, _, low, _) => "\\u" + high + "\\u" + low
  }

  function JsonMeans(u: Unit): char
    requires JsonOk(u)
  {
    match u
    case Literal(c) => c
    case Short(_, means) => means
    case Code(_, values) => NumberBound(values); Number(values) as char
    case Pair(_, highs, _, lows) => (0x10000 + (Number(highs) - 0xD800) * 0x400 + (Number(lows) - 0xDC00)) as char
  }

  lemma NumberBound(values: seq<nat>)
    requires |values| == 4 && exists d: string :: Digits(d, values)
    ensures Number(values) < 0x10000
  {
    var d: string :| Digits(d, values);
    assert Digit(d[0], values[0]) && Digit(d[1], values[1]) && Digit(d[2], values[2]) && Digit(d[3], values[3]);
  }

  function JsonTexts(us: seq<Unit>): string {
    if us == [] then "" else JsonText(us[0]) + JsonTexts(us[1..])
  }

  function JsonMeaning(us: seq<Unit>): string
    requires forall u :: u in us ==> JsonOk(u)
  {
    if us == [] then "" else [JsonMeans(us[0])] + JsonMeaning(us[1..])
  }

  lemma DigitExact(c: char, n: nat)
    ensures Digit(c, n) <==> HexValue(c) == Some(n)
  {
  }

  lemma Hex4Reads(s: string, values: seq<nat>)
    requires |s| >= 4 && Digits(s[..4], values)
    ensures Hex4(s) == Some(Number(values))
  {
    hide HexValue, Digit;
    forall i | 0 <= i < 4 ensures HexValue(s[i]) == Some(values[i]) {
      assert Digit(s[..4][i], values[i]);
      DigitExact(s[i], values[i]);
    }
  }

  lemma Hex4Values(s: string) returns (values: seq<nat>)
    requires Hex4(s).Some?
    ensures Digits(s[..4], values) && Hex4(s) == Some(Number(values))
  {
    hide HexValue, Digit;
    values := [HexValue(s[0]).value, HexValue(s[1]).value, HexValue(s[2]).value, HexValue(s[3]).value];
    forall i | 0 <= i < 4 ensures Digit(s[..4][i], values[i]) {
      DigitExact(s[i], values[i]);
    }
  }

  function Consed(c: char, tail: Option<string>): Option<string> {
    if tail.Some? then Some([c] + tail.value) else None
  }

  /** Decoding an escape whose text the reader takes whole. */
  lemma DecodeEscapeText(body: string, tail: string, c: char)
    requires body != "" && Unescape(body + tail) == Some((c, |body|))
    ensures DecodeRest("\\" + body + tail) == Consed(c, DecodeRest(tail))
  {
    hide Unescape;
    var s := "\\" + body + tail;
    assert s[1..] == body + tail;
    assert s[1 + |body|..] == tail;
  }

  lemma ShortReads(letter: char, means: char, tail: string)
    requires ShortEscape(letter, means)
    ensures Unescape([letter] + tail) == Some((means, 1))
  {
    var n := means as int;
    assert n as char == means;
  }

  lemma CodeReads(u: Unit, tail: string)
    requires u.Code? && JsonOk(u)
    ensures Unescape("u" + u.digits + tail) == Some((JsonMeans(u), 5))
  {
    hide Digit, Hex4;
    var s := "u" + u.digits + tail;
    assert s[1..][..4] == u.digits;
    Hex4Reads(s[1..], u.values);
  }

  lemma PairReads(u: Unit, tail: string)
    requires u.Pair? && JsonOk(u)
    ensures Unescape("u" + u.high + "\\u" + u.low + tail) == Some((JsonMeans(u), 11))
  {
    hide Digit, Hex4;
    var s := "u" + u.high + "\\u" + u.low + tail;
    assert s[1..][..4] == u.high && s[7..][..4] == u.low;
    assert s[5] == '\\' && s[6] == 'u';
    Hex4Reads(s[1..], u.highs);
    Hex4Reads(s[7..], u.lows);
  }

  lemma DecodeUnit(u: Unit, tail: string)
    requires JsonOk(u)
    ensures DecodeRest(JsonText(u) + tail) == Consed(JsonMeans(u), DecodeRest(tail))
  {
    hide Unescape, Digits, ShortEscape;
    match u
    case Literal(c) => assert ([c] + tail)[1..] == tail;
    case Short(letter, means) =>
      ShortReads(letter, means, tail);
      assert JsonText(u) + tail == "\\" + [letter] + tail;
      DecodeEscapeText([letter], tail, means);
    case Code(_, _) => DecodeCode(u, tail);
    case Pair(_, _, _, _) => DecodePair(u, tail);
  }

  lemma DecodeCode(u: Unit, tail: string)
    requires u.Code? && JsonOk(u)
    ensures DecodeRest(JsonText(u) + tail) == Consed(JsonMeans(u), DecodeRest(tail))
  {
    hide Unescape, Digits, DecodeRest, JsonMeans;
    var body := "u" + u.digits;
    CodeReads(u, tail);
    DigitsLength(u.digits, u.values);
    assert JsonText(u) + tail == "\\" + body + tail;
    DecodeEscapeText(body, tail, JsonMeans(u));
  }

  lemma DecodePair(u: Unit, tail: string)
    requires u.Pair? && JsonOk(u)
    ensures DecodeRest(JsonText(u) + tail) == Consed(JsonMeans(u), DecodeRest(tail))
  {
    hide Unescape, Digits, DecodeRest, JsonMeans;
    var body := "u" + u.high + "\\u" + u.low;
    PairReads(u, tail);
    DigitsLength(u.high, u.highs);
    DigitsLength(u.low, u.lows);
    assert JsonText(u) + tail == "\\" + body + tail;
    DecodeEscapeText(body, tail, JsonMeans(u));
  }

  lemma DigitsLength(d: string, values: seq<nat>)
    requires Digits(d, values)
    ensures |d| == 4
  {
  }

  lemma {:induction false} DecodeUnits(us: seq<Unit>)
    requires forall u :: u in us ==> JsonOk(u)
    ensures DecodeRest(JsonTexts(us) + "\"") == Some(JsonMeaning(us))
  {
    hide JsonOk, JsonText, JsonMeans, Unescape;
    if us == [] {
      assert JsonTexts(us) + "\"" == "\"";
    } else {
      assert JsonTexts(us) + "\"" == JsonText(us[0]) + (JsonTexts(us[1..]) + "\"");
      DecodeUnits(us[1..]);
      hide DecodeRest;
      DecodeUnit(us[0], JsonTexts(us[1..]) + "\"");
    }
  }

  lemma FirstUnit(s: string) returns (u: Unit)
    requires DecodeRest(s).Some? && s[0] != '"'
    ensures JsonOk(u) && JsonText(u) <= s && JsonText(u) != ""
  {
    if s[0] != '\\' {
      u := Literal(s[0]);
      assert JsonText(u) == s[..1];
    } else {
      u := FirstEscape(s[1..]);
      assert s == "\\" + s[1..];
    }
  }

  lemma FirstEscape(s: string) returns (u: Unit)
    requires Unescape(s).Some?
    ensures JsonOk(u) && JsonText(u) <= "\\" + s && JsonText(u) != ""
  {
    if s[0] != 'u' {
      u := Short(s[0], Unescape(s).value.0);
      assert s == [s[0]] + s[1..];
    } else {
      u := FirstCode(s);
    }
  }

  lemma FirstCode(s: string) returns (u: Unit)
    requires Unescape(s).Some? && s[0] == 'u'
    ensures JsonOk(u) && JsonText(u) <= "\\" + s && JsonText(u) != ""
  {
    hide HexValue, Hex4, Digits, Number;
    var values := Hex4Values(s[1..]);
    var digits := s[1..][..4];
    assert s == "u" + digits + s[5..];
    if Unescape(s).value.1 == 5 {
      u := Code(digits, values);
    } else {
      var lows := Hex4Values(s[7..]);
      u := Pair(digits, values, s[7..][..4], lows);
      assert s[5..] == "\\u" + s[7..][..4] + s[11..];
    }
  }

  lemma {:induction false} DecodeParses(s: string) returns (us: seq<Unit>)
    requires DecodeRest(s).Some?
    ensures (forall u :: u in us ==> JsonOk(u)) && s == JsonTexts(us) + "\""
    decreases |s|
  {
    hide JsonOk, JsonText, JsonMeans, Unescape;
    if s[0] == '"' {
      us := [];
      assert s == "\"";
    } else {
      var u := FirstUnit(s);
      var k := |JsonText(u)|;
      assert s == JsonText(u) + s[k..];
      DecodeUnit(u, s[k..]);
      hide DecodeRest;
      var more := DecodeParses(s[k..]);
      us := [u] + more;
      assert us[1..] == more;
    }
  }

  /** MAIN RESULT: the decoder accepts exactly the JSON strings, and gives each its meaning. A lone surrogate has none here. */
  lemma DecodeExact(s: string, v: string)
    ensures DecodeRest(s) == Some(v) <==>
            exists us :: (forall u :: u in us ==> JsonOk(u)) && s == JsonTexts(us) + "\"" && v == JsonMeaning(us)
  {
    hide JsonOk, JsonText, JsonMeans, DecodeRest, JsonMeaning, JsonTexts;
    if DecodeRest(s).Some? {
      var us := DecodeParses(s);
      DecodeUnits(us);
    }
    forall us | (forall u :: u in us ==> JsonOk(u)) && s == JsonTexts(us) + "\"" ensures DecodeRest(s) == Some(JsonMeaning(us)) {
      DecodeUnits(us);
    }
  }

  /** What is written: the name, a '=' and the escaped characters of the value, one by one, in double quotes. */
  lemma LineWritten(name: string, value: string)
    ensures FormatLine(name, value) == name + "=\"" + Concat(seq(|value|, i requires 0 <= i < |value| => Escape(value[i]))) + "\""
  {
    EscapedIs(value);
  }

  lemma {:induction false} EscapedIs(value: string)
    ensures EscapeAll(value) == Concat(seq(|value|, i requires 0 <= i < |value| => Escape(value[i])))
  {
    if value != "" {
      EscapedIs(value[1..]);
      assert seq(|value|, i requires 0 <= i < |value| => Escape(value[i]))[1..]
          == seq(|value[1..]|, i requires 0 <= i < |value[1..]| => Escape(value[1..][i]));
    }
  }

  /** The writer escapes quote, backslash and control characters, by their short escape where there is one, and nothing else. */
  lemma EscapesAre(c: char)
    ensures c as int >= 0x20 && c != '"' && c != '\\' ==> Escape(c) == [c]
    ensures forall letter :: ShortEscape(letter, c) && c != '/' ==> Escape(c) == ['\\', letter]
    ensures c as int < 0x20 && (forall letter :: !ShortEscape(letter, c)) ==>
              && |Escape(c)| == 6 && Escape(c)[..4] == "\\u00"
              && Digit(Escape(c)[4], c as int / 16) && Digit(Escape(c)[5], c as int % 16)
              && !('A' <= Escape(c)[5] <= 'F')
  {
    var n := c as int;
    assert n as char == c;
    assert ShortEscape('b', 0x08 as char) && ShortEscape('f', 0x0C as char) && ShortEscape('n', '\n') && ShortEscape('r', '\r')
           && ShortEscape('t', '\t');
  }
}
