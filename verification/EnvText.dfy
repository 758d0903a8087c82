/** The `.env` file as text: where `splitlines` cuts it, and when the rewritten text means what it should. */
module EnvText {
  import opened Common
  import opened EnvLine
  import opened EnvFile

  // ----- lines and text

  function BreakAt(text: string): (i: nat)
    ensures i <= |text| && (forall k :: 0 <= k < i ==> !IsLineBreak(text[k])) && (i < |text| ==> IsLineBreak(text[i]))
  {
    if text == "" || IsLineBreak(text[0]) then 0 else 1 + BreakAt(text[1..])
  }

  function BreakLength(text: string, i: nat): (n: nat)
    requires i < |text|
    ensures 1 <= n && i + n <= |text|
  {
    if text[i] == '\r' && i + 1 < |text| && text[i + 1] == '\n' then 2 else 1
  }

  /** `str.splitlines`. */
  function SplitLines(text: string): seq<string>
    decreases |text|
  {
    if text == "" then []
    else
      var i := BreakAt(text);
      if i == |text| then [text] else [text[..i]] + SplitLines(text[i + BreakLength(text, i)..])
  }

  /** Each line with a newline behind it: the join with a final newline, or nothing for no lines. */
  function Unlines(lines: seq<string>): string {
    if lines == [] then "" else lines[0] + "\n" + Unlines(lines[1..])
  }

  predicate NoBreak(s: string) {
    forall i :: 0 <= i < |s| ==> !IsLineBreak(s[i])
  }

  function ParseText(text: string): map<string, string> {
    ParseAll(SplitLines(text))
  }

  function RenderedText(text: string, a: Assignments): string {
    Unlines(Rendered(SplitLines(text), a))
  }

  /** The line ends JSON escaping leaves in a value: U+0085, U+2028, U+2029. */
  predicate IsWideBreak(c: char) {
    c as int == 0x85 || c as int == 0x2028 || c as int == 0x2029
  }

  predicate NoWideBreak(s: string) {
    forall i :: 0 <= i < |s| ==> !IsWideBreak(s[i])
  }

  lemma {:induction false} SplitClean(text: string)
    ensures forall line :: line in SplitLines(text) ==> NoBreak(line)
    decreases |text|
  {
    if text != "" {
      var i := BreakAt(text);
      if i < |text| { SplitClean(text[i + BreakLength(text, i)..]); }
    }
  }

  /** A text cut at every break, the last piece included even if empty. */
  function Pieces(text: string): (ps: seq<string>)
    ensures |ps| >= 1
    decreases |text|
  {
    var i := BreakAt(text);
    if i == |text| then [text] else [text[..i]] + Pieces(text[i + 1..])
  }

  lemma {:induction false} BreakBefore(x: string, more: string)
    ensures BreakAt(x) < |x| ==> BreakAt(x + more) == BreakAt(x)
    ensures NoBreak(x) && more != "" && IsLineBreak(more[0]) ==> BreakAt(x + more) == |x|
  {
    if x == "" {
      assert x + more == more;
    } else {
      assert (x + more)[1..] == x[1..] + more;
      BreakBefore(x[1..], more);
    }
  }

  predicate NoReturn(s: string) {
    forall i :: 0 <= i < |s| ==> s[i] != '\r'
  }

  lemma SplitStep(text: string, i: nat, n: nat)
    requires i == BreakAt(text) < |text| && n == BreakLength(text, i)
    ensures SplitLines(text) == [text[..i]] + SplitLines(text[i + n..])
  {
    hide BreakAt, IsLineBreak, BreakLength;
  }

  lemma SplitAt(text: string, i: nat)
    requires i < |text| && BreakAt(text) == i && text[i] != '\r'
    ensures SplitLines(text) == [text[..i]] + SplitLines(text[i + 1..])
  {
    hide SplitLines, BreakAt, IsLineBreak;
    SplitStep(text, i, 1);
  }

  lemma NewlineBreaks()
    ensures IsLineBreak('\n')
  {
  }

  /** A line written out and read back comes apart exactly at its own breaks. */
  lemma {:induction false} SplitPieces(x: string, rest: string)
    requires NoReturn(x)
    ensures SplitLines(x + "\n" + rest) == Pieces(x) + SplitLines(rest)
    decreases |x|
  {
    hide SplitLines, BreakAt, Pieces, IsLineBreak;
    var tail := "\n" + rest;
    var text, i := x + "\n" + rest, BreakAt(x);
    assert text == x + tail && tail[1..] == rest;
    BreakBefore(x, tail);
    NewlineBreaks();
    if i == |x| {
      PiecesWhole(x);
      SplitAt(text, i);
      assert text[..i] == x && text[i + 1..] == rest;
    } else {
      SplitAt(text, i);
      PiecesStep(x, i);
      SplitPieces(x[i + 1..], rest);
      assert text[..i] == x[..i] && text[i + 1..] == x[i + 1..] + "\n" + rest;
      assert [x[..i]] + Pieces(x[i + 1..]) + SplitLines(rest) == [x[..i]] + (Pieces(x[i + 1..]) + SplitLines(rest));
    }
  }

  function AllPieces(lines: seq<string>): seq<string> {
    if lines == [] then [] else Pieces(lines[0]) + AllPieces(lines[1..])
  }

  lemma {:induction false} SplitUnlines(lines: seq<string>)
    requires forall line :: line in lines ==> NoReturn(line)
    ensures SplitLines(Unlines(lines)) == AllPieces(lines)
  {
    if lines != [] {
      assert lines[0] in lines && forall line :: line in lines[1..] ==> line in lines;
      SplitUnlines(lines[1..]);
      SplitPieces(lines[0], Unlines(lines[1..]));
    }
  }

  lemma {:induction false} WholePieces(lines: seq<string>)
    requires forall line :: line in lines ==> NoBreak(line)
    ensures AllPieces(lines) == lines
  {
    if lines != [] {
      assert lines[0] in lines && forall line :: line in lines[1..] ==> line in lines;
      assert BreakAt(lines[0]) == |lines[0]|;
      WholePieces(lines[1..]);
    }
  }

  // ----- what a rendered line may hold

  lemma EscapeBreaks(c: char)
    ensures NoReturn(Escape(c))
    ensures if IsWideBreak(c) then Escape(c) == [c] else NoBreak(Escape(c))
  {
    if c as int < 0x20 {
      var high, low := HexDigit(c as int / 16), HexDigit(c as int % 16);
      assert HexValue(high).Some? && HexValue(low).Some?;
    }
  }

  lemma {:induction false} EscapeAllBreaks(s: string)
    ensures NoReturn(EscapeAll(s))
    ensures NoWideBreak(s) ==> NoBreak(EscapeAll(s))
  {
    if s != "" {
      EscapeAllBreaks(s[1..]);
      EscapeBreaks(s[0]);
    }
  }

  lemma FormatBreaks(name: string, value: string)
    requires IsKey(name)
    ensures NoReturn(FormatLine(name, value))
    ensures NoWideBreak(value) ==> NoBreak(FormatLine(name, value))
  {
    EscapeAllBreaks(value);
    forall i | 0 <= i < |name| ensures !IsLineBreak(name[i]) {
      assert IsKeyChar(name[i]);
    }
  }

  /** A line of the new file is an old line about something else, a blank one, or the new line of one of the names. */
  ghost predicate Known(line: string, a: Assignments) {
    (NoBreak(line) && Target(line, a).None?) || exists name :: name in a.values && line == Assigned(a, name)
  }

  lemma {:induction false} RewrittenKnown(lines: seq<string>, a: Assignments, seen: set<string>)
    requires forall line :: line in lines ==> NoBreak(line)
    ensures forall line :: line in Rewritten(lines, a, seen) ==> Known(line, a)
  {
    hide ParseLine, FormatLine;
    if lines != [] {
      assert lines[0] in lines && forall line :: line in lines[1..] ==> line in lines;
      match Target(lines[0], a)
      case None => RewrittenKnown(lines[1..], a, seen);
      case Some(name) => RewrittenKnown(lines[1..], a, seen + {name});
    }
  }

  lemma {:induction false} AddedKnown(names: seq<string>, a: Assignments, seen: set<string>)
    ensures forall line :: line in Added(names, a, seen) ==> Known(line, a)
  {
    hide ParseLine, FormatLine;
    if names != [] {
      AddedKnown(names[1..], a, seen);
    }
  }

  lemma RenderedKnown(lines: seq<string>, a: Assignments)
    requires forall line :: line in lines ==> NoBreak(line)
    ensures forall line :: line in Rendered(lines, a) ==> Known(line, a)
  {
    BlankIsNoTarget(a);
    hide ParseLine, FormatLine, Strip;
    RewrittenKnown(lines, a, {});
    AddedKnown(a.names, a, Seen(lines, a));
    var rewritten := Rewritten(lines, a, {});
    var added := Added(a.names, a, Seen(lines, a));
    forall line | line in Rendered(lines, a) ensures Known(line, a) {
      assert line in rewritten || line in Gap(rewritten, added) || line in added;
    }
  }

  lemma BlankIsNoTarget(a: Assignments)
    ensures Target("", a).None?
  {
    assert Strip("") == "";
  }

  // ----- clean values: the text means what it should, and rendering it again changes nothing

  lemma RenderedSplits(text: string, a: Assignments)
    requires a.Valid() && forall n :: n in a.values ==> NoWideBreak(a.values[n])
    ensures SplitLines(RenderedText(text, a)) == Rendered(SplitLines(text), a)
  {
    hide ParseLine, FormatLine, IsKey;
    var lines := SplitLines(text);
    var rendered := Rendered(lines, a);
    SplitClean(text);
    RenderedKnown(lines, a);
    forall line | line in rendered ensures NoBreak(line) && NoReturn(line) {
      if n :| n in a.values && line == Assigned(a, n) {
        FormatBreaks(n, a.values[n]);
      } else {
        assert Known(line, a);
      }
    }
    SplitUnlines(rendered);
    WholePieces(rendered);
  }

  lemma CleanTextUpdates(text: string, a: Assignments)
    requires a.Valid() && forall n :: n in a.values ==> NoWideBreak(a.values[n])
    ensures ParseText(RenderedText(text, a)) == ParseText(text) + a.values
    ensures RenderedText(RenderedText(text, a), a) == RenderedText(text, a)
  {
    RenderedSplits(text, a);
    RenderedParses(SplitLines(text), a);
    RenderIdempotent(SplitLines(text), a);
  }

  // ----- other values: the pieces they fall into never give a value back

  lemma {:induction false} ParsedFrom(lines: seq<string>, name: string) returns (i: nat)
    requires name in ParseAll(lines)
    ensures i < |lines| && ParseLine(lines[i]) == Success(Some((name, ParseAll(lines)[name])))
  {
    hide ParseLine;
    if name in ParseAll(lines[1..]) {
      var j := ParsedFrom(lines[1..], name);
      i := j + 1;
    } else {
      i := 0;
      assert name in Binding(lines[0]);
    }
  }

  lemma {:induction false} PieceOfLine(lines: seq<string>, piece: string) returns (line: string)
    requires piece in AllPieces(lines)
    ensures line in lines && piece in Pieces(line)
  {
    if piece in Pieces(lines[0]) {
      line := lines[0];
    } else {
      line := PieceOfLine(lines[1..], piece);
    }
  }

  /** The line without its surroundings, and the text its value is read from. */
  function Body(line: string): string {
    if EXPORT <= Strip(line) then Strip(Strip(line)[|EXPORT|..]) else Strip(line)
  }

  function ValueText(line: string): string {
    var at := IndexOf(Body(line), '=');
    if at == |Body(line)| then "" else Strip(StripInlineComment(Body(line)[at + 1..]))
  }

  predicate IsQuoted(v: string) {
    |v| >= 2 && v[0] == '"' && v[|v| - 1] == '"'
  }

  ghost predicate Within(s: string, t: string) {
    forall c :: c in s ==> c in t
  }

  lemma StripWithin(s: string)
    ensures Within(Strip(s), s) && Within(StripInlineComment(s), s)
  {
    var l := LStrip(s);
    assert l == s[|s| - |l|..] && RStrip(l) <= l;
    var at := CommentAt(s, true, None, false);
    if at.Some? { assert RStrip(s[..at.value]) <= s[..at.value]; }
  }

  lemma ValueTextWithin(line: string)
    ensures Within(ValueText(line), line)
  {
    hide Strip, StripInlineComment, IndexOf, Body;
    BodyWithin(line);
    var body := Body(line);
    var at := IndexOf(body, '=');
    if at < |body| {
      var rest := body[at + 1..];
      StripWithin(rest);
      StripWithin(StripInlineComment(rest));
    }
  }

  lemma BodyWithin(line: string)
    ensures Within(Body(line), line)
  {
    hide Strip;
    var stripped := Strip(line);
    StripWithin(line);
    if EXPORT <= stripped {
      StripWithin(stripped[|EXPORT|..]);
    }
  }

  lemma ParsedValue(line: string)
    requires ParseLine(line).Success? && ParseLine(line).value.Some?
    ensures StripQuotes(StripInlineComment(Body(line)[IndexOf(Body(line), '=') + 1..])) == Success(ParseLine(line).value.value.1)
    ensures IndexOf(Body(line), '=') < |Body(line)|
  {
    hide Strip, StripInlineComment, StripQuotes;
  }

  /** A value not read through JSON consists of characters of its line. */
  lemma UnquotedValue(line: string)
    requires ParseLine(line).Success? && ParseLine(line).value.Some? && !IsQuoted(ValueText(line))
    ensures Within(ParseLine(line).value.value.1, line)
  {
    hide ParseLine, Body, StripInlineComment, Strip;
    ParsedValue(line);
    ValueTextWithin(line);
  }

  /** A JSON string does not end inside an escaped text. */
  lemma {:induction false} UnclosedFails(s: string, p: string)
    requires p <= EscapeAll(s)
    ensures DecodeRest(p).None?
    decreases |s|
  {
    if s != "" && p != "" {
      var e := Escape(s[0]);
      if |p| >= |e| {
        var rest := p[|e|..];
        assert p == e + rest && rest <= EscapeAll(s[1..]);
        UnclosedFails(s[1..], rest);
        EscapeThenFails(s[0], rest);
      } else {
        assert p == e[..|p|] && p[0] == '\\';
      }
    }
  }

  lemma EscapeThenFails(c: char, rest: string)
    requires DecodeRest(rest).None?
    ensures DecodeRest(Escape(c) + rest).None?
  {
    var e := Escape(c);
    var s := e + rest;
    if |e| == 1 {
      assert s[1..] == rest;
    } else if |e| == 2 {
      assert s[2..] == rest;
    } else {
      var digits := s[1..][1..];
      assert digits[0] == '0' && digits[1] == '0' && digits[2] == e[4] && digits[3] == e[5];
      assert Hex4(digits) == Some(c as nat);
      assert s[6..] == rest;
    }
  }

  /** The start of some escaped text, perhaps up to its closing quote. */
  ghost predicate Fragment(u: string) {
    exists s: string :: FragmentOf(u, s)
  }

  ghost predicate FragmentOf(u: string, s: string) {
    u <= EscapeAll(s) + "\""
  }

  lemma FragmentNotQuoted(u: string)
    requires Fragment(u)
    ensures !IsQuoted(u)
  {
    var s :| FragmentOf(u, s);
    if s != "" {
      assert Escape(s[0])[0] != '"';
      assert (EscapeAll(s) + "\"")[0] == Escape(s[0])[0];
    } else {
      assert |u| <= 1;
    }
  }

  lemma FragmentPrefix(u: string, p: string)
    requires Fragment(u) && p <= u
    ensures Fragment(p)
  {
    var s :| FragmentOf(u, s);
    assert FragmentOf(p, s);
  }

  /** After a character that no escape sequence contains, the rest of a fragment is a fragment. */
  lemma {:induction false} FragmentAfter(u: string, s: string, i: nat)
    requires FragmentOf(u, s) && i < |u| && (u[i] == '=' || IsSpace(u[i]))
    ensures Fragment(u[i + 1..])
    decreases |s|
  {
    hide IsSpace, Fragment;
    QuotedEnds("");
    if s != "" {
      var e, tail := Escape(s[0]), EscapeAll(s[1..]) + "\"";
      assert EscapeAll(s) + "\"" == e + tail;
      if i < |e| {
        assert u[i] == e[i];
        if |e| > 1 { EscapeChars(s[0], i); }
        assert i == 0 && u[1..] <= tail;
        FragmentIs(u[i + 1..], s[1..]);
      } else {
        var rest := u[|e|..];
        assert rest <= tail && rest[i - |e|] == u[i];
        FragmentAfter(rest, s[1..], i - |e|);
        assert rest[i - |e| + 1..] == u[i + 1..];
      }
    }
  }

  lemma FragmentIs(u: string, s: string)
    requires FragmentOf(u, s)
    ensures Fragment(u)
  {
  }

  lemma FragmentRest(u: string, i: nat)
    requires Fragment(u) && i < |u| && (u[i] == '=' || IsSpace(u[i]))
    ensures Fragment(u[i + 1..])
  {
    var s :| FragmentOf(u, s);
    FragmentAfter(u, s, i);
  }

  lemma EscapeChars(c: char, i: nat)
    requires i < |Escape(c)| && |Escape(c)| > 1
    ensures Escape(c)[i] != '=' && !IsSpace(Escape(c)[i])
  {
    if |Escape(c)| == 6 {
      var high, low := HexDigit(c as int / 16), HexDigit(c as int % 16);
      assert HexValue(high).Some? && HexValue(low).Some?;
    }
  }

  lemma {:induction false} FragmentLStrip(u: string)
    requires Fragment(u)
    ensures Fragment(LStrip(u))
  {
    hide Fragment;
    if u != "" && IsSpace(u[0]) {
      FragmentRest(u, 0);
      FragmentLStrip(u[1..]);
    }
  }

  lemma FragmentStrip(u: string)
    requires Fragment(u)
    ensures Fragment(Strip(u)) && Fragment(StripInlineComment(u))
  {
    hide Fragment, LStrip, RStrip, CommentAt, StripInlineComment;
    FragmentLStrip(u);
    FragmentPrefix(LStrip(u), Strip(u));
    CommentPrefix(u);
    FragmentPrefix(u, StripInlineComment(u));
  }

  lemma FragmentBody(u: string)
    requires Fragment(u)
    ensures Fragment(Body(u))
  {
    hide Strip, IsSpace, Fragment;
    FragmentStrip(u);
    var stripped := Strip(u);
    if EXPORT <= stripped {
      assert stripped[6] == EXPORT[6] == ' ';
      BlankIsSpace();
      FragmentRest(stripped, 6);
      FragmentStrip(stripped[7..]);
    }
  }

  lemma BlankIsSpace()
    ensures IsSpace(' ')
  {
  }

  /** What falls off the middle or the end of a formatted line is never read through JSON. */
  lemma FragmentValue(u: string)
    requires Fragment(u)
    ensures !IsQuoted(ValueText(u))
  {
    hide Strip, StripInlineComment, Body, Fragment;
    FragmentBody(u);
    var body := Body(u);
    var at := IndexOf(body, '=');
    if at < |body| {
      FragmentRest(body, at);
      FragmentStrip(body[at + 1..]);
      FragmentStrip(StripInlineComment(body[at + 1..]));
      FragmentNotQuoted(ValueText(u));
    }
  }

  lemma {:induction false} RStripKeeps(x: string, y: string)
    requires x != "" && !IsSpace(x[|x| - 1])
    ensures x <= RStrip(x + y)
  {
    if y != "" && IsSpace(y[|y| - 1]) {
      assert (x + y)[..|x + y| - 1] == x + y[..|y| - 1];
      RStripKeeps(x, y[..|y| - 1]);
    } else if y == "" {
      assert x + y == x;
    }
  }

  /** The text after the first '=' of such a front is no more than what was written there. */
  lemma HeadRest(name: string, s: string)
    requires IsKey(name)
    ensures var body := Body(name + "=\"" + EscapeAll(s));
            IndexOf(body, '=') == |name| < |body| && body[|name| + 1..] <= "\"" + EscapeAll(s)
  {
    hide EscapeAll, Body, IsKey, IndexOf, Strip;
    var escaped := EscapeAll(s);
    var line, front := name + "=\"" + escaped, name + "=\"";
    HeadBody(name, s);
    var body := Body(line);
    KeyStripped(name);
    PrefixOfHead(name, escaped, body);
    NameFirst(name, body);
  }

  lemma PrefixOfHead(name: string, tail: string, body: string)
    requires name + "=\"" <= body <= name + "=\"" + tail
    ensures name + "=" <= body && |name| < |body| && body[|name| + 1..] <= "\"" + tail
  {
    var line := name + "=\"" + tail;
    assert body == line[..|body|];
    assert line[|name| + 1..] == "\"" + tail;
    assert name + "=\"" == name + "=" + "\"";
  }

  /** A text that begins like a quoted one but lost its closing quote reads as itself or not at all. */
  lemma HeadQuotes(rest: string, s: string)
    requires rest <= "\"" + EscapeAll(s)
    ensures IsQuoted(Strip(StripInlineComment(rest))) ==> StripQuotes(StripInlineComment(rest)).Failure?
  {
    hide EscapeAll, StripInlineComment, Strip, DecodeRest;
    var text, clipped := "\"" + EscapeAll(s), StripInlineComment(rest);
    CommentPrefix(rest);
    StripPrefixOfQuote(clipped, text);
    var v := Strip(clipped);
    if IsQuoted(v) {
      assert v[1..] <= EscapeAll(s);
      UnclosedFails(s, v[1..]);
    }
  }

  /** The front of a formatted line that lost its closing quote: if anything is read, it is not through JSON. */
  lemma HeadValue(name: string, s: string)
    requires IsKey(name)
    requires ParseLine(name + "=\"" + EscapeAll(s)).Success? && ParseLine(name + "=\"" + EscapeAll(s)).value.Some?
    ensures !IsQuoted(ValueText(name + "=\"" + EscapeAll(s)))
  {
    hide ParseLine, EscapeAll, StripInlineComment, StripQuotes, Strip, Body;
    var line := name + "=\"" + EscapeAll(s);
    HeadRest(name, s);
    ParsedValue(line);
    HeadQuotes(Body(line)[|name| + 1..], s);
  }

  lemma NameFirst(name: string, body: string)
    requires '=' !in name && name + "=" <= body
    ensures IndexOf(body, '=') == |name|
  {
    assert body[|name|] == '=';
    assert forall k :: 0 <= k < |name| ==> body[k] == name[k] && name[k] in name;
  }

  lemma CommentPrefix(s: string)
    ensures StripInlineComment(s) <= s
  {
    hide CommentAt, RStrip;
    var at := CommentAt(s, true, None, false);
    if at.Some? { assert RStrip(s[..at.value]) <= s[..at.value] <= s; }
  }

  /** Stripping a prefix of a text that opens with a quote only shortens it. */
  lemma StripPrefixOfQuote(p: string, text: string)
    requires p <= text && text != "" && text[0] == '"'
    ensures Strip(p) <= text
  {
    assert !IsSpace('"');
    if p != "" { assert LStrip(p) == p; }
  }

  lemma HeadBody(name: string, s: string)
    requires IsKey(name)
    ensures name + "=\"" <= Body(name + "=\"" + EscapeAll(s)) <= name + "=\"" + EscapeAll(s)
  {
    hide EscapeAll, IsSpace;
    var front, line := name + "=\"", name + "=\"" + EscapeAll(s);
    QuotedEnds("");
    KeyCharNotSpace(name[0]);
    assert IsKeyChar(name[0]) && line[0] == name[0];
    assert LStrip(line) == line;
    RStripKeeps(front, EscapeAll(s));
    var stripped := Strip(line);
    assert front <= stripped <= line;
    assert stripped == name + stripped[|name|..] && stripped[|name|] == '=';
    NotExport(name, stripped[|name|..]);
  }

  lemma PiecesAt(front: string, c: char, rest: string)
    requires NoBreak(front) && IsLineBreak(c)
    ensures Pieces(front + ([c] + rest)) == [front] + Pieces(rest)
  {
    hide Pieces;
    var text := front + ([c] + rest);
    BreakBefore(front, [c] + rest);
    assert text[..|front|] == front && text[|front| + 1..] == rest;
    PiecesStep(text, |front|);
  }

  lemma PiecesStep(text: string, i: nat)
    requires i == BreakAt(text) < |text|
    ensures Pieces(text) == [text[..i]] + Pieces(text[i + 1..])
  {
    hide BreakAt, IsLineBreak;
  }

  lemma PiecesWhole(text: string)
    requires NoBreak(text)
    ensures Pieces(text) == [text]
  {
  }

  /** What the pieces of `front`, the escaped `s` and a closing quote look like. */
  ghost predicate Cut(ps: seq<string>, head: string, done: string, s: string) {
    && |ps| >= 1
    && (|ps| == 1 <==> NoWideBreak(s))
    && (forall k :: 1 <= k < |ps| ==> Fragment(ps[k]))
    && (if |ps| == 1 then ps[0] == head + EscapeAll(done + s) + "\""
        else exists d: string :: ps[0] == head + EscapeAll(d))
  }

  lemma CutAtBreak(ps: seq<string>, head: string, done: string, s: string)
    requires s != "" && IsWideBreak(s[0]) && Cut(ps, "", "", s[1..])
    ensures Cut([head + EscapeAll(done)] + ps, head, done, s)
  {
    hide EscapeAll, Fragment;
    FrontIsFragment(ps, s[1..]);
  }

  lemma CutLater(ps: seq<string>, head: string, done: string, s: string)
    requires s != "" && !IsWideBreak(s[0]) && Cut(ps, head, done + [s[0]], s[1..])
    ensures Cut(ps, head, done, s)
  {
    hide EscapeAll, Fragment;
    assert done + [s[0]] + s[1..] == done + s;
    if NoWideBreak(s[1..]) {
      forall i | 0 <= i < |s| ensures !IsWideBreak(s[i]) {
        if i > 0 { assert s[i] == s[1..][i - 1]; }
      }
    }
  }

  /** The pieces of a formatted line with a wide break: a front without closing quote, and fragments. */
  lemma {:induction false} PiecesForm(head: string, done: string, s: string)
    requires NoBreak(head) && NoWideBreak(done)
    ensures Cut(Pieces(head + EscapeAll(done) + (EscapeAll(s) + "\"")), head, done, s)
    decreases |s|
  {
    hide Pieces, Cut, EscapeAll, NoBreak, NoWideBreak, IsLineBreak;
    var front := head + EscapeAll(done);
    var text := front + (EscapeAll(s) + "\"");
    EscapeAllBreaks(done);
    BreaksApart(head, EscapeAll(done));
    EscapeNothing();
    if s == "" {
      assert text == front + "\"" && done + s == done;
      BreaksApart(front, "\"");
      PiecesWhole(text);
      CutWhole(head, done);
    } else if IsWideBreak(s[0]) {
      var rest := EscapeAll(s[1..]) + "\"";
      EscapeBreaks(s[0]);
      EscapeStep(s);
      assert text == front + ([s[0]] + rest);
      WideIsBreak(s[0]);
      PiecesAt(front, s[0], rest);
      PiecesForm("", "", s[1..]);
      assert "" + EscapeAll("") + rest == rest;
      CutAtBreak(Pieces(rest), head, done, s);
    } else {
      EscapeShift(head, done, s);
      WideApart(done, s[0]);
      PiecesForm(head, done + [s[0]], s[1..]);
      CutLater(Pieces(text), head, done, s);
    }
  }

  lemma BreaksApart(a: string, b: string)
    ensures NoBreak(a) && NoBreak(b) ==> NoBreak(a + b)
  {
    hide IsLineBreak;
  }

  lemma WideApart(a: string, c: char)
    ensures NoWideBreak(a) && !IsWideBreak(c) ==> NoWideBreak(a + [c])
  {
    hide IsWideBreak;
  }

  lemma WideIsBreak(c: char)
    ensures IsWideBreak(c) ==> IsLineBreak(c)
  {
  }

  lemma EscapeNothing()
    ensures EscapeAll("") == "" && NoBreak("\"") && NoBreak("") && NoWideBreak("")
  {
  }

  lemma EscapeShift(head: string, done: string, s: string)
    requires s != ""
    ensures head + EscapeAll(done) + (EscapeAll(s) + "\"") == head + EscapeAll(done + [s[0]]) + (EscapeAll(s[1..]) + "\"")
  {
    hide EscapeAll;
    EscapeAppend(done, s[0]);
    EscapeStep(s);
  }

  lemma EscapeStep(s: string)
    requires s != ""
    ensures EscapeAll(s) == Escape(s[0]) + EscapeAll(s[1..])
  {
  }

  lemma CutWhole(head: string, done: string)
    ensures Cut([head + EscapeAll(done) + "\""], head, done, "")
  {
    hide EscapeAll;
    assert done + "" == done;
  }

  lemma FrontIsFragment(ps: seq<string>, s: string)
    requires |ps| >= 1
    requires if |ps| == 1 then ps[0] == "" + EscapeAll("" + s) + "\"" else exists d: string :: ps[0] == "" + EscapeAll(d)
    ensures Fragment(ps[0])
  {
    if |ps| == 1 {
      assert "" + s == s;
      assert FragmentOf(ps[0], s);
    } else {
      var d: string :| ps[0] == "" + EscapeAll(d);
      assert FragmentOf(ps[0], d);
    }
  }

  lemma {:induction false} EscapeAppend(s: string, c: char)
    ensures EscapeAll(s + [c]) == EscapeAll(s) + Escape(c)
  {
    if s != "" {
      assert (s + [c])[1..] == s[1..] + [c];
      EscapeAppend(s[1..], c);
    }
  }

  /** A whole new line, unbroken, gives its own value back. */
  lemma WholeReadsClean(name: string, value: string)
    requires IsKey(name) && ValidValue(value) && NoWideBreak(value)
    ensures ParseLine(FormatLine(name, value)) == Success(Some((name, value)))
  {
    hide ParseLine, IsKey, EscapeAll, NoWideBreak;
    LineRoundTrip(name, value);
  }

  /** A piece of a broken new line is read, if at all, as it stands. */
  lemma BrokenReadsClean(name: string, d: string, piece: string)
    requires IsKey(name) && NoBreak(piece) && (piece == name + "=\"" + EscapeAll(d) || Fragment(piece))
    requires ParseLine(piece).Success? && ParseLine(piece).value.Some?
    ensures NoWideBreak(ParseLine(piece).value.value.1)
  {
    hide ParseLine, IsKey, ValueText, Fragment, EscapeAll, NoBreak, NoWideBreak, Within, IsQuoted;
    if Fragment(piece) {
      FragmentValue(piece);
    } else {
      HeadValue(name, d);
    }
    UnquotedValue(piece);
    CleanWithin(ParseLine(piece).value.value.1, piece);
  }

  /** The pieces of a new line: the line itself, or a front without closing quote and fragments. */
  lemma NewLinePieces(name: string, value: string)
    requires IsKey(name)
    ensures Cut(Pieces(FormatLine(name, value)), name + "=\"", "", value)
  {
    hide Pieces, IsKey, Cut;
    var head := name + "=\"";
    assert FormatLine(name, value) == head + EscapeAll("") + (EscapeAll(value) + "\"");
    HeadNoBreak(name);
    PiecesForm(head, "", value);
  }

  /** No piece of a new line gives a value with a wide break. */
  lemma PieceReadsClean(name: string, value: string, piece: string)
    requires IsKey(name) && ValidValue(value) && piece in Pieces(FormatLine(name, value))
    requires ParseLine(piece).Success? && ParseLine(piece).value.Some?
    ensures NoWideBreak(ParseLine(piece).value.value.1)
  {
    hide ParseLine, IsKey, Fragment, EscapeAll, Pieces, ValidValue, NoBreak, NoWideBreak, FormatLine;
    NewLinePieces(name, value);
    var ps, head := Pieces(FormatLine(name, value)), name + "=\"";
    if |ps| == 1 {
      assert "" + value == value;
      LineIsWhole(name, value, ps);
      WholeReadsClean(name, value);
    } else {
      PiecesClean(FormatLine(name, value));
      var k :| 0 <= k < |ps| && ps[k] == piece;
      var d: string :| ps[0] == head + EscapeAll(d);
      assert k > 0 ==> Fragment(ps[k]);
      BrokenReadsClean(name, d, piece);
    }
  }

  lemma LineIsWhole(name: string, value: string, ps: seq<string>)
    requires |ps| == 1 && ps[0] == name + "=\"" + EscapeAll(value) + "\""
    ensures ps == [FormatLine(name, value)]
  {
    hide EscapeAll;
    assert ps[0] == FormatLine(name, value);
  }

  lemma CleanWithin(s: string, t: string)
    requires Within(s, t) && NoBreak(t)
    ensures NoWideBreak(s)
  {
    forall i | 0 <= i < |s| ensures !IsWideBreak(s[i]) {
      assert s[i] in s && s[i] in t;
    }
  }

  lemma HeadNoBreak(name: string)
    requires IsKey(name)
    ensures NoBreak(name + "=\"")
  {
    forall i | 0 <= i < |name| ensures !IsLineBreak(name[i]) {
      assert IsKeyChar(name[i]);
    }
  }

  lemma {:induction false} PiecesClean(text: string)
    ensures forall p :: p in Pieces(text) ==> NoBreak(p)
    decreases |text|
  {
    var i := BreakAt(text);
    if i < |text| { PiecesClean(text[i + 1..]); }
  }

  /** No line of the rewritten text gives one of the names a value with a wide break. */
  lemma RewrittenReadsClean(text: string, a: Assignments, line: string)
    requires a.Valid() && line in SplitLines(RenderedText(text, a))
    requires ParseLine(line).Success? && ParseLine(line).value.Some? && ParseLine(line).value.value.0 in a.values
    ensures NoWideBreak(ParseLine(line).value.value.1)
  {
    hide ParseLine, FormatLine, IsKey, Rendered;
    var rendered := Rendered(SplitLines(text), a);
    SplitClean(text);
    RenderedKnown(SplitLines(text), a);
    forall r | r in rendered ensures NoReturn(r) {
      assert Known(r, a);
      if n :| n in a.values && r == Assigned(a, n) {
        FormatBreaks(n, a.values[n]);
      }
    }
    SplitUnlines(rendered);
    var r := PieceOfLine(rendered, line);
    assert Known(r, a);
    if n :| n in a.values && r == Assigned(a, n) {
      PieceReadsClean(n, a.values[n], line);
    } else {
      OldLineSilent(r, a, line);
    }
  }

  /** An old line about something else stays one. */
  lemma OldLineSilent(r: string, a: Assignments, line: string)
    requires NoBreak(r) && Target(r, a).None? && line in Pieces(r)
    ensures Target(line, a).None?
  {
    hide Target;
    PiecesWhole(r);
  }

  /** MAIN RESULT: the rewritten text means the old one with the assignments laid over it exactly if no value holds one of
      the three line ends that JSON escaping leaves as they are. */
  lemma TextUpdateExact(text: string, a: Assignments)
    requires a.Valid()
    ensures ParseText(RenderedText(text, a)) == ParseText(text) + a.values
       <==> (forall n :: n in a.values ==> NoWideBreak(a.values[n]))
  {
    hide ParseLine, ParseAll, Rendered, IsKey;
    if forall n :: n in a.values ==> NoWideBreak(a.values[n]) {
      CleanTextUpdates(text, a);
    } else if ParseText(RenderedText(text, a)) == ParseText(text) + a.values {
      var n :| n in a.values && !NoWideBreak(a.values[n]);
      var lines := SplitLines(RenderedText(text, a));
      assert n in ParseAll(lines) && ParseAll(lines)[n] == a.values[n];
      var i := ParsedFrom(lines, n);
      RewrittenReadsClean(text, a, lines[i]);
    }
  }

  // ----- rendering twice

  lemma {:induction false} OthersOfPieces(lines: seq<string>, a: Assignments)
    requires a.Valid() && forall line :: line in lines ==> Known(line, a)
    ensures |Others(AllPieces(lines), a)| >= |Others(lines, a)|
  {
    hide Known, Pieces, Target, Others;
    if lines == [] {
      NoOthers(a);
    } else {
      assert lines[0] in lines && forall line :: line in lines[1..] ==> line in lines;
      OthersOfPieces(lines[1..], a);
      OthersAppend(Pieces(lines[0]), AllPieces(lines[1..]), a);
      OthersStep(lines, a);
      if Target(lines[0], a).None? { KnownStays(lines[0], a); }
    }
  }

  lemma NoOthers(a: Assignments)
    ensures Others([], a) == []
  {
  }

  lemma OthersStep(lines: seq<string>, a: Assignments)
    requires lines != []
    ensures |Others(lines, a)| == |Others(lines[1..], a)| + if Target(lines[0], a).None? then 1 else 0
  {
    hide Target;
  }

  /** A line about something else is not broken. */
  lemma KnownStays(line: string, a: Assignments)
    requires a.Valid() && Known(line, a) && Target(line, a).None?
    ensures |Others(Pieces(line), a)| == 1
  {
    hide Target, ParseLine, FormatLine;
    if n :| n in a.values && line == Assigned(a, n) {
      AssignedReadsBack(a, n);
    }
    PiecesWhole(line);
    assert [line][1..] == [];
  }

  lemma {:induction false} OtherCounts(pieces: seq<string>, a: Assignments, piece: string)
    requires piece in pieces && Target(piece, a).None?
    ensures |Others(pieces, a)| >= 1
  {
    hide Target;
    if pieces[0] != piece {
      OtherCounts(pieces[1..], a, piece);
    }
  }

  /** A new line with a piece that assigns none of the names adds a line about something else. */
  lemma {:induction false} OthersGrow(lines: seq<string>, a: Assignments, line: string, piece: string)
    requires a.Valid() && forall x :: x in lines ==> Known(x, a)
    requires line in lines && Target(line, a).Some? && piece in Pieces(line) && Target(piece, a).None?
    ensures |Others(AllPieces(lines), a)| > |Others(lines, a)|
  {
    hide Known, Pieces, Target, Others;
    assert lines[0] in lines && forall x :: x in lines[1..] ==> x in lines;
    OthersAppend(Pieces(lines[0]), AllPieces(lines[1..]), a);
    OthersStep(lines, a);
    if lines[0] == line {
      OthersOfPieces(lines[1..], a);
      OtherCounts(Pieces(line), a, piece);
    } else {
      OthersGrow(lines[1..], a, line, piece);
      if Target(lines[0], a).None? { KnownStays(lines[0], a); }
    }
  }

  lemma {:induction false} LineOfIn(lines: seq<string>, a: Assignments, name: string, line: string)
    requires line in LinesOf(lines, a, name)
    ensures line in lines
  {
    hide Target;
    if !(Target(lines[0], a) == Some(name) && line == lines[0]) {
      LineOfIn(lines[1..], a, name, line);
    }
  }

  /** The text as lines, after rendering. */
  lemma RenderedPieces(text: string, a: Assignments)
    requires a.Valid()
    ensures var rendered := Rendered(SplitLines(text), a);
            && SplitLines(RenderedText(text, a)) == AllPieces(rendered)
            && forall line :: line in rendered ==> Known(line, a)
  {
    hide ParseLine, FormatLine, IsKey, Rendered, SplitLines, NoBreak;
    var rendered := Rendered(SplitLines(text), a);
    SplitClean(text);
    RenderedKnown(SplitLines(text), a);
    forall r | r in rendered ensures NoReturn(r) {
      assert Known(r, a);
      if n :| n in a.values && r == Assigned(a, n) {
        FormatBreaks(n, a.values[n]);
      } else {
        UnbrokenNoReturn(r);
      }
    }
    SplitUnlines(rendered);
  }

  lemma UnbrokenNoReturn(s: string)
    ensures NoBreak(s) ==> NoReturn(s)
  {
  }

  /** If rendering again changes nothing, every piece a new line falls into assigns one of the names. */
  lemma StableMeans(text: string, a: Assignments, name: string, piece: string)
    requires a.Valid() && name in a.values && piece in Pieces(Assigned(a, name))
    requires RenderedText(RenderedText(text, a), a) == RenderedText(text, a)
    ensures Target(piece, a).Some?
  {
    hide ParseLine, Target, Pieces, Known, Rendered, SplitLines, AllPieces, Others, LinesOf, Assigned, RenderedText;
    var once := SplitLines(RenderedText(text, a));
    var twice := Rendered(once, a);
    RenderedPieces(RenderedText(text, a), a);
    RenderedLines(once, a, name);
    LineOfIn(twice, a, name, Assigned(a, name));
    AssignedTargets(a, name);
    if Target(piece, a).None? {
      OthersGrow(twice, a, Assigned(a, name), piece);
      assert false;
    }
  }

  lemma AssignedTargets(a: Assignments, name: string)
    requires a.Valid() && name in a.values
    ensures Target(Assigned(a, name), a) == Some(name)
  {
    AssignedReadsBack(a, name);
  }

  /** No piece of a new line, behind its first, assigns one of the names. */
  ghost predicate PiecesAssignNothing(a: Assignments) {
    forall n, k :: n in a.values && 1 <= k < |Pieces(Assigned(a, n))| ==> Target(Pieces(Assigned(a, n))[k], a).None?
  }

  /** MAIN RESULT: unless a piece of a value reads as an assignment to one of the names, rendering twice is rendering once
      exactly if no value holds one of the three line ends. */
  lemma StableExactly(text: string, a: Assignments)
    requires a.Valid() && PiecesAssignNothing(a)
    ensures RenderedText(RenderedText(text, a), a) == RenderedText(text, a)
       <==> (forall n :: n in a.values ==> NoWideBreak(a.values[n]))
  {
    hide ParseLine, Target, Pieces, RenderedText, FormatLine, IsKey;
    if forall n :: n in a.values ==> NoWideBreak(a.values[n]) {
      CleanTextUpdates(text, a);
    } else if RenderedText(RenderedText(text, a), a) == RenderedText(text, a) {
      var n :| n in a.values && !NoWideBreak(a.values[n]);
      var ps := Pieces(Assigned(a, n));
      NewLinePieces(n, a.values[n]);
      assert |ps| > 1 && ps[1] in ps;
      StableMeans(text, a, n, ps[1]);
      assert false;
    }
  }

  /** A value of one next-line character, U+0085, is accepted and then lost, and each rendering adds a line. */
  lemma WideBreakLost()
    ensures var next := [0x85 as char];
            var a := Assignments(["A"], map["A" := next]);
            && a.Valid() && ParseText(RenderedText("", a)) != ParseText("") + a.values
            && RenderedText(RenderedText("", a), a) != RenderedText("", a)
  {
    hide ParseText, RenderedText, Pieces, Target;
    var next := [0x85 as char];
    var a := Assignments(["A"], map["A" := next]);
    assert IsKey("A") && ValidValue(next) && IsWideBreak(next[0]);
    TextUpdateExact("", a);
    NextPieces();
    if RenderedText(RenderedText("", a), a) == RenderedText("", a) {
      StableMeans("", a, "A", "\"");
      QuoteAssignsNothing(a);
      assert false;
    }
  }

  lemma NextPieces()
    ensures Pieces(FormatLine("A", [0x85 as char])) == ["A=\"", "\""]
  {
    hide Pieces;
    var c := 0x85 as char;
    assert [c][1..] == "" && EscapeAll([c]) == [c];
    assert FormatLine("A", [c]) == "A=\"" + ([c] + "\"");
    HeadNoBreak("A");
    assert "A" + "=\"" == "A=\"";
    PiecesAt("A=\"", c, "\"");
    EscapeNothing();
    PiecesWhole("\"");
  }

  lemma QuoteAssignsNothing(a: Assignments)
    ensures Target("\"", a).None?
  {
    hide Strip, StripInlineComment, StripQuotes, IsKey, IsSpace;
    QuotedEnds("");
    StripIdentity("\"");
    assert IndexOf("\"", '=') == 1;
  }

  /** A plain text behind a key reads as its value. */
  lemma PlainReads(name: string, v: string)
    requires IsKey(name) && v != "" && !IsSpace(v[0]) && !IsSpace(v[|v| - 1]) && ValidValue(v)
    requires StripInlineComment(v) == v && StripQuotes(v) == Success(v)
    ensures ParseLine(name + "=" + v) == Success(Some((name, v)))
  {
    hide Strip, StripInlineComment, StripQuotes, IsKey, IsSpace;
    var line, tail := name + "=" + v, "=" + v;
    KeyStripped(name);
    KeyStarts(name);
    KeyCharNotSpace(name[0]);
    assert line == name + tail && line[|line| - 1] == v[|v| - 1];
    StripIdentity(line);
    NotExport(name, tail);
    NameFirst(name, line);
    assert line[..|name|] == name && line[|name| + 1..] == v;
  }

  lemma KeyStarts(name: string)
    requires IsKey(name)
    ensures name != "" && IsKeyChar(name[0])
  {
  }

  lemma QuotePlain()
    ensures StripInlineComment("\"") == "\"" && StripQuotes("\"") == Success("\"")
    ensures StripInlineComment("x\"") == "x\"" && StripQuotes("x\"") == Success("x\"")
  {
    hide IsSpace, CommentAt, Strip, DecodeRest;
    QuotedEnds("");
    KeyCharNotSpace('x');
    StripIdentity("\"");
    StripIdentity("x\"");
    NoComment("\"", true);
    CommentStep("x\"", 0, true, None, false);
    NoComment("\"", IsSpace('x'));
    assert "x\""[0..] == "x\"" && "x\""[1..] == "\"";
  }

  lemma NoComment(s: string, space: bool)
    requires s == "\""
    ensures CommentAt(s, space, None, false).None?
  {
    hide IsSpace, CommentAt;
    CommentStep(s, 0, space, None, false);
    CommentNowhere();
    assert s[0..] == s && s[1..] == "";
  }

  lemma QuoteReads()
    ensures ParseLine("A=\"") == Success(Some(("A", "\""))) && ParseLine("B=x\"") == Success(Some(("B", "x\"")))
  {
    hide ParseLine, StripInlineComment, StripQuotes, IsSpace;
    QuotePlain();
    QuotedEnds("");
    KeyCharNotSpace('x');
    PlainReads("A", "\"");
    PlainReads("B", "x\"");
    assert "A" + "=" + "\"" == "A=\"" && "B" + "=" + "x\"" == "B=x\"";
  }

  lemma RenderedNothing(a: Assignments)
    requires a.names == ["A", "B"] && "A" in a.values && "B" in a.values
    ensures Rendered([], a) == [Assigned(a, "A"), Assigned(a, "B")]
  {
    hide Assigned, Strip;
    var rest := a.names[1..];
    assert rest == ["B"] && rest[1..] == [];
    assert Added(rest, a, {}) == [Assigned(a, "B")];
    assert [] + [] + ([Assigned(a, "A")] + [Assigned(a, "B")]) == [Assigned(a, "A"), Assigned(a, "B")];
  }

  /** Three lines that assign A, B and B again are put back as the two new lines. */
  lemma RenderedAgain(lines: seq<string>, a: Assignments)
    requires a.names == ["A", "B"] && "A" in a.values && "B" in a.values && |lines| == 3
    requires Target(lines[0], a) == Some("A") && Target(lines[1], a) == Some("B") && Target(lines[2], a) == Some("B")
    ensures Rendered(lines, a) == [Assigned(a, "A"), Assigned(a, "B")]
  {
    hide Target, Assigned, Strip;
    var two, one := lines[1..], lines[2..];
    assert two[1..] == one && one[1..] == [];
    assert Rewritten(one, a, {"A", "B"}) == [];
    assert {"A"} + {"B"} == {"A", "B"};
    assert Rewritten(two, a, {"A"}) == [Assigned(a, "B")] + [];
    assert {} + {"A"} == {"A"};
    assert Rewritten(lines, a, {}) == [Assigned(a, "A")] + [Assigned(a, "B")];
    assert Seen(one, a) == {"B"} && Seen(two, a) == {"B"} && Seen(lines, a) == {"A", "B"};
    AddedNothing(a.names, a, Seen(lines, a));
  }

  lemma BrokenPieces()
    ensures Pieces(FormatLine("A", [0x85 as char] + "B=x")) == ["A=\"", "B=x\""]
  {
    hide Pieces, EscapeAll;
    var c, rest := 0x85 as char, "B=x";
    PlainEscapes(rest);
    EscapeStep([c] + rest);
    assert ([c] + rest)[1..] == rest && Escape(c) == [c];
    assert FormatLine("A", [c] + rest) == "A=\"" + ([c] + "B=x\"");
    HeadNoBreak("A");
    assert "A" + "=\"" == "A=\"";
    PiecesAt("A=\"", c, "B=x\"");
    PiecesWhole("B=x\"");
  }

  lemma PlainEscapes(s: string)
    requires s == "B=x"
    ensures EscapeAll(s) == s
  {
    assert s[1..] == "=x" && s[2..] == "x" && "=x"[1..] == "x" && "x"[1..] == "";
    assert EscapeAll("x") == "x";
    assert EscapeAll("=x") == "=x";
  }

  /** Without that condition a broken value can be stable: here its second piece assigns the other name, so each rendering puts
      both lines back as they were. */
  lemma BrokenButStable()
    ensures var broken := [0x85 as char] + "B=x";
            var a := Assignments(["A", "B"], map["A" := broken, "B" := "y"]);
            && a.Valid() && !NoWideBreak(broken)
            && RenderedText(RenderedText("", a), a) == RenderedText("", a)
  {
    var broken := [0x85 as char] + "B=x";
    var a := Assignments(["A", "B"], map["A" := broken, "B" := "y"]);
    assert IsKey("A") && IsKey("B") && ValidValue(broken) && ValidValue("y") && IsWideBreak(broken[0]);
    hide ParseLine, Pieces, SplitLines, Unlines, FormatLine, Rendered, IsKey, ValidValue, IsWideBreak;
    NothingSplits();
    RenderedNothing(a);
    RenderedPieces("", a);
    var la, lb := Assigned(a, "A"), Assigned(a, "B");
    BrokenPieces();
    YWhole();
    var rendered := [la, lb];
    assert rendered[1..] == [lb] && [lb][1..] == [];
    var lines := ["A=\"", "B=x\"", lb];
    assert AllPieces([lb]) == [lb];
    assert AllPieces(rendered) == lines;
    QuoteReads();
    AssignedReadsBack(a, "B");
    RenderedAgain(lines, a);
  }

  lemma NothingSplits()
    ensures SplitLines("") == []
  {
  }

  lemma YWhole()
    ensures Pieces(FormatLine("B", "y")) == [FormatLine("B", "y")]
  {
    hide Pieces, FormatLine;
    assert NoWideBreak("y") && IsKey("B");
    FormatBreaks("B", "y");
    PiecesWhole(FormatLine("B", "y"));
  }

  // ----- the rewriting loop and its report

  datatype Change = IsAdded | IsUpdated | IsUnchanged

  /** The values the old lines give a name, in order. */
  function OldValues(lines: seq<string>, name: string): seq<string> {
    if lines == [] then []
    else
      OldValues(lines[..|lines| - 1], name)
      + match ParseLine(lines[|lines| - 1])
        case Success(Some(pair)) => if pair.0 == name then [pair.1] else []
        case _ => []
  }

  function ChangeOf(lines: seq<string>, a: Assignments, name: string): Change
    requires name in a.values
  {
    if OldValues(lines, name) == [] then IsAdded
    else if OldValues(lines, name) == [a.values[name]] then IsUnchanged
    else IsUpdated
  }

  function Changed(names: seq<string>, lines: seq<string>, a: Assignments, change: Change): seq<string> {
    if names == [] then []
    else
      (if names[0] in a.values && ChangeOf(lines, a, names[0]) == change then [names[0]] else [])
      + Changed(names[1..], lines, a, change)
  }

  lemma {:induction false} SeenAppend(x: seq<string>, y: seq<string>, a: Assignments)
    ensures Seen(x + y, a) == Seen(x, a) + Seen(y, a)
  {
    if x == [] {
      assert x + y == y;
    } else {
      assert (x + y)[1..] == x[1..] + y;
      SeenAppend(x[1..], y, a);
    }
  }

  lemma {:induction false} SeenHasValues(lines: seq<string>, a: Assignments, name: string)
    requires name in a.values
    ensures name in Seen(lines, a) <==> OldValues(lines, name) != []
  {
    hide ParseLine;
    if lines != [] {
      var front, last := lines[..|lines| - 1], [lines[|lines| - 1]];
      assert lines == front + last && last[1..] == [];
      SeenHasValues(front, a, name);
      SeenAppend(front, last, a);
    }
  }

  /** The rewriting step of the loop: what one old line becomes. */
  method RewriteLine(line: string, a: Assignments, seen: set<string>)
    returns (out: seq<string>, seen': set<string>, value: Option<(string, string)>)
    ensures seen' == seen + Seen([line], a)
    ensures forall rest :: out + Rewritten(rest, a, seen') == Rewritten([line] + rest, a, seen)
    ensures value == if Target(line, a).Some? then ParseLine(line).value else None
  {
    hide Rewritten;
    var parsed := ParseLine(line);
    RewrittenSteps(line, a, seen);
    SeenOne(line, a);
    if parsed.Success? && parsed.value.Some? && parsed.value.value.0 in a.values {
      var name := parsed.value.value.0;
      out := if name in seen then [] else [FormatLine(name, a.values[name])];
      return out, seen + {name}, parsed.value;
    }
    return [line], seen, None;
  }

  lemma SeenOne(line: string, a: Assignments)
    ensures Seen([line], a) == if Target(line, a).Some? then {Target(line, a).value} else {}
  {
    hide Target;
    assert [line][1..] == [];
  }

  lemma RewrittenSteps(line: string, a: Assignments, seen: set<string>)
    ensures forall rest :: Rewritten([line] + rest, a, seen) ==
              match Target(line, a)
              case None => [line] + Rewritten(rest, a, seen)
              case Some(name) => (if name in seen then [] else [Assigned(a, name)]) + Rewritten(rest, a, seen + {name})
  {
    hide ParseLine;
    forall rest ensures Rewritten([line] + rest, a, seen) ==
              match Target(line, a)
              case None => [line] + Rewritten(rest, a, seen)
              case Some(name) => (if name in seen then [] else [Assigned(a, name)]) + Rewritten(rest, a, seen + {name})
    {
      assert ([line] + rest)[1..] == rest;
    }
  }

  ghost predicate Recorded(old': map<string, seq<string>>, lines: seq<string>, a: Assignments) {
    forall name :: name in a.values ==>
      OldValues(lines, name) == if name in old' then old'[name] else []
  }

  lemma RecordStep(old': map<string, seq<string>>, lines: seq<string>, line: string, a: Assignments)
    requires Recorded(old', lines, a)
    ensures Target(line, a).None? ==> Recorded(old', lines + [line], a)
    ensures Target(line, a).Some? ==>
              var (name, value) := ParseLine(line).value.value;
              Recorded(old'[name := (if name in old' then old'[name] else []) + [value]], lines + [line], a)
  {
    hide ParseLine;
    assert (lines + [line])[..|lines|] == lines;
  }

  /** The main loop of `_render_project_env_update`. */
  method RewriteLines(lines: seq<string>, a: Assignments)
    returns (rendered: seq<string>, seen: set<string>, oldValues: map<string, seq<string>>)
    ensures rendered == Rewritten(lines, a, {}) && seen == Seen(lines, a) && Recorded(oldValues, lines, a)
  {
    hide ParseLine, Rewritten, Target, Seen;
    rendered, seen, oldValues := [], {}, map[];
    SeenNothing(a);
    assert lines[..0] == [] && lines[0..] == lines;
    assert [] + Rewritten(lines, a, {}) == Rewritten(lines, a, {});
    var i := 0;
    while i < |lines|
      invariant 0 <= i <= |lines|
      invariant rendered + Rewritten(lines[i..], a, seen) == Rewritten(lines, a, {})
      invariant seen == Seen(lines[..i], a)
      invariant Recorded(oldValues, lines[..i], a)
    {
      var out, seen', value := RewriteLine(lines[i], a, seen);
      assert [lines[i]] + lines[i + 1..] == lines[i..];
      assert rendered + out + Rewritten(lines[i + 1..], a, seen') == rendered + (out + Rewritten(lines[i + 1..], a, seen'));
      assert lines[..i + 1] == lines[..i] + [lines[i]];
      SeenAppend(lines[..i], [lines[i]], a);
      RecordStep(oldValues, lines[..i], lines[i], a);
      if value.Some? {
        var name := value.value.0;
        oldValues := oldValues[name := (if name in oldValues then oldValues[name] else []) + [value.value.1]];
      }
      rendered, seen := rendered + out, seen';
      i := i + 1;
    }
    assert lines[i..] == [] && lines[..i] == lines;
    RewrittenNothing(a, seen);
  }

  lemma SeenNothing(a: Assignments)
    ensures Seen([], a) == {} && Recorded(map[], [], a)
  {
  }

  lemma RewrittenNothing(a: Assignments, seen: set<string>)
    ensures Rewritten([], a, seen) == []
  {
  }

  /** How the loop's variables decide a name's change. */
  lemma ChangeDecided(lines: seq<string>, a: Assignments, seen: set<string>, old': map<string, seq<string>>, name: string)
    requires name in a.values && seen == Seen(lines, a) && Recorded(old', lines, a)
    ensures name !in seen <==> ChangeOf(lines, a, name) == IsAdded
    ensures name in seen ==> name in old'
    ensures name in seen ==>
              (|old'[name]| != 1 || old'[name][0] != a.values[name] <==> ChangeOf(lines, a, name) == IsUpdated)
  {
    hide ParseLine;
    SeenHasValues(lines, a, name);
  }

  lemma ChangedStep(names: seq<string>, i: nat, lines: seq<string>, a: Assignments)
    requires i < |names| && names[i] in a.values
    ensures forall c: Change :: Changed(names[i..], lines, a, c)
              == (if ChangeOf(lines, a, names[i]) == c then [names[i]] else []) + Changed(names[i + 1..], lines, a, c)
  {
    hide ChangeOf;
    assert names[i..][1..] == names[i + 1..];
  }

  lemma AddedStep(names: seq<string>, i: nat, a: Assignments, seen: set<string>)
    requires i < |names| && names[i] in a.values
    ensures Added(names[i..], a, seen) == (if names[i] in seen then [] else [Assigned(a, names[i])]) + Added(names[i + 1..], a, seen)
  {
    hide Assigned;
    assert names[i..][1..] == names[i + 1..];
    assert [] + Added(names[i + 1..], a, seen) == Added(names[i + 1..], a, seen);
  }

  /** The added names' new lines. */
  method AddedLinesOf(a: Assignments, seen: set<string>) returns (newLines: seq<string>)
    requires a.Valid()
    ensures newLines == Added(a.names, a, seen)
  {
    hide Added, FormatLine, IsKey, ValidValue, Distinct;
    newLines := [];
    assert a.names[0..] == a.names && [] + Added(a.names, a, seen) == Added(a.names, a, seen);
    var i := 0;
    while i < |a.names|
      invariant 0 <= i <= |a.names|
      invariant newLines + Added(a.names[i..], a, seen) == Added(a.names, a, seen)
    {
      var name := a.names[i];
      assert name in a.names;
      AddedStep(a.names, i, a, seen);
      ghost var rest := Added(a.names[i + 1..], a, seen);
      if name !in seen {
        var line := FormatLine(name, a.values[name]);
        assert newLines + ([line] + rest) == newLines + [line] + rest;
        newLines := newLines + [line];
      } else {
        assert [] + rest == rest;
      }
      i := i + 1;
    }
    assert a.names[i..] == [];
    AddedNothing([], a, seen);
  }

  /** The report: updated, added and unchanged names, each in the order of the names. */
  method ListChanges(lines: seq<string>, a: Assignments, seen: set<string>, oldValues: map<string, seq<string>>)
    returns (updated: seq<string>, added: seq<string>, same: seq<string>)
    requires a.Valid() && seen == Seen(lines, a) && Recorded(oldValues, lines, a)
    ensures updated == Changed(a.names, lines, a, IsUpdated)
    ensures added == Changed(a.names, lines, a, IsAdded)
    ensures same == Changed(a.names, lines, a, IsUnchanged)
  {
    hide Changed, ChangeOf, Recorded, Seen, ParseLine, IsKey, ValidValue, Distinct, OldValues;
    updated, added, same := [], [], [];
    assert a.names[0..] == a.names;
    var i := 0;
    while i < |a.names|
      invariant 0 <= i <= |a.names|
      invariant added + Changed(a.names[i..], lines, a, IsAdded) == Changed(a.names, lines, a, IsAdded)
      invariant updated + Changed(a.names[i..], lines, a, IsUpdated) == Changed(a.names, lines, a, IsUpdated)
      invariant same + Changed(a.names[i..], lines, a, IsUnchanged) == Changed(a.names, lines, a, IsUnchanged)
    {
      var name := a.names[i];
      assert name in a.names;
      ChangeDecided(lines, a, seen, oldValues, name);
      ChangedStep(a.names, i, lines, a);
      if name !in seen {
        added := added + [name];
      } else if |oldValues[name]| != 1 || oldValues[name][0] != a.values[name] {
        updated := updated + [name];
      } else {
        same := same + [name];
      }
      i := i + 1;
    }
    assert a.names[i..] == [];
    ChangedNothing(lines, a);
  }

  lemma ChangedNothing(lines: seq<string>, a: Assignments)
    ensures forall c: Change :: Changed([], lines, a, c) == []
  {
  }

  /** `_render_project_env_update`: the new text, and which names were updated, added or left as they were. */
  method RenderProjectEnvUpdate(text: string, a: Assignments)
    returns (r: string, updated: seq<string>, added: seq<string>, same: seq<string>)
    requires a.Valid()
    ensures r == RenderedText(text, a)
    ensures updated == Changed(a.names, SplitLines(text), a, IsUpdated)
    ensures added == Changed(a.names, SplitLines(text), a, IsAdded)
    ensures same == Changed(a.names, SplitLines(text), a, IsUnchanged)
  {
    hide ParseLine, FormatLine, IsKey, Strip, Rewritten, SplitLines, Changed, Added, Seen;
    var lines := SplitLines(text);
    var rendered, seen, oldValues := RewriteLines(lines, a);
    var newLines := AddedLinesOf(a, seen);
    updated, added, same := ListChanges(lines, a, seen, oldValues);
    ghost var rewritten := rendered;
    if newLines != [] && rendered != [] && Strip(rendered[|rendered| - 1]) != "" {
      rendered := rendered + [""];
    }
    assert rewritten + [] == rewritten;
    assert rendered == rewritten + Gap(rewritten, newLines);
    rendered := rendered + newLines;
    r := Unlines(rendered);
  }

  /** Every name is in exactly one of the three lists, and they keep the order of the names. */
  lemma {:induction false} ChangesPartition(names: seq<string>, lines: seq<string>, a: Assignments)
    requires forall n :: n in names ==> n in a.values
    ensures multiset(Changed(names, lines, a, IsUpdated)) + multiset(Changed(names, lines, a, IsAdded))
            + multiset(Changed(names, lines, a, IsUnchanged)) == multiset(names)
  {
    hide OldValues;
    if names != [] {
      assert names == [names[0]] + names[1..] && names[0] in names;
      assert forall n :: n in names[1..] ==> n in names;
      ChangesPartition(names[1..], lines, a);
    }
  }

  lemma {:induction false} ValuesOfLines(lines: seq<string>, a: Assignments, name: string)
    requires name in a.values
    ensures |OldValues(lines, name)| == |LinesOf(lines, a, name)|
    ensures forall k :: 0 <= k < |LinesOf(lines, a, name)| ==>
              ParseLine(LinesOf(lines, a, name)[k]) == Success(Some((name, OldValues(lines, name)[k])))
  {
    hide ParseLine;
    if lines != [] {
      var front, last := lines[..|lines| - 1], [lines[|lines| - 1]];
      assert lines == front + last && last[1..] == [];
      ValuesOfLines(front, a, name);
      LinesOfAppend(front, last, a, name);
      assert LinesOf(last, a, name) == if Target(last[0], a) == Some(name) then [last[0]] else [];
    }
  }

  /** After rewriting, a second rewriting finds every name unchanged. */
  lemma SecondTimeUnchanged(lines: seq<string>, a: Assignments, name: string)
    requires a.Valid() && name in a.values
    ensures ChangeOf(Rendered(lines, a), a, name) == IsUnchanged
  {
    hide ParseLine, FormatLine, IsKey, Rendered;
    RenderedLines(lines, a, name);
    ValuesOfLines(Rendered(lines, a), a, name);
    AssignedReadsBack(a, name);
  }
}
