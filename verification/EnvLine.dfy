/** One line of a `.env` file, as pony/config/environment.py reads and writes it. */
module EnvLine {
  import opened Common

  // ----- characters

  /** What `str.strip` and `str.isspace` take for white space. */
  predicate IsSpace(c: char) {
    var n := c as int;
    || 0x09 <= n <= 0x0D || 0x1C <= n <= 0x20 || n == 0x85 || n == 0xA0 || n == 0x1680
    || 0x2000 <= n <= 0x200A || n == 0x2028 || n == 0x2029 || n == 0x202F || n == 0x205F || n == 0x3000
  }

  /** What `str.splitlines` takes for a line end. */
  predicate IsLineBreak(c: char) {
    var n := c as int;
    0x0A <= n <= 0x0D || 0x1C <= n <= 0x1E || n == 0x85 || n == 0x2028 || n == 0x2029
  }

  function LStrip(s: string): (r: string)
    ensures |r| <= |s| && r == s[|s| - |r|..]
    ensures r == "" || !IsSpace(r[0])
  {
    if s != "" && IsSpace(s[0]) then LStrip(s[1..]) else s
  }

  function RStrip(s: string): (r: string)
    ensures r <= s
    ensures r == "" || !IsSpace(r[|r| - 1])
  {
    if s != "" && IsSpace(s[|s| - 1]) then RStrip(s[..|s| - 1]) else s
  }

  function Strip(s: string): string {
    RStrip(LStrip(s))
  }

  function IndexOf(s: string, c: char): (i: nat)
    ensures i <= |s| && (forall k :: 0 <= k < i ==> s[k] != c) && (i < |s| ==> s[i] == c)
  {
    if s == "" || s[0] == c then 0 else
      1 + IndexOf(s[1..], c)
  }

  predicate IsKeyStart(c: char) {
    'a' <= c <= 'z' || 'A' <= c <= 'Z' || c == '_'
  }

  predicate IsKeyChar(c: char) {
    IsKeyStart(c) || '0' <= c <= '9'
  }

  predicate IsKey(name: string) {
    name != "" && IsKeyStart(name[0]) && forall i :: 0 <= i < |name| ==> IsKeyChar(name[i])
  }

  predicate ValidValue(value: string) {
    forall i :: 0 <= i < |value| ==> value[i] != '\0' && value[i] != '\r' && value[i] != '\n'
  }

  // ----- JSON strings (section 7 of RFC 8259)

  function HexDigit(n: nat): (c: char)
    requires n < 16
    ensures HexValue(c) == Some(n)
  {
    if n < 10 then '0' + n as char else 'a' + (n - 10) as char
  }

  function HexValue(c: char): Option<nat> {
    if '0' <= c <= '9' then Some((c - '0') as nat)
    else if 'a' <= c <= 'f' then Some((c - 'a') as nat + 10)
    else if 'A' <= c <= 'F' then Some((c - 'A') as nat + 10)
    else None
  }

  /** The four hexadecimal digits at the start of s. */
  function Hex4(s: string): (r: Option<nat>)
    ensures r.Some? ==> |s| >= 4 && r.value < 0x10000
  {
    if |s| < 4 || HexValue(s[0]).None? || HexValue(s[1]).None? || HexValue(s[2]).None? || HexValue(s[3]).None? then None
    else Some(HexValue(s[0]).value * 0x1000 + HexValue(s[1]).value * 0x100 + HexValue(s[2]).value * 0x10 + HexValue(s[3]).value)
  }

  /** `json.dumps(…, ensure_ascii=False)` of one character. */
  function Escape(c: char): string {
    if c == '"' then "\\\""
    else if c == '\\' then "\\\\"
    else if c == '\n' then "\\n"
    else if c == '\r' then "\\r"
    else if c == '\t' then "\\t"
    else if c as int == 0x08 then "\\b"
    else if c as int == 0x0C then "\\f"
    else if c as int < 0x20 then "\\u00" + [HexDigit(c as int / 16), HexDigit(c as int % 16)]
    else [c]
  }

  function EscapeAll(s: string): string {
    if s == "" then "" else Escape(s[0]) + EscapeAll(s[1..])
  }

  function Quoted(s: string): string {
    "\"" + EscapeAll(s) + "\""
  }

  /** One escape after a backslash: the character and how much text it takes. A lone surrogate has no character here. */
  function Unescape(s: string): (r: Option<(char, nat)>)
    ensures r.Some? ==> 1 <= r.value.1 <= |s|
  {
    if s == "" then None
    else if s[0] == '"' || s[0] == '\\' || s[0] == '/' then Some((s[0], 1))
    else if s[0] == 'n' then Some(('\n', 1))
    else if s[0] == 'r' then Some(('\r', 1))
    else if s[0] == 't' then Some(('\t', 1))
    else if s[0] == 'b' then Some((0x08 as char, 1))
    else if s[0] == 'f' then Some((0x0C as char, 1))
    else if s[0] != 'u' || Hex4(s[1..]).None? then None
    else
      var n := Hex4(s[1..]).value;
      if n < 0xD800 || 0xE000 <= n then Some((n as char, 5))
      else if n < 0xDC00 && |s| >= 11 && s[5] == '\\' && s[6] == 'u' && Hex4(s[7..]).Some? && 0xDC00 <= Hex4(s[7..]).value < 0xE000
      then Some(((0x10000 + (n - 0xD800) * 0x400 + (Hex4(s[7..]).value - 0xDC00)) as char, 11))
      else None
  }

  /** The rest of a JSON string after its opening quote: its characters, if the text ends exactly at the closing one. */
  function DecodeRest(s: string): Option<string>
    decreases |s|
  {
    if s == "" then None
    else if s[0] == '"' then (if |s| == 1 then Some("") else None)
    else if s[0] as int < 0x20 then None
    else if s[0] == '\\' then
      var e := Unescape(s[1..]);
      if e.None? then None
      else
        var tail := DecodeRest(s[1 + e.value.1..]);
        if tail.None? then None else Some([e.value.0] + tail.value)
    else
      var tail := DecodeRest(s[1..]);
      if tail.None? then None else Some([s[0]] + tail.value)
  }

  // ----- reading a line

  datatype LineError = MissingEquals | InvalidName | InvalidQuoting | ControlCharacter

  /** Where `_strip_inline_comment` cuts: the position of a '#' outside quotes at the start or after white space. */
  function CommentAt(s: string, afterSpace: bool, quote: Option<char>, escaped: bool): (at: Option<nat>)
    ensures at.Some? ==> at.value < |s| && s[at.value] == '#'
  {
    if s == "" then None
    else if escaped then Later(CommentAt(s[1..], IsSpace(s[0]), quote, false))
    else if quote == Some('"') && s[0] == '\\' then Later(CommentAt(s[1..], IsSpace(s[0]), quote, true))
    else if s[0] == '\'' || s[0] == '"' then
      Later(CommentAt(s[1..], IsSpace(s[0]), if quote.None? then Some(s[0]) else if quote.value == s[0] then None else quote, false))
    else if s[0] == '#' && quote.None? && afterSpace then Some(0)
    else Later(CommentAt(s[1..], IsSpace(s[0]), quote, false))
  }

  function Later(at: Option<nat>): Option<nat> {
    if at.Some? then Some(at.value + 1) else None
  }

  function StripInlineComment(value: string): string {
    var at := CommentAt(value, true, None, false);
    if at.None? then value else RStrip(value[..at.value])
  }

  function StripQuotes(value: string): Result<string, LineError> {
    var v := Strip(value);
    if |v| >= 2 && v[0] == '"' && v[|v| - 1] == '"' then
      var decoded := DecodeRest(v[1..]);
      if decoded.None? then Failure(InvalidQuoting) else Success(decoded.value)
    else if |v| >= 2 && v[0] == '\'' && v[|v| - 1] == '\'' then Success(v[1..|v| - 1])
    else Success(v)
  }

  const EXPORT := "export "

  /** `_parse_env_line`: nothing for a blank or comment line, else a name and its value. */
  function ParseLine(line: string): Result<Option<(string, string)>, LineError> {
    var stripped := Strip(line);
    if stripped == "" || stripped[0] == '#' then Success(None)
    else
      var body := if EXPORT <= stripped then Strip(stripped[|EXPORT|..]) else stripped;
      var at := IndexOf(body, '=');
      if at == |body| then Failure(MissingEquals)
      else
        var name := Strip(body[..at]);
        if !IsKey(name) then Failure(InvalidName)
        else
          var value := StripQuotes(StripInlineComment(body[at + 1..]));
          if value.Failure? then Failure(value.error)
          else if !ValidValue(value.value) then Failure(ControlCharacter)
          else Success(Some((name, value.value)))
  }

  /** `_format_project_env_assignment`. */
  function FormatLine(name: string, value: string): string {
    name + "=" + Quoted(value)
  }

  lemma CommentNowhere()
    ensures forall space, quote, escaped :: CommentAt("", space, quote, escaped).None?
  {
  }

  /** One character of the scan. */
  lemma CommentStep(value: string, index: nat, afterSpace: bool, quote: Option<char>, escaped: bool)
    requires index < |value|
    ensures CommentAt(value[index..], afterSpace, quote, escaped) ==
            var c, rest := value[index], value[index + 1..];
            if escaped then Later(CommentAt(rest, IsSpace(c), quote, false))
            else if quote == Some('"') && c == '\\' then Later(CommentAt(rest, IsSpace(c), quote, true))
            else if c == '\'' || c == '"' then
              Later(CommentAt(rest, IsSpace(c), if quote.None? then Some(c) else if quote.value == c then None else quote, false))
            else if c == '#' && quote.None? && afterSpace then Some(0)
            else Later(CommentAt(rest, IsSpace(c), quote, false))
  {
    hide IsSpace;
    assert value[index..][1..] == value[index + 1..];
  }

  /** `_strip_inline_comment`: the scan with its quote and escape flags. */
  method ScanInlineComment(value: string) returns (r: string)
    ensures r == StripInlineComment(value)
  {
    hide IsSpace, RStrip, CommentAt;
    CommentNowhere();
    assert value[0..] == value && value[|value|..] == "";
    var quote: Option<char> := None;
    var escaped := false;
    var index := 0;
    while index < |value|
      invariant 0 <= index <= |value|
      invariant CommentAt(value, true, None, false) ==
                var at := CommentAt(value[index..], index == 0 || IsSpace(value[index - 1]), quote, escaped);
                if at.Some? then Some(index + at.value) else None
    {
      var c := value[index];
      CommentStep(value, index, index == 0 || IsSpace(value[index - 1]), quote, escaped);
      if escaped {
        escaped := false;
      } else if quote == Some('"') && c == '\\' {
        escaped := true;
      } else if c == '\'' || c == '"' {
        if quote.None? {
          quote := Some(c);
        } else if quote.value == c {
          quote := None;
        }
      } else if c == '#' && quote.None? && (index == 0 || IsSpace(value[index - 1])) {
        return RStrip(value[..index]);
      }
      index := index + 1;
    }
    return value;
  }

  // ----- the round trip

  /** Inside double quotes an escaped text hides every '#' and quote, and leaves the scanner where it was. */
  lemma {:induction false} EscapedStaysQuoted(s: string, rest: string, afterSpace: bool)
    requires forall space :: CommentAt(rest, space, Some('"'), false).None?
    ensures CommentAt(EscapeAll(s) + rest, afterSpace, Some('"'), false).None?
    decreases |s|
  {
    if s == "" {
      assert EscapeAll(s) + rest == rest;
    } else {
      var tail := EscapeAll(s[1..]) + rest;
      forall space ensures CommentAt(tail, space, Some('"'), false).None? {
        EscapedStaysQuoted(s[1..], rest, space);
      }
      assert EscapeAll(s) + rest == Escape(s[0]) + tail;
      EscapeStaysQuoted(s[0], tail, afterSpace);
    }
  }

  lemma EscapeStaysQuoted(c: char, tail: string, afterSpace: bool)
    requires forall space :: CommentAt(tail, space, Some('"'), false).None?
    ensures CommentAt(Escape(c) + tail, afterSpace, Some('"'), false).None?
  {
    var e := Escape(c);
    var s := e + tail;
    if |e| == 1 {
      assert s[1..] == tail;
    } else if |e| == 2 {
      assert s[1..][1..] == tail && s[0] == '\\';
      assert CommentAt(s[1..], IsSpace(s[0]), Some('"'), true) == Later(CommentAt(tail, IsSpace(s[1]), Some('"'), false));
    } else {
      assert e[0] == '\\' && e[1] == 'u' && e[2] == '0' && e[3] == '0';
      PlainStaysQuoted(e[2..], tail, IsSpace('u'));
      assert s[1..][1..] == e[2..] + tail;
      assert CommentAt(s[1..], IsSpace(s[0]), Some('"'), true) == Later(CommentAt(e[2..] + tail, IsSpace('u'), Some('"'), false));
    }
  }

  /** Characters that are neither quote nor backslash change nothing inside double quotes. */
  lemma {:induction false} PlainStaysQuoted(plain: string, tail: string, afterSpace: bool)
    requires forall i :: 0 <= i < |plain| ==> plain[i] != '"' && plain[i] != '\\' && plain[i] != '\''
    requires forall space :: CommentAt(tail, space, Some('"'), false).None?
    ensures CommentAt(plain + tail, afterSpace, Some('"'), false).None?
    decreases |plain|
  {
    if plain == "" {
      assert plain + tail == tail;
    } else {
      assert (plain + tail)[1..] == plain[1..] + tail;
      PlainStaysQuoted(plain[1..], tail, IsSpace(plain[0]));
    }
  }

  lemma {:induction false} DecodeEscaped(s: string)
    ensures DecodeRest(EscapeAll(s) + "\"") == Some(s)
  {
    if s == "" {
      assert EscapeAll(s) + "\"" == "\"";
    } else {
      DecodeEscaped(s[1..]);
      var tail := EscapeAll(s[1..]) + "\"";
      assert EscapeAll(s) + "\"" == Escape(s[0]) + tail;
      DecodeEscape(s[0], tail);
      assert s == [s[0]] + s[1..];
    }
  }

  lemma DecodeEscape(c: char, tail: string)
    requires DecodeRest(tail).Some?
    ensures DecodeRest(Escape(c) + tail) == Some([c] + DecodeRest(tail).value)
  {
    var e := Escape(c);
    var s := e + tail;
    if |e| == 1 {
      assert s[1..] == tail;
    } else if |e| == 2 {
      assert s[1..][0] == e[1];
      assert s[2..] == tail;
    } else {
      assert |e| == 6;
      var digits := s[1..][1..];
      assert digits[0] == '0' && digits[1] == '0' && digits[2] == e[4] && digits[3] == e[5];
      assert Hex4(digits) == Some(c as nat);
      assert s[6..] == tail;
    }
  }

  lemma StripIdentity(s: string)
    requires s != "" && !IsSpace(s[0]) && !IsSpace(s[|s| - 1])
    ensures Strip(s) == s
  {
  }

  lemma QuotedReadsBack(value: string)
    ensures StripQuotes(StripInlineComment(Quoted(value))) == Success(value)
  {
    var q := Quoted(value);
    var rest := EscapeAll(value) + "\"";
    assert q == "\"" + rest && q[1..] == rest;
    forall space ensures CommentAt("\"", space, Some('"'), false).None? {
      assert "\""[1..] == "";
    }
    EscapedStaysQuoted(value, "\"", IsSpace('"'));
    assert CommentAt(q, true, None, false).None?;
    assert q[|q| - 1] == '"' && |q| >= 2;
    StripIdentity(q);
    DecodeEscaped(value);
  }

  lemma QuotedEnds(value: string)
    ensures |Quoted(value)| >= 2 && Quoted(value)[|Quoted(value)| - 1] == '"' && !IsSpace('"')
  {
  }

  /** A key and what follows it never look like an export line: there is no blank where that word would end. */
  lemma NotExport(name: string, tail: string)
    requires IsKey(name) && tail != "" && tail[0] == '='
    ensures !(EXPORT <= name + tail)
  {
    var line, n := name + tail, |name|;
    assert line[n] == '=';
    if n > 6 {
      assert line[6] == name[6] && IsKeyChar(name[6]);
    }
    assert EXPORT[6] == ' ' && forall i :: 0 <= i < 6 ==> EXPORT[i] != '=';
  }

  /** A formatted assignment keeps its first character and its closing quote, and does not look like an export. */
  lemma FormattedBounds(name: string, value: string)
    requires IsKey(name)
    ensures |FormatLine(name, value)| > 0 && FormatLine(name, value)[0] == name[0] != '#'
    ensures Strip(FormatLine(name, value)) == FormatLine(name, value)
    ensures !(EXPORT <= FormatLine(name, value))
  {
    hide EscapeAll, IsSpace, Quoted, Strip;
    var line, tail := FormatLine(name, value), "=" + Quoted(value);
    QuotedEnds(value);
    KeyCharNotSpace(name[0]);
    assert line == name + tail && line[0] == name[0];
    assert line[|line| - 1] == tail[|tail| - 1] == '"';
    StripIdentity(line);
    NotExport(name, tail);
  }

  lemma KeyCharNotSpace(c: char)
    ensures IsKeyChar(c) ==> !IsSpace(c) && c != '=' && c != '#'
  {
  }

  lemma KeyStripped(name: string)
    requires IsKey(name)
    ensures Strip(name) == name && '=' !in name
  {
    KeyCharNotSpace(name[0]);
    KeyCharNotSpace(name[|name| - 1]);
    StripIdentity(name);
    forall i | 0 <= i < |name| ensures name[i] != '=' {
      KeyCharNotSpace(name[i]);
    }
  }

  /** MAIN RESULT: what is written is read back, for every key and every value without NUL, CR and LF. */
  lemma LineRoundTrip(name: string, value: string)
    requires IsKey(name) && ValidValue(value)
    ensures ParseLine(FormatLine(name, value)) == Success(Some((name, value)))
  {
    hide Strip, StripQuotes, StripInlineComment, Quoted, IsKey;
    var line := FormatLine(name, value);
    FormattedBounds(name, value);
    KeyStripped(name);
    assert line[..|name|] == name && line[|name|] == '=' && line[|name| + 1..] == Quoted(value);
    assert forall k :: 0 <= k < |name| ==> line[k] == name[k] && name[k] in name;
    assert IndexOf(line, '=') == |name|;
    QuotedReadsBack(value);
  }
}
