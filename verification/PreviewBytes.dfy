/** What the preview's byte counts, surrogate checks and snapshot mean, by UTF-8 and UTF-16 themselves. */
module PreviewBytes {
  import opened PreviewText

  // ----- UTF-8 (section 3 of RFC 3629)

  predicate Continues(b: int) {
    0x80 <= b <= 0xBF
  }

  /** These bytes encode c: one byte for ASCII, else a leading byte and continuation bytes of six bits each, no longer than needed. */
  predicate Encodes(bytes: seq<int>, c: CodePoint) {
    || (|bytes| == 1 && 0 <= bytes[0] <= 0x7F && c == bytes[0])
    || (|bytes| == 2 && 0xC2 <= bytes[0] <= 0xDF && Continues(bytes[1]) && c == (bytes[0] - 0xC0) * 64 + (bytes[1] - 0x80))
    || (|bytes| == 3 && 0xE0 <= bytes[0] <= 0xEF && Continues(bytes[1]) && Continues(bytes[2]) && c >= 0x800
        && c == ((bytes[0] - 0xE0) * 64 + (bytes[1] - 0x80)) * 64 + (bytes[2] - 0x80))
    || (|bytes| == 4 && 0xF0 <= bytes[0] <= 0xF4 && Continues(bytes[1]) && Continues(bytes[2]) && Continues(bytes[3])
        && c >= 0x10000
        && c == (((bytes[0] - 0xF0) * 64 + (bytes[1] - 0x80)) * 64 + (bytes[2] - 0x80)) * 64 + (bytes[3] - 0x80))
  }

  function Encoding(c: CodePoint): seq<int> {
    if c < 0x80 then [c]
    else if c < 0x800 then [0xC0 + c / 64, 0x80 + c % 64]
    else if c < 0x10000 then [0xE0 + c / 64 / 64, 0x80 + c / 64 % 64, 0x80 + c % 64]
    else [0xF0 + c / 64 / 64 / 64, 0x80 + c / 64 / 64 % 64, 0x80 + c / 64 % 64, 0x80 + c % 64]
  }

  /** The byte count of a character is the length of its encoding. */
  lemma BytesOfChar(c: CodePoint, bytes: seq<int>)
    requires Encodes(bytes, c)
    ensures CharBytes(c) == |bytes|
  {
  }

  lemma CharEncodes(c: CodePoint)
    ensures Encodes(Encoding(c), c)
  {
  }

  ghost predicate TextEncodes(parts: seq<seq<int>>, text: Text) {
    |parts| == |text| && forall i :: 0 <= i < |text| ==> Encodes(parts[i], text[i])
  }

  function TotalLength(parts: seq<seq<int>>): nat {
    if parts == [] then 0 else |parts[0]| + TotalLength(parts[1..])
  }

  lemma {:induction false} BytesOfText(text: Text, parts: seq<seq<int>>)
    requires TextEncodes(parts, text)
    ensures Utf8Bytes(text) == TotalLength(parts)
  {
    hide Encodes;
    if text != [] {
      BytesOfChar(text[0], parts[0]);
      assert TextEncodes(parts[1..], text[1..]);
      BytesOfText(text[1..], parts[1..]);
    }
  }

  /** A text passes if it holds no surrogate and its encoding is at most 65536 bytes long. */
  lemma PassesMeans(text: Text)
    ensures Passes(text) <==>
            && (forall c :: c in text ==> !(0xD800 <= c <= 0xDFFF))
            && exists parts :: TextEncodes(parts, text) && TotalLength(parts) <= 65536
  {
    hide Utf8Bytes, TotalLength, Encodes, Encoding;
    var parts := seq(|text|, i requires 0 <= i < |text| => Encoding(text[i]));
    forall i | 0 <= i < |text| ensures Encodes(parts[i], text[i]) {
      CharEncodes(text[i]);
    }
    assert TextEncodes(parts, text);
    BytesOfText(text, parts);
    forall others | TextEncodes(others, text) ensures TotalLength(others) == Utf8Bytes(text) {
      BytesOfText(text, others);
    }
  }

  // ----- surrogates

  predicate High(text: Text, i: int) {
    0 <= i < |text| && 0xD800 <= text[i] <= 0xDBFF
  }

  predicate Low(text: Text, i: int) {
    0 <= i < |text| && 0xDC00 <= text[i] <= 0xDFFF
  }

  /** The half at i has no other half beside it. */
  predicate IsolatedAt(text: Text, i: int) {
    (High(text, i) && !Low(text, i + 1)) || (Low(text, i) && !High(text, i - 1))
  }

  /** The scan finds a half without its other half exactly if there is one. */
  lemma {:induction false} IsolatedExactly(text: Text)
    ensures HasIsolated(text) <==> exists i :: 0 <= i < |text| && IsolatedAt(text, i)
    decreases |text|
  {
    if text != [] {
      var n := if IsHigh(text[0]) && |text| >= 2 && IsLow(text[1]) then 2 else 1;
      IsolatedExactly(text[n..]);
      assert HasIsolated(text) <==> IsolatedAt(text, 0) || HasIsolated(text[n..]);
      TailIsolated(text, n);
    }
  }

  lemma TailIsolated(text: Text, n: nat)
    requires text != [] && n == if IsHigh(text[0]) && |text| >= 2 && IsLow(text[1]) then 2 else 1
    ensures (exists i :: 0 <= i < |text| && IsolatedAt(text, i)) <==>
            IsolatedAt(text, 0) || exists i :: 0 <= i < |text[n..]| && IsolatedAt(text[n..], i)
  {
    var rest := text[n..];
    if !IsolatedAt(text, 0) {
      forall i | n <= i < |text| ensures IsolatedAt(text, i) <==> IsolatedAt(rest, i - n) {
        if i > n { SameAt(text, n, i); } else { NextAt(text, n); }
      }
      assert forall i :: 0 <= i < n ==> !IsolatedAt(text, i);
      if i :| 0 <= i < |rest| && IsolatedAt(rest, i) {
        assert IsolatedAt(text, i + n) <==> IsolatedAt(rest, i + n - n);
      }
      if i :| 0 <= i < |text| && IsolatedAt(text, i) {
        assert IsolatedAt(rest, i - n);
      }
    }
  }

  lemma NextAt(text: Text, n: nat)
    requires n < |text| && !IsolatedAt(text, 0) && n == if IsHigh(text[0]) && |text| >= 2 && IsLow(text[1]) then 2 else 1
    ensures IsolatedAt(text, n) <==> IsolatedAt(text[n..], 0)
  {
    assert text[n..][0] == text[n];
    assert n + 1 < |text| ==> text[n..][1] == text[n + 1];
  }

  lemma SameAt(text: Text, n: nat, i: nat)
    requires n < i < |text|
    ensures IsolatedAt(text, i) <==> IsolatedAt(text[n..], i - n)
  {
    var rest := text[n..];
    assert rest[i - n] == text[i] && rest[i - n - 1] == text[i - 1];
    assert i + 1 < |text| ==> rest[i - n + 1] == text[i + 1];
  }

  /** A text in UTF-16: the characters above U+FFFF as two halves. */
  function Halves(text: Text): Text {
    if text == [] then []
    else
      (if text[0] < 0x10000 then [text[0]]
       else [0xD800 + (text[0] - 0x10000) / 0x400, 0xDC00 + (text[0] - 0x10000) % 0x400])
      + Halves(text[1..])
  }

  /** Merging the pairs keeps the text's UTF-16 form. */
  lemma {:induction false} MergedHalves(text: Text)
    requires !HasIsolated(text)
    ensures Halves(Merged(text)) == Halves(text)
    decreases |text|
  {
    if text != [] {
      if IsHigh(text[0]) {
        MergedHalves(text[2..]);
        var c := Merged(text)[0];
        assert (c - 0x10000) / 0x400 == text[0] - 0xD800 && (c - 0x10000) % 0x400 == text[1] - 0xDC00;
        assert Merged(text)[1..] == Merged(text[2..]);
        assert Halves(text) == [text[0]] + ([text[1]] + Halves(text[1..][1..])) && text[1..][1..] == text[2..];
      } else {
        MergedHalves(text[1..]);
        assert Merged(text)[1..] == Merged(text[1..]);
      }
    }
  }

  // ----- the snapshot

  /** Lines are joined by one newline each. */
  lemma {:induction false} JoinLinesAppend(a: seq<Text>, b: seq<Text>)
    ensures a != [] && b != [] ==> JoinLines(a + b) == JoinLines(a) + [LF] + JoinLines(b)
    ensures |a| == 1 ==> JoinLines(a) == a[0]
    ensures a == [] ==> JoinLines(a) == []
    decreases |b|
  {
    hide JoinLines;
    NoLines();
    if |a| == 1 {
      JoinLinesPush([], a[0]);
      assert a == [] + [a[0]];
    }
    if a != [] && b != [] {
      var front, last := b[..|b| - 1], b[|b| - 1];
      assert b == front + [last];
      assert a + b == (a + front) + [last];
      JoinLinesPush(a + front, last);
      JoinLinesPush(front, last);
      if front == [] {
        assert a + front == a;
      } else {
        JoinLinesAppend(a, front);
        Regrouped(JoinLines(a), JoinLines(front), last);
      }
    }
  }

  lemma NoLines()
    ensures JoinLines([]) == []
  {
  }

  lemma Regrouped(x: Text, y: Text, z: Text)
    ensures (x + [LF] + y) + [LF] + z == x + [LF] + (y + [LF] + z)
  {
  }

  lemma JoinLinesPush(a: seq<Text>, last: Text)
    ensures JoinLines(a + [last]) == if a == [] then last else JoinLines(a) + [LF] + last
  {
    assert (a + [last])[..|a|] == a;
  }

  /** Stripping takes off the leading newlines and nothing else. */
  lemma {:induction false} LeadingNewlines(newlines: Text, text: Text)
    requires (forall i :: 0 <= i < |newlines| ==> newlines[i] == 0x0A) && (text == [] || text[0] != 0x0A)
    ensures StripLeadingNewlines(newlines + text) == text
    decreases |newlines|
  {
    if newlines == [] {
      assert newlines + text == text;
    } else {
      assert (newlines + text)[1..] == newlines[1..] + text;
      LeadingNewlines(newlines[1..], text);
    }
  }
}
