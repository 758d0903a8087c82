/** Text as the preview of pony/agent/streaming.py cuts it: lines, what is left open behind them, what can be encoded. */
module PreviewText {
  const MAX_PREVIEW_LINE_BYTES := 64 * 1024

  /** Python's characters: surrogates count among them, on their own or as the two halves of a pair. */
  type CodePoint = n: int | 0 <= n < 0x110000

  type Text = seq<CodePoint>

  const LF: CodePoint := 0x0A
  const CR: CodePoint := 0x0D

  // ----- splitting a text into lines, without deltas

  datatype Boundary = NoBoundary | At(lineEnd: nat, delimiterEnd: nat)

  /** The first complete line end at or after `from`: LF, CR LF, or a CR that is not the last character. */
  function FirstBoundary(text: Text, from: nat): (b: Boundary)
    requires from <= |text|
    ensures b.At? ==> from <= b.lineEnd < b.delimiterEnd <= |text|
    decreases |text| - from
  {
    if from == |text| then NoBoundary
    else if text[from] == LF then At(from, from + 1)
    else if text[from] != CR then FirstBoundary(text, from + 1)
    else if from + 1 == |text| then NoBoundary
    else At(from, if text[from + 1] == LF then from + 2 else from + 1)
  }

  /** The complete lines of a text, and what is left behind them. */
  function Lines(text: Text): seq<Text>
    decreases |text|
  {
    match FirstBoundary(text, 0)
    case NoBoundary => []
    case At(lineEnd, delimiterEnd) => [text[..lineEnd]] + Lines(text[delimiterEnd..])
  }

  function Residue(text: Text): Text
    decreases |text|
  {
    match FirstBoundary(text, 0)
    case NoBoundary => text
    case At(_, delimiterEnd) => Residue(text[delimiterEnd..])
  }

  /** A line end stays where it is when more text arrives. */
  lemma {:induction false} BoundaryStays(text: Text, more: Text, from: nat)
    requires from <= |text| && FirstBoundary(text, from).At?
    ensures FirstBoundary(text + more, from) == FirstBoundary(text, from)
    decreases |text| - from
  {
    if text[from] != LF && text[from] != CR {
      BoundaryStays(text, more, from + 1);
    }
  }

  /** One line more. */
  lemma SplitStep(text: Text, b: Boundary)
    requires FirstBoundary(text, 0) == b && b.At?
    ensures Lines(text) == [text[..b.lineEnd]] + Lines(text[b.delimiterEnd..])
    ensures Residue(text) == Residue(text[b.delimiterEnd..])
  {
    hide FirstBoundary;
  }

  lemma SplitOpen(text: Text)
    requires FirstBoundary(text, 0).NoBoundary?
    ensures Lines(text) == [] && Residue(text) == text
  {
    hide FirstBoundary;
  }

  /** MAIN RESULT: splitting may stop and resume anywhere; the residue is all it has to remember. */
  lemma {:induction false} SplitResumes(text: Text, more: Text)
    ensures Lines(text + more) == Lines(text) + Lines(Residue(text) + more)
    ensures Residue(text + more) == Residue(Residue(text) + more)
    decreases |text|
  {
    hide FirstBoundary, Lines, Residue;
    var b := FirstBoundary(text, 0);
    if b.NoBoundary? {
      SplitOpen(text);
    } else {
      BoundaryStays(text, more, 0);
      var rest := text[b.delimiterEnd..];
      assert (text + more)[b.delimiterEnd..] == rest + more;
      assert (text + more)[..b.lineEnd] == text[..b.lineEnd];
      SplitStep(text, b);
      SplitStep(text + more, b);
      SplitResumes(rest, more);
    }
  }

  function Joined(deltas: seq<Text>): Text {
    if deltas == [] then [] else Joined(deltas[..|deltas| - 1]) + deltas[|deltas| - 1]
  }

  /** The splitting as the deltas drive it: lines so far and the buffer. */
  function Fed(deltas: seq<Text>): (seq<Text>, Text) {
    if deltas == [] then ([], [])
    else
      var (lines, buffer) := Fed(deltas[..|deltas| - 1]);
      var text := buffer + deltas[|deltas| - 1];
      (lines + Lines(text), Residue(text))
  }

  lemma {:induction false} FedIsSplit(deltas: seq<Text>)
    ensures Fed(deltas) == (Lines(Joined(deltas)), Residue(Joined(deltas)))
  {
    if deltas != [] {
      FedIsSplit(deltas[..|deltas| - 1]);
      SplitResumes(Joined(deltas[..|deltas| - 1]), deltas[|deltas| - 1]);
    }
  }

  /** However the same text is cut into deltas, the released lines and the buffer are the same. */
  lemma ChunkingIrrelevant(deltas: seq<Text>, others: seq<Text>)
    requires Joined(deltas) == Joined(others)
    ensures Fed(deltas) == Fed(others)
  {
    FedIsSplit(deltas);
    FedIsSplit(others);
  }

  // ----- no character is lost

  /** A text with all its complete line ends written as LF. */
  function Unlined(lines: seq<Text>, residue: Text): Text {
    if lines == [] then residue else lines[0] + [LF] + Unlined(lines[1..], residue)
  }

  /** Universal newlines, except that a trailing CR is kept for what may follow it. */
  function Normalised(text: Text): Text {
    if text == [] then []
    else if text[0] != CR then [text[0]] + Normalised(text[1..])
    else if |text| == 1 then [CR]
    else if text[1] == LF then [LF] + Normalised(text[2..])
    else [LF] + Normalised(text[1..])
  }

  lemma {:induction false} NormalisedUpTo(text: Text, from: nat)
    requires from <= |text|
    ensures match FirstBoundary(text, from)
            case NoBoundary => Normalised(text[from..]) == text[from..]
            case At(lineEnd, delimiterEnd) =>
              Normalised(text[from..]) == text[from..lineEnd] + [LF] + Normalised(text[delimiterEnd..])
    decreases |text| - from
  {
    if from < |text| {
      if text[from] == LF || text[from] == CR {
        NormalisedAtBreak(text, from);
      } else {
        NormalisedUpTo(text, from + 1);
        NormalisedPlain(text, from);
        var b := FirstBoundary(text, from);
        if b.At? {
          assert text[from..b.lineEnd] == [text[from]] + text[from + 1..b.lineEnd];
        }
      }
    }
  }

  lemma NormalisedAtBreak(text: Text, from: nat)
    requires from < |text| && (text[from] == LF || text[from] == CR)
    ensures var b := FirstBoundary(text, from);
            Normalised(text[from..]) ==
              if b.NoBoundary? then text[from..] else text[from..b.lineEnd] + [LF] + Normalised(text[b.delimiterEnd..])
  {
    var rest := text[from..];
    assert rest[1..] == text[from + 1..] && text[from..from] == [];
    if |rest| >= 2 { assert rest[2..] == text[from + 2..]; }
  }

  lemma NormalisedPlain(text: Text, from: nat)
    requires from < |text| && text[from] != CR
    ensures Normalised(text[from..]) == [text[from]] + Normalised(text[from + 1..])
    ensures text[from..] == [text[from]] + text[from + 1..]
  {
    assert text[from..][1..] == text[from + 1..];
  }

  /** Released lines and buffer are the text itself with its line ends unified, and no line holds a line end. */
  lemma {:induction false} NothingLost(text: Text)
    ensures Unlined(Lines(text), Residue(text)) == Normalised(text)
    ensures forall k :: 0 <= k < |Lines(text)| ==> LF !in Lines(text)[k] && CR !in Lines(text)[k]
    decreases |text|
  {
    NormalisedUpTo(text, 0);
    assert text[0..] == text;
    match FirstBoundary(text, 0)
    case NoBoundary =>
    case At(lineEnd, delimiterEnd) =>
      NothingLost(text[delimiterEnd..]);
      CleanBefore(text, 0);
      assert Lines(text)[1..] == Lines(text[delimiterEnd..]);
  }

  lemma {:induction false} CleanBefore(text: Text, from: nat)
    requires from <= |text| && FirstBoundary(text, from).At?
    ensures forall i :: from <= i < FirstBoundary(text, from).lineEnd ==> text[i] != LF && text[i] != CR
    decreases |text| - from
  {
    if text[from] != LF && text[from] != CR {
      CleanBefore(text, from + 1);
    }
  }

  // ----- the snapshot

  function StripLeadingNewlines(text: Text): Text {
    if text != [] && text[0] == LF then StripLeadingNewlines(text[1..]) else text
  }

  function JoinLines(lines: seq<Text>): Text {
    if lines == [] then []
    else if |lines| == 1 then lines[0]
    else JoinLines(lines[..|lines| - 1]) + [LF] + lines[|lines| - 1]
  }

  lemma {:induction false} StripBefore(text: Text, more: Text)
    ensures StripLeadingNewlines(StripLeadingNewlines(text) + [LF] + more) == StripLeadingNewlines(text + [LF] + more)
  {
    if text != [] && text[0] == LF {
      StripBefore(text[1..], more);
      assert (text + [LF] + more)[1..] == text[1..] + [LF] + more;
    }
  }

  /** Adding a line to the stripped snapshot is stripping the joined lines. */
  lemma SnapshotGrows(lines: seq<Text>, line: Text)
    ensures StripLeadingNewlines(StripLeadingNewlines(JoinLines(lines)) + [LF] + line)
         == StripLeadingNewlines(JoinLines(lines + [line]))
  {
    assert (lines + [line])[..|lines|] == lines;
    if lines == [] {
      assert ([] + [LF] + line)[1..] == line;
    } else {
      StripBefore(JoinLines(lines), line);
    }
  }

  // ----- byte limits

  function CharBytes(c: CodePoint): nat {
    if c < 0x80 then 1 else if c < 0x800 then 2 else if c < 0x10000 then 3 else 4
  }

  function Utf8Bytes(text: Text): nat {
    if text == [] then 0 else CharBytes(text[0]) + Utf8Bytes(text[1..])
  }

  lemma {:induction false} BytesAppend(a: Text, b: Text)
    ensures Utf8Bytes(a + b) == Utf8Bytes(a) + Utf8Bytes(b)
  {
    if a == [] {
      assert a + b == b;
    } else {
      assert (a + b)[1..] == a[1..] + b;
      BytesAppend(a[1..], b);
    }
  }

  /** What has no complete line end is a line so far, perhaps with one CR. */
  lemma {:induction false} OpenText(text: Text, from: nat)
    requires from <= |text| && FirstBoundary(text, from).NoBoundary?
    ensures forall i :: from <= i < |text| - 1 ==> text[i] != LF && text[i] != CR
    ensures from < |text| ==> text[|text| - 1] != LF
    decreases |text| - from
  {
    if from < |text| && text[from] != CR {
      OpenText(text, from + 1);
    }
  }

  lemma {:induction false} ResidueOpen(text: Text)
    ensures FirstBoundary(Residue(text), 0).NoBoundary?
    decreases |text|
  {
    match FirstBoundary(text, 0)
    case NoBoundary =>
    case At(_, delimiterEnd) => ResidueOpen(text[delimiterEnd..]);
  }

  /** Characters that are no line ends push the next boundary back. */
  lemma {:induction false} BoundaryAfter(text: Text, from: nat, until: nat)
    requires from <= until <= |text|
    requires forall i :: from <= i < until ==> text[i] != LF && text[i] != CR
    ensures FirstBoundary(text, from) == FirstBoundary(text, until)
    decreases until - from
  {
    if from < until {
      BoundaryAfter(text, from + 1, until);
    }
  }

  lemma PrefixBytes(text: Text, n: nat)
    requires n <= |text|
    ensures Utf8Bytes(text[..n]) <= Utf8Bytes(text)
  {
    assert text == text[..n] + text[n..];
    BytesAppend(text[..n], text[n..]);
  }

  // ----- where a delta may end

  /** Every line, and the residue, is within the limit. */
  predicate BytesWithin(text: Text) {
    && (forall k :: 0 <= k < |Lines(text)| ==> Utf8Bytes(Lines(text)[k]) <= MAX_PREVIEW_LINE_BYTES)
    && Utf8Bytes(Residue(text)) <= MAX_PREVIEW_LINE_BYTES
  }

  /** Some line of exactly the limit is closed by a CR, alone or before an LF. */
  predicate FullLineAtReturn(text: Text)
    decreases |text|
  {
    match FirstBoundary(text, 0)
    case NoBoundary => false
    case At(lineEnd, delimiterEnd) =>
      || (text[lineEnd] == CR && Utf8Bytes(text[..lineEnd]) == MAX_PREVIEW_LINE_BYTES)
      || FullLineAtReturn(text[delimiterEnd..])
  }

  /** Wherever a delta ends, the buffer it leaves is within the limit. */
  ghost predicate NeverLong(text: Text) {
    forall n :: 0 <= n <= |text| ==> Utf8Bytes(Residue(text[..n])) <= MAX_PREVIEW_LINE_BYTES
  }

  /** A text without line ends, but for one CR at its end, stays in the buffer. */
  lemma OpenStays(p: Text)
    requires forall i :: 0 <= i < |p| - 1 ==> p[i] != LF && p[i] != CR
    requires p != [] ==> p[|p| - 1] != LF
    ensures Residue(p) == p
  {
    BoundaryAfter(p, 0, if p != [] && p[|p| - 1] == CR then |p| - 1 else |p|);
  }

  /** Up to its line end, a CR included, the first line stays in the buffer. */
  lemma LinePrefix(text: Text, n: nat)
    requires FirstBoundary(text, 0).At?
    requires var lineEnd := FirstBoundary(text, 0).lineEnd; n <= lineEnd || (n == lineEnd + 1 && text[lineEnd] == CR)
    ensures Residue(text[..n]) == text[..n]
  {
    CleanBefore(text, 0);
    OpenStays(text[..n]);
  }

  lemma SameBoundary(text: Text, n: nat)
    requires FirstBoundary(text, 0).At? && n <= |text|
    requires var lineEnd := FirstBoundary(text, 0).lineEnd; n > lineEnd + 1 || (n == lineEnd + 1 && text[lineEnd] == LF)
    ensures FirstBoundary(text[..n], 0) == FirstBoundary(text, 0)
  {
    var at := FirstBoundary(text, 0).lineEnd;
    CleanBefore(text, 0);
    BoundaryAfter(text, 0, at);
    BoundaryAfter(text[..n], 0, at);
  }

  /** Behind the first line end, the buffer is that of the rest. */
  lemma PastLine(text: Text, n: nat)
    requires FirstBoundary(text, 0).At? && n <= |text|
    requires var lineEnd := FirstBoundary(text, 0).lineEnd; n > lineEnd + 1 || (n == lineEnd + 1 && text[lineEnd] == LF)
    ensures FirstBoundary(text, 0).delimiterEnd <= n
    ensures var rest := text[FirstBoundary(text, 0).delimiterEnd..];
            Residue(text[..n]) == Residue(rest[..n - FirstBoundary(text, 0).delimiterEnd])
  {
    hide FirstBoundary, Residue;
    SameBoundary(text, n);
    var at := FirstBoundary(text, 0).delimiterEnd;
    assert text[..n][at..] == text[at..][..n - at];
    SplitStep(text[..n], FirstBoundary(text, 0));
  }

  lemma OpenNeverLong(text: Text)
    requires FirstBoundary(text, 0).NoBoundary? && BytesWithin(text)
    ensures NeverLong(text)
  {
    OpenText(text, 0);
    forall n | 0 <= n <= |text| ensures Utf8Bytes(Residue(text[..n])) <= MAX_PREVIEW_LINE_BYTES {
      OpenStays(text[..n]);
      PrefixBytes(text, n);
    }
  }

  /** The bytes in the buffer while the first line arrives. */
  lemma LineBytes(text: Text, n: nat)
    requires FirstBoundary(text, 0).At?
    requires var lineEnd := FirstBoundary(text, 0).lineEnd; n <= lineEnd || (n == lineEnd + 1 && text[lineEnd] == CR)
    ensures var b := FirstBoundary(text, 0);
            if n <= b.lineEnd then Utf8Bytes(Residue(text[..n])) <= Utf8Bytes(text[..b.lineEnd])
            else Utf8Bytes(Residue(text[..n])) == Utf8Bytes(text[..b.lineEnd]) + 1
  {
    var line := text[..FirstBoundary(text, 0).lineEnd];
    LinePrefix(text, n);
    if n <= |line| {
      assert text[..n] == line[..n];
      PrefixBytes(line, n);
    } else {
      assert text[..n] == line + [CR] && [CR][1..] == [];
      BytesAppend(line, [CR]);
    }
  }

  /** One line more: it may be cut anywhere exactly if it is not a full line closed by a CR. */
  lemma FirstLineLong(text: Text)
    requires FirstBoundary(text, 0).At?
    requires Utf8Bytes(text[..FirstBoundary(text, 0).lineEnd]) <= MAX_PREVIEW_LINE_BYTES
    ensures var b := FirstBoundary(text, 0);
            NeverLong(text) <==>
              && NeverLong(text[b.delimiterEnd..])
              && !(text[b.lineEnd] == CR && Utf8Bytes(text[..b.lineEnd]) == MAX_PREVIEW_LINE_BYTES)
  {
    hide Utf8Bytes, Residue;
    var b := FirstBoundary(text, 0);
    var rest := text[b.delimiterEnd..];
    if NeverLong(text) {
      EmptyResidue();
      forall m | 0 <= m <= |rest| ensures Utf8Bytes(Residue(rest[..m])) <= MAX_PREVIEW_LINE_BYTES {
        if m == 0 { assert rest[..m] == []; } else { PastLine(text, b.delimiterEnd + m); }
      }
      if text[b.lineEnd] == CR { LineBytes(text, b.lineEnd + 1); }
    } else {
      var n :| 0 <= n <= |text| && Utf8Bytes(Residue(text[..n])) > MAX_PREVIEW_LINE_BYTES;
      if n <= b.lineEnd || (n == b.lineEnd + 1 && text[b.lineEnd] == CR) {
        LineBytes(text, n);
      } else {
        BoundaryKind(text);
        PastLine(text, n);
        assert Utf8Bytes(Residue(rest[..n - b.delimiterEnd])) > MAX_PREVIEW_LINE_BYTES;
      }
    }
  }

  lemma EmptyResidue()
    ensures Residue([]) == [] && Utf8Bytes([]) == 0
  {
  }

  /** A boundary is at an LF or a CR. */
  lemma {:induction false} BoundaryKindFrom(text: Text, from: nat)
    requires from <= |text| && FirstBoundary(text, from).At?
    ensures text[FirstBoundary(text, from).lineEnd] in {LF, CR}
    decreases |text| - from
  {
    if text[from] != LF && text[from] != CR {
      BoundaryKindFrom(text, from + 1);
    }
  }

  lemma BoundaryKind(text: Text)
    requires FirstBoundary(text, 0).At?
    ensures text[FirstBoundary(text, 0).lineEnd] in {LF, CR}
  {
    BoundaryKindFrom(text, 0);
  }

  /** Within the limit, the buffer is never too long, wherever a delta ends, exactly if none of its lines of
      exactly the limit is closed by a CR. */
  lemma {:induction false} LongExactly(text: Text)
    requires BytesWithin(text)
    ensures NeverLong(text) <==> !FullLineAtReturn(text)
    decreases |text|
  {
    hide Utf8Bytes, NeverLong;
    match FirstBoundary(text, 0)
    case NoBoundary => OpenNeverLong(text);
    case At(lineEnd, delimiterEnd) =>
      var rest := text[delimiterEnd..];
      assert Lines(text) == [text[..lineEnd]] + Lines(rest);
      assert Lines(text)[0] == text[..lineEnd];
      assert forall k :: 0 <= k < |Lines(rest)| ==> Lines(rest)[k] == Lines(text)[k + 1];
      FirstLineLong(text);
      LongExactly(rest);
  }

  // ----- surrogates

  predicate IsHigh(c: CodePoint) {
    0xD800 <= c <= 0xDBFF
  }

  predicate IsLow(c: CodePoint) {
    0xDC00 <= c <= 0xDFFF
  }

  predicate IsSurrogate(c: CodePoint) {
    IsHigh(c) || IsLow(c)
  }

  predicate NoSurrogate(text: Text) {
    forall c :: c in text ==> !IsSurrogate(c)
  }

  /** `contains_isolated_surrogate`: a half that is not one of an adjacent pair. */
  predicate HasIsolated(text: Text) {
    if text == [] then false
    else if IsHigh(text[0]) then |text| < 2 || !IsLow(text[1]) || HasIsolated(text[2..])
    else IsLow(text[0]) || HasIsolated(text[1..])
  }

  /** `normalize_surrogate_pairs` of a text without isolated halves: each pair becomes the character it stands for. */
  function Merged(text: Text): Text {
    if text == [] then []
    else if |text| >= 2 && IsHigh(text[0]) && IsLow(text[1]) then
      [0x10000 + (text[0] - 0xD800) * 0x400 + (text[1] - 0xDC00)] + Merged(text[2..])
    else [text[0]] + Merged(text[1..])
  }

  /** Merging leaves nothing that cannot be encoded. */
  lemma {:induction false} MergedEncodes(text: Text)
    requires !HasIsolated(text)
    ensures NoSurrogate(Merged(text))
  {
    if text != [] {
      MergedEncodes(if IsHigh(text[0]) then text[2..] else text[1..]);
    }
  }

  lemma {:induction false} MergedIsSame(text: Text)
    requires NoSurrogate(text)
    ensures Merged(text) == text && !HasIsolated(text)
  {
    if text != [] {
      assert text[0] in text && forall c :: c in text[1..] ==> c in text;
      MergedIsSame(text[1..]);
    }
  }

  /** What `encode` accepts and the limit allows. */
  predicate Passes(text: Text) {
    NoSurrogate(text) && Utf8Bytes(text) <= MAX_PREVIEW_LINE_BYTES
  }

  /** Every line, and the residue, is within the limit once its pairs are merged. */
  predicate WithinLimit(text: Text) {
    && (forall k :: 0 <= k < |Lines(text)| ==> Utf8Bytes(Merged(Lines(text)[k])) <= MAX_PREVIEW_LINE_BYTES)
    && Utf8Bytes(Merged(Residue(text))) <= MAX_PREVIEW_LINE_BYTES
  }

  /** Wherever a delta ends, the buffer it leaves passes the pending check. */
  ghost predicate NeverPends(text: Text) {
    forall n :: 0 <= n <= |text| ==> Passes(Residue(text[..n]))
  }

  /** What is released or kept was received. */
  lemma {:induction false} PartsReceived(text: Text)
    ensures forall k, c :: 0 <= k < |Lines(text)| && c in Lines(text)[k] ==> c in text
    ensures forall c :: c in Residue(text) ==> c in text
    decreases |text|
  {
    match FirstBoundary(text, 0)
    case NoBoundary =>
    case At(lineEnd, delimiterEnd) =>
      var rest := text[delimiterEnd..];
      PartsReceived(rest);
      assert Lines(text) == [text[..lineEnd]] + Lines(rest);
      assert forall c :: c in rest ==> c in text;
  }

  /** A text that ends in a surrogate still holds it in the buffer. */
  lemma {:induction false} SurrogateStays(text: Text)
    requires text != [] && IsSurrogate(text[|text| - 1])
    ensures !NoSurrogate(Residue(text))
    decreases |text|
  {
    var last := text[|text| - 1];
    match FirstBoundary(text, 0)
    case NoBoundary => assert last in Residue(text);
    case At(_, delimiterEnd) =>
      BoundaryEnds(text, 0);
      var rest := text[delimiterEnd..];
      assert rest != [] && rest[|rest| - 1] == last;
      SurrogateStays(rest);
  }

  /** A line end ends in an LF or a CR. */
  lemma {:induction false} BoundaryEnds(text: Text, from: nat)
    requires from <= |text| && FirstBoundary(text, from).At?
    ensures text[FirstBoundary(text, from).delimiterEnd - 1] in {LF, CR}
    decreases |text| - from
  {
    if text[from] != LF && text[from] != CR {
      BoundaryEnds(text, from + 1);
    }
  }

  /** Cut right behind a surrogate, a text leaves it in the buffer. */
  lemma SurrogatePends(text: Text, i: nat)
    requires i < |text| && IsSurrogate(text[i])
    ensures !NeverPends(text)
  {
    hide Residue, Utf8Bytes;
    var p := text[..i + 1];
    assert p[|p| - 1] == text[i];
    SurrogateStays(p);
    assert !Passes(Residue(p));
  }

  lemma NoSurrogatePends(text: Text)
    requires NoSurrogate(text)
    ensures NeverPends(text) <==> NeverLong(text)
  {
    hide Residue, Utf8Bytes;
    forall n | 0 <= n <= |text| ensures NoSurrogate(Residue(text[..n])) {
      PartsReceived(text[..n]);
      assert forall c :: c in text[..n] ==> c in text;
    }
  }

  /** Without surrogates merging changes no line. */
  lemma PlainWithin(text: Text)
    requires NoSurrogate(text) && WithinLimit(text)
    ensures BytesWithin(text)
  {
    hide Utf8Bytes, Lines, Residue, Merged;
    PartsReceived(text);
    forall k | 0 <= k < |Lines(text)| ensures Utf8Bytes(Lines(text)[k]) <= MAX_PREVIEW_LINE_BYTES {
      MergedIsSame(Lines(text)[k]);
    }
    MergedIsSame(Residue(text));
  }

  /** MAIN RESULT: a text within the limit passes the pending check wherever its deltas end exactly if it holds no surrogate,
      not even in a valid pair, and none of its lines of exactly the limit is closed by a CR. */
  lemma PendsExactly(text: Text)
    requires WithinLimit(text)
    ensures NeverPends(text) <==> NoSurrogate(text) && !FullLineAtReturn(text)
  {
    hide WithinLimit, BytesWithin, NeverPends, NeverLong, FullLineAtReturn, IsSurrogate;
    if NoSurrogate(text) {
      NoSurrogatePends(text);
      PlainWithin(text);
      LongExactly(text);
    } else {
      var i :| 0 <= i < |text| && IsSurrogate(text[i]);
      SurrogatePends(text, i);
    }
  }

  function Repeated(c: CodePoint, n: nat): (text: Text)
    ensures |text| == n && forall i :: 0 <= i < n ==> text[i] == c
  {
    seq(n, i => c)
  }

  lemma {:induction false} RepeatedBytes(c: CodePoint, n: nat)
    requires c < 0x80
    ensures Utf8Bytes(Repeated(c, n)) == n
  {
    if n > 0 {
      assert Repeated(c, n)[1..] == Repeated(c, n - 1);
      RepeatedBytes(c, n - 1);
    }
  }
}
