/** The preview of pony/agent/streaming.py: text arrives in deltas, and complete lines are released
    after sanitising. Sanitising, redaction and the display are parameters. */
module Streaming {
  import opened Common
  import opened Trace
  import opened PreviewText

  // ----- the guards on a line

  function MergeAll(lines: seq<Text>): seq<Text> {
    if lines == [] then [] else MergeAll(lines[..|lines| - 1]) + [Merged(lines[|lines| - 1])]
  }

  lemma {:induction false} MergeAllIs(lines: seq<Text>)
    ensures |MergeAll(lines)| == |lines| && forall k :: 0 <= k < |lines| ==> MergeAll(lines)[k] == Merged(lines[k])
  {
    if lines != [] { MergeAllIs(lines[..|lines| - 1]); }
  }

  function SnapshotOf(lines: seq<Text>): Text {
    StripLeadingNewlines(JoinLines(MergeAll(lines)))
  }

  /** Releasing the last of these lines trips no guard: no half of a pair stands alone, and the merged line, the snapshot and
      its projection can be encoded within the limit. */
  predicate LineFits(lines: seq<Text>, project: Text -> Option<Text>)
    requires lines != []
  {
    var line, raw := lines[|lines| - 1], SnapshotOf(lines);
    && !HasIsolated(line) && Passes(Merged(line)) && Passes(raw)
    && project(raw).Some? && Passes(project(raw).value)
  }

  predicate AllFit(lines: seq<Text>, project: Text -> Option<Text>) {
    lines == [] || (AllFit(lines[..|lines| - 1], project) && LineFits(lines, project))
  }

  /** The last projection that is not empty: what is on display after these lines. */
  function LastShown(lines: seq<Text>, project: Text -> Option<Text>): Text {
    if lines == [] then []
    else
      match project(SnapshotOf(lines))
      case Some(safe) => if safe != [] then safe else LastShown(lines[..|lines| - 1], project)
      case None => []
  }

  lemma {:induction false} FitsBefore(lines: seq<Text>, more: seq<Text>, project: Text -> Option<Text>)
    requires AllFit(lines + more, project)
    ensures AllFit(lines, project)
  {
    hide LineFits;
    if more == [] {
      assert lines + more == lines;
    } else {
      assert (lines + more)[..|lines + more| - 1] == lines + more[..|more| - 1];
      FitsBefore(lines, more[..|more| - 1], project);
    }
  }

  lemma ShownFits(lines: seq<Text>, line: Text, project: Text -> Option<Text>)
    requires AllFit(lines, project)
    ensures AllFit(lines + [line], project) <==> LineFits(lines + [line], project)
    ensures LineFits(lines + [line], project) ==>
              var safe := project(SnapshotOf(lines + [line])).value;
              LastShown(lines + [line], project) == if safe != [] then safe else LastShown(lines, project)
  {
    assert (lines + [line])[..|lines|] == lines;
  }

  /** `contains_isolated_surrogate`: the scan, two steps at a time over pairs. */
  method ContainsIsolated(text: Text) returns (found: bool)
    ensures found == HasIsolated(text)
  {
    var index := 0;
    assert text[0..] == text;
    while index < |text|
      invariant 0 <= index <= |text|
      invariant HasIsolated(text) == HasIsolated(text[index..])
    {
      var rest := text[index..];
      assert rest[1..] == text[index + 1..];
      if IsHigh(text[index]) {
        if index + 1 < |text| && IsLow(text[index + 1]) {
          assert rest[2..] == text[index + 2..];
          index := index + 2;
          continue;
        }
        return true;
      }
      if IsLow(text[index]) {
        return true;
      }
      index := index + 1;
    }
    return false;
  }

  // ----- a preview fed with deltas

  /** The preview is still on after these deltas, if the display shows whatever it is given. */
  predicate StaysOn(deltas: seq<Text>, project: Text -> Option<Text>) {
    || deltas == []
    || (&& StaysOn(deltas[..|deltas| - 1], project)
        && AllFit(Lines(Joined(deltas)), project)
        && Passes(Residue(Joined(deltas))))
  }

  lemma {:induction false} FitLinesShort(lines: seq<Text>, project: Text -> Option<Text>)
    requires AllFit(lines, project)
    ensures forall k :: 0 <= k < |lines| ==> Passes(Merged(lines[k]))
  {
    hide Passes, Merged, SnapshotOf;
    if lines != [] {
      FitLinesShort(lines[..|lines| - 1], project);
    }
  }

  /** A text whose lines trip no guard, and which never pends, keeps the preview on however it is cut. */
  lemma {:induction false} CutsStayOn(deltas: seq<Text>, text: Text, project: Text -> Option<Text>)
    requires AllFit(Lines(text), project) && NeverPends(text) && Joined(deltas) <= text
    ensures StaysOn(deltas, project)
  {
    hide Lines, Residue, Utf8Bytes, AllFit;
    if deltas != [] {
      var joined := Joined(deltas);
      CutsStayOn(deltas[..|deltas| - 1], text, project);
      assert text == joined + text[|joined|..];
      SplitResumes(joined, text[|joined|..]);
      FitsBefore(Lines(joined), Lines(Residue(joined) + text[|joined|..]), project);
      assert text[..|joined|] == joined;
    }
  }

  /** The text uncut, and cut in two, as deltas. */
  lemma OneDelta(text: Text, project: Text -> Option<Text>)
    ensures Joined([text]) == text
    ensures StaysOn([text], project) <==> AllFit(Lines(text), project) && Passes(Residue(text))
  {
    hide Lines, Residue, Utf8Bytes, AllFit;
    assert [text][..0] == [] && [] + text == text;
  }

  lemma TwoDeltas(a: Text, b: Text, project: Text -> Option<Text>)
    ensures Joined([a, b]) == a + b
    ensures StaysOn([a, b], project) ==> Passes(Residue(a))
  {
    hide Lines, Residue, Utf8Bytes, AllFit;
    OneDelta(a, project);
    assert [a, b][..1] == [a];
  }

  lemma FittingIsWithin(text: Text, project: Text -> Option<Text>)
    requires AllFit(Lines(text), project) && Passes(Residue(text))
    ensures WithinLimit(text)
  {
    hide Utf8Bytes, Merged, Lines, Residue, AllFit;
    FitLinesShort(Lines(text), project);
    MergedIsSame(Residue(text));
  }

  /** MAIN RESULT: a text keeps the preview on however it is cut exactly if its lines trip no guard, its open line can be encoded
      within the limit, it holds no surrogate, and no full line of it is closed by a CR. */
  lemma EveryCutStaysOn(text: Text, project: Text -> Option<Text>)
    ensures (forall deltas: seq<Text> :: Joined(deltas) == text ==> StaysOn(deltas, project)) <==>
              && AllFit(Lines(text), project) && Passes(Residue(text))
              && NoSurrogate(text) && !FullLineAtReturn(text)
  {
    hide Lines, Residue, Passes, AllFit, FullLineAtReturn, Joined, StaysOn, NoSurrogate, WithinLimit;
    OneDelta(text, project);
    if AllFit(Lines(text), project) && Passes(Residue(text)) {
      FittingIsWithin(text, project);
      PendsExactly(text);
      if !NoSurrogate(text) || FullLineAtReturn(text) {
        var n :| 0 <= n <= |text| && !Passes(Residue(text[..n]));
        TwoDeltas(text[..n], text[n..], project);
        assert Joined([text[..n], text[n..]]) == text && !StaysOn([text[..n], text[n..]], project);
      } else {
        forall deltas: seq<Text> | Joined(deltas) == text ensures StaysOn(deltas, project) {
          CutsStayOn(deltas, text, project);
        }
      }
    }
  }

  /** A text that turns the preview off uncut does so however it is cut. */
  lemma EveryCutGoesOff(text: Text, deltas: seq<Text>, project: Text -> Option<Text>)
    requires Joined(deltas) == text && !StaysOn([text], project)
    ensures !StaysOn(deltas, project)
  {
    hide Lines, Residue, Utf8Bytes;
    OneDelta(text, project);
    if deltas == [] {
      assert Lines([]) == [] by { NothingReleased(); }
      EmptyResidue();
    }
  }

  lemma NothingReleased()
    ensures Lines([]) == []
  {
  }

  /** MAIN RESULT: whether the preview stays on does not depend on the cuts exactly if the text turns it off uncut, or has neither
      a surrogate nor a full line closed by a CR. */
  lemma CutsAgreeExactly(text: Text, project: Text -> Option<Text>)
    ensures (forall a: seq<Text>, b: seq<Text> :: Joined(a) == text && Joined(b) == text ==>
               StaysOn(a, project) == StaysOn(b, project))
       <==> (!StaysOn([text], project) || (NoSurrogate(text) && !FullLineAtReturn(text)))
  {
    hide StaysOn, FullLineAtReturn, NoSurrogate, Joined, Lines, Residue, Passes, AllFit;
    OneDelta(text, project);
    EveryCutStaysOn(text, project);
    if !StaysOn([text], project) {
      forall a: seq<Text> | Joined(a) == text ensures !StaysOn(a, project) {
        EveryCutGoesOff(text, a, project);
      }
    } else if !NoSurrogate(text) || FullLineAtReturn(text) {
      var cut: seq<Text> :| Joined(cut) == text && !StaysOn(cut, project);
      assert Joined([text]) == text;
    }
  }

  lemma JoinedGrows(deltas: seq<Text>, delta: Text, project: Text -> Option<Text>)
    ensures Joined(deltas + [delta]) == Joined(deltas) + delta
    ensures StaysOn(deltas + [delta], project) <==>
              && StaysOn(deltas, project) && AllFit(Lines(Joined(deltas) + delta), project)
              && Passes(Residue(Joined(deltas) + delta))
  {
    hide Lines, Residue, Utf8Bytes, AllFit;
    assert (deltas + [delta])[..|deltas|] == deltas;
  }

  // ----- the preview

  class SafeTextPreview {
    /** Sanitising, redaction and the private-key and secret checks: None where they refuse the text. */
    const project: Text -> Option<Text>
    const hasDisplay: bool

    var buffer: Text
    var rawSnapshot: Text
    var safeSnapshot: Text
    var disabled: bool
    var committed: bool
    var previewEmitted: bool
    var firstPreviewMs: Option<int>

    ghost const refused: bool       // the secrets themselves rule out any preview
    ghost var deltas: seq<Text>    // what arrived after the commit
    ghost var released: seq<Text>
    ghost var displayFailed: bool

    /** What is on display after the released lines. */
    ghost predicate Showing()
      reads this`rawSnapshot, this`released, this`displayFailed, this`safeSnapshot, this`previewEmitted
    {
      && rawSnapshot == SnapshotOf(released) && AllFit(released, project) && !displayFailed
      && safeSnapshot == LastShown(released, project) && (previewEmitted <==> safeSnapshot != [])
      && (previewEmitted ==> hasDisplay)
    }

    ghost predicate Valid()
      reads this
    {
      && StreamingMetadata(Streaming(committed, previewEmitted, firstPreviewMs))
      && (!disabled ==> released == Lines(Joined(deltas)) && buffer == Residue(Joined(deltas)) && Showing())
      && (displayFailed ==> disabled)
      && (!displayFailed ==> (disabled <==> refused || !StaysOn(deltas, project)))
    }

    constructor (project: Text -> Option<Text>, hasDisplay: bool, refused: bool)
      ensures Valid() && Metadata() == INITIAL && deltas == [] && disabled == this.refused == refused
    {
      this.project, this.hasDisplay, this.refused := project, hasDisplay, refused;
      buffer, rawSnapshot, safeSnapshot, disabled := [], [], [], refused;
      committed, previewEmitted, firstPreviewMs := false, false, None;
      deltas, released, displayFailed := [], [], false;
    }

    function Metadata(): Streaming
      reads this
    {
      Streaming(committed, previewEmitted, firstPreviewMs)
    }

    method StreamCommitted()
      requires Valid()
      modifies this`committed
      ensures Valid() && committed
    {
      committed := true;
    }

    /** `text_delta`: the released lines, the buffer and what is shown depend on the text received, not on how it was cut;
        the preview goes off exactly when the display failed, a line tripped a guard, or the open line cannot be
        encoded within the limit. */
    method TextDelta(delta: Text)
      requires Valid()
      modifies this
      ensures Valid() && committed == old(committed)
      ensures old(disabled) ==> disabled && Metadata() == old(Metadata())
      ensures !old(committed) ==> deltas == old(deltas) && Metadata() == old(Metadata()) && disabled == old(disabled)
      ensures old(committed) ==> deltas == old(deltas) + [delta]
      ensures !Regresses(old(Metadata()), Metadata())
      ensures old(previewEmitted) ==> previewEmitted && firstPreviewMs == old(firstPreviewMs)
      ensures previewEmitted ==> committed && firstPreviewMs.Some? && firstPreviewMs.value >= 0
      ensures !previewEmitted ==> firstPreviewMs.None?
      ensures old(committed) && !old(disabled) ==>
                (disabled <==> displayFailed || !AllFit(Lines(Joined(deltas)), project)
                               || !Passes(Residue(Joined(deltas))))
    {
      hide AllFit, Utf8Bytes, Lines, Residue, StaysOn, Joined;
      if !committed {
        return;
      }
      JoinedGrows(deltas, delta, project);
      ghost var received := Joined(deltas);
      deltas := deltas + [delta];
      if !disabled {
        Receive(delta, received);
      }
    }

    /** The rest of `text_delta`, while the preview is on. */
    method Receive(delta: Text, ghost received: Text)
      requires !disabled && committed && StreamingMetadata(Metadata()) && Showing()
      requires released == Lines(received) && buffer == Residue(received)
      modifies this`buffer, this`released, this`rawSnapshot, this`safeSnapshot, this`disabled, this`previewEmitted,
               this`firstPreviewMs, this`displayFailed
      ensures StreamingMetadata(Metadata()) && !Regresses(old(Metadata()), Metadata())
      ensures !disabled ==> released == Lines(received + delta) && buffer == Residue(received + delta) && Showing()
      ensures !disabled ==> Passes(buffer)
      ensures disabled <==> displayFailed || !AllFit(Lines(received + delta), project)
                            || !Passes(Residue(received + delta))
    {
      hide Showing, AllFit, Utf8Bytes, Lines, Residue, StreamingMetadata, Regresses;
      SplitResumes(received, delta);
      ghost var before := released;
      buffer := buffer + delta;
      ghost var text := buffer;
      ReleaseCompleteLines(text, before);
      if !Passes(buffer) {
        disabled := true;
        buffer := [];
      }
      ShowingFits();
    }

    lemma ShowingFits()
      ensures Showing() ==> AllFit(released, project) && !displayFailed
    {
    }

    /** `_release_complete_lines`, entered with `text` in the buffer and the lines `before` released. */
    method ReleaseCompleteLines(ghost text: Text, ghost before: seq<Text>)
      requires buffer == text && released == before && !disabled && committed
      requires StreamingMetadata(Metadata()) && Showing()
      modifies this`buffer, this`released, this`rawSnapshot, this`safeSnapshot, this`disabled, this`previewEmitted,
               this`firstPreviewMs, this`displayFailed
      ensures StreamingMetadata(Metadata()) && !Regresses(old(Metadata()), Metadata())
      ensures !disabled ==> released == before + Lines(text) && buffer == Residue(text) && Showing()
      ensures disabled ==> displayFailed || !AllFit(before + Lines(text), project)
    {
      hide Showing, LineFits, AllFit, Utf8Bytes, FirstBoundary;
      while !disabled
        invariant StreamingMetadata(Metadata()) && !Regresses(old(Metadata()), Metadata())
        invariant !disabled ==> before + Lines(text) == released + Lines(buffer) && Residue(text) == Residue(buffer)
        invariant !disabled ==> Showing()
        invariant disabled ==> displayFailed || !AllFit(before + Lines(text), project)
        decreases |buffer|, !disabled
      {
        var boundary := LineBoundary();
        if boundary.NoBoundary? {
          return;
        }
        var line := buffer[..boundary.lineEnd];
        ghost var rest := buffer[boundary.delimiterEnd..];
        assert Lines(buffer) == [line] + Lines(rest) && Residue(buffer) == Residue(rest);
        ghost var lines := released + [line];
        assert released + Lines(buffer) == lines + Lines(rest);
        buffer := buffer[boundary.delimiterEnd..];
        ReleaseLine(line);
        if AllFit(before + Lines(text), project) {
          FitsBefore(lines, Lines(rest), project);
        }
      }
    }

    /** `_line_boundary`: the scan over the buffer. */
    method LineBoundary() returns (b: Boundary)
      ensures b == FirstBoundary(buffer, 0)
    {
      var index := 0;
      while index < |buffer|
        invariant 0 <= index <= |buffer|
        invariant FirstBoundary(buffer, 0) == FirstBoundary(buffer, index)
      {
        if buffer[index] == LF {
          return At(index, index + 1);
        }
        if buffer[index] == CR {
          if index + 1 == |buffer| {
            return NoBoundary;
          }
          return At(index, if buffer[index + 1] == LF then index + 2 else index + 1);
        }
        index := index + 1;
      }
      return NoBoundary;
    }

    /** `_release_line`: extend the snapshot and show it, or stop previewing for good. */
    method ReleaseLine(line: Text)
      requires !disabled && committed && StreamingMetadata(Metadata()) && Showing()
      modifies this`buffer, this`released, this`rawSnapshot, this`safeSnapshot, this`disabled, this`previewEmitted,
               this`firstPreviewMs, this`displayFailed
      ensures StreamingMetadata(Metadata()) && !Regresses(old(Metadata()), Metadata())
      ensures released == old(released) + [line]
      ensures !disabled ==> buffer == old(buffer) && Showing()
      ensures disabled ==> |buffer| <= |old(buffer)|
      ensures disabled <==> displayFailed || !AllFit(released, project)
      ensures displayFailed ==> AllFit(released, project) && LastShown(released, project) != old(safeSnapshot)
    {
      hide SnapshotOf, AllFit, LastShown, Passes, HasIsolated, Merged;
      ShownFits(released, line, project);
      ShownIsShort(released);
      ghost var lines := released + [line];
      SnapshotIs(released, line);
      released := lines;
      var isolated := ContainsIsolated(line);
      if isolated {
        disabled, buffer := true, [];
        return;
      }
      var merged := Merged(line);
      if !Passes(merged) {
        disabled, buffer := true, [];
        return;
      }
      var raw := StripLeadingNewlines(rawSnapshot + [LF] + merged);
      assert raw == SnapshotOf(lines);
      var safe := if !Passes(raw) then None else project(raw);
      if safe.None? || !NoSurrogate(safe.value) {
        ProjectionPasses(lines);
        disabled, buffer := true, [];
        return;
      }
      rawSnapshot := raw;
      if safe.value == [] || safe.value == safeSnapshot {
        assert Passes(safe.value);
        return;
      }
      if !Passes(safe.value) {
        disabled, buffer := true, [];
        return;
      }
      var displayed: bool := *;
      if !hasDisplay || !displayed {
        disabled, displayFailed := true, true;
        return;
      }
      safeSnapshot := safe.value;
      if !previewEmitted {
        var elapsed: int := *;
        previewEmitted, firstPreviewMs := true, Some(if elapsed < 0 then 0 else elapsed);
      }
    }

    lemma ShownIsShort(lines: seq<Text>)
      requires AllFit(lines, project)
      ensures Passes(LastShown(lines, project)) && Passes([])
    {
      if lines != [] {
        ShownIsShort(lines[..|lines| - 1]);
      }
    }

    lemma SnapshotIs(lines: seq<Text>, line: Text)
      ensures StripLeadingNewlines(SnapshotOf(lines) + [LF] + Merged(line)) == SnapshotOf(lines + [line])
    {
      hide Merged;
      assert (lines + [line])[..|lines|] == lines;
      SnapshotGrows(MergeAll(lines), Merged(line));
    }

    lemma ProjectionPasses(lines: seq<Text>)
      requires lines != []
      ensures LineFits(lines, project) ==>
                project(SnapshotOf(lines)).Some? && NoSurrogate(project(SnapshotOf(lines)).value)
    {
    }
  }

  /** Two previews of the same text that are both still on agree, however their deltas were cut. */
  lemma SameTextSamePreview(p: SafeTextPreview, q: SafeTextPreview)
    requires p.Valid() && q.Valid() && !p.disabled && !q.disabled && Joined(p.deltas) == Joined(q.deltas) && p.project == q.project
    ensures p.released == q.released && p.buffer == q.buffer && p.rawSnapshot == q.rawSnapshot
    ensures p.safeSnapshot == q.safeSnapshot && p.previewEmitted == q.previewEmitted
  {
  }

  /** Two previews of the same text whose display never fails are both on or both off, unless the text passes uncut and has
      a surrogate or a full line closed by a CR. */
  lemma SameTextSameOutcome(p: SafeTextPreview, q: SafeTextPreview, text: Text)
    requires p.Valid() && q.Valid() && p.project == q.project && p.refused == q.refused
    requires !p.displayFailed && !q.displayFailed
    requires Joined(p.deltas) == text && Joined(q.deltas) == text
    requires !StaysOn([text], p.project) || (NoSurrogate(text) && !FullLineAtReturn(text))
    ensures p.disabled == q.disabled
  {
    hide StaysOn, Joined, FullLineAtReturn, NoSurrogate, Lines, Residue;
    CutsAgreeExactly(text, p.project);
  }

  /** At the limit the cuts do matter: a preview fed a full line with its CR LF stays on, one fed the same text cut between
      the two goes off, both displays willing. */
  lemma ChunkEndsCanMatter(p: SafeTextPreview, q: SafeTextPreview)
    requires p.Valid() && q.Valid() && !p.refused && !q.refused && !p.displayFailed && !q.displayFailed
    requires p.project == q.project && forall s: Text :: p.project(s) == Some(s)
    requires p.deltas == [FullLine() + [CR, LF]] && q.deltas == [FullLine() + [CR], [LF]]
    ensures Joined(p.deltas) == Joined(q.deltas) && !p.disabled && q.disabled
  {
    hide StaysOn, Joined, Lines, Residue, Utf8Bytes, AllFit;
    FullLineSplits();
    FullLineFits(p.project);
    OneDelta(FullLine() + [CR, LF], p.project);
    TwoDeltas(FullLine() + [CR], [LF], p.project);
    assert FullLine() + [CR] + [LF] == FullLine() + [CR, LF];
  }

  function FullLine(): Text {
    Repeated(0x61, MAX_PREVIEW_LINE_BYTES)
  }

  lemma FullLineSplits()
    ensures Utf8Bytes(FullLine()) == MAX_PREVIEW_LINE_BYTES
    ensures Lines(FullLine() + [CR, LF]) == [FullLine()] && Residue(FullLine() + [CR, LF]) == [] && Utf8Bytes([]) == 0
    ensures Utf8Bytes(Residue(FullLine() + [CR])) == MAX_PREVIEW_LINE_BYTES + 1
  {
    var line, n := FullLine(), MAX_PREVIEW_LINE_BYTES;
    RepeatedBytes(0x61, n);
    BytesAppend(line, [CR]);
    assert [CR][1..] == [];
    OpenStays(line + [CR]);
    var text := line + [CR, LF];
    BoundaryAfter(text, 0, n);
    assert FirstBoundary(text, 0) == At(n, n + 2);
    assert text[..n] == line && text[n + 2..] == [];
    NothingReleased();
    EmptyResidue();
  }

  lemma FullLineFits(project: Text -> Option<Text>)
    requires forall s: Text :: project(s) == Some(s)
    ensures AllFit([FullLine()], project)
  {
    var line := FullLine();
    RepeatedBytes(0x61, MAX_PREVIEW_LINE_BYTES);
    assert line[0] == 0x61;
    assert NoSurrogate(line);
    MergedIsSame(line);
    OneLineFits(line, project);
  }

  /** A first line within the limit that holds no surrogate and does not begin with a line end trips no guard. */
  lemma OneLineFits(line: Text, project: Text -> Option<Text>)
    requires forall s: Text :: project(s) == Some(s)
    requires !HasIsolated(line) && Passes(Merged(line)) && Merged(line) != [] && Merged(line)[0] != LF
    ensures AllFit([line], project)
  {
    hide Merged, HasIsolated, Passes;
    var lines := [line];
    assert lines[..0] == [] && MergeAll(lines) == [Merged(line)];
    assert SnapshotOf(lines) == Merged(line);
  }

  /** "emoji " and a pair of surrogates. */
  const EMOJI: Text := [0x65, 0x6D, 0x6F, 0x6A, 0x69, 0x20, 0xD83D, 0xDE42]

  /** Pairs are merged when their line is released, but not while it is open: a preview fed an emoji as two halves with its
      line end stays on, one fed the same text cut before the line end goes off, both displays willing. */
  lemma PairCutCanMatter(p: SafeTextPreview, q: SafeTextPreview)
    requires p.Valid() && q.Valid() && !p.refused && !q.refused && !p.displayFailed && !q.displayFailed
    requires p.project == q.project && forall s: Text :: p.project(s) == Some(s)
    requires p.deltas == [EMOJI + [LF]] && q.deltas == [EMOJI, [LF]]
    ensures Joined(p.deltas) == Joined(q.deltas) && !p.disabled && q.disabled
  {
    hide StaysOn, Joined, Lines, Residue, Utf8Bytes, AllFit;
    EmojiSplits();
    EmojiMerges();
    OneLineFits(EMOJI, p.project);
    OneDelta(EMOJI + [LF], p.project);
    TwoDeltas(EMOJI, [LF], p.project);
    assert EMOJI[6] in EMOJI && IsSurrogate(EMOJI[6]);
  }

  lemma EmojiSplits()
    ensures Lines(EMOJI + [LF]) == [EMOJI] && Residue(EMOJI + [LF]) == [] && Residue(EMOJI) == EMOJI && Passes([])
  {
    var text := EMOJI + [LF];
    OpenStays(EMOJI);
    BoundaryAfter(text, 0, 8);
    assert text[..8] == EMOJI && text[9..] == [];
    NothingReleased();
    EmptyResidue();
  }

  /** Merged, the line is six letters and one character of four bytes. */
  lemma EmojiMerges()
    ensures !HasIsolated(EMOJI) && Passes(Merged(EMOJI)) && Merged(EMOJI) != [] && Merged(EMOJI)[0] == 0x65
  {
    var letters, pair := EMOJI[..6], EMOJI[6..];
    assert EMOJI == letters + pair;
    LettersMerge(letters, pair);
    assert pair[2..] == [];
    var merged := Merged(EMOJI);
    assert merged == letters + [0x1F642];
    BytesAppend(letters, [0x1F642]);
    ShortBytes(letters);
    ShortBytes([0x1F642]);
  }

  lemma {:induction false} LettersMerge(letters: Text, rest: Text)
    requires NoSurrogate(letters)
    ensures Merged(letters + rest) == letters + Merged(rest) && HasIsolated(letters + rest) == HasIsolated(rest)
  {
    if letters == [] {
      assert letters + rest == rest;
    } else {
      assert letters[0] in letters && forall c :: c in letters[1..] ==> c in letters;
      assert (letters + rest)[1..] == letters[1..] + rest;
      LettersMerge(letters[1..], rest);
    }
  }

  lemma {:induction false} ShortBytes(text: Text)
    ensures Utf8Bytes(text) <= 4 * |text|
  {
    if text != [] { ShortBytes(text[1..]); }
  }
}
