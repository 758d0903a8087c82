/** The canonical transcript of pony/agent/messages.py: its validator, and the grammar the validator decides. */
module Transcript {
  import opened Common

  datatype Role = User | Assistant | OtherRole

  /** The `_pony_meta` field: absent, an object, or something else. */
  datatype Meta = NoMeta | MetaObject | MetaOther

  /** The `_pony_provider_state` field; Valid and Invalid stand for the item-shape and size checks. */
  datatype ProviderState = Absent | Null | Valid | Invalid

  /** A text block with a text; a tool_use whose name and input are (or are not) well-shaped; a tool_result; the rest. */
  datatype Block = TextBlock(text: string) | ToolUse(id: string, wellShaped: bool) | ToolResult(id: string) | OtherBlock

  datatype Content = Plain(text: string) | Blocks(blocks: seq<Block>) | OtherContent

  datatype Message = Message(role: Role, content: Content, meta: Meta, state: ProviderState)

  datatype MessageError =
    | BadRole | BadMeta | UnexpectedProviderState | BadContent | WrongToolRole | NotOneBlock | WrongBlock
    | BadProviderState | InvalidOrDuplicateToolUse | OrphanToolUse | ResultIdDiffers | OrphanToolResult | UnsupportedBlock

  predicate MetaFits(m: Message, requireMeta: bool) {
    if requireMeta then m.meta.MetaObject? else !m.meta.MetaOther?
  }

  // ----- the grammar

  /** A transcript is a row of these. */
  datatype Piece = PlainPiece(message: Message) | TextPiece(message: Message) | PairPiece(call: Message, result: Message)

  predicate IsCall(m: Message) {
    m.role.Assistant? && m.content.Blocks? && |m.content.blocks| == 1 && m.content.blocks[0].ToolUse?
  }

  predicate IsResult(m: Message) {
    m.role.User? && m.content.Blocks? && |m.content.blocks| == 1 && m.content.blocks[0].ToolResult?
  }

  /** Session messages carry an object of metadata, request messages an object or none. */
  predicate MetaAllowed(meta: Meta, requireMeta: bool) {
    meta == MetaObject || (meta == NoMeta && !requireMeta)
  }

  predicate PieceOk(p: Piece, requireMeta: bool) {
    match p
    case PlainPiece(m) =>
      m.role in {User, Assistant} && MetaAllowed(m.meta, requireMeta) && m.content.Plain? && m.state.Absent?
    case TextPiece(m) =>
      && m.role in {User, Assistant} && MetaAllowed(m.meta, requireMeta) && m.state.Absent?
      && m.content.Blocks? && m.content.blocks != [] && forall b :: b in m.content.blocks ==> b.TextBlock?
    case PairPiece(call, result) =>
      && IsCall(call) && IsResult(result) && MetaAllowed(call.meta, requireMeta) && MetaAllowed(result.meta, requireMeta)
      && !call.state.Invalid? && result.state.Absent?
      && call.content.blocks[0].id != "" && call.content.blocks[0].wellShaped
      && result.content.blocks[0].id == call.content.blocks[0].id
  }

  function PieceMessages(p: Piece): seq<Message> {
    match p
    case PlainPiece(m) => [m]
    case TextPiece(m) => [m]
    case PairPiece(call, result) => [call, result]
  }

  function PieceIds(p: Piece): set<string> {
    if p.PairPiece? && IsCall(p.call) then {p.call.content.blocks[0].id} else {}
  }

  function Messages(ps: seq<Piece>): seq<Message> {
    if ps == [] then [] else PieceMessages(ps[0]) + Messages(ps[1..])
  }

  function Ids(ps: seq<Piece>): set<string> {
    if ps == [] then {} else PieceIds(ps[0]) + Ids(ps[1..])
  }

  /** Well-formed pieces whose tool ids are all different, and none of them in `seen`. */
  predicate PiecesOk(ps: seq<Piece>, seen: set<string>, requireMeta: bool) {
    ps == [] || (PieceOk(ps[0], requireMeta) && PieceIds(ps[0]) !! seen && PiecesOk(ps[1..], seen + PieceIds(ps[0]), requireMeta))
  }

  ghost predicate InGrammarAfter(ms: seq<Message>, seen: set<string>, requireMeta: bool) {
    exists ps :: PiecesOk(ps, seen, requireMeta) && Messages(ps) == ms
  }

  ghost predicate InGrammar(ms: seq<Message>, requireMeta: bool) {
    InGrammarAfter(ms, {}, requireMeta)
  }

  // ----- the validator

  /** `_tool_block`. */
  function ToolBlockError(m: Message, use: bool): Option<MessageError> {
    if (if use then !m.role.Assistant? else !m.role.User?) then Some(WrongToolRole)
    else if !m.content.Blocks? || |m.content.blocks| != 1 then Some(NotOneBlock)
    else if (if use then !m.content.blocks[0].ToolUse? else !m.content.blocks[0].ToolResult?) then Some(WrongBlock)
    else None
  }

  /** The checks on one message that need no look at its successor. */
  function HeadError(m: Message, requireMeta: bool): Option<MessageError> {
    if m.role.OtherRole? then Some(BadRole)
    else if !MetaFits(m, requireMeta) then Some(BadMeta)
    else
      match m.content
      case Plain(_) => if m.state.Absent? then None else Some(UnexpectedProviderState)
      case OtherContent => Some(BadContent)
      case Blocks(blocks) =>
        if blocks == [] then Some(BadContent)
        else if blocks[0].ToolUse? then
          if ToolBlockError(m, true).Some? then ToolBlockError(m, true)
          else if m.state.Invalid? then Some(BadProviderState)
          else if blocks[0].id == "" || !blocks[0].wellShaped then Some(InvalidOrDuplicateToolUse)
          else None
        else if blocks[0].ToolResult? then Some(OrphanToolResult)
        else if !m.state.Absent? then Some(UnexpectedProviderState)
        else if exists b :: b in blocks && !b.TextBlock? then Some(UnsupportedBlock)
        else None
  }

  function ResultError(result: Message, id: string, requireMeta: bool): Option<MessageError> {
    if !MetaFits(result, requireMeta) then Some(BadMeta)
    else if !result.state.Absent? then Some(UnexpectedProviderState)
    else if ToolBlockError(result, false).Some? then ToolBlockError(result, false)
    else if result.content.blocks[0].id != id then Some(ResultIdDiffers)
    else None
  }

  predicate StartsPair(m: Message) {
    m.content.Blocks? && m.content.blocks != [] && m.content.blocks[0].ToolUse?
  }

  /** The verdict on the messages still to be read, given the tool ids already seen. */
  function Check(ms: seq<Message>, seen: set<string>, requireMeta: bool): Option<MessageError> {
    if ms == [] then None
    else if HeadError(ms[0], requireMeta).Some? then HeadError(ms[0], requireMeta)
    else if !StartsPair(ms[0]) then Check(ms[1..], seen, requireMeta)
    else
      var id := ms[0].content.blocks[0].id;
      if id in seen then Some(InvalidOrDuplicateToolUse)
      else if |ms| < 2 then Some(OrphanToolUse)
      else if ResultError(ms[1], id, requireMeta).Some? then ResultError(ms[1], id, requireMeta)
      else Check(ms[2..], seen + {id}, requireMeta)
  }

  /** `validate_messages`: an index and a set of seen ids, updated in a loop. */
  method ValidateMessages(ms: seq<Message>, requireMeta: bool) returns (error: Option<MessageError>)
    ensures error == Check(ms, {}, requireMeta)
    ensures error.None? <==> InGrammar(ms, requireMeta)
  {
    CheckExact(ms, {}, requireMeta);
    var seen: set<string> := {};
    var index := 0;
    while index < |ms|
      invariant 0 <= index <= |ms|
      invariant Check(ms, {}, requireMeta) == Check(ms[index..], seen, requireMeta)
    {
      var message := ms[index];
      error := HeadError(message, requireMeta);
      if error.Some? { return; }
      if !StartsPair(message) {
        assert ms[index..][1..] == ms[index + 1..];
        index := index + 1;
        continue;
      }
      var id := message.content.blocks[0].id;
      if id in seen { return Some(InvalidOrDuplicateToolUse); }
      seen := seen + {id};
      if index + 1 >= |ms| { return Some(OrphanToolUse); }
      error := ResultError(ms[index + 1], id, requireMeta);
      if error.Some? { return; }
      assert ms[index..][2..] == ms[index + 2..];
      index := index + 2;
    }
    return None;
  }

  /** The one piece a message without a head error can begin. */
  function PieceAt(ms: seq<Message>): Piece
    requires ms != []
  {
    if ms[0].content.Plain? then PlainPiece(ms[0])
    else if StartsPair(ms[0]) && |ms| >= 2 then PairPiece(ms[0], ms[1])
    else TextPiece(ms[0])
  }

  /** A piece is determined by the messages it begins. */
  lemma FirstPiece(ps: seq<Piece>, seen: set<string>, requireMeta: bool)
    requires ps != [] && PiecesOk(ps, seen, requireMeta)
    ensures Messages(ps) != [] && ps[0] == PieceAt(Messages(ps))
    ensures Messages(ps)[|PieceMessages(ps[0])|..] == Messages(ps[1..])
  {
    if ps[0].TextPiece? {
      assert ps[0].message.content.blocks[0] in ps[0].message.content.blocks;
    }
  }

  /** MAIN RESULT: the validator accepts exactly the grammar, from any point of its walk. */
  lemma {:induction false} CheckExact(ms: seq<Message>, seen: set<string>, requireMeta: bool)
    ensures Check(ms, seen, requireMeta).None? <==> InGrammarAfter(ms, seen, requireMeta)
    decreases |ms|
  {
    if ms == [] {
      assert PiecesOk([], seen, requireMeta) && Messages([]) == ms;
    } else {
      var p := PieceAt(ms);
      var rest := ms[|PieceMessages(p)|..];
      var seen' := seen + PieceIds(p);
      CheckExact(rest, seen', requireMeta);
      HeadExact(ms, seen, requireMeta);
      if Check(ms, seen, requireMeta).None? {
        var qs :| PiecesOk(qs, seen', requireMeta) && Messages(qs) == rest;
        var ps := [p] + qs;
        assert ps[1..] == qs;
        assert PiecesOk(ps, seen, requireMeta);
        assert Messages(ps) == ms;
      }
      if InGrammarAfter(ms, seen, requireMeta) {
        var ps :| PiecesOk(ps, seen, requireMeta) && Messages(ps) == ms;
        FirstPiece(ps, seen, requireMeta);
        assert PiecesOk(ps[1..], seen', requireMeta) && Messages(ps[1..]) == rest;
      }
    }
  }

  lemma HeadExact(ms: seq<Message>, seen: set<string>, requireMeta: bool)
    requires ms != []
    ensures var p := PieceAt(ms);
            Check(ms, seen, requireMeta).None? <==>
            && PieceOk(p, requireMeta) && PieceIds(p) !! seen
            && Check(ms[|PieceMessages(p)|..], seen + PieceIds(p), requireMeta).None?
  {
    assert seen + {} == seen;
    if ms[0].content.Blocks? && ms[0].content.blocks != [] {
      assert ms[0].content.blocks[0] in ms[0].content.blocks;
    }
  }

  /** Which error a transcript is rejected with, by its first message that cannot be let through. */
  lemma ErrorsAre(ms: seq<Message>, seen: set<string>, requireMeta: bool)
    requires ms != []
    ensures var m, e := ms[0], Check(ms, seen, requireMeta);
            if m.role == OtherRole then e == Some(BadRole)
            else if !MetaAllowed(m.meta, requireMeta) then e == Some(BadMeta)
            else if m.content.OtherContent? || m.content == Blocks([]) then e == Some(BadContent)
            else if m.content.Plain? then m.state != Absent ==> e == Some(UnexpectedProviderState)
            else
              var b := m.content.blocks[0];
              if b.ToolResult? then e == Some(OrphanToolResult)
              else if b.ToolUse? then CallError(b.id, b.wellShaped, ms, seen, requireMeta, e)
              else
                && (m.state != Absent ==> e == Some(UnexpectedProviderState))
                && (m.state == Absent && (exists x :: x in m.content.blocks && !x.TextBlock?) ==> e == Some(UnsupportedBlock))
  {
  }

  /** The errors of a message that starts with a tool call. */
  predicate CallError(id: string, wellShaped: bool, ms: seq<Message>, seen: set<string>, requireMeta: bool, e: Option<MessageError>)
    requires ms != [] && ms[0].content.Blocks?
  {
    if ms[0].role != Assistant then e == Some(WrongToolRole)
    else if |ms[0].content.blocks| != 1 then e == Some(NotOneBlock)
    else if ms[0].state == Invalid then e == Some(BadProviderState)
    else if id == "" || !wellShaped || id in seen then e == Some(InvalidOrDuplicateToolUse)
    else if |ms| == 1 then e == Some(OrphanToolUse)
    else PairError(id, ms[1], requireMeta, e)
  }

  /** The errors of the message behind a tool call. */
  predicate PairError(id: string, result: Message, requireMeta: bool, e: Option<MessageError>) {
    if !MetaAllowed(result.meta, requireMeta) then e == Some(BadMeta)
    else if result.state != Absent then e == Some(UnexpectedProviderState)
    else if result.role != User then e == Some(WrongToolRole)
    else if !result.content.Blocks? || |result.content.blocks| != 1 then e == Some(NotOneBlock)
    else if !result.content.blocks[0].ToolResult? then e == Some(WrongBlock)
    else result.content.blocks[0].id != id ==> e == Some(ResultIdDiffers)
  }

  // ----- what the run does to a transcript

  lemma {:induction false} PiecesAppend(ps: seq<Piece>, qs: seq<Piece>, seen: set<string>, requireMeta: bool)
    ensures PiecesOk(ps + qs, seen, requireMeta) <==> PiecesOk(ps, seen, requireMeta) && PiecesOk(qs, seen + Ids(ps), requireMeta)
    ensures Messages(ps + qs) == Messages(ps) + Messages(qs)
    ensures Ids(ps + qs) == Ids(ps) + Ids(qs)
  {
    if ps == [] {
      assert ps + qs == qs && seen + {} == seen;
    } else {
      hide PieceOk, PieceIds, PieceMessages;
      assert (ps + qs)[1..] == ps[1..] + qs;
      PiecesAppend(ps[1..], qs, seen + PieceIds(ps[0]), requireMeta);
      assert seen + PieceIds(ps[0]) + Ids(ps[1..]) == seen + Ids(ps);
    }
  }

  /** The ids called anywhere in a transcript. */
  function CallIds(ms: seq<Message>): set<string> {
    set m | m in ms && IsCall(m) :: m.content.blocks[0].id
  }

  lemma {:induction false} IdsAreCallIds(ps: seq<Piece>, seen: set<string>, requireMeta: bool)
    requires PiecesOk(ps, seen, requireMeta)
    ensures Ids(ps) == CallIds(Messages(ps))
  {
    if ps != [] {
      IdsAreCallIds(ps[1..], seen + PieceIds(ps[0]), requireMeta);
      assert CallIds(PieceMessages(ps[0])) == PieceIds(ps[0]) by {
        if ps[0].PairPiece? {
          assert ps[0].call in PieceMessages(ps[0]);
        } else if ps[0].TextPiece? {
          assert ps[0].message.content.blocks[0] in ps[0].message.content.blocks;
        }
      }
      assert forall m :: m in Messages(ps) <==> m in PieceMessages(ps[0]) || m in Messages(ps[1..]);
    }
  }

  /** Seen ids only ever forbid. */
  lemma {:induction false} SeenWeakens(ps: seq<Piece>, seen: set<string>, fewer: set<string>, requireMeta: bool)
    requires fewer <= seen && PiecesOk(ps, seen, requireMeta)
    ensures PiecesOk(ps, fewer, requireMeta)
  {
    if ps != [] {
      SeenWeakens(ps[1..], seen + PieceIds(ps[0]), fewer + PieceIds(ps[0]), requireMeta);
    }
  }

  /** `_plain_message`: a plain message of either role keeps a transcript valid, and only if it was valid. */
  lemma AppendPlain(ms: seq<Message>, m: Message, requireMeta: bool)
    requires PieceOk(PlainPiece(m), requireMeta)
    ensures InGrammar(ms + [m], requireMeta) <==> InGrammar(ms, requireMeta)
  {
    AppendPiece(ms, PlainPiece(m), requireMeta);
  }

  /** The last message of a valid transcript shows what its last piece is. */
  lemma {:induction false} LastPiece(ps: seq<Piece>, seen: set<string>, requireMeta: bool)
    requires ps != [] && PiecesOk(ps, seen, requireMeta)
    ensures var last := ps[|ps| - 1];
            var ms := Messages(ps);
            && PieceOk(last, requireMeta)
            && |ms| >= |PieceMessages(last)|
            && ms[|ms| - |PieceMessages(last)|..] == PieceMessages(last)
            && ms[..|ms| - |PieceMessages(last)|] == Messages(ps[..|ps| - 1])
            && PiecesOk(ps[..|ps| - 1], seen, requireMeta)
            && PieceIds(last) !! seen + Ids(ps[..|ps| - 1])
  {
    var front, last := ps[..|ps| - 1], ps[|ps| - 1];
    assert front + [last] == ps;
    PiecesAppend(front, [last], seen, requireMeta);
    assert Messages([last]) == PieceMessages(last);
  }

  /** Two pieces with the same last message are equally long. */
  lemma LastMessageDecides(p: Piece, q: Piece, requireMeta: bool)
    requires PieceOk(p, requireMeta) && PieceOk(q, requireMeta)
    requires PieceMessages(p)[|PieceMessages(p)| - 1] == PieceMessages(q)[|PieceMessages(q)| - 1]
    ensures |PieceMessages(p)| == |PieceMessages(q)|
  {
    if p.TextPiece? { assert p.message.content.blocks[0] in p.message.content.blocks; }
    if q.TextPiece? { assert q.message.content.blocks[0] in q.message.content.blocks; }
  }

  lemma AppendedPiece(ms: seq<Message>, p: Piece, requireMeta: bool)
    requires PieceOk(p, requireMeta)
    requires InGrammar(ms, requireMeta) && PieceIds(p) !! CallIds(ms)
    ensures InGrammar(ms + PieceMessages(p), requireMeta)
  {
    var ps :| PiecesOk(ps, {}, requireMeta) && Messages(ps) == ms;
    IdsAreCallIds(ps, {}, requireMeta);
    PiecesAppend(ps, [p], {}, requireMeta);
    assert Messages([p]) == PieceMessages(p);
    assert PiecesOk([p], {} + Ids(ps), requireMeta);
    assert Messages(ps + [p]) == ms + PieceMessages(p);
  }

  /** A valid transcript ending in a piece's messages ends in that piece. */
  lemma RemovedPiece(ms: seq<Message>, p: Piece, requireMeta: bool)
    requires PieceOk(p, requireMeta) && InGrammar(ms + PieceMessages(p), requireMeta)
    ensures InGrammar(ms, requireMeta) && PieceIds(p) !! CallIds(ms)
  {
    hide PiecesOk, Messages, Ids, CallIds, PieceOk, PieceIds, PieceMessages;
    var ms' := ms + PieceMessages(p);
    var ps :| PiecesOk(ps, {}, requireMeta) && Messages(ps) == ms';
    PieceNotEmpty(p);
    assert ps != [] by { NoMessages(); }
    LastPiece(ps, {}, requireMeta);
    var front, last := ps[..|ps| - 1], ps[|ps| - 1];
    PieceNotEmpty(last);
    var n := |PieceMessages(last)|;
    assert PieceMessages(last)[n - 1] == ms'[|ms'| - n..][n - 1] == ms'[|ms'| - 1];
    LastMessageDecides(p, last, requireMeta);
    assert ms == ms'[..|ms|] == Messages(front);
    assert PieceMessages(last) == ms'[|ms|..] == PieceMessages(p);
    SameIds(p, last, requireMeta);
    IdsAreCallIds(front, {}, requireMeta);
    assert {} + Ids(front) == Ids(front);
  }

  lemma PieceNotEmpty(p: Piece)
    ensures |PieceMessages(p)| >= 1
  {
  }

  lemma NoMessages()
    ensures Messages([]) == []
  {
  }

  /** Pieces of the same messages have the same ids. */
  lemma SameIds(p: Piece, q: Piece, requireMeta: bool)
    requires PieceOk(p, requireMeta) && PieceOk(q, requireMeta) && PieceMessages(p) == PieceMessages(q)
    ensures PieceIds(p) == PieceIds(q)
  {
    assert PieceMessages(p)[0] == PieceMessages(q)[0];
    assert p.PairPiece? <==> q.PairPiece?;
  }

  lemma AppendPiece(ms: seq<Message>, p: Piece, requireMeta: bool)
    requires PieceOk(p, requireMeta)
    ensures InGrammar(ms + PieceMessages(p), requireMeta) <==> InGrammar(ms, requireMeta) && PieceIds(p) !! CallIds(ms)
  {
    if InGrammar(ms, requireMeta) && PieceIds(p) !! CallIds(ms) {
      AppendedPiece(ms, p, requireMeta);
    }
    if InGrammar(ms + PieceMessages(p), requireMeta) {
      RemovedPiece(ms, p, requireMeta);
    }
  }

  /** A transcript ending in a tool result ends in a well-formed pair. */
  lemma EndsInPair(ms: seq<Message>, call: Message, result: Message, requireMeta: bool)
    requires IsResult(result) && InGrammar(ms + [call, result], requireMeta)
    ensures PieceOk(PairPiece(call, result), requireMeta)
  {
    var ms' := ms + [call, result];
    var ps :| PiecesOk(ps, {}, requireMeta) && Messages(ps) == ms';
    LastPiece(ps, {}, requireMeta);
    var last := ps[|ps| - 1];
    var n := |PieceMessages(last)|;
    assert PieceMessages(last)[n - 1] == ms'[|ms'| - n..][n - 1] == result;
    assert result.content.blocks[0] in result.content.blocks;
    assert PieceMessages(last)[0] == ms'[|ms'| - 2..][0] == call;
  }

  /** `make_tool_pair`, as far as the validator looks. */
  function MakeToolPair(id: string, wellShaped: bool, state: ProviderState): (Message, Message) {
    (Message(Assistant, Blocks([ToolUse(id, wellShaped)]), MetaObject, state),
     Message(User, Blocks([ToolResult(id)]), MetaObject, Absent))
  }

  /** A committed tool pair keeps the transcript valid exactly when its id is new and it is well-shaped. */
  lemma AppendPair(ms: seq<Message>, id: string, wellShaped: bool, state: ProviderState, requireMeta: bool)
    ensures var (call, result) := MakeToolPair(id, wellShaped, state);
            InGrammar(ms + [call, result], requireMeta) <==>
              InGrammar(ms, requireMeta) && id !in CallIds(ms) && id != "" && wellShaped && !state.Invalid?
  {
    var (call, result) := MakeToolPair(id, wellShaped, state);
    var p := PairPiece(call, result);
    assert PieceOk(p, requireMeta) <==> id != "" && wellShaped && !state.Invalid?;
    assert PieceMessages(p) == [call, result] && PieceIds(p) == {id};
    if PieceOk(p, requireMeta) {
      AppendPiece(ms, p, requireMeta);
    } else if InGrammar(ms + [call, result], requireMeta) {
      EndsInPair(ms, call, result, requireMeta);
    }
  }

  /** Any cut between pieces leaves valid transcripts: in particular every run of whole Session entries is one. */
  lemma CutBetweenPieces(ps: seq<Piece>, i: nat, j: nat, requireMeta: bool)
    requires i <= j <= |ps| && PiecesOk(ps, {}, requireMeta)
    ensures InGrammar(Messages(ps[i..j]), requireMeta)
  {
    hide PiecesOk, Messages, Ids;
    assert ps == ps[..i] + ps[i..] && ps[i..] == ps[i..j] + ps[j..];
    PiecesAppend(ps[..i], ps[i..], {}, requireMeta);
    PiecesAppend(ps[i..j], ps[j..], {} + Ids(ps[..i]), requireMeta);
    SeenWeakens(ps[i..j], {} + Ids(ps[..i]), {}, requireMeta);
  }

  // ----- request messages

  predicate IsPlainUser(m: Message) {
    m.role.User? && m.content.Plain?
  }

  /** `replace_latest_plain_user`: walk back to the last plain user message and rewrite its text. */
  method ReplaceLatestPlainUser(ms: seq<Message>, text: string) returns (r: Option<seq<Message>>)
    ensures r.None? <==> forall m :: m in ms ==> !(m.role == User && m.content.Plain?)
    ensures r.Some? ==> exists k :: ReplacedAt(ms, k, text, r.value)
  {
    var index := |ms| - 1;
    while index >= 0
      invariant -1 <= index < |ms|
      invariant forall i :: index < i < |ms| ==> !IsPlainUser(ms[i])
    {
      if IsPlainUser(ms[index]) {
        var copied := ms[index := ms[index].(content := Plain(text))];
        assert ReplacedAt(ms, index, text, copied);
        return Some(copied);
      }
      index := index - 1;
    }
    return None;
  }

  /** r is ms with the text of its last plain user message, at k, replaced. */
  ghost predicate ReplacedAt(ms: seq<Message>, k: int, text: string, r: seq<Message>) {
    && 0 <= k < |ms| && ms[k].role == User && ms[k].content.Plain?
    && (forall i :: k < i < |ms| ==> !(ms[i].role == User && ms[i].content.Plain?))
    && r == ms[k := ms[k].(content := Plain(text))]
  }

  function StripMeta(ms: seq<Message>): (r: seq<Message>)
    ensures |r| == |ms| && forall i :: 0 <= i < |r| ==> r[i] == ms[i].(meta := NoMeta)
  {
    if ms == [] then [] else [ms[0].(meta := NoMeta)] + StripMeta(ms[1..])
  }

  function StripPiece(p: Piece): Piece {
    match p
    case PlainPiece(m) => PlainPiece(m.(meta := NoMeta))
    case TextPiece(m) => TextPiece(m.(meta := NoMeta))
    case PairPiece(call, result) => PairPiece(call.(meta := NoMeta), result.(meta := NoMeta))
  }

  function StripPieces(ps: seq<Piece>): seq<Piece> {
    if ps == [] then [] else [StripPiece(ps[0])] + StripPieces(ps[1..])
  }

  lemma {:induction false} StripKeeps(ps: seq<Piece>, seen: set<string>, requireMeta: bool)
    requires PiecesOk(ps, seen, requireMeta)
    ensures PiecesOk(StripPieces(ps), seen, false)
    ensures Messages(StripPieces(ps)) == StripMeta(Messages(ps))
  {
    hide PieceOk, PieceIds, PieceMessages, StripPiece, StripMeta;
    if ps != [] {
      StripKeeps(ps[1..], seen + PieceIds(ps[0]), requireMeta);
      assert StripPieces(ps)[1..] == StripPieces(ps[1..]);
      StripKeepsPiece(ps[0], requireMeta);
      StripApart(PieceMessages(ps[0]), Messages(ps[1..]));
    } else {
      StripApart([], []);
    }
  }

  lemma StripKeepsPiece(p: Piece, requireMeta: bool)
    requires PieceOk(p, requireMeta)
    ensures PieceOk(StripPiece(p), false) && PieceIds(StripPiece(p)) == PieceIds(p)
    ensures StripMeta(PieceMessages(p)) == PieceMessages(StripPiece(p))
  {
  }

  lemma StripApart(a: seq<Message>, b: seq<Message>)
    ensures StripMeta(a + b) == StripMeta(a) + StripMeta(b)
    ensures StripMeta([]) == []
  {
    var r := StripMeta(a + b);
    assert |r| == |a| + |b|;
  }

  /** Rewriting the text of a plain message moves nothing in the grammar. */
  lemma {:induction false} RewriteKeeps(ps: seq<Piece>, seen: set<string>, k: nat, text: string, requireMeta: bool)
    returns (qs: seq<Piece>)
    requires PiecesOk(ps, seen, requireMeta) && k < |Messages(ps)| && Messages(ps)[k].content.Plain?
    ensures PiecesOk(qs, seen, requireMeta)
    ensures Messages(qs) == Messages(ps)[k := Messages(ps)[k].(content := Plain(text))]
  {
    var n := |PieceMessages(ps[0])|;
    if k < n {
      assert ps[0].PlainPiece?;
      qs := [PlainPiece(ps[0].message.(content := Plain(text)))] + ps[1..];
    } else {
      var rest := RewriteKeeps(ps[1..], seen + PieceIds(ps[0]), k - n, text, requireMeta);
      qs := [ps[0]] + rest;
      assert qs[1..] == rest;
    }
  }

  /** r is ms without metadata and with the text of its last plain user message, at k, replaced. */
  ghost predicate RequestAt(ms: seq<Message>, k: int, text: string, r: seq<Message>) {
    && 0 <= k < |ms| && ReplacedAt(ms, k, text, ms[k := ms[k].(content := Plain(text))])
    && r == StripMeta(ms[k := ms[k].(content := Plain(text))])
  }

  /** `build_request_messages`: the text is the rendered one, with the run's feedback (already stripped) as a reminder behind it.
      The request is valid, as long as the transcript, and differs from it (metadata aside)
      in the one rewritten message only; it fails exactly when there is no plain user message. */
  method BuildRequestMessages(ms: seq<Message>, rendered: string, feedback: string) returns (r: Option<seq<Message>>)
    ensures r.None? <==> forall m :: m in ms ==> !(m.role == User && m.content.Plain?)
    ensures r.Some? ==>
              var text := if feedback == "" then rendered
                          else rendered + "\n\n<system-reminder>\n<pony:runtime_feedback>\n" + feedback
                               + "\n</pony:runtime_feedback>\n</system-reminder>";
              exists k :: RequestAt(ms, k, text, r.value)
    ensures r.Some? && InGrammar(ms, true) ==> InGrammar(r.value, false)
  {
    var content := rendered;
    if feedback != "" {
      content := content + "\n\n<system-reminder>\n<pony:runtime_feedback>\n" + feedback
                 + "\n</pony:runtime_feedback>\n</system-reminder>";
    }
    var replaced := ReplaceLatestPlainUser(ms, content);
    if replaced.None? {
      return None;
    }
    r := Some(StripMeta(replaced.value));
    ghost var k :| ReplacedAt(ms, k, content, replaced.value);
    assert RequestAt(ms, k, content, r.value);
    if InGrammar(ms, true) {
      RequestValid(ms, k, content);
    }
  }

  /** The request changes one message and no other. */
  lemma RequestDiffersOnce(ms: seq<Message>, k: int, text: string, r: seq<Message>)
    requires RequestAt(ms, k, text, r)
    ensures |r| == |ms| && r[k] == Message(User, Plain(text), NoMeta, ms[k].state)
    ensures forall i :: 0 <= i < |ms| && i != k ==> r[i] == ms[i].(meta := NoMeta)
  {
  }

  lemma RequestValid(ms: seq<Message>, k: nat, text: string)
    requires InGrammar(ms, true) && k < |ms| && ms[k].content.Plain?
    ensures InGrammar(StripMeta(ms[k := ms[k].(content := Plain(text))]), false)
  {
    var ps :| PiecesOk(ps, {}, true) && Messages(ps) == ms;
    var qs := RewriteKeeps(ps, {}, k, text, true);
    StripKeeps(qs, {}, true);
  }
}
