/** The compaction planner of pony/agent/compaction.py: which entries are summarised and which stay verbatim. */
module Compaction {
  import opened Common
  import opened Transcript

  /** A Session entry with messages: one message, or a tool call with its result. `cost` is its token count,
      which the accounting object caches under the entry's id. */
  datatype Entry = Entry(id: string, piece: Piece, cost: nat)

  datatype Plan = Plan(
    prefix: seq<Entry>, splitPrefix: seq<Entry>, kept: seq<Entry>,
    tokensBefore: nat, prefixTokens: nat, splitPrefixTokens: nat, tailTokens: nat, target: nat)

  datatype CompactionError = NotEnoughHistory | AlreadyFits

  function Cost(es: seq<Entry>): nat {
    if es == [] then 0 else es[0].cost + Cost(es[1..])
  }

  predicate StartsTurn(e: Entry) {
    e.piece.PlainPiece? && IsPlainUser(e.piece.message)
  }

  function Flatten<T>(groups: seq<seq<T>>): seq<T> {
    if groups == [] then [] else groups[0] + Flatten(groups[1..])
  }

  /** Turns: each but perhaps the first opens with a plain user message, and none holds another one. */
  ghost predicate IsTurn(g: seq<Entry>) {
    g != [] && forall i :: 1 <= i < |g| ==> !StartsTurn(g[i])
  }

  ghost predicate Turns(groups: seq<seq<Entry>>) {
    && (forall k :: 0 <= k < |groups| ==> IsTurn(groups[k]))
    && (forall k :: 1 <= k < |groups| ==> StartsTurn(groups[k][0]))
  }

  lemma {:induction false} CostAppend(a: seq<Entry>, b: seq<Entry>)
    ensures Cost(a + b) == Cost(a) + Cost(b)
  {
    if a == [] {
      assert a + b == b;
    } else {
      assert (a + b)[1..] == a[1..] + b;
      CostAppend(a[1..], b);
    }
  }

  lemma {:induction false} FlattenAppend<T>(a: seq<seq<T>>, b: seq<seq<T>>)
    ensures Flatten(a + b) == Flatten(a) + Flatten(b)
  {
    if a == [] {
      assert a + b == b;
    } else {
      assert (a + b)[1..] == a[1..] + b;
      FlattenAppend(a[1..], b);
    }
  }

  lemma FlattenPush<T>(a: seq<seq<T>>, g: seq<T>)
    ensures Flatten(a + [g]) == Flatten(a) + g
  {
    FlattenAppend(a, [g]);
    assert Flatten([g]) == g;
  }

  /** Where the first turn ends shows in the history itself. */
  lemma FirstTurn(groups: seq<seq<Entry>>)
    requires Turns(groups) && groups != []
    ensures var whole, n := Flatten(groups), |groups[0]|;
            && 1 <= n <= |whole| && whole[..n] == groups[0] && whole[n..] == Flatten(groups[1..])
            && (forall i :: 1 <= i < n ==> !StartsTurn(whole[i]))
            && (n < |whole| ==> StartsTurn(whole[n]))
            && Turns(groups[1..])
  {
    var rest := groups[1..];
    assert IsTurn(groups[0]);
    forall k | 0 <= k < |rest| ensures IsTurn(rest[k]) && StartsTurn(rest[k][0]) {
      assert rest[k] == groups[k + 1];
    }
    if rest != [] {
      assert Flatten(rest)[0] == rest[0][0];
    }
  }

  /** There is only one way to cut a history into turns. */
  lemma {:induction false} TurnsUnique(a: seq<seq<Entry>>, b: seq<seq<Entry>>)
    requires Turns(a) && Turns(b) && Flatten(a) == Flatten(b)
    ensures a == b
  {
    if a != [] { FirstTurn(a); }
    if b != [] { FirstTurn(b); }
    if a != [] && b != [] {
      assert |a[0]| == |b[0]|;
      TurnsUnique(a[1..], b[1..]);
    }
  }

  /** An entry that does not open a turn, or opens the current one, keeps it a turn. */
  lemma TurnGrows(current: seq<Entry>, entry: Entry)
    requires current == [] || (IsTurn(current) && !StartsTurn(entry))
    ensures IsTurn(current + [entry]) && (current + [entry])[0] == if current == [] then entry else current[0]
  {
    hide StartsTurn;
  }

  /** `_turn_groups`. */
  method TurnGroups(entries: seq<Entry>) returns (groups: seq<seq<Entry>>)
    ensures Flatten(groups) == entries && Turns(groups)
    ensures entries != [] ==> groups != []
    ensures forall k :: 1 <= k < |groups| ==>
              && groups[k] != [] && groups[k][0].piece.PlainPiece?
              && groups[k][0].piece.message.role == User && groups[k][0].piece.message.content.Plain?
    ensures forall k, i :: 0 <= k < |groups| && 1 <= i < |groups[k]| && groups[k][i].piece.PlainPiece?
                           && groups[k][i].piece.message.content.Plain? ==>
              groups[k][i].piece.message.role != User
  {
    hide Flatten, StartsTurn, IsTurn;
    groups := [];
    EmptyFlatten<Entry>(groups);
    var current: seq<Entry> := [];
    var i := 0;
    while i < |entries|
      invariant 0 <= i <= |entries|
      invariant Flatten(groups) + current == entries[..i]
      invariant Turns(groups)
      invariant current != [] ==> IsTurn(current)
      invariant current != [] && groups != [] ==> StartsTurn(current[0])
      invariant if i > 0 then current != [] else groups == []
    {
      var entry := entries[i];
      if StartsTurn(entry) && current != [] {
        FlattenPush(groups, current);
        TurnAdded(groups, current);
        groups := groups + [current];
        current := [];
      }
      TurnGrows(current, entry);
      current := current + [entry];
      i := i + 1;
    }
    assert entries[..i] == entries;
    if current != [] {
      FlattenPush(groups, current);
      TurnAdded(groups, current);
      groups := groups + [current];
    }
    TurnsInFull(groups);
  }

  lemma TurnAdded(groups: seq<seq<Entry>>, turn: seq<Entry>)
    requires Turns(groups) && IsTurn(turn) && (groups != [] ==> StartsTurn(turn[0]))
    ensures Turns(groups + [turn])
  {
    hide StartsTurn;
  }

  /** What turns are, in the fields of their messages: each behind the first opens with the text of a user, and no
      other entry of a turn is one. */
  lemma TurnsInFull(groups: seq<seq<Entry>>)
    requires Turns(groups)
    ensures forall k :: 1 <= k < |groups| ==>
              && groups[k] != [] && groups[k][0].piece.PlainPiece?
              && groups[k][0].piece.message.role == User && groups[k][0].piece.message.content.Plain?
    ensures forall k, i :: 0 <= k < |groups| && 1 <= i < |groups[k]| && groups[k][i].piece.PlainPiece?
                           && groups[k][i].piece.message.content.Plain? ==>
              groups[k][i].piece.message.role != User
  {
    forall k | 0 <= k < |groups| ensures IsTurn(groups[k]) && (k >= 1 ==> StartsTurn(groups[k][0])) {}
  }

  /** The turns kept from the end: as many whole ones as fit behind the last. */
  ghost predicate GreedyTail(groups: seq<seq<Entry>>, k: nat, tail: nat, target: nat) {
    && k < |groups|
    && tail == Cost(Flatten(groups[k..]))
    && (k < |groups| - 1 ==> tail <= target)
    && (k > 0 ==> Cost(groups[k - 1]) + tail > target)
  }

  /** The backwards loop over turns. */
  method KeepTurns(groups: seq<seq<Entry>>, target: nat) returns (k: nat, tail: nat)
    requires groups != []
    ensures GreedyTail(groups, k, tail, target)
  {
    k := |groups| - 1;
    tail := Cost(groups[k]);
    assert groups[k..] == [groups[k]] && Flatten([groups[k]]) == groups[k];
    while k > 0
      invariant 0 <= k < |groups|
      invariant tail == Cost(Flatten(groups[k..]))
      invariant k < |groups| - 1 ==> tail <= target
    {
      var candidate := Cost(groups[k - 1]);
      if tail + candidate > target {
        break;
      }
      assert groups[k - 1..] == [groups[k - 1]] + groups[k..];
      CostAppend(groups[k - 1], Flatten(groups[k..]));
      tail := tail + candidate;
      k := k - 1;
    }
  }

  /** The entries kept of an oversized turn: as many as fit behind the last, which stays in any case. */
  ghost predicate GreedySplit(turn: seq<Entry>, at: nat, tail: nat, target: nat) {
    && at < |turn|
    && tail == Cost(turn[at..])
    && (at < |turn| - 1 ==> tail <= target)
    && (at > 0 ==> turn[at - 1].cost + tail > target)
  }

  method SplitTurn(turn: seq<Entry>, target: nat) returns (at: nat, tail: nat)
    requires turn != []
    ensures GreedySplit(turn, at, tail, target)
  {
    at := |turn| - 1;
    tail := turn[at].cost;
    assert turn[at..] == [turn[at]];
    while at > 0
      invariant 0 <= at < |turn|
      invariant tail == Cost(turn[at..])
      invariant at < |turn| - 1 ==> tail <= target
    {
      var candidate := turn[at - 1].cost;
      if tail + candidate > target {
        break;
      }
      assert turn[at - 1..] == [turn[at - 1]] + turn[at..];
      at := at - 1;
      tail := tail + candidate;
    }
  }

  /** What the planner chooses: an exact ordered split of the history, the tail within the target unless it is one
      entry, and nothing more could have been kept. */
  ghost predicate Chosen(groups: seq<seq<Entry>>, prefix: seq<Entry>, split: seq<Entry>, kept: seq<Entry>, target: nat) {
    && prefix + split + kept == Flatten(groups) && kept != []
    && (Cost(kept) <= target || |kept| == 1)
    && (if split != [] then SplitMaximal(groups, prefix, split, kept, target)
        else exists k :: TurnsMaximal(groups, k, prefix, kept, target))
  }

  /** The turn before the kept ones would not fit. */
  ghost predicate TurnsMaximal(groups: seq<seq<Entry>>, k: nat, prefix: seq<Entry>, kept: seq<Entry>, target: nat) {
    && k < |groups| && prefix == Flatten(groups[..k]) && kept == Flatten(groups[k..])
    && (k > 0 ==> Cost(groups[k - 1]) + Cost(kept) > target)
  }

  /** The last turn alone overflows, and the entry before its kept part would not fit. */
  ghost predicate SplitMaximal(groups: seq<seq<Entry>>, prefix: seq<Entry>, split: seq<Entry>, kept: seq<Entry>, target: nat) {
    && groups != [] && split != [] && prefix == Flatten(groups[..|groups| - 1]) && split + kept == groups[|groups| - 1]
    && split[|split| - 1].cost + Cost(kept) > target
  }

  lemma FlattenSplit(groups: seq<seq<Entry>>, k: nat)
    requires k <= |groups|
    ensures Flatten(groups[..k]) + Flatten(groups[k..]) == Flatten(groups)
    ensures Cost(Flatten(groups[..k])) + Cost(Flatten(groups[k..])) == Cost(Flatten(groups))
  {
    assert groups == groups[..k] + groups[k..];
    FlattenAppend(groups[..k], groups[k..]);
    CostAppend(Flatten(groups[..k]), Flatten(groups[k..]));
  }

  lemma EmptyFlatten<T>(groups: seq<seq<T>>)
    requires groups == []
    ensures Flatten(groups) == []
  {
  }

  lemma PrefixFacts(groups: seq<seq<Entry>>, k: nat)
    requires Turns(groups) && 0 < k <= |groups|
    ensures Flatten(groups[..k]) != [] && Cost(Flatten(groups[..k])) >= Cost(groups[k - 1])
  {
    var front := groups[..k - 1];
    assert groups[..k] == front + [groups[k - 1]] && IsTurn(groups[k - 1]);
    FlattenPush(front, groups[k - 1]);
    CostAppend(Flatten(front), groups[k - 1]);
  }

  lemma TailFacts(groups: seq<seq<Entry>>, k: nat)
    requires Turns(groups) && k < |groups|
    ensures Flatten(groups[k..]) != []
    ensures k == |groups| - 1 ==> Flatten(groups[k..]) == groups[k]
  {
    assert groups[k..] == [groups[k]] + groups[k + 1..] && IsTurn(groups[k]);
    assert Flatten(groups[k..]) == groups[k] + Flatten(groups[k + 1..]);
  }

  /** Whole turns kept: there is a prefix exactly when the history overflows the target. */
  lemma WholeTurnsChosen(groups: seq<seq<Entry>>, k: nat, tail: nat, target: nat)
    requires Turns(groups) && GreedyTail(groups, k, tail, target)
    requires tail <= target || |groups[|groups| - 1]| == 1
    requires |Flatten(groups)| >= 2
    ensures Chosen(groups, Flatten(groups[..k]), [], Flatten(groups[k..]), target)
    ensures Flatten(groups[..k]) == [] <==> Cost(Flatten(groups)) <= target
  {
    hide Flatten, Turns;
    var prefix, kept := Flatten(groups[..k]), Flatten(groups[k..]);
    FlattenSplit(groups, k);
    TailFacts(groups, k);
    assert prefix + [] + kept == Flatten(groups);
    assert TurnsMaximal(groups, k, prefix, kept, target);
    if k > 0 {
      PrefixFacts(groups, k);
    } else {
      EmptyFlatten<Entry>(groups[..k]);
    }
  }

  /** An oversized last turn of several entries is always split, and the part before the split is not empty. */
  lemma SplitTurnChosen(groups: seq<seq<Entry>>, k: nat, tail: nat, at: nat, rest: nat, target: nat)
    requires Turns(groups) && GreedyTail(groups, k, tail, target) && tail > target
    requires |groups[|groups| - 1]| > 1 && GreedySplit(groups[|groups| - 1], at, rest, target)
    ensures var last := groups[|groups| - 1];
            at > 0 && Chosen(groups, Flatten(groups[..|groups| - 1]), last[..at], last[at..], target)
    ensures Cost(Flatten(groups)) > target
  {
    hide Flatten, Turns, Cost, GreedySplit, Chosen;
    var n := |groups| - 1;
    FlattenSplit(groups, n);
    TailFacts(groups, n);
    SplitIsMaximal(groups, Flatten(groups[..n]), at, rest, target);
  }

  lemma SplitIsMaximal(groups: seq<seq<Entry>>, prefix: seq<Entry>, at: nat, rest: nat, target: nat)
    requires groups != [] && prefix == Flatten(groups[..|groups| - 1])
    requires var last := groups[|groups| - 1];
             prefix + last == Flatten(groups) && Cost(last) > target && |last| > 1 && GreedySplit(last, at, rest, target)
    ensures var last := groups[|groups| - 1];
            at > 0 && Chosen(groups, prefix, last[..at], last[at..], target)
  {
    hide Flatten, Cost;
    var last := groups[|groups| - 1];
    assert last[0..] == last;
    var split, kept := last[..at], last[at..];
    assert split + kept == last;
    assert prefix + split + kept == prefix + last;
    assert SplitMaximal(groups, prefix, split, kept, target);
  }

  /** What a plan promises about the history it was made for. */
  ghost predicate PlanFor(p: Plan, groups: seq<seq<Entry>>) {
    && Chosen(groups, p.prefix, p.splitPrefix, p.kept, p.target)
    && p.prefix + p.splitPrefix != []
    && p.tailTokens == Cost(p.kept) && p.prefixTokens == Cost(p.prefix) && p.splitPrefixTokens == Cost(p.splitPrefix)
  }

  /** The two greedy loops together. */
  method ChooseTail(groups: seq<seq<Entry>>, target: nat)
    returns (prefix: seq<Entry>, split: seq<Entry>, kept: seq<Entry>, tail: nat)
    requires Turns(groups) && groups != [] && |Flatten(groups)| >= 2
    ensures Chosen(groups, prefix, split, kept, target) && tail == Cost(kept)
    ensures prefix == [] && split == [] <==> Cost(Flatten(groups)) <= target
  {
    var k;
    k, tail := KeepTurns(groups, target);
    prefix, split, kept := Flatten(groups[..k]), [], Flatten(groups[k..]);
    var last := groups[|groups| - 1];
    if tail > target && |last| > 1 {
      var at, rest := SplitTurn(last, target);
      SplitTurnChosen(groups, k, tail, at, rest, target);
      split, kept := last[..at], last[at..];
      prefix := Flatten(groups[..|groups| - 1]);
      tail := rest;
    } else {
      assert IsTurn(last);
      WholeTurnsChosen(groups, k, tail, target);
    }
  }

  /** `build_compaction_plan`; `viewTokens` is the cost of the view when an earlier compaction is in force. */
  method BuildCompactionPlan(entries: seq<Entry>, keepRecent: int, viewTokens: Option<nat>)
    returns (r: Result<Plan, CompactionError>, ghost groups: seq<seq<Entry>>)
    ensures r == Failure(NotEnoughHistory) <==> |entries| < 2
    ensures |entries| >= 2 ==> (r == Failure(AlreadyFits) <==> Cost(entries) <= if keepRecent >= 1 then keepRecent else 1)
    ensures r.Success? ==>
              && Turns(groups) && Flatten(groups) == entries && PlanFor(r.value, groups)
              && r.value.target == (if keepRecent >= 1 then keepRecent else 1)
              && r.value.tokensBefore == (if viewTokens.Some? then viewTokens.value else Cost(entries))
    ensures r.Success? ==>
              && r.value.prefix + r.value.splitPrefix + r.value.kept == entries && r.value.kept != []
              && r.value.prefix + r.value.splitPrefix != []
              && (Cost(r.value.kept) <= r.value.target || |r.value.kept| == 1)
    ensures r.Success? && r.value.splitPrefix != [] ==>
              && groups != [] && r.value.splitPrefix + r.value.kept == groups[|groups| - 1]
              && r.value.splitPrefix[|r.value.splitPrefix| - 1].cost + Cost(r.value.kept) > r.value.target
    ensures r.Success? && r.value.splitPrefix == [] ==>
              exists k :: 0 < k < |groups| && r.value.kept == Flatten(groups[k..])
                          && Cost(groups[k - 1]) + Cost(r.value.kept) > r.value.target
    ensures r.Success? ==> r.value.prefixTokens == Cost(r.value.prefix) && r.value.splitPrefixTokens == Cost(r.value.splitPrefix)
                           && r.value.tailTokens == Cost(r.value.kept)
    ensures r.Success? ==> forall k :: 1 <= k < |groups| ==>
              && groups[k] != [] && groups[k][0].piece.PlainPiece?
              && groups[k][0].piece.message.role == User && groups[k][0].piece.message.content.Plain?
    ensures r.Success? ==>
              forall k, i :: 0 <= k < |groups| && 1 <= i < |groups[k]| && groups[k][i].piece.PlainPiece?
                             && groups[k][i].piece.message.content.Plain? ==>
                groups[k][i].piece.message.role != User
  {
    hide StartsTurn, IsTurn, Turns;
    groups := [];
    if |entries| < 2 {
      return Failure(NotEnoughHistory), groups;
    }
    var target: nat := if keepRecent >= 1 then keepRecent else 1;
    var turns := TurnGroups(entries);
    groups := turns;
    var prefix, split, kept, tail := ChooseTail(turns, target);
    if prefix == [] && split == [] {
      return Failure(AlreadyFits), groups;
    }
    var before := if viewTokens.Some? then viewTokens.value else Cost(entries);
    r := Success(Plan(prefix, split, kept, before, Cost(prefix), Cost(split), tail, target));
  }

  /** The three parts of a plan cost what the history costs. */
  lemma PlanConserves(p: Plan, groups: seq<seq<Entry>>)
    requires PlanFor(p, groups)
    ensures p.prefixTokens + p.splitPrefixTokens + p.tailTokens == Cost(Flatten(groups))
  {
    CostAppend(p.prefix + p.splitPrefix, p.kept);
    CostAppend(p.prefix, p.splitPrefix);
  }

  // ----- the kept tail as a transcript

  function Pieces(es: seq<Entry>): (ps: seq<Piece>)
    ensures |ps| == |es| && forall i :: 0 <= i < |ps| ==> ps[i] == es[i].piece
  {
    seq(|es|, i requires 0 <= i < |es| => es[i].piece)
  }

  lemma PiecesApart(a: seq<Entry>, b: seq<Entry>, c: seq<Entry>)
    ensures var all := Pieces(a + b + c);
            && all[0..|a|] == Pieces(a) && all[|a|..|a| + |b|] == Pieces(b) && all[|a| + |b|..|all|] == Pieces(c)
  {
    var all := Pieces(a + b + c);
    assert all == Pieces(a) + (Pieces(b) + Pieces(c));
  }

  /** A plan never cuts a tool pair: what is kept of a valid history is a valid transcript, and so is each summarised part. */
  lemma PlanPartsValid(p: Plan, groups: seq<seq<Entry>>, requireMeta: bool)
    requires PlanFor(p, groups) && PiecesOk(Pieces(Flatten(groups)), {}, requireMeta)
    ensures InGrammar(Messages(Pieces(p.kept)), requireMeta)
    ensures InGrammar(Messages(Pieces(p.prefix)), requireMeta)
    ensures InGrammar(Messages(Pieces(p.splitPrefix)), requireMeta)
  {
    hide Flatten, PiecesOk, InGrammar, Messages;
    var all := Pieces(Flatten(groups));
    var i, j := |p.prefix|, |p.prefix| + |p.splitPrefix|;
    PiecesApart(p.prefix, p.splitPrefix, p.kept);
    CutBetweenPieces(all, 0, i, requireMeta);
    CutBetweenPieces(all, i, j, requireMeta);
    CutBetweenPieces(all, j, |all|, requireMeta);
  }

  // ----- committing a plan

  datatype Outcome = Committed(tokensAfter: nat) | NoGain

  /** The kept tail and the summaries there are. */
  function CostAfter(p: Plan, summaryCost: Option<nat>, splitCost: Option<nat>): nat {
    p.tailTokens + (if summaryCost.Some? then summaryCost.value else 0) + if splitCost.Some? then splitCost.value else 0
  }

  /** The last step of `compact_session`: the entry is appended only if the summaries and the tail cost less than before.
      A summary is None when there was nothing to summarise; its cost includes the message framing. */
  method CommitPlan(p: Plan, summaryCost: Option<nat>, splitCost: Option<nat>) returns (r: Outcome)
    ensures r.Committed? <==>
              && (summaryCost.Some? || splitCost.Some?)
              && CostAfter(p, summaryCost, splitCost) < p.tokensBefore
    ensures r.Committed? ==> r.tokensAfter == CostAfter(p, summaryCost, splitCost)
    ensures r.Committed? && summaryCost.Some? && splitCost.Some? ==>
              r.tokensAfter == p.tailTokens + summaryCost.value + splitCost.value
    ensures r.Committed? && summaryCost.None? ==> r.tokensAfter == p.tailTokens + splitCost.value
    ensures r.Committed? && splitCost.None? ==> r.tokensAfter == p.tailTokens + summaryCost.value
  {
    if summaryCost.None? && splitCost.None? {
      return NoGain;
    }
    var tokensAfter := p.tailTokens;
    if summaryCost.Some? { tokensAfter := tokensAfter + summaryCost.value; }
    if splitCost.Some? { tokensAfter := tokensAfter + splitCost.value; }
    if tokensAfter >= p.tokensBefore {
      return NoGain;
    }
    return Committed(tokensAfter);
  }

  /** For a history not yet compacted, a commit pays exactly when the summaries cost less than what they replace. */
  lemma CommitPays(p: Plan, groups: seq<seq<Entry>>, summary: nat, split: nat)
    requires PlanFor(p, groups) && p.tokensBefore == Cost(Flatten(groups))
    ensures CostAfter(p, Some(summary), None) < p.tokensBefore <==> summary < Cost(p.prefix) + Cost(p.splitPrefix)
    ensures CostAfter(p, None, Some(split)) < p.tokensBefore <==> split < Cost(p.prefix) + Cost(p.splitPrefix)
    ensures CostAfter(p, Some(summary), Some(split)) < p.tokensBefore <==>
            summary + split < Cost(p.prefix) + Cost(p.splitPrefix)
  {
    PlanConserves(p, groups);
  }
}
