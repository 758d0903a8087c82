/** The Session store as the run loop sees it: an append-only log shared with foreign
    writers, who may append at any moment before the store's lock is taken. */
module Session {
  import opened Common

  /** Who wrote an entry: attempt n of this run (0 before the first), a tool that edits the Session, or somebody else. */
  datatype Author = Run(attempt: nat) | SessionTool(attempt: nat) | Foreign

  datatype Body =
    | UserMessage | ToolExchange(toolUseId: string) | AssistantMessage | TerminalMessage
    | SessionInfo | Compaction | ContextRecovery | Checkpoint | OtherBody

  datatype Entry = Entry(author: Author, body: Body)

  /** A leaf id is modelled by the number of entries up to it: ids are never reused, entries never removed. */
  datatype Guard = Guard(leaf: nat, binding: int)

  /** An append is done, refused because the Session changed, or fails with nothing written. */
  datatype Append = Appended(leaf: nat) | Changed | Failed

  ghost predicate ForeignOnly(log: seq<Entry>, from: nat) {
    forall i :: from <= i < |log| ==> log[i].author.Foreign?
  }

  function Entries(author: Author, bodies: seq<Body>): (r: seq<Entry>)
    ensures |r| == |bodies| && forall i :: 0 <= i < |r| ==> r[i] == Entry(author, bodies[i])
  {
    seq(|bodies|, i requires 0 <= i < |bodies| => Entry(author, bodies[i]))
  }

  ghost predicate NoRunAfter(log: seq<Entry>, from: nat) {
    forall i :: from <= i < |log| ==> !log[i].author.Run?
  }

  /** Entries from..to are all the attempt's own. */
  ghost predicate OwnSpan(log: seq<Entry>, from: nat, to: nat, attempt: nat) {
    from <= to <= |log| && forall i :: from <= i < to ==> log[i].author == Run(attempt)
  }

  predicate IsAnswer(b: Body) {
    b.ToolExchange? || b.AssistantMessage?
  }

  /** Every tool pair and assistant message an attempt committed since `start` follows the leaf captured at that
      attempt's beginning with nothing but the attempt's own entries between (unless it ran a Session tool). */
  ghost predicate Isolated(log: seq<Entry>, start: nat, captures: seq<nat>, toolAttempts: set<nat>) {
    forall i :: start <= i < |log| && log[i].author.Run? && log[i].author.attempt >= 1 && IsAnswer(log[i].body) ==>
      IsolatedAt(log, i, captures, toolAttempts)
  }

  ghost predicate IsolatedAt(log: seq<Entry>, i: nat, captures: seq<nat>, toolAttempts: set<nat>)
    requires i < |log| && log[i].author.Run? && log[i].author.attempt >= 1
  {
    var k := log[i].author.attempt;
    k <= |captures| && captures[k - 1] <= i && (k !in toolAttempts ==> OwnSpan(log, captures[k - 1], i, k))
  }

  lemma IsolatedGrows(log: seq<Entry>, log': seq<Entry>, start: nat, captures: seq<nat>, captures': seq<nat>,
                      tools: set<nat>, tools': set<nat>)
    requires log <= log' && captures <= captures' && tools <= tools'
    requires NoRunAfter(log', |log|)
    requires Isolated(log, start, captures, tools)
    ensures Isolated(log', start, captures', tools')
  {
    forall i | start <= i < |log'| && log'[i].author.Run? && log'[i].author.attempt >= 1 && IsAnswer(log'[i].body)
      ensures IsolatedAt(log', i, captures', tools')
    {
      assert log'[i] == log[i];
      assert IsolatedAt(log, i, captures, tools);
    }
  }

  /** The attempt's own entries, appended right at a leaf reached from its captured one by its own entries. */
  lemma IsolatedAppend(log: seq<Entry>, bodies: seq<Body>, start: nat, captures: seq<nat>, tools: set<nat>)
    requires Isolated(log, start, captures, tools)
    requires |captures| > 0 ==> captures[|captures| - 1] <= |log|
    requires |captures| > 0 && |captures| !in tools ==> OwnSpan(log, captures[|captures| - 1], |log|, |captures|)
    ensures Isolated(log + Entries(Run(|captures|), bodies), start, captures, tools)
    ensures |captures| > 0 && |captures| !in tools ==>
              OwnSpan(log + Entries(Run(|captures|), bodies), captures[|captures| - 1], |log| + |bodies|, |captures|)
  {
    var log' := log + Entries(Run(|captures|), bodies);
    forall i | start <= i < |log'| && log'[i].author.Run? && log'[i].author.attempt >= 1 && IsAnswer(log'[i].body)
      ensures IsolatedAt(log', i, captures, tools)
    {
      if i < |log| {
        assert log'[i] == log[i];
        assert IsolatedAt(log, i, captures, tools);
      }
    }
  }

  lemma NoRunGrows(log: seq<Entry>, log': seq<Entry>, from: nat)
    requires log <= log' && from <= |log| && NoRunAfter(log, from) && NoRunAfter(log', |log|)
    ensures NoRunAfter(log', from)
  {
  }

  class SessionStore {
    var log: seq<Entry>
    var binding: int

    constructor ()
      ensures log == []
    {
      log, binding := [], 0;
    }

    /** Foreign writers take any number of steps; only by writing can they change the binding. */
    method ForeignSteps()
      modifies this
      ensures old(log) <= log && ForeignOnly(log, |old(log)|)
      ensures log == old(log) ==> binding == old(binding)
    {
      var bodies: seq<Body> := *;
      if bodies != [] {
        log := log + Entries(Foreign, bodies);
        binding := *;
      }
    }

    /** `append_messages` and `append_control`: under the lock, append all or nothing, at the expected leaf
        and under the expected binding where these are given. */
    method AppendEntries(author: Author, bodies: seq<Body>, leaf: Option<nat>, bound: Option<int>) returns (r: Append)
      requires !author.Foreign?
      requires leaf.Some? ==> leaf.value <= |log|
      modifies this
      ensures old(log) <= log
      ensures !r.Appended? ==> ForeignOnly(log, |old(log)|)
      ensures r.Appended? ==>
                && r.leaf == |log|
                && |old(log)| <= |log| - |bodies|
                && ForeignOnly(log[..|log| - |bodies|], |old(log)|)
                && log[|log| - |bodies|..] == Entries(author, bodies)
      ensures r.Appended? && leaf.Some? ==> |log| - |bodies| == leaf.value == |old(log)| && binding == old(binding)
      ensures r.Appended? && bound.Some? ==> binding == bound.value
      ensures !r.Appended? ==>
                (r.Changed? <==> (leaf.Some? && |log| != leaf.value) || (bound.Some? && binding != bound.value))
    {
      ForeignSteps();
      if (leaf.Some? && |log| != leaf.value) || (bound.Some? && binding != bound.value) {
        return Changed;
      }
      var written: bool := *;
      if !written {
        return Failed;
      }
      ghost var before := log;
      log := log + Entries(author, bodies);
      assert log[..|before|] == before && log[|before|..] == Entries(author, bodies);
      return Appended(|log|);
    }
  }
}
