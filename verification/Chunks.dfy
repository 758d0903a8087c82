/** The chunk allocator of pony/context/chunks.py: whole chunks, most important first, within a pool and a cap per source. */
module Chunks {
  import opened Common

  datatype Chunk = Chunk(source: string, key: string, tokens: nat, priority: int, required: bool, rank: Option<int>)

  datatype Reason = UnknownSource | ExceedsSourceCap | SourceCap | GlobalPool

  datatype Dropped = Dropped(chunk: Chunk, reason: Reason)

  datatype Allocation = Allocation(
    selected: seq<Chunk>, dropped: seq<Dropped>, poolTokens: nat, usedTokens: nat, sourceTokens: map<string, nat>)

  /** Tokens of the chunks of one source, or of all, counting only the required ones if asked to. */
  function Total(s: seq<Chunk>, source: Option<string>, requiredOnly: bool): nat {
    if s == [] then 0
    else Total(s[..|s| - 1], source, requiredOnly) + Share(s[|s| - 1], source, requiredOnly)
  }

  function Share(c: Chunk, source: Option<string>, requiredOnly: bool): nat {
    if (source.None? || source.value == c.source) && (requiredOnly ==> c.required) then c.tokens else 0
  }

  function Cap(caps: map<string, int>, source: string): int {
    if source in caps then caps[source] else 0
  }

  // ----- the order

  datatype Item = Item(index: nat, chunk: Chunk)

  function Rank(i: Item): int {
    if i.chunk.rank.Some? then i.chunk.rank.value else i.index
  }

  /** The sort key: required first, then priority, then rank, then position. */
  predicate Before(a: Item, b: Item) {
    if a.chunk.required != b.chunk.required then a.chunk.required
    else if a.chunk.priority != b.chunk.priority then a.chunk.priority < b.chunk.priority
    else if Rank(a) != Rank(b) then Rank(a) < Rank(b)
    else a.index <= b.index
  }

  function Insert(x: Item, s: seq<Item>): seq<Item> {
    if s == [] || Before(x, s[0]) then [x] + s else [s[0]] + Insert(x, s[1..])
  }

  function Sorted(s: seq<Item>): seq<Item> {
    if s == [] then [] else Insert(s[0], Sorted(s[1..]))
  }

  ghost predicate InOrder(s: seq<Item>) {
    forall i, j :: 0 <= i < j < |s| ==> Before(s[i], s[j])
  }

  /** What is inserted further back stays behind the first. */
  lemma InsertBehind(x: Item, s: seq<Item>)
    requires s != [] && InOrder(s) && !Before(x, s[0])
    requires multiset(Insert(x, s[1..])) == multiset{x} + multiset(s[1..])
    ensures forall j :: 0 <= j < |Insert(x, s[1..])| ==> Before(s[0], Insert(x, s[1..])[j])
  {
    hide Insert, Before;
    var t := Insert(x, s[1..]);
    OrderTransitive(x, s[0], s[0]);
    forall j | 0 <= j < |t| ensures Before(s[0], t[j]) {
      assert t[j] in multiset(t);
      if t[j] != x { assert t[j] in s[1..]; }
    }
  }

  lemma OrderTransitive(a: Item, b: Item, c: Item)
    ensures Before(a, b) && Before(b, c) ==> Before(a, c)
    ensures Before(a, b) || Before(b, a)
  {
  }

  /** In front of what is sorted, an item that comes before the first keeps it sorted. */
  lemma PrependSorts(x: Item, s: seq<Item>)
    requires InOrder(s) && (s == [] || Before(x, s[0]))
    ensures InOrder([x] + s)
  {
    hide Before;
    var t := [x] + s;
    forall i, j | 0 <= i < j < |t| ensures Before(t[i], t[j]) {
      if i == 0 {
        OrderTransitive(x, s[0], t[j]);
        assert t[j] == s[j - 1];
      } else {
        assert t[i] == s[i - 1] && t[j] == s[j - 1];
      }
    }
  }

  lemma {:induction false} InsertSorts(x: Item, s: seq<Item>)
    requires InOrder(s)
    ensures InOrder(Insert(x, s)) && multiset(Insert(x, s)) == multiset{x} + multiset(s)
  {
    hide Before, InOrder;
    if s == [] || Before(x, s[0]) {
      PrependSorts(x, s);
    } else {
      RestInOrder(s);
      InsertSorts(x, s[1..]);
      OrderTransitive(x, s[0], s[0]);
      InsertBehind(x, s);
      var t := Insert(x, s[1..]);
      assert t != [] by { assert |multiset(t)| > 0; }
      PrependSorts(s[0], t);
      assert s == [s[0]] + s[1..];
    }
  }

  lemma RestInOrder(s: seq<Item>)
    requires s != [] && InOrder(s)
    ensures InOrder(s[1..])
  {
    hide Before;
  }

  lemma {:induction false} SortedSorts(s: seq<Item>)
    ensures InOrder(Sorted(s)) && multiset(Sorted(s)) == multiset(s)
  {
    if s != [] {
      SortedSorts(s[1..]);
      InsertSorts(s[0], Sorted(s[1..]));
      assert s == [s[0]] + s[1..];
    }
  }

  function Indexed(chunks: seq<Chunk>): seq<Item> {
    seq(|chunks|, i requires 0 <= i < |chunks| => Item(i, chunks[i]))
  }

  function ChunksOf(items: seq<Item>): seq<Chunk> {
    seq(|items|, i requires 0 <= i < |items| => items[i].chunk)
  }

  /** The chunks in the order they are considered. */
  function Ordered(chunks: seq<Chunk>): seq<Chunk> {
    ChunksOf(Sorted(Indexed(chunks)))
  }

  lemma ChunksOfAppend(a: seq<Item>, b: seq<Item>)
    ensures ChunksOf(a + b) == ChunksOf(a) + ChunksOf(b)
  {
  }

  lemma {:induction false} ChunksOfPermutes(a: seq<Item>, b: seq<Item>)
    requires multiset(a) == multiset(b)
    ensures multiset(ChunksOf(a)) == multiset(ChunksOf(b))
    decreases |a|
  {
    hide ChunksOf;
    if a == [] {
      assert |multiset(b)| == 0;
      assert b == [];
    } else {
      var j := TakeOut(a, b);
      var front, back := b[..j], b[j + 1..];
      ChunksOfPermutes(a[1..], front + back);
      assert a == [a[0]] + a[1..] && b == front + ([b[j]] + back);
      ChunksOfAppend([a[0]], a[1..]);
      ChunksOfAppend(front, [b[j]] + back);
      ChunksOfAppend([b[j]], back);
      ChunksOfAppend(front, back);
    }
  }

  /** The order sorts the numbered chunks by the whole key; so it permutes the chunks and puts the required ones first. */
  lemma OrderedFacts(chunks: seq<Chunk>)
    ensures Ordered(chunks) == ChunksOf(Sorted(Indexed(chunks))) && InOrder(Sorted(Indexed(chunks)))
    ensures multiset(Sorted(Indexed(chunks))) == multiset(Indexed(chunks))
    ensures multiset(Ordered(chunks)) == multiset(chunks)
    ensures forall i, j :: 0 <= i < j < |Ordered(chunks)| && Ordered(chunks)[j].required ==> Ordered(chunks)[i].required
    ensures forall i, j :: 0 <= i < j < |Ordered(chunks)| && Ordered(chunks)[i].required == Ordered(chunks)[j].required ==>
              Ordered(chunks)[i].priority <= Ordered(chunks)[j].priority
  {
    var items := Indexed(chunks);
    SortedSorts(items);
    ChunksOfPermutes(Sorted(items), items);
    assert ChunksOf(items) == chunks;
    forall i, j | 0 <= i < j < |Ordered(chunks)| && Ordered(chunks)[j].required ensures Ordered(chunks)[i].required {
      assert Before(Sorted(items)[i], Sorted(items)[j]);
    }
    forall i, j | 0 <= i < j < |Ordered(chunks)| && Ordered(chunks)[i].required == Ordered(chunks)[j].required
      ensures Ordered(chunks)[i].priority <= Ordered(chunks)[j].priority
    {
      assert Before(Sorted(items)[i], Sorted(items)[j]);
    }
  }

  lemma {:induction false} IndexedOnce(s: seq<Item>, x: Item)
    requires forall i, j :: 0 <= i < j < |s| ==> s[i].index != s[j].index
    ensures multiset(s)[x] <= 1
  {
    if s != [] {
      var front, last := s[..|s| - 1], s[|s| - 1];
      assert s == front + [last];
      IndexedOnce(front, x);
      assert forall i :: 0 <= i < |front| ==> front[i] == s[i] && front[i].index != last.index;
      assert last !in front;
    }
  }

  lemma TwiceIn(s: seq<Item>, k: nat, l: nat)
    requires k < l < |s| && s[k] == s[l]
    ensures multiset(s)[s[k]] >= 2
  {
    assert s == s[..l] + [s[l]] + s[l + 1..];
    assert s[k] in s[..l];
  }

  /** MAIN RESULT: the order in which chunks are considered, by the chunks' own fields. Position `at[k]` of the input is
      considered k-th: required chunks come first, then smaller priorities, then smaller ranks (a chunk without a rank has
      its input position for one), and what is equal in all that keeps the order of the input. */
  lemma OrderInFull(chunks: seq<Chunk>) returns (at: seq<nat>)
    ensures |at| == |Ordered(chunks)| == |chunks|
    ensures forall k :: 0 <= k < |at| ==> at[k] < |chunks| && Ordered(chunks)[k] == chunks[at[k]]
    ensures forall k, l :: 0 <= k < l < |at| ==> at[k] != at[l]
    ensures forall k, l :: 0 <= k < l < |at| ==>
              var a, b := chunks[at[k]], chunks[at[l]];
              var first := if a.rank.Some? then a.rank.value else at[k];
              var second := if b.rank.Some? then b.rank.value else at[l];
              && (b.required ==> a.required)
              && (a.required == b.required ==> a.priority <= b.priority)
              && (a.required == b.required && a.priority == b.priority ==> first <= second)
              && (a.required == b.required && a.priority == b.priority && first == second ==> at[k] < at[l])
  {
    hide Sorted, Before;
    var items := Indexed(chunks);
    var sorted := Sorted(items);
    SortedSorts(items);
    assert |sorted| == |multiset(sorted)| == |multiset(items)| == |items|;
    at := seq(|sorted|, k requires 0 <= k < |sorted| => sorted[k].index);
    forall k | 0 <= k < |sorted| ensures sorted[k].index < |chunks| && sorted[k] == Item(sorted[k].index, chunks[sorted[k].index]) {
      assert sorted[k] in multiset(sorted);
      assert sorted[k] in items;
    }
    forall k, l | 0 <= k < l < |at| ensures at[k] != at[l] {
      if at[k] == at[l] {
        TwiceIn(sorted, k, l);
        IndexedOnce(items, sorted[k]);
      }
    }
    forall k, l | 0 <= k < l < |at| ensures Before(sorted[k], sorted[l]) && OrderedPair(sorted[k], sorted[l]) {
      assert at[k] == sorted[k].index && at[l] == sorted[l].index;
      PairInOrder(sorted[k], sorted[l]);
    }
  }

  ghost predicate OrderedPair(x: Item, y: Item) {
    var a, b := x.chunk, y.chunk;
    var first := if a.rank.Some? then a.rank.value else x.index;
    var second := if b.rank.Some? then b.rank.value else y.index;
    && (b.required ==> a.required)
    && (a.required == b.required ==> a.priority <= b.priority)
    && (a.required == b.required && a.priority == b.priority ==> first <= second)
    && (a.required == b.required && a.priority == b.priority && first == second ==> x.index < y.index)
  }

  lemma PairInOrder(x: Item, y: Item)
    requires Before(x, y) && x.index != y.index
    ensures OrderedPair(x, y)
  {
  }

  lemma {:induction false} TotalAppend(a: seq<Chunk>, b: seq<Chunk>, source: Option<string>, requiredOnly: bool)
    ensures Total(a + b, source, requiredOnly) == Total(a, source, requiredOnly) + Total(b, source, requiredOnly)
  {
    if b == [] {
      assert a + b == a;
    } else {
      assert (a + b)[..|a + b| - 1] == a + b[..|b| - 1];
      TotalAppend(a, b[..|b| - 1], source, requiredOnly);
    }
  }

  lemma {:induction false} TotalPermutes(a: seq<Chunk>, b: seq<Chunk>, source: Option<string>, requiredOnly: bool)
    requires multiset(a) == multiset(b)
    ensures Total(a, source, requiredOnly) == Total(b, source, requiredOnly)
    decreases |a|
  {
    hide Total;
    if a == [] {
      assert |multiset(b)| == 0;
      assert b == [];
    } else {
      var j := TakeOut(a, b);
      var front, back := b[..j], b[j + 1..];
      TotalPermutes(a[1..], front + back, source, requiredOnly);
      assert a == [a[0]] + a[1..] && b == front + ([b[j]] + back);
      TotalAppend([a[0]], a[1..], source, requiredOnly);
      TotalAppend(front, [b[j]] + back, source, requiredOnly);
      TotalAppend([b[j]], back, source, requiredOnly);
      TotalAppend(front, back, source, requiredOnly);
    }
  }

  lemma TotalOfPrefix(s: seq<Chunk>, i: nat, source: Option<string>, requiredOnly: bool)
    requires i <= |s|
    ensures Total(s[..i], source, requiredOnly) <= Total(s, source, requiredOnly)
  {
    assert s == s[..i] + s[i..];
    TotalAppend(s[..i], s[i..], source, requiredOnly);
  }

  lemma {:induction false} AllRequired(s: seq<Chunk>, source: Option<string>)
    requires forall i :: 0 <= i < |s| ==> s[i].required
    ensures Total(s, source, true) == Total(s, source, false)
  {
    if s != [] { AllRequired(s[..|s| - 1], source); }
  }

  // ----- totals by source

  /** The values of some keys, added up. */
  function ValuesAlong(m: map<string, nat>, keys: seq<string>): nat
    requires forall s :: s in keys ==> s in m
  {
    if keys == [] then 0 else ValuesAlong(m, keys[..|keys| - 1]) + m[keys[|keys| - 1]]
  }

  /** The same for the totals of the sources, zero or not. */
  function TotalsAlong(selected: seq<Chunk>, keys: seq<string>): nat {
    if keys == [] then 0 else TotalsAlong(selected, keys[..|keys| - 1]) + Total(selected, Some(keys[|keys| - 1]), false)
  }

  lemma {:induction false} NothingAlong(keys: seq<string>)
    ensures TotalsAlong([], keys) == 0
  {
    if keys != [] { NothingAlong(keys[..|keys| - 1]); }
  }

  /** One more chunk adds its tokens to one of the totals, if its source is among them. */
  lemma {:induction false} ChunkAlong(selected: seq<Chunk>, c: Chunk, keys: seq<string>)
    requires Distinct(keys)
    ensures TotalsAlong(selected + [c], keys) == TotalsAlong(selected, keys) + if c.source in keys then c.tokens else 0
  {
    hide Total;
    if keys != [] {
      var front, last := keys[..|keys| - 1], keys[|keys| - 1];
      assert keys == front + [last];
      ChunkAlong(selected, c, front);
      TotalPush(selected, c, Some(last), false);
    }
  }

  /** The totals of distinct sources that cover every chunk with tokens add up to the total. */
  lemma {:induction false} SourcesAddUp(selected: seq<Chunk>, keys: seq<string>)
    requires Distinct(keys) && forall c :: c in selected && c.tokens > 0 ==> c.source in keys
    ensures TotalsAlong(selected, keys) == Total(selected, None, false)
  {
    hide TotalsAlong;
    if selected == [] {
      NothingAlong(keys);
    } else {
      var front, last := selected[..|selected| - 1], selected[|selected| - 1];
      assert selected == front + [last];
      SourcesAddUp(front, keys);
      ChunkAlong(front, last, keys);
    }
  }

  lemma {:induction false} SameAlong(m: map<string, nat>, selected: seq<Chunk>, keys: seq<string>)
    requires forall s :: s in keys ==> s in m && m[s] == Total(selected, Some(s), false)
    ensures ValuesAlong(m, keys) == TotalsAlong(selected, keys)
  {
    hide Total;
    if keys != [] {
      assert keys == keys[..|keys| - 1] + [keys[|keys| - 1]];
      SameAlong(m, selected, keys[..|keys| - 1]);
    }
  }

  /** However the sources are listed, their totals add up to what is used. */
  lemma SourceTokensAddUp(m: map<string, nat>, selected: seq<Chunk>)
    requires forall s :: s in m ==> m[s] == Total(selected, Some(s), false)
    requires forall c :: c in selected && c.tokens > 0 ==> c.source in m
    ensures forall keys: seq<string> :: Distinct(keys) && Elements(keys) == m.Keys ==>
              ValuesAlong(m, keys) == Total(selected, None, false)
  {
    hide Total;
    forall keys: seq<string> | Distinct(keys) && Elements(keys) == m.Keys
      ensures ValuesAlong(m, keys) == Total(selected, None, false)
    {
      assert forall s :: s in keys <==> s in Elements(keys);
      SourcesAddUp(selected, keys);
      SameAlong(m, selected, keys);
    }
  }

  // ----- the allocation

  /** What a caller can check beforehand: the required chunks fit together, source by source and in all. */
  ghost predicate RequiredFit(chunks: seq<Chunk>, caps: map<string, int>, pool: nat) {
    && (forall c :: c in chunks && c.required ==>
          c.source in caps && 0 < caps[c.source] && Total(chunks, Some(c.source), true) <= caps[c.source])
    && Total(chunks, None, true) <= pool
  }

  /** The first limit a chunk breaks, if any. */
  function Verdict(c: Chunk, cap: int, sourceUsed: nat, used: nat, pool: nat): (r: Option<Reason>)
    ensures r.None? <==> 0 < cap && sourceUsed + c.tokens <= cap && used + c.tokens <= pool
  {
    if cap <= 0 then Some(UnknownSource)
    else if c.tokens > cap then Some(ExceedsSourceCap)
    else if sourceUsed + c.tokens > cap then Some(SourceCap)
    else if used + c.tokens > pool then Some(GlobalPool)
    else None
  }

  /** The greedy choice in the given order: each chunk is taken if it fits with those taken before it, and is dropped for
      the first limit it breaks otherwise. */
  function Greedy(ordered: seq<Chunk>, caps: map<string, int>, pool: nat): (seq<Chunk>, seq<Dropped>) {
    if ordered == [] then ([], [])
    else
      var c := ordered[|ordered| - 1];
      var (selected, dropped) := Greedy(ordered[..|ordered| - 1], caps, pool);
      match Verdict(c, Cap(caps, c.source), Total(selected, Some(c.source), false), Total(selected, None, false), pool)
      case None => (selected + [c], dropped)
      case Some(reason) => (selected, dropped + [Dropped(c, reason)])
  }

  lemma GreedyStep(ordered: seq<Chunk>, i: nat, caps: map<string, int>, pool: nat)
    requires i < |ordered|
    ensures var c := ordered[i];
            var (selected, dropped) := Greedy(ordered[..i], caps, pool);
            Greedy(ordered[..i + 1], caps, pool) ==
              match Verdict(c, Cap(caps, c.source), Total(selected, Some(c.source), false), Total(selected, None, false), pool)
              case None => (selected + [c], dropped)
              case Some(reason) => (selected, dropped + [Dropped(c, reason)])
  {
    hide Total, Verdict;
    assert ordered[..i + 1][..i] == ordered[..i];
  }

  function DroppedChunks(d: seq<Dropped>): seq<Chunk> {
    seq(|d|, i requires 0 <= i < |d| => d[i].chunk)
  }

  /** Within the pool and within every cap. */
  ghost predicate WithinLimits(selected: seq<Chunk>, caps: map<string, int>, pool: nat) {
    && Total(selected, None, false) <= pool
    && (forall c :: c in selected ==>
          c.source in caps && 0 < caps[c.source] && Total(selected, Some(c.source), false) <= caps[c.source])
  }

  /** A chunk that was dropped does not fit for the reason given, even now that all is decided. */
  ghost predicate StillUnfit(d: Dropped, selected: seq<Chunk>, caps: map<string, int>, pool: nat) {
    var c := d.chunk;
    && !c.required
    && (d.reason.UnknownSource? <==> !(c.source in caps && caps[c.source] > 0))
    && (d.reason.ExceedsSourceCap? <==> c.source in caps && 0 < caps[c.source] < c.tokens)
    && (d.reason.SourceCap? ==> Total(selected, Some(c.source), false) + c.tokens > caps[c.source])
    && (d.reason.GlobalPool? ==> Total(selected, None, false) + c.tokens > pool)
  }

  /** The state of the loop over the first i ordered chunks. */
  ghost predicate Allocated(ordered: seq<Chunk>, i: nat, selected: seq<Chunk>, dropped: seq<Dropped>,
                            caps: map<string, int>, pool: nat) {
    && i <= |ordered|
    && multiset(selected) + multiset(DroppedChunks(dropped)) == multiset(ordered[..i])
    && WithinLimits(selected, caps, pool)
    && (forall k :: 0 <= k < |dropped| ==> StillUnfit(dropped[k], selected, caps, pool))
  }

  lemma SelectStep(ordered: seq<Chunk>, i: nat, selected: seq<Chunk>, dropped: seq<Dropped>,
                   caps: map<string, int>, pool: nat)
    requires i < |ordered| && Allocated(ordered, i, selected, dropped, caps, pool)
    requires var c := ordered[i];
             Verdict(c, Cap(caps, c.source), Total(selected, Some(c.source), false), Total(selected, None, false), pool).None?
    ensures Allocated(ordered, i + 1, selected + [ordered[i]], dropped, caps, pool)
  {
    hide Total;
    var c, now := ordered[i], selected + [ordered[i]];
    assert ordered[..i + 1] == ordered[..i] + [c];
    forall source: Option<string>, all: bool
      ensures Total(now, source, all) == Total(selected, source, all) + Share(c, source, all)
    {
      TotalPush(selected, c, source, all);
    }
    forall x | x in now ensures Total(now, Some(x.source), false) <= Cap(caps, x.source) {
      if x.source != c.source { assert x in selected; }
    }
    forall k | 0 <= k < |dropped| ensures StillUnfit(dropped[k], now, caps, pool) {
      assert StillUnfit(dropped[k], selected, caps, pool);
    }
  }

  lemma TotalPush(s: seq<Chunk>, c: Chunk, source: Option<string>, requiredOnly: bool)
    ensures Total(s + [c], source, requiredOnly) == Total(s, source, requiredOnly) + Share(c, source, requiredOnly)
  {
    assert (s + [c])[..|s|] == s;
  }

  lemma DropStep(ordered: seq<Chunk>, i: nat, selected: seq<Chunk>, dropped: seq<Dropped>, reason: Reason,
                 caps: map<string, int>, pool: nat)
    requires i < |ordered| && Allocated(ordered, i, selected, dropped, caps, pool) && !ordered[i].required
    requires var c := ordered[i];
             Verdict(c, Cap(caps, c.source), Total(selected, Some(c.source), false), Total(selected, None, false), pool) == Some(reason)
    ensures Allocated(ordered, i + 1, selected, dropped + [Dropped(ordered[i], reason)], caps, pool)
  {
    var d := dropped + [Dropped(ordered[i], reason)];
    assert ordered[..i + 1] == ordered[..i] + [ordered[i]];
    assert DroppedChunks(d) == DroppedChunks(dropped) + [ordered[i]];
    forall k | 0 <= k < |d| ensures StillUnfit(d[k], selected, caps, pool) {
      if k < |dropped| { assert StillUnfit(dropped[k], selected, caps, pool); }
    }
  }

  /** Before the first optional chunk everything considered was selected. */
  lemma OnlyRequiredSoFar(ordered: seq<Chunk>, i: nat, selected: seq<Chunk>, dropped: seq<Dropped>,
                          caps: map<string, int>, pool: nat)
    requires i < |ordered| && ordered[i].required && Allocated(ordered, i, selected, dropped, caps, pool)
    requires forall k, j :: 0 <= k < j < |ordered| && ordered[j].required ==> ordered[k].required
    ensures dropped == [] && multiset(selected) == multiset(ordered[..i])
  {
    assert DroppedChunks([]) == [];
    if dropped != [] {
      DroppedWasConsidered(ordered[..i], selected, dropped, 0);
    }
  }

  lemma DroppedWasConsidered(considered: seq<Chunk>, selected: seq<Chunk>, dropped: seq<Dropped>, k: nat)
    requires multiset(selected) + multiset(DroppedChunks(dropped)) == multiset(considered) && k < |dropped|
    ensures dropped[k].chunk in considered
  {
    assert DroppedChunks(dropped)[k] in multiset(DroppedChunks(dropped));
    assert dropped[k].chunk in multiset(considered);
  }

  /** A required chunk that does not fit shows that the required chunks cannot fit together. */
  lemma TooLarge(ordered: seq<Chunk>, i: nat, selected: seq<Chunk>, caps: map<string, int>, pool: nat)
    requires i < |ordered| && ordered[i].required && multiset(selected) == multiset(ordered[..i])
    requires forall k :: 0 <= k < i ==> ordered[k].required
    requires var c := ordered[i];
             Verdict(c, Cap(caps, c.source), Total(selected, Some(c.source), false), Total(selected, None, false), pool).Some?
    ensures !RequiredFit(ordered, caps, pool)
  {
    hide Total;
    var c, front := ordered[i], ordered[..i + 1];
    assert front[..i] == ordered[..i];
    forall source: Option<string>
      ensures Total(ordered, source, true) >= Total(selected, source, false) + Share(c, source, false)
    {
      TotalPermutes(selected, ordered[..i], source, false);
      AllRequired(ordered[..i], source);
      assert front == ordered[..i] + [c];
      TotalPush(ordered[..i], c, source, true);
      TotalOfPrefix(ordered, i + 1, source, true);
    }
    assert c in ordered;
    assert Total(ordered, Some(c.source), true) >= Total(selected, Some(c.source), false) + c.tokens;
    assert Total(ordered, None, true) >= Total(selected, None, false) + c.tokens;
  }

  /** If all is decided without complaint, the required chunks do fit together. */
  lemma AllFit(ordered: seq<Chunk>, selected: seq<Chunk>, dropped: seq<Dropped>, caps: map<string, int>, pool: nat)
    requires Allocated(ordered, |ordered|, selected, dropped, caps, pool)
    requires forall c :: c in selected ==> Cap(caps, c.source) > 0
    ensures RequiredFit(ordered, caps, pool)
    ensures forall c :: c in ordered && c.required ==> c in selected
  {
    assert ordered[..|ordered|] == ordered;
    var d := DroppedChunks(dropped);
    forall k | 0 <= k < |d| ensures !d[k].required {
      assert StillUnfit(dropped[k], selected, caps, pool);
    }
    forall c | c in ordered && c.required ensures c in selected {
      assert c in multiset(ordered);
      assert c in multiset(selected) || c in multiset(d);
    }
    forall source: Option<string> ensures Total(ordered, source, true) <= Total(selected, source, false) {
      assert multiset(selected + d) == multiset(ordered);
      TotalPermutes(selected + d, ordered, source, true);
      TotalAppend(selected, d, source, true);
      NoneRequired(d, source);
      RequiredIsPart(selected, source);
    }
  }

  lemma {:induction false} NoneRequired(s: seq<Chunk>, source: Option<string>)
    requires forall k :: 0 <= k < |s| ==> !s[k].required
    ensures Total(s, source, true) == 0
  {
    if s != [] { NoneRequired(s[..|s| - 1], source); }
  }

  lemma {:induction false} RequiredIsPart(s: seq<Chunk>, source: Option<string>)
    ensures Total(s, source, true) <= Total(s, source, false)
  {
    if s != [] { RequiredIsPart(s[..|s| - 1], source); }
  }

  lemma RequiredFitPermutes(a: seq<Chunk>, b: seq<Chunk>, caps: map<string, int>, pool: nat)
    requires multiset(a) == multiset(b)
    ensures RequiredFit(a, caps, pool) <==> RequiredFit(b, caps, pool)
  {
    forall source: Option<string> ensures Total(a, source, true) == Total(b, source, true) {
      TotalPermutes(a, b, source, true);
    }
    assert forall c :: c in a <==> c in multiset(a);
    assert forall c :: c in b <==> c in multiset(b);
  }

  ghost predicate SourceTotals(sourceUsed: map<string, nat>, selected: seq<Chunk>) {
    && (forall c :: c in selected ==> c.source in sourceUsed)
    && (forall s :: s in sourceUsed ==> sourceUsed[s] == Total(selected, Some(s), false))
  }

  lemma {:induction false} NothingOfSource(selected: seq<Chunk>, source: string)
    requires forall c :: c in selected ==> c.source != source
    ensures Total(selected, Some(source), false) == 0
  {
    if selected != [] {
      assert selected[|selected| - 1] in selected;
      forall c | c in selected[..|selected| - 1] ensures c.source != source { assert c in selected; }
      NothingOfSource(selected[..|selected| - 1], source);
    }
  }

  /** MAIN RESULT: `allocate_context_chunks` fails exactly when the required chunks do not fit together; otherwise it splits
      the chunks into selected and dropped ones, stays within all limits, selects every required chunk, and leaves out
      nothing that would still fit. */
  method Allocate(chunks: seq<Chunk>, poolTokens: int, caps: map<string, int>) returns (r: Option<Allocation>)
    ensures r.Some? <==> RequiredFit(chunks, caps, if poolTokens < 0 then 0 else poolTokens)
    ensures r.Some? ==>
              var a := r.value;
              && a.poolTokens == (if poolTokens < 0 then 0 else poolTokens)
              && (a.selected, a.dropped) == Greedy(Ordered(chunks), caps, a.poolTokens)
              && multiset(a.selected) + multiset(DroppedChunks(a.dropped)) == multiset(chunks)
              && a.usedTokens == Total(a.selected, None, false) && WithinLimits(a.selected, caps, a.poolTokens)
              && (forall s :: s in a.sourceTokens ==> a.sourceTokens[s] == Total(a.selected, Some(s), false) > 0)
              && (forall c :: c in a.selected && c.tokens > 0 ==> c.source in a.sourceTokens)
              && (forall keys: seq<string> :: Distinct(keys) && Elements(keys) == a.sourceTokens.Keys ==>
                    ValuesAlong(a.sourceTokens, keys) == a.usedTokens)
              && (forall c :: c in chunks && c.required ==> c in a.selected)
              && (forall k :: 0 <= k < |a.dropped| ==>
                    var c, reason := a.dropped[k].chunk, a.dropped[k].reason;
                    && !c.required
                    && (reason == UnknownSource <==> !(c.source in caps && caps[c.source] > 0))
                    && (reason == ExceedsSourceCap <==> c.source in caps && 0 < caps[c.source] < c.tokens)
                    && (reason == SourceCap ==> Total(a.selected, Some(c.source), false) + c.tokens > caps[c.source])
                    && (reason == GlobalPool ==> Total(a.selected, None, false) + c.tokens > a.poolTokens))
              && (forall c :: c in a.selected ==>
                    c.source in caps && 0 < caps[c.source] && Total(a.selected, Some(c.source), false) <= caps[c.source])
              && Total(a.selected, None, false) <= a.poolTokens
  {
    hide Total, Allocated, RequiredFit, Ordered, WithinLimits, StillUnfit, Greedy, ValuesAlong, Elements, Distinct, InOrder;
    var pool: nat := if poolTokens < 0 then 0 else poolTokens;
    var ordered := Ordered(chunks);
    OrderedFacts(chunks);
    RequiredFitPermutes(chunks, ordered, caps, pool);
    var filled, selected, dropped, used, sourceUsed := Fill(ordered, caps, pool);
    if !filled {
      return None;
    }
    AllDone(chunks, ordered, selected, dropped, caps, pool);
    AllocationInFull(selected, dropped, caps, pool);
    var sourceTokens := map s | s in sourceUsed && sourceUsed[s] != 0 :: sourceUsed[s];
    PositiveShares(selected);
    SourceTokensAddUp(sourceTokens, selected);
    return Some(Allocation(selected, dropped, pool, used, sourceTokens));
  }

  /** One chunk is taken if it fits alone, and is dropped for the first limit it breaks otherwise. */
  lemma OneAlone(c: Chunk, caps: map<string, int>, pool: nat)
    ensures Ordered([c]) == [c]
    ensures Greedy([c], caps, pool) ==
              if c.source !in caps || caps[c.source] <= 0 then ([], [Dropped(c, UnknownSource)])
              else if c.tokens > caps[c.source] then ([], [Dropped(c, ExceedsSourceCap)])
              else if c.tokens > pool then ([], [Dropped(c, GlobalPool)])
              else ([c], [])
  {
    var at := OrderInFull([c]);
    assert Ordered([c])[0] == [c][at[0]] == c;
    assert [c][..0] == [] && [c][..1] == [c] && [] + [c] == [c];
    hide Ordered, Greedy;
    EmptyGreedy(caps, pool, c.source);
    GreedyStep([c], 0, caps, pool);
    forall reason ensures [] + [Dropped(c, reason)] == [Dropped(c, reason)] {}
  }

  lemma EmptyGreedy(caps: map<string, int>, pool: nat, source: string)
    ensures Greedy([], caps, pool) == ([], []) && Total([], Some(source), false) == 0 == Total([], None, false)
  {
  }

  ghost predicate FitsAlone(c: Chunk, caps: map<string, int>, pool: nat) {
    c.source in caps && 0 < caps[c.source] && c.tokens <= caps[c.source] && c.tokens <= pool
  }

  /** Of two optional chunks that fit alone but not together, the one of smaller priority is selected, wherever it stands. */
  lemma SmallerPriorityWins(a: Chunk, b: Chunk, chunks: seq<Chunk>, caps: map<string, int>, pool: nat)
    requires !a.required && !b.required && a.priority < b.priority && chunks in {[a, b], [b, a]}
    requires FitsAlone(a, caps, pool) && FitsAlone(b, caps, pool)
    requires a.tokens + b.tokens > pool || (a.source == b.source && a.tokens + b.tokens > caps[a.source])
    ensures Ordered(chunks) == [a, b]
    ensures Greedy(Ordered(chunks), caps, pool) ==
              ([a], [Dropped(b, if a.source == b.source && a.tokens + b.tokens > caps[a.source] then SourceCap else GlobalPool)])
  {
    hide Greedy, Ordered, Total;
    TwoOrdered(a, b, chunks);
    OneAlone(a, caps, pool);
    SecondChunk(a, b, caps, pool);
  }

  lemma SecondChunk(a: Chunk, b: Chunk, caps: map<string, int>, pool: nat)
    requires Greedy([a], caps, pool) == ([a], [])
    ensures Greedy([a, b], caps, pool) ==
              match Verdict(b, Cap(caps, b.source), if a.source == b.source then a.tokens else 0, a.tokens, pool)
              case None => ([a] + [b], [])
              case Some(reason) => ([a], [Dropped(b, reason)])
  {
    hide Greedy, Total, Verdict;
    assert [a, b][..1] == [a] && [a, b][..2] == [a, b];
    GreedyStep([a, b], 1, caps, pool);
    EmptyGreedy(caps, pool, b.source);
    TotalPush([], a, Some(b.source), false);
    TotalPush([], a, None, false);
    assert [] + [a] == [a];
    forall reason ensures [] + [Dropped(b, reason)] == [Dropped(b, reason)] {}
  }

  lemma TwoOrdered(a: Chunk, b: Chunk, chunks: seq<Chunk>)
    requires a.required == b.required && a.priority < b.priority && chunks in {[a, b], [b, a]}
    ensures Ordered(chunks) == [a, b]
  {
    hide Ordered;
    var at := OrderInFull(chunks);
    var other := if chunks == [a, b] then 0 else 1;
    assert chunks[other] == a && chunks[1 - other] == b;
    assert at[0] != at[1];
    assert Ordered(chunks)[0] == chunks[at[0]] && Ordered(chunks)[1] == chunks[at[1]];
  }

  /** The loop over the ordered chunks; it stops at a required chunk that does not fit. */
  method Fill(ordered: seq<Chunk>, caps: map<string, int>, pool: nat)
    returns (filled: bool, selected: seq<Chunk>, dropped: seq<Dropped>, used: nat, sourceUsed: map<string, nat>)
    requires forall k, j :: 0 <= k < j < |ordered| && ordered[j].required ==> ordered[k].required
    ensures filled <==> RequiredFit(ordered, caps, pool)
    ensures filled ==>
              && Allocated(ordered, |ordered|, selected, dropped, caps, pool)
              && (selected, dropped) == Greedy(ordered, caps, pool)
              && used == Total(selected, None, false) && SourceTotals(sourceUsed, selected)
              && (forall c :: c in ordered && c.required ==> c in selected)
  {
    hide Total, Allocated, RequiredFit, WithinLimits, StillUnfit, Greedy, SourceTotals;
    selected, dropped := [], [];
    used := 0;
    sourceUsed := map s | s in caps :: 0;
    NothingYet(ordered, caps, pool, sourceUsed);
    assert ordered[..0] == [];
    var i := 0;
    while i < |ordered|
      invariant 0 <= i <= |ordered|
      invariant Allocated(ordered, i, selected, dropped, caps, pool)
      invariant (selected, dropped) == Greedy(ordered[..i], caps, pool)
      invariant used == Total(selected, None, false) && SourceTotals(sourceUsed, selected)
      invariant forall c :: c in selected ==> Cap(caps, c.source) > 0
    {
      var chunk := ordered[i];
      GreedyStep(ordered, i, caps, pool);
      var before := if chunk.source in sourceUsed then sourceUsed[chunk.source] else 0;
      SourceBefore(selected, chunk.source, sourceUsed);
      var reason := Verdict(chunk, Cap(caps, chunk.source), before, used, pool);
      if reason.Some? {
        if chunk.required {
          OnlyRequiredSoFar(ordered, i, selected, dropped, caps, pool);
          TooLarge(ordered, i, selected, caps, pool);
          filled := false;
          return;
        }
        DropStep(ordered, i, selected, dropped, reason.value, caps, pool);
        dropped := dropped + [Dropped(chunk, reason.value)];
      } else {
        SelectStep(ordered, i, selected, dropped, caps, pool);
        TotalsStep(selected, chunk, sourceUsed);
        selected := selected + [chunk];
        used := used + chunk.tokens;
        sourceUsed := sourceUsed[chunk.source := before + chunk.tokens];
      }
      i := i + 1;
    }
    assert ordered[..i] == ordered;
    AllFit(ordered, selected, dropped, caps, pool);
    filled := true;
  }

  lemma SourceBefore(selected: seq<Chunk>, source: string, sourceUsed: map<string, nat>)
    requires SourceTotals(sourceUsed, selected)
    ensures (if source in sourceUsed then sourceUsed[source] else 0) == Total(selected, Some(source), false)
  {
    hide Total;
    if source !in sourceUsed { NothingOfSource(selected, source); }
  }

  lemma NothingYet(ordered: seq<Chunk>, caps: map<string, int>, pool: nat, sourceUsed: map<string, nat>)
    requires forall s :: s in sourceUsed ==> sourceUsed[s] == 0
    ensures Allocated(ordered, 0, [], [], caps, pool) && Total([], None, false) == 0 && SourceTotals(sourceUsed, [])
    ensures Greedy([], caps, pool) == ([], [])
  {
    assert DroppedChunks([]) == [] && ordered[..0] == [];
  }

  lemma TotalsStep(selected: seq<Chunk>, chunk: Chunk, sourceUsed: map<string, nat>)
    requires SourceTotals(sourceUsed, selected)
    ensures Total(selected + [chunk], None, false) == Total(selected, None, false) + chunk.tokens
    ensures SourceTotals(
              sourceUsed[chunk.source := (if chunk.source in sourceUsed then sourceUsed[chunk.source] else 0) + chunk.tokens],
              selected + [chunk])
  {
    assert (selected + [chunk])[..|selected|] == selected;
    if chunk.source !in sourceUsed { NothingOfSource(selected, chunk.source); }
  }

  lemma AllDone(chunks: seq<Chunk>, ordered: seq<Chunk>, selected: seq<Chunk>, dropped: seq<Dropped>,
                caps: map<string, int>, pool: nat)
    requires Allocated(ordered, |ordered|, selected, dropped, caps, pool) && multiset(ordered) == multiset(chunks)
    ensures multiset(selected) + multiset(DroppedChunks(dropped)) == multiset(chunks)
    ensures WithinLimits(selected, caps, pool)
    ensures forall k :: 0 <= k < |dropped| ==> StillUnfit(dropped[k], selected, caps, pool)
    ensures forall c :: c in chunks ==> c in ordered
  {
    assert ordered[..|ordered|] == ordered;
    forall c | c in chunks ensures c in ordered {
      assert c in multiset(chunks);
      assert c in multiset(ordered);
    }
  }

  lemma AllocationInFull(selected: seq<Chunk>, dropped: seq<Dropped>, caps: map<string, int>, pool: nat)
    requires WithinLimits(selected, caps, pool)
    requires forall k :: 0 <= k < |dropped| ==> StillUnfit(dropped[k], selected, caps, pool)
    ensures forall k :: 0 <= k < |dropped| ==>
              var c, reason := dropped[k].chunk, dropped[k].reason;
              && !c.required
              && (reason == UnknownSource <==> !(c.source in caps && caps[c.source] > 0))
              && (reason == ExceedsSourceCap <==> c.source in caps && 0 < caps[c.source] < c.tokens)
              && (reason == SourceCap ==> Total(selected, Some(c.source), false) + c.tokens > caps[c.source])
              && (reason == GlobalPool ==> Total(selected, None, false) + c.tokens > pool)
    ensures forall c :: c in selected ==>
              c.source in caps && 0 < caps[c.source] && Total(selected, Some(c.source), false) <= caps[c.source]
    ensures Total(selected, None, false) <= pool
  {
    hide Total;
    forall k | 0 <= k < |dropped| ensures StillUnfit(dropped[k], selected, caps, pool) {}
  }

  lemma {:induction false} PositiveShares(selected: seq<Chunk>)
    ensures forall c :: c in selected ==> Total(selected, Some(c.source), false) >= c.tokens
  {
    if selected != [] { PositiveShares(selected[..|selected| - 1]); }
  }
}
