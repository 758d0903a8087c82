/** The operand fragments of pony/agent/verification.py: a worklist that takes a command token apart. */
module Operands {
  import opened Common
  import opened EnvLine
  import opened EnvReading

  const DELIMITERS: seq<char> := ['=', ':', ',']

  predicate IsQuote(c: char) {
    c == '"' || c == '\''
  }

  function LStripQuotes(s: string): string {
    if s != "" && IsQuote(s[0]) then LStripQuotes(s[1..]) else s
  }

  function RStripQuotes(s: string): string {
    if s != "" && IsQuote(s[|s| - 1]) then RStripQuotes(s[..|s| - 1]) else s
  }

  /** `_strip_operand_syntax`: white space, quotes, white space. */
  function StripOperand(s: string): string {
    Strip(RStripQuotes(LStripQuotes(Strip(s))))
  }

  function LStripDashes(s: string): string {
    if s != "" && s[0] == '-' then LStripDashes(s[1..]) else s
  }

  function Split(s: string, d: char): (parts: seq<string>)
    ensures |parts| >= 1
    decreases |s|
  {
    var i := IndexOf(s, d);
    if i == |s| then [s] else [s[..i]] + Split(s[i + 1..], d)
  }

  function SplitAll(s: string, ds: seq<char>): seq<string> {
    if ds == [] then []
    else (if ds[0] in s then Split(s, ds[0]) else []) + SplitAll(s, ds[1..])
  }

  /** What an option hides: the text behind its dashes, behind its first letter, and from its first later dot. */
  function DashParts(s: string): seq<string> {
    if s == "" || s[0] != '-' then []
    else
      [LStripDashes(s)]
      + (if |s| > 2 then [s[2..]] else [])
      + (if |s| > 2 && IndexOf(s[2..], '.') < |s| - 2 then [s[2 + IndexOf(s[2..], '.')..]] else [])
  }

  /** Everything one fragment adds to the worklist. */
  function Parts(s: string): seq<string> {
    SplitAll(s, DELIMITERS) + DashParts(s)
  }

  // ----- parts are substrings

  ghost predicate IsSub(s: string, t: string) {
    exists i, j :: 0 <= i <= j <= |t| && s == t[i..j]
  }

  lemma SubIs(s: string, t: string, i: nat, j: nat)
    requires i <= j <= |t| && s == t[i..j]
    ensures IsSub(s, t)
  {
  }

  lemma SubTrans(a: string, b: string, c: string)
    requires IsSub(a, b) && IsSub(b, c)
    ensures IsSub(a, c)
  {
    var i, j :| 0 <= i <= j <= |b| && a == b[i..j];
    var k, l :| 0 <= k <= l <= |c| && b == c[k..l];
    assert |a| == j - i && forall x :: 0 <= x < j - i ==> a[x] == b[i + x] && b[i + x] == c[k + i + x];
    assert a == c[k + i..k + j];
  }

  lemma {:induction false} LStripQuotesSub(s: string)
    ensures IsSub(LStripQuotes(s), s)
  {
    if s != "" && IsQuote(s[0]) {
      LStripQuotesSub(s[1..]);
      SubIs(s[1..], s, 1, |s|);
      SubTrans(LStripQuotes(s), s[1..], s);
    } else {
      SubIs(s, s, 0, |s|);
    }
  }

  lemma {:induction false} RStripQuotesSub(s: string)
    ensures IsSub(RStripQuotes(s), s)
  {
    if s != "" && IsQuote(s[|s| - 1]) {
      RStripQuotesSub(s[..|s| - 1]);
      SubIs(s[..|s| - 1], s, 0, |s| - 1);
      SubTrans(RStripQuotes(s), s[..|s| - 1], s);
    } else {
      SubIs(s, s, 0, |s|);
    }
  }

  lemma StripSub(s: string)
    ensures IsSub(Strip(s), s)
  {
    var l := LStrip(s);
    SubIs(l, s, |s| - |l|, |s|);
    SubIs(RStrip(l), l, 0, |RStrip(l)|);
    SubTrans(RStrip(l), l, s);
  }

  lemma StripOperandSub(s: string)
    ensures IsSub(StripOperand(s), s)
  {
    hide Strip, LStripQuotes, RStripQuotes, IsSub;
    var a := Strip(s);
    var b := LStripQuotes(a);
    var c := RStripQuotes(b);
    StripSub(s);
    LStripQuotesSub(a);
    RStripQuotesSub(b);
    StripSub(c);
    SubTrans(b, a, s);
    SubTrans(c, b, s);
    SubTrans(Strip(c), c, s);
  }

  lemma {:induction false} SplitSub(s: string, d: char)
    ensures forall p :: p in Split(s, d) ==> IsSub(p, s)
    decreases |s|
  {
    var i := IndexOf(s, d);
    if i == |s| {
      SubIs(s, s, 0, |s|);
    } else {
      SplitSub(s[i + 1..], d);
      SubIs(s[..i], s, 0, i);
      SubIs(s[i + 1..], s, i + 1, |s|);
      forall p | p in Split(s, d) ensures IsSub(p, s) {
        if p != s[..i] { SubTrans(p, s[i + 1..], s); }
      }
    }
  }

  lemma {:induction false} SplitAllSub(s: string, ds: seq<char>)
    ensures forall p :: p in SplitAll(s, ds) ==> IsSub(p, s)
  {
    if ds != [] {
      SplitSub(s, ds[0]);
      SplitAllSub(s, ds[1..]);
    }
  }

  lemma {:induction false} LStripDashesSub(s: string)
    ensures IsSub(LStripDashes(s), s)
  {
    if s != "" && s[0] == '-' {
      LStripDashesSub(s[1..]);
      SubIs(s[1..], s, 1, |s|);
      SubTrans(LStripDashes(s), s[1..], s);
    } else {
      SubIs(s, s, 0, |s|);
    }
  }

  lemma PartsSub(s: string)
    ensures forall p :: p in Parts(s) ==> IsSub(p, s)
  {
    SplitAllSub(s, DELIMITERS);
    LStripDashesSub(s);
    if |s| > 2 {
      SubIs(s[2..], s, 2, |s|);
      var i := 2 + IndexOf(s[2..], '.');
      SubIs(s[i..], s, i, |s|);
    }
  }

  function Substrings(t: string): set<string> {
    set i, j | 0 <= i <= j <= |t| :: t[i..j]
  }

  lemma SubIn(s: string, t: string)
    requires IsSub(s, t)
    ensures s in Substrings(t)
  {
  }

  // ----- what stripping and taking apart mean

  ghost predicate AllQuotes(s: string) {
    forall i :: 0 <= i < |s| ==> s[i] in {'"', '\''}
  }

  ghost predicate NoQuoteEnds(s: string) {
    s == "" || (s[0] !in {'"', '\''} && s[|s| - 1] !in {'"', '\''})
  }

  lemma {:induction false} LStripQuotesExact(q: string, s: string)
    requires AllQuotes(q) && (s == "" || s[0] !in {'"', '\''})
    ensures LStripQuotes(q + s) == s
    decreases |q|
  {
    if q == "" {
      assert q + s == s;
    } else {
      assert (q + s)[1..] == q[1..] + s;
      LStripQuotesExact(q[1..], s);
    }
  }

  lemma {:induction false} RStripQuotesExact(s: string, q: string)
    requires AllQuotes(q) && (s == "" || s[|s| - 1] !in {'"', '\''})
    ensures RStripQuotes(s + q) == s
    decreases |q|
  {
    if q == "" {
      assert s + q == s;
    } else {
      assert (s + q)[..|s + q| - 1] == s + q[..|q| - 1];
      RStripQuotesExact(s, q[..|q| - 1]);
    }
  }

  lemma StripQuotesExact(q: string, s: string, q': string)
    requires AllQuotes(q) && NoQuoteEnds(s) && AllQuotes(q')
    ensures RStripQuotes(LStripQuotes(q + s + q')) == s
  {
    hide LStripQuotes, RStripQuotes;
    if s == "" {
      assert q + s + q' == (q + q') + "";
      LStripQuotesExact(q + q', "");
      RStripQuotesExact("", "");
      assert "" + "" == "";
    } else {
      assert q + s + q' == q + (s + q');
      LStripQuotesExact(q, s + q');
      RStripQuotesExact(s, q');
    }
  }

  /** The operand comes out of three layers: white space, quotes of either kind, white space. */
  lemma StripLayers(l: string, q: string, l': string, operand: string, t': string, q': string, t: string)
    requires AllSpace(l) && AllSpace(l') && AllSpace(t') && AllSpace(t) && AllQuotes(q) && AllQuotes(q')
    requires Tight(operand) && NoQuoteEnds(l' + operand + t') && Tight(q + (l' + operand + t') + q')
    ensures StripOperand(l + (q + (l' + operand + t') + q') + t) == operand
  {
    hide Strip, LStripQuotes, RStripQuotes;
    var inner := l' + operand + t';
    StripExact(l, q + inner + q', t);
    StripQuotesExact(q, inner, q');
    StripExact(l', operand, t');
  }

  /** A stretch of s between two delimiters, or between one and an end. */
  ghost predicate SideOf(p: string, s: string, d: char) {
    exists i, j :: 0 <= i <= j <= |s| && p == s[i..j] && d !in p && (i == 0 || s[i - 1] == d) && (j == |s| || s[j] == d)
  }

  ghost predicate Undashed(p: string, s: string) {
    exists k :: 0 <= k <= |s| && p == s[k..] && (forall i :: 0 <= i < k ==> s[i] == '-') && (k == |s| || s[k] != '-')
  }

  ghost predicate FromDot(p: string, s: string) {
    exists i :: 2 <= i < |s| && p == s[i..] && s[i] == '.' && forall k :: 2 <= k < i ==> s[k] != '.'
  }

  /** What a fragment gives: each side of a delimiter in it, and of an option also the text behind its dashes, the text behind
      its first letter, and the text from its first dot behind that. */
  ghost predicate PartOf(p: string, f: string) {
    || ('=' in f && SideOf(p, f, '=')) || (':' in f && SideOf(p, f, ':')) || (',' in f && SideOf(p, f, ','))
    || (f != "" && f[0] == '-' && (Undashed(p, f) || (|f| > 2 && p == f[2..]) || FromDot(p, f)))
  }

  lemma {:induction false} SplitExact(s: string, d: char, p: string)
    ensures p in Split(s, d) <==> SideOf(p, s, d)
    decreases |s|
  {
    var at := IndexOf(s, d);
    if at == |s| {
      if p == s { assert p == s[0..|s|]; }
      WholeSide(s, d, p);
    } else {
      var rest := s[at + 1..];
      SplitExact(rest, d, p);
      assert p in Split(s, d) <==> p == s[..at] || p in Split(rest, d);
      if p == s[..at] {
        assert p == s[0..at];
      } else if SideOf(p, rest, d) {
        SideShifts(p, s, at, d);
      } else if SideOf(p, s, d) {
        SideIn(p, s, at, d);
      }
    }
  }

  lemma WholeSide(s: string, d: char, p: string)
    requires d !in s
    ensures SideOf(p, s, d) ==> p == s
  {
    assert forall k :: 0 <= k < |s| ==> s[k] in s;
    assert s[0..|s|] == s;
  }

  lemma SideShifts(p: string, s: string, at: nat, d: char)
    requires at < |s| && s[at] == d && SideOf(p, s[at + 1..], d)
    ensures SideOf(p, s, d)
  {
    var rest := s[at + 1..];
    var i, j :| 0 <= i <= j <= |rest| && p == rest[i..j] && d !in p && (i == 0 || rest[i - 1] == d) && (j == |rest| || rest[j] == d);
    assert p == s[at + 1 + i..at + 1 + j];
  }

  lemma SideIn(p: string, s: string, at: nat, d: char)
    requires at < |s| && s[at] == d && (forall k :: 0 <= k < at ==> s[k] != d) && SideOf(p, s, d) && p != s[..at]
    ensures SideOf(p, s[at + 1..], d)
  {
    var rest := s[at + 1..];
    var i, j :| 0 <= i <= j <= |s| && p == s[i..j] && d !in p && (i == 0 || s[i - 1] == d) && (j == |s| || s[j] == d);
    if i == 0 {
      FirstSide(p, s, j, at, d);
    } else {
      assert i - 1 >= at && |rest| == |s| - at - 1;
      ShiftedSide(p, s, i, j, at, d);
    }
  }

  lemma FirstSide(p: string, s: string, j: nat, at: nat, d: char)
    requires j <= |s| && p == s[0..j] && d !in p && (j == |s| || s[j] == d)
    requires at < |s| && s[at] == d && forall k :: 0 <= k < at ==> s[k] != d
    ensures p == s[..at]
  {
    assert forall k :: 0 <= k < j ==> p[k] == s[k] && p[k] in p;
  }

  lemma ShiftedSide(p: string, s: string, i: nat, j: nat, at: nat, d: char)
    requires at < i <= j <= |s| && p == s[i..j] && d !in p && s[i - 1] == d && (j == |s| || s[j] == d)
    ensures SideOf(p, s[at + 1..], d)
  {
    var rest := s[at + 1..];
    assert p == rest[i - at - 1..j - at - 1];
  }

  lemma {:induction false} DashesEnd(s: string) returns (k: nat)
    ensures k <= |s| && LStripDashes(s) == s[k..] && (forall i :: 0 <= i < k ==> s[i] == '-') && (k == |s| || s[k] != '-')
  {
    if s != "" && s[0] == '-' {
      var n := DashesEnd(s[1..]);
      k := n + 1;
      assert forall i :: 0 < i < k ==> s[i] == s[1..][i - 1];
    } else {
      k := 0;
    }
  }

  lemma UndashedExact(s: string, p: string)
    ensures p == LStripDashes(s) <==> Undashed(p, s)
  {
    hide LStripDashes;
    var k := DashesEnd(s);
    assert forall n :: 0 <= n <= |s| && (forall i :: 0 <= i < n ==> s[i] == '-') && (n == |s| || s[n] != '-') ==> n == k;
  }

  lemma DotExact(s: string, p: string)
    requires |s| > 2
    ensures (IndexOf(s[2..], '.') < |s| - 2 && p == s[2 + IndexOf(s[2..], '.')..]) <==> FromDot(p, s)
  {
    var at := IndexOf(s[2..], '.');
    assert forall k :: 2 <= k < |s| ==> s[k] == s[2..][k - 2];
    if at < |s| - 2 && p == s[2 + at..] {
      assert s[2 + at] == '.';
    }
  }

  lemma PartsExact(f: string, p: string)
    ensures p in Parts(f) <==> PartOf(p, f)
  {
    hide SideOf, Undashed, FromDot, Split, LStripDashes;
    SplitExact(f, '=', p);
    SplitExact(f, ':', p);
    SplitExact(f, ',', p);
    AllSplits(f, p);
    DashExact(f, p);
  }

  lemma AllSplits(f: string, p: string)
    ensures p in SplitAll(f, DELIMITERS) <==>
            ('=' in f && p in Split(f, '=')) || (':' in f && p in Split(f, ':')) || (',' in f && p in Split(f, ','))
  {
    hide Split;
    assert DELIMITERS == ['=', ':', ','] && DELIMITERS[1..] == [':', ','];
    assert [':', ','][1..] == [','] && [','][1..] == [];
    assert SplitAll(f, [',']) == (if ',' in f then Split(f, ',') else []) + SplitAll(f, []);
    assert SplitAll(f, [':', ',']) == (if ':' in f then Split(f, ':') else []) + SplitAll(f, [',']);
  }

  lemma DashExact(f: string, p: string)
    ensures p in DashParts(f) <==>
            f != "" && f[0] == '-' && (Undashed(p, f) || (|f| > 2 && p == f[2..]) || FromDot(p, f))
  {
    hide Undashed, LStripDashes;
    UndashedExact(f, p);
    if |f| > 2 { DotExact(f, p); }
  }

  // ----- the least closed set

  /** Holds the stripped token and, with each fragment, its stripped parts. */
  ghost predicate Closed(fragments: set<string>, token: string) {
    && (StripOperand(token) != "" ==> StripOperand(token) in fragments)
    && (forall f, p :: f in fragments && PartOf(p, f) && StripOperand(p) != "" ==> StripOperand(p) in fragments)
  }

  ghost predicate Least(fragments: set<string>, token: string) {
    Closed(fragments, token) && forall other :: Closed(other, token) ==> fragments <= other
  }

  /** There is only one such set, so the order of the worklist cannot matter. */
  lemma LeastUnique(a: set<string>, b: set<string>, token: string)
    requires Least(a, token) && Least(b, token)
    ensures a == b
  {
  }

  /** Still to be done: whatever is owed is seen or pending. */
  ghost predicate Owed(p: string, seen: set<string>, pending: seq<string>) {
    StripOperand(p) == "" || StripOperand(p) in seen || p in pending
  }

  /** What the worklist keeps: every pending text is a piece of the token, nothing owed is forgotten, nothing is taken
      that a closed set could do without. */
  ghost predicate Working(token: string, seen: set<string>, pending: seq<string>) {
    && (forall p :: p in pending ==> IsSub(p, token))
    && Owed(token, seen, pending)
    && (forall f, p :: f in seen && p in Parts(f) ==> Owed(p, seen, pending))
    && (forall other :: Closed(other, token) ==> Needed(other, seen, pending))
  }

  ghost predicate Needed(other: set<string>, seen: set<string>, pending: seq<string>) {
    seen <= other && forall p :: p in pending && StripOperand(p) != "" ==> StripOperand(p) in other
  }

  lemma DropDone(token: string, seen: set<string>, pending: seq<string>)
    requires pending != [] && Working(token, seen, pending)
    requires var f := StripOperand(pending[|pending| - 1]); f == "" || f in seen
    ensures Working(token, seen, pending[..|pending| - 1])
  {
    hide StripOperand, Parts, IsSub;
    var rest, last := pending[..|pending| - 1], pending[|pending| - 1];
    assert pending == rest + [last];
    forall f, p | f in seen && p in Parts(f) ensures Owed(p, seen, rest) {
      assert Owed(p, seen, pending);
    }
    forall other | Closed(other, token) ensures Needed(other, seen, rest) {
      assert Needed(other, seen, pending);
    }
  }

  lemma TakeFragment(token: string, seen: set<string>, pending: seq<string>, fragment: string)
    requires pending != [] && Working(token, seen, pending)
    requires fragment == StripOperand(pending[|pending| - 1]) && fragment != ""
    ensures IsSub(fragment, token)
    ensures Working(token, seen + {fragment}, pending[..|pending| - 1] + Parts(fragment))
  {
    hide StripOperand, Parts, IsSub, Closed;
    var rest, last := pending[..|pending| - 1], pending[|pending| - 1];
    assert pending == rest + [last];
    var seen', pending' := seen + {fragment}, rest + Parts(fragment);
    StripOperandSub(last);
    SubTrans(fragment, last, token);
    PartsSub(fragment);
    forall p | p in pending' ensures IsSub(p, token) {
      if p in Parts(fragment) { SubTrans(p, fragment, token); } else { assert p in pending; }
    }
    assert Owed(token, seen', pending');
    forall f, p | f in seen' && p in Parts(f) ensures Owed(p, seen', pending') {
      if f in seen { assert Owed(p, seen, pending); }
    }
    forall other | Closed(other, token) ensures Needed(other, seen', pending') {
      assert Needed(other, seen, pending);
      ClosedHolds(other, token, fragment);
    }
  }

  lemma ClosedHolds(other: set<string>, token: string, f: string)
    requires Closed(other, token) && f in other
    ensures forall p :: p in Parts(f) && StripOperand(p) != "" ==> StripOperand(p) in other
  {
    hide StripOperand, Parts, PartOf;
    forall p | p in Parts(f) && StripOperand(p) != "" ensures StripOperand(p) in other {
      PartsExact(f, p);
    }
  }

  lemma WorkDone(token: string, seen: set<string>)
    requires Working(token, seen, [])
    ensures Least(seen, token)
  {
    hide StripOperand, Parts, IsSub, PartOf;
    forall f, p | f in seen && PartOf(p, f) && StripOperand(p) != "" ensures StripOperand(p) in seen {
      PartsExact(f, p);
      assert Owed(p, seen, []);
    }
    forall other | Closed(other, token) ensures seen <= other {
      assert Needed(other, seen, []);
    }
  }

  lemma WorkStarts(token: string)
    ensures Working(token, {}, [token])
  {
    hide StripOperand, Parts;
    SubIs(token, token, 0, |token|);
  }

  lemma FewerUnseen(token: string, seen: set<string>, fragment: string)
    requires fragment !in seen && IsSub(fragment, token)
    ensures |Substrings(token) - (seen + {fragment})| < |Substrings(token) - seen|
  {
    hide Substrings, IsSub;
    SubIn(fragment, token);
    assert Substrings(token) - seen == Substrings(token) - (seen + {fragment}) + {fragment};
  }

  /** MAIN RESULT: `_operand_fragments` ends, and yields without repetition exactly the least closed set. */
  method OperandFragments(token: string) returns (fragments: seq<string>)
    ensures Distinct(fragments)
    ensures Least(Elements(fragments), token)
  {
    hide StripOperand, Parts, IsSub, Substrings, Working;
    fragments := [];
    var pending := [token];
    var seen: set<string> := {};
    WorkStarts(token);
    while pending != []
      invariant Working(token, seen, pending)
      invariant Distinct(fragments) && seen == Elements(fragments)
      decreases |Substrings(token) - seen|, |pending|
    {
      var candidate := StripOperand(pending[|pending| - 1]);
      if candidate == "" || candidate in seen {
        DropDone(token, seen, pending);
        pending := pending[..|pending| - 1];
        continue;
      }
      TakeFragment(token, seen, pending, candidate);
      FewerUnseen(token, seen, candidate);
      AppendDistinct(fragments, candidate);
      pending := pending[..|pending| - 1] + Parts(candidate);
      seen := seen + {candidate};
      fragments := fragments + [candidate];
    }
    WorkDone(token, seen);
  }

  /** A token that holds a delimiter yields each of its non-empty sides. */
  lemma SidesAreFragments(token: string, fragments: set<string>, d: char, side: string)
    requires Least(fragments, token) && StripOperand(token) != ""
    requires d in {'=', ':', ','} && d in StripOperand(token) && SideOf(side, StripOperand(token), d)
    requires StripOperand(side) != ""
    ensures StripOperand(side) in fragments
  {
    hide StripOperand, SideOf;
    assert PartOf(side, StripOperand(token));
  }
}
