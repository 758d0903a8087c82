/** Token estimation and clipping: pony/agent/model_capabilities.py, and its users in compaction.py and backends.py. */
module TokenClip {
  import opened Common
  import opened EnvLine

  predicate IsCjk(c: char) {
    var n := c as int;
    0x3400 <= n <= 0x4DBF || 0x4E00 <= n <= 0x9FFF || 0xF900 <= n <= 0xFAFF || 0x3040 <= n <= 0x30FF || 0xAC00 <= n <= 0xD7AF
  }

  /** How many characters satisfy a test. */
  function CountIf(text: string, test: char -> bool): (n: nat)
    ensures n <= |text|
  {
    if text == "" then 0 else CountIf(text[..|text| - 1], test) + if test(text[|text| - 1]) then 1 else 0
  }

  function Quarter(n: nat): nat {
    (n + 3) / 4
  }

  /** `estimate_text_tokens`; `structural` is membership in the categories Cc, Cf and Mn. */
  function EstimateTokens(text: string, structural: char -> bool): (n: nat)
    ensures n >= 1
  {
    var cjk := CountIf(text, c => IsCjk(c));
    var n := cjk + Quarter(|text| - cjk) + Quarter(CountIf(text, structural));
    if n < 1 then 1 else n
  }

  lemma {:induction false} CountIs(text: string, test: char -> bool)
    ensures CountIf(text, test) == |set i: nat | i < |text| && test(text[i])|
  {
    var places := set i: nat | i < |text| && test(text[i]);
    if text != "" {
      var n := |text| - 1;
      CountIs(text[..n], test);
      PlacesGrow((set i: nat | i < |text[..n]| && test(text[..n][i])), places, n);
    }
  }

  /** The places of the characters in the blocks Han (with extension A and compatibility), kana and Hangul. */
  function CjkPlaces(text: string): set<nat> {
    set i: nat | i < |text| &&
      var n := text[i] as int;
      0x3040 <= n <= 0x30FF || 0x3400 <= n <= 0x4DBF || 0x4E00 <= n <= 0x9FFF || 0xAC00 <= n <= 0xD7AF || 0xF900 <= n <= 0xFAFF
  }

  /** The estimate: a token for each such character, one for every four of the others begun, and one for every four structural
      ones begun; an empty text costs one. */
  lemma EstimateMeans(text: string, structural: char -> bool)
    ensures var cjk := |CjkPlaces(text)|;
            var marks := |set i: nat | i < |text| && structural(text[i])|;
            EstimateTokens(text, structural) == if text == "" then 1 else cjk + (|text| - cjk + 3) / 4 + (marks + 3) / 4
  {
    CountIs(text, c => IsCjk(c));
    CountIs(text, structural);
    assert CjkPlaces(text) == set i: nat | i < |text| && (c => IsCjk(c))(text[i]);
  }

  lemma {:induction false} CountOfPrefix(text: string, n: nat, test: char -> bool)
    requires n <= |text|
    ensures CountIf(text[..n], test) <= CountIf(text, test) <= CountIf(text[..n], test) + (|text| - n)
    decreases |text|
  {
    if n < |text| {
      assert text[..|text| - 1][..n] == text[..n];
      CountOfPrefix(text[..|text| - 1], n, test);
    } else {
      assert text[..n] == text;
    }
  }

  /** A prefix never costs more. */
  lemma EstimateMonotone(text: string, prefix: string, structural: char -> bool)
    requires prefix <= text
    ensures EstimateTokens(prefix, structural) <= EstimateTokens(text, structural)
  {
    assert text[..|prefix|] == prefix;
    CountOfPrefix(text, |prefix|, c => IsCjk(c));
    CountOfPrefix(text, |prefix|, structural);
  }

  /** The length of the longest prefix, up to n, that is within the cap; 0 if there is none. */
  function Longest(value: string, n: nat, cap: int, structural: char -> bool): (low: nat)
    requires n <= |value|
    ensures low <= n && (low > 0 ==> EstimateTokens(value[..low], structural) <= cap)
    ensures forall m :: low < m <= n ==> EstimateTokens(value[..m], structural) > cap
  {
    if n == 0 || EstimateTokens(value[..n], structural) <= cap then n else Longest(value, n - 1, cap, structural)
  }

  /** The binary search both clipping functions use finds the longest prefix within the cap. */
  method LongestFitting(value: string, cap: int, structural: char -> bool) returns (low: nat)
    requires EstimateTokens(value, structural) > cap
    ensures low == Longest(value, |value|, cap, structural)
  {
    hide EstimateTokens;
    low := 0;
    var high := |value|;
    while low < high
      invariant 0 <= low <= high <= |value|
      invariant low > 0 ==> EstimateTokens(value[..low], structural) <= cap
      invariant forall n :: high < n <= |value| ==> EstimateTokens(value[..n], structural) > cap
    {
      var middle := (low + high + 1) / 2;
      if EstimateTokens(value[..middle], structural) <= cap {
        low := middle;
      } else {
        forall n | middle <= n <= |value| ensures EstimateTokens(value[..n], structural) > cap {
          assert value[..middle] <= value[..n];
          EstimateMonotone(value[..n], value[..middle], structural);
        }
        high := middle - 1;
      }
    }
  }

  function LastIndexOf(s: string, c: char): (i: int)
    ensures -1 <= i < |s| && (i >= 0 ==> s[i] == c) && forall k :: i < k < |s| ==> s[k] != c
  {
    if s == "" then -1 else if s[|s| - 1] == c then |s| - 1 else LastIndexOf(s[..|s| - 1], c)
  }

  /** The stripped text if it fits, else its longest fitting prefix without trailing white space. */
  function ClipOf(text: string, cap: int, structural: char -> bool): string {
    var value := Strip(text);
    if EstimateTokens(value, structural) <= cap then value
    else RStrip(value[..Longest(value, |value|, cap, structural)])
  }

  /** Without its last line, unless nothing else would be left. */
  function DropCutLine(s: string): string {
    var at := LastIndexOf(s, '\n');
    if at < 0 || RStrip(s[..at]) == "" then s else RStrip(s[..at])
  }

  lemma {:induction false} RStripGrows(p: string, q: string)
    requires p <= q
    ensures RStrip(p) <= RStrip(q)
    decreases |q|
  {
    if |p| == |q| {
      assert p == q;
    } else if IsSpace(q[|q| - 1]) {
      RStripGrows(p, q[..|q| - 1]);
    }
  }

  lemma StripStripped(text: string)
    ensures RStrip(Strip(text)) == Strip(text)
  {
  }

  /** MAIN RESULT: for a cap of at least one token the clipped text is a prefix of the stripped one, is within the cap,
      and no prefix within the cap says more: it is a part of it, trailing white space aside. */
  lemma ClipIsLongest(text: string, cap: int, structural: char -> bool)
    requires cap >= 1
    ensures ClipOf(text, cap, structural) <= Strip(text)
    ensures EstimateTokens(ClipOf(text, cap, structural), structural) <= cap
    ensures forall p: string :: p <= Strip(text) && EstimateTokens(p, structural) <= cap ==>
              RStrip(p) <= ClipOf(text, cap, structural)
    ensures ClipOf(text, cap, structural) == Strip(text) <==> EstimateTokens(Strip(text), structural) <= cap
    ensures var r := ClipOf(text, cap, structural); r == "" || !IsSpace(r[|r| - 1])
  {
    hide EstimateTokens, Strip, RStrip;
    var value, r := Strip(text), ClipOf(text, cap, structural);
    EmptyCosts(structural);
    assert value[..|value|] == value && value[..0] == "";
    if EstimateTokens(value, structural) <= cap {
      StripStripped(text);
      forall p: string | p <= value ensures RStrip(p) <= r { RStripGrows(p, value); }
    } else {
      var low := Longest(value, |value|, cap, structural);
      assert low < |value|;
      assert r <= value[..low] <= value;
      EstimateMonotone(value[..low], r, structural);
      forall p: string | p <= value && EstimateTokens(p, structural) <= cap ensures RStrip(p) <= r {
        assert value[..|p|] == p;
        assert p <= value[..low];
        RStripGrows(p, value[..low]);
      }
    }
  }

  /** Without a token to spend there is no text. */
  lemma NothingToSpend(text: string, cap: int, structural: char -> bool)
    requires cap < 1
    ensures ClipOf(text, cap, structural) == ""
  {
    hide EstimateTokens, Strip;
    assert Strip(text)[..0] == "";
  }

  lemma EmptyCosts(structural: char -> bool)
    ensures EstimateTokens("", structural) == 1
  {
  }

  /** `_clip_text` of the benchmark adapters. */
  method ClipText(text: string, cap: int, structural: char -> bool) returns (r: string)
    ensures r == ClipOf(text, cap, structural)
  {
    hide EstimateTokens, Strip, RStrip;
    var value := Strip(text);
    if EstimateTokens(value, structural) <= cap {
      return value;
    }
    var low := LongestFitting(value, cap, structural);
    r := RStrip(value[..low]);
  }

  /** `_clip_tokens` of the compaction code, which also drops a last line that was cut: still a prefix, still within the cap. */
  method ClipTokens(text: string, cap: int, structural: char -> bool) returns (r: string)
    ensures r == if EstimateTokens(Strip(text), structural) <= cap then Strip(text) else DropCutLine(ClipOf(text, cap, structural))
    ensures cap >= 1 ==> r <= Strip(text) && EstimateTokens(r, structural) <= cap
    ensures EstimateTokens(Strip(text), structural) > cap ==>
              && ('\n' !in ClipOf(text, cap, structural) ==> r == ClipOf(text, cap, structural))
              && (forall front, line :: ClipOf(text, cap, structural) == front + "\n" + line && '\n' !in line ==>
                    r == if RStrip(front) == "" then ClipOf(text, cap, structural) else RStrip(front))
  {
    hide EstimateTokens, Strip, RStrip, LastIndexOf;
    var value := Strip(text);
    if cap >= 1 { ClipIsLongest(text, cap, structural); }
    if EstimateTokens(value, structural) <= cap {
      return value;
    }
    var low := LongestFitting(value, cap, structural);
    r := RStrip(value[..low]);
    ghost var clipped := r;
    var at := LastIndexOf(r, '\n');
    LastLineIs(clipped, at);
    if at >= 0 {
      var lineClipped := RStrip(r[..at]);
      if lineClipped != "" {
        assert lineClipped <= r[..at] <= r;
        r := lineClipped;
      }
    }
    assert r <= clipped;
    EstimateMonotone(clipped, r, structural);
  }

  /** A text has one last line. */
  lemma LastLineIs(s: string, at: int)
    requires at == LastIndexOf(s, '\n')
    ensures at < 0 <==> '\n' !in s
    ensures forall front, line :: s == front + "\n" + line && '\n' !in line ==> at >= 0 && front == s[..at]
  {
    forall front, line | s == front + "\n" + line && '\n' !in line ensures at >= 0 && front == s[..at] {
      assert s[|front|] == '\n';
      assert forall k :: |front| < k < |s| ==> s[k] == line[k - |front| - 1] != '\n';
    }
  }

  function Cost(texts: seq<string>, structural: char -> bool): nat {
    if texts == [] then 0 else Cost(texts[..|texts| - 1], structural) + EstimateTokens(texts[|texts| - 1], structural)
  }

  /** The texts after stripping, without the empty ones. */
  function Stripped(texts: seq<string>): seq<string> {
    if texts == [] then []
    else Stripped(texts[..|texts| - 1]) + if Strip(texts[|texts| - 1]) == "" then [] else [Strip(texts[|texts| - 1])]
  }

  /** All of the first n - 1 texts fit the budget and text n no longer does: it is clipped to what is left, or left out. */
  ghost predicate CutAt(texts: seq<string>, n: nat, budget: int, structural: char -> bool, selected: seq<string>) {
    && 0 < n <= |texts|
    && Cost(Stripped(texts[..n]), structural) > budget
    && (var whole := Stripped(texts[..n - 1]);
        var left := budget - Cost(whole, structural);
        var clipped := if left <= 0 then "" else ClipOf(texts[n - 1], left, structural);
        && (Cost(whole, structural) <= budget || whole == [])
        && selected == whole + if clipped == "" then [] else [clipped])
  }

  lemma StrippedStep(texts: seq<string>, n: nat)
    requires n < |texts|
    ensures var text := Strip(texts[n]);
            Stripped(texts[..n + 1]) == if text == "" then Stripped(texts[..n]) else Stripped(texts[..n]) + [text]
  {
    hide Strip;
    assert texts[..n + 1][..n] == texts[..n];
  }

  lemma CostPush(texts: seq<string>, text: string, structural: char -> bool)
    ensures Cost(texts + [text], structural) == Cost(texts, structural) + EstimateTokens(text, structural)
  {
    hide EstimateTokens;
    assert (texts + [text])[..|texts|] == texts;
  }

  /** The text that does not fit is the one cut. */
  lemma CutHere(texts: seq<string>, n: nat, budget: int, structural: char -> bool, clipped: string)
    requires n < |texts| && Strip(texts[n]) != ""
    requires var whole := Stripped(texts[..n]);
             && (Cost(whole, structural) <= budget || whole == [])
             && Cost(whole, structural) + EstimateTokens(Strip(texts[n]), structural) > budget
             && clipped == if budget <= Cost(whole, structural) then "" else ClipOf(texts[n], budget - Cost(whole, structural), structural)
    ensures CutAt(texts, n + 1, budget, structural, Stripped(texts[..n]) + if clipped == "" then [] else [clipped])
  {
    hide EstimateTokens, Strip, ClipOf, Cost, Stripped;
    StrippedStep(texts, n);
    CostPush(Stripped(texts[..n]), Strip(texts[n]), structural);
  }

  // ----- the selection, from the texts and the budget alone

  /** How many of the first n texts fit the budget together. */
  function FitCount(texts: seq<string>, n: nat, budget: int, structural: char -> bool): (m: nat)
    requires n <= |texts|
    ensures m <= n
  {
    if n == 0 || Cost(Stripped(texts[..n]), structural) <= budget then n else FitCount(texts, n - 1, budget, structural)
  }

  lemma {:induction false} FitCountIs(texts: seq<string>, n: nat, budget: int, structural: char -> bool)
    requires n <= |texts|
    ensures var m := FitCount(texts, n, budget, structural);
            && (m > 0 ==> Cost(Stripped(texts[..m]), structural) <= budget)
            && (forall k :: m < k <= n ==> Cost(Stripped(texts[..k]), structural) > budget)
  {
    hide Cost, Stripped;
    if n > 0 && Cost(Stripped(texts[..n]), structural) > budget {
      FitCountIs(texts, n - 1, budget, structural);
    }
  }

  /** The texts that fit together, and what is left of the next one. */
  function Selection(texts: seq<string>, budget: int, structural: char -> bool): seq<string> {
    var m := FitCount(texts, |texts|, budget, structural);
    if budget <= 0 then []
    else if m == |texts| then Stripped(texts)
    else
      var whole := Stripped(texts[..m]);
      var left := budget - Cost(whole, structural);
      var clipped := if left <= 0 then "" else ClipOf(texts[m], left, structural);
      whole + if clipped == "" then [] else [clipped]
  }

  lemma {:induction false} PrefixCost(texts: seq<string>, k: nat, structural: char -> bool)
    requires k <= |texts|
    ensures Cost(Stripped(texts[..k]), structural) <= Cost(Stripped(texts), structural)
    ensures |Stripped(texts[..k])| <= |Stripped(texts)|
    decreases |texts|
  {
    hide EstimateTokens, Strip, Stripped, Cost;
    if k == |texts| {
      assert texts[..k] == texts;
    } else {
      var n := |texts| - 1;
      PrefixCost(texts[..n], k, structural);
      assert texts[..n][..k] == texts[..k] && texts[..n + 1] == texts;
      StrippedStep(texts, n);
      CostPush(Stripped(texts[..n]), Strip(texts[n]), structural);
    }
  }

  /** At least a token each. */
  lemma {:induction false} CostCounts(texts: seq<string>, structural: char -> bool)
    ensures Cost(texts, structural) >= |texts|
  {
    hide EstimateTokens;
    if texts != [] { CostCounts(texts[..|texts| - 1], structural); }
  }

  /** The cut is behind the texts that fit. */
  lemma CutIsBehind(texts: seq<string>, n: nat, budget: int, structural: char -> bool, selected: seq<string>)
    requires CutAt(texts, n, budget, structural, selected)
    ensures selected == Selection(texts, budget, structural)
    ensures budget > 0 ==> n == FitCount(texts, |texts|, budget, structural) + 1
  {
    hide EstimateTokens, Strip, ClipOf, Stripped, Cost;
    var whole := Stripped(texts[..n - 1]);
    CostCounts(whole, structural);
    if budget <= 0 {
      assert selected == whole + [] == [];
    } else {
      NothingCosts(texts, structural);
      var m := FitCount(texts, |texts|, budget, structural);
      FitCountIs(texts, |texts|, budget, structural);
      if n <= m {
        assert texts[..m][..n] == texts[..n];
        PrefixCost(texts[..m], n, structural);
        assert false;
      }
    }
  }

  lemma AllSelected(texts: seq<string>, budget: int, structural: char -> bool)
    requires Cost(Stripped(texts), structural) <= budget || Stripped(texts) == []
    ensures Selection(texts, budget, structural) == Stripped(texts)
  {
    hide EstimateTokens, Strip, ClipOf, Stripped, Cost;
    FitCountIs(texts, |texts|, budget, structural);
    CostCounts(Stripped(texts), structural);
    NothingCosts(texts, structural);
    assert texts[..|texts|] == texts;
  }

  /** No more parts than there are texts that are not blank. */
  lemma SelectionLength(texts: seq<string>, budget: int, structural: char -> bool)
    ensures |Selection(texts, budget, structural)| <= |Stripped(texts)|
  {
    hide EstimateTokens, Strip, ClipOf, Stripped, Cost;
    FitCountIs(texts, |texts|, budget, structural);
    var m := FitCount(texts, |texts|, budget, structural);
    if 0 < budget && m < |texts| {
      NothingCosts(texts, structural);
      StrippedStep(texts, m);
      PrefixCost(texts, m + 1, structural);
    }
  }

  // ----- the joined texts

  /** The texts with a blank line between them. */
  function Join(texts: seq<string>): string {
    if texts == [] then ""
    else if |texts| == 1 then texts[0]
    else Join(texts[..|texts| - 1]) + "\n\n" + texts[|texts| - 1]
  }

  /** Joining puts a blank line between any two texts, and nothing else. */
  lemma {:induction false} JoinAppend(a: seq<string>, b: seq<string>)
    ensures a != [] && b != [] ==> Join(a + b) == Join(a) + "\n\n" + Join(b)
    ensures |a| == 1 ==> Join(a) == a[0]
    ensures a == [] ==> Join(a) == ""
    decreases |b|
  {
    hide Join;
    NothingJoined();
    if |a| == 1 {
      JoinPush([], a[0]);
      assert a == [] + [a[0]];
    }
    if a != [] && b != [] {
      var front, last := b[..|b| - 1], b[|b| - 1];
      assert b == front + [last];
      assert a + b == (a + front) + [last];
      JoinPush(a + front, last);
      JoinPush(front, last);
      if front == [] {
        assert a + front == a;
      } else {
        JoinAppend(a, front);
        JoinRegroups(Join(a), Join(front), last);
      }
    }
  }

  lemma NothingJoined()
    ensures Join([]) == ""
  {
  }

  lemma JoinPush(a: seq<string>, last: string)
    ensures Join(a + [last]) == if a == [] then last else Join(a) + "\n\n" + last
  {
    assert (a + [last])[..|a|] == a;
  }

  lemma JoinRegroups(x: string, y: string, z: string)
    ensures (x + "\n\n" + y) + "\n\n" + z == x + "\n\n" + (y + "\n\n" + z)
  {
  }

  /** Stripping goes text by text and drops what is blank. */
  lemma {:induction false} StrippedAppend(a: seq<string>, b: seq<string>)
    ensures Stripped(a + b) == Stripped(a) + Stripped(b)
    ensures |a| == 1 ==> Stripped(a) == if Strip(a[0]) == "" then [] else [Strip(a[0])]
    decreases |b|
  {
    hide Strip, Stripped;
    NothingStripped();
    if |a| == 1 {
      StrippedStep(a, 0);
      assert a[..0] == [] && a[..1] == a;
    }
    if b == [] {
      assert a + b == a;
    } else {
      var front, n := b[..|b| - 1], |a| + |b| - 1;
      StrippedAppend(a, front);
      StrippedStep(a + b, n);
      StrippedStep(b, |b| - 1);
      assert (a + b)[..n] == a + front && (a + b)[..n + 1] == a + b && b[..|b|] == b;
    }
  }

  /** The characters of all texts that satisfy a test. */
  function CountAll(texts: seq<string>, test: char -> bool): nat {
    if texts == [] then 0 else CountAll(texts[..|texts| - 1], test) + CountIf(texts[|texts| - 1], test)
  }

  lemma {:induction false} CountAppend(a: string, b: string, test: char -> bool)
    ensures CountIf(a + b, test) == CountIf(a, test) + CountIf(b, test)
  {
    if b == "" {
      assert a + b == a;
    } else {
      assert (a + b)[..|a + b| - 1] == a + b[..|b| - 1];
      CountAppend(a, b[..|b| - 1], test);
    }
  }

  lemma BlankLineCounts(test: char -> bool)
    ensures CountIf("\n\n", test) == if test('\n') then 2 else 0
  {
    assert "\n\n"[..1] == "\n" && "\n"[..0] == "";
  }

  lemma {:induction false} JoinCounts(texts: seq<string>, test: char -> bool)
    requires texts != []
    ensures CountIf(Join(texts), test) == CountAll(texts, test) + if test('\n') then 2 * (|texts| - 1) else 0
  {
    hide CountIf;
    if |texts| == 1 {
      assert texts[..0] == [];
    } else {
      var front, last := texts[..|texts| - 1], texts[|texts| - 1];
      JoinCounts(front, test);
      BlankLineCounts(test);
      CountAppend(Join(front) + "\n\n", last, test);
      CountAppend(Join(front), "\n\n", test);
    }
  }

  lemma {:induction false} CountSplit(text: string)
    ensures CountIf(text, c => IsCjk(c)) + CountIf(text, c => !IsCjk(c)) == |text|
  {
    hide IsCjk;
    if text != "" { CountSplit(text[..|text| - 1]); }
  }

  /** What the joined texts cost, from the counts of the texts alone. */
  function JoinedCost(texts: seq<string>, structural: char -> bool): nat
    requires texts != []
  {
    var breaks := 2 * (|texts| - 1);
    var n := CountAll(texts, c => IsCjk(c)) + Quarter(CountAll(texts, c => !IsCjk(c)) + breaks)
             + Quarter(CountAll(texts, structural) + if structural('\n') then breaks else 0);
    if n < 1 then 1 else n
  }

  lemma JoinedCosts(texts: seq<string>, structural: char -> bool)
    requires texts != []
    ensures EstimateTokens(Join(texts), structural) == JoinedCost(texts, structural)
  {
    hide CountIf, CountAll, Join;
    JoinCounts(texts, c => IsCjk(c));
    JoinCounts(texts, c => !IsCjk(c));
    JoinCounts(texts, structural);
    CountSplit(Join(texts));
    assert !IsCjk('\n');
  }

  lemma QuarterAdds(a: nat, b: nat)
    ensures Quarter(a + b) <= Quarter(a) + Quarter(b)
  {
  }

  /** Counted one by one, the texts cost at least what their characters cost together. */
  lemma {:induction false} CostCovers(texts: seq<string>, structural: char -> bool)
    ensures Cost(texts, structural) >= CountAll(texts, c => IsCjk(c)) + Quarter(CountAll(texts, c => !IsCjk(c)))
                                       + Quarter(CountAll(texts, structural))
    ensures Cost(texts, structural) >= |texts|
  {
    hide CountIf, IsCjk;
    if texts != [] {
      var front, last := texts[..|texts| - 1], texts[|texts| - 1];
      CostCovers(front, structural);
      CountSplit(last);
      QuarterAdds(CountAll(front, c => !IsCjk(c)), CountIf(last, c => !IsCjk(c)));
      QuarterAdds(CountAll(front, structural), CountIf(last, structural));
    }
  }

  /** Joining k texts costs at most 2 * (k / 2) tokens more than the texts one by one; a single text costs the same. */
  lemma JoinedBound(texts: seq<string>, structural: char -> bool)
    requires texts != []
    ensures EstimateTokens(Join(texts), structural) <= Cost(texts, structural) + 2 * (|texts| / 2)
  {
    hide EstimateTokens, CountAll, Join, Cost;
    var breaks := 2 * (|texts| - 1);
    JoinedCosts(texts, structural);
    CostCovers(texts, structural);
    QuarterAdds(CountAll(texts, c => !IsCjk(c)), breaks);
    QuarterAdds(CountAll(texts, structural), if structural('\n') then breaks else 0);
    assert Quarter(breaks) == |texts| / 2;
  }

  lemma LettersCost(structural: char -> bool)
    requires !structural('a') && !structural('b')
    ensures Cost(["aaaa"], structural) == 1 && Cost(["aaaa", "bbbb"], structural) == 2
    ensures JoinedCost(["aaaa", "bbbb"], structural) > 2
  {
    hide Cost, CountAll, CountIf;
    CountRepeats("aaaa", 'a', structural);
    CountRepeats("bbbb", 'b', structural);
    var texts := ["aaaa", "bbbb"];
    NothingCosts(texts, structural);
    CostPush([], "aaaa", structural);
    CostPush(["aaaa"], "bbbb", structural);
    assert [] + ["aaaa"] == ["aaaa"] && ["aaaa"] + ["bbbb"] == texts;
    CountTwo("aaaa", "bbbb", c => IsCjk(c));
    CountTwo("aaaa", "bbbb", c => !IsCjk(c));
    CountTwo("aaaa", "bbbb", structural);
    CountSplit("aaaa");
    CountSplit("bbbb");
  }

  /** So the joined text can cost more than the budget its parts keep: of two texts of one token each both are selected for a
      budget of two, and their join costs more. */
  lemma JoinedCanOverrun(structural: char -> bool)
    requires !structural('a') && !structural('b')
    ensures Selection(["aaaa", "bbbb"], 2, structural) == ["aaaa", "bbbb"]
    ensures EstimateTokens(Join(Selection(["aaaa", "bbbb"], 2, structural)), structural) > 2
    ensures !JoinFits(["aaaa", "bbbb"], 2, structural)
  {
    hide EstimateTokens, Join, JoinedCost, Selection, Cost, Stripped, Strip;
    LettersCost(structural);
    LettersStripped();
    AllSelected(["aaaa", "bbbb"], 2, structural);
    JoinedCosts(["aaaa", "bbbb"], structural);
  }

  lemma LettersStripped()
    ensures Stripped(["aaaa", "bbbb"]) == ["aaaa", "bbbb"]
  {
    hide Strip, Stripped;
    var texts := ["aaaa", "bbbb"];
    assert texts[..2] == texts && texts[..0] == [];
    NothingStripped();
    LettersStay("aaaa");
    LettersStay("bbbb");
    StrippedStep(texts, 0);
    StrippedStep(texts, 1);
  }

  /** The condition under which the returned text keeps the budget, to be computed from the texts and the budget: with the
      separators counted in, the characters of the selected parts are few enough. */
  predicate JoinFits(texts: seq<string>, budget: int, structural: char -> bool) {
    var parts := Selection(texts, budget, structural);
    if parts == [] then budget >= 1 else JoinedCost(parts, structural) <= budget
  }

  /** MAIN RESULT: the text `clip_contexts` returns for these inputs keeps the budget exactly if JoinFits holds of them. */
  lemma JoinedFitsExactly(texts: seq<string>, budget: int, structural: char -> bool)
    ensures EstimateTokens(Join(Selection(texts, budget, structural)), structural) <= budget
       <==> JoinFits(texts, budget, structural)
  {
    hide EstimateTokens, Selection, JoinedCost;
    var parts := Selection(texts, budget, structural);
    if parts == [] {
      EmptyCosts(structural);
    } else {
      hide Join;
      JoinedCosts(parts, structural);
    }
  }

  /** Texts that fit the budget together keep it joined exactly if they do so with their separators counted in. */
  lemma AllFitJoined(texts: seq<string>, budget: int, structural: char -> bool)
    requires Cost(Stripped(texts), structural) <= budget && Stripped(texts) != []
    ensures EstimateTokens(Join(Selection(texts, budget, structural)), structural) <= budget
       <==> JoinedCost(Stripped(texts), structural) <= budget
  {
    hide EstimateTokens, Selection, JoinedCost, Join, Stripped, Cost;
    AllSelected(texts, budget, structural);
    JoinedCosts(Stripped(texts), structural);
  }

  /** Whatever the texts, the budget is exceeded by the separators at most, and not at all with one text that is not blank. */
  lemma JoinedWithin(texts: seq<string>, budget: int, structural: char -> bool)
    requires budget >= 1
    ensures EstimateTokens(Join(Selection(texts, budget, structural)), structural) <= budget + 2 * (|Stripped(texts)| / 2)
    ensures |Stripped(texts)| <= 1 ==> JoinFits(texts, budget, structural)
  {
    hide EstimateTokens, Selection, JoinedCost, Stripped, Cost;
    var parts := Selection(texts, budget, structural);
    SelectionLength(texts, budget, structural);
    SelectionCost(texts, budget, structural);
    JoinedFitsExactly(texts, budget, structural);
    if parts == [] {
      EmptyCosts(structural);
    } else {
      hide Join;
      JoinedBound(parts, structural);
    }
  }

  lemma SelectionCost(texts: seq<string>, budget: int, structural: char -> bool)
    requires budget >= 1
    ensures Cost(Selection(texts, budget, structural), structural) <= budget
  {
    hide EstimateTokens, Strip, ClipOf, Stripped, Cost, FitCount;
    FitCountIs(texts, |texts|, budget, structural);
    var m := FitCount(texts, |texts|, budget, structural);
    NothingCosts(texts, structural);
    if m == |texts| {
      assert texts[..m] == texts;
    } else {
      var whole := Stripped(texts[..m]);
      var left := budget - Cost(whole, structural);
      assert whole + [] == whole;
      if left > 0 {
        ClipCost(texts[m], left, structural);
        CostPush(whole, ClipOf(texts[m], left, structural), structural);
      }
    }
  }

  lemma ClipCost(text: string, cap: int, structural: char -> bool)
    requires cap >= 1
    ensures EstimateTokens(ClipOf(text, cap, structural), structural) <= cap
  {
    ClipIsLongest(text, cap, structural);
  }

  lemma NothingStripped()
    ensures Stripped([]) == []
  {
  }

  lemma LettersStay(s: string)
    requires s != "" && s[0] in {'a', 'b'} && s[|s| - 1] in {'a', 'b'}
    ensures Strip(s) == s
  {
    KeyCharNotSpace('a');
    KeyCharNotSpace('b');
    StripIdentity(s);
  }

  lemma CountTwo(a: string, b: string, test: char -> bool)
    ensures CountAll([a, b], test) == CountIf(a, test) + CountIf(b, test)
  {
    hide CountIf;
    var both, one := [a, b], [a];
    assert both[..1] == one && one[..0] == [];
    assert CountAll(one, test) == CountIf(a, test);
  }

  lemma {:induction false} CountRepeats(s: string, c: char, structural: char -> bool)
    requires (forall i :: 0 <= i < |s| ==> s[i] == c) && !structural(c) && !IsCjk(c)
    ensures CountIf(s, structural) == 0 && CountIf(s, c => IsCjk(c)) == 0
  {
    if s != "" { CountRepeats(s[..|s| - 1], c, structural); }
  }

  /** `clip_contexts`: the texts that fit the budget together and what is left of the next one, joined by blank lines. The
      parts never use more than the budget; the joined text keeps it exactly if JoinFits holds of the inputs. */
  method ClipContexts(texts: seq<string>, budget: int, structural: char -> bool)
    returns (context: string, used: nat, considered: nat)
    ensures context == Join(Selection(texts, budget, structural))
    ensures used == Cost(Selection(texts, budget, structural), structural) && (used <= budget || used == 0)
    ensures considered == |texts| || CutAt(texts, considered, budget, structural, Selection(texts, budget, structural))
    ensures EstimateTokens(context, structural) <= budget <==> JoinFits(texts, budget, structural)
  {
    hide EstimateTokens, Join, JoinFits, CutAt, Selection, Stripped, Cost;
    var parts;
    parts, used, considered := SelectContexts(texts, budget, structural);
    if CutAt(texts, considered, budget, structural, parts) {
      CutIsBehind(texts, considered, budget, structural, parts);
    } else {
      AllSelected(texts, budget, structural);
    }
    JoinedFitsExactly(texts, budget, structural);
    return Join(parts), used, considered;
  }

  /** The selecting loop. */
  method SelectContexts(texts: seq<string>, budget: int, structural: char -> bool)
    returns (selected: seq<string>, used: nat, considered: nat)
    ensures used == Cost(selected, structural) && (used <= budget || used == 0)
    ensures (considered == |texts| && selected == Stripped(texts) && (Cost(selected, structural) <= budget || selected == []))
            || CutAt(texts, considered, budget, structural, selected)
  {
    hide EstimateTokens, Strip, ClipOf, Stripped, Cost, CutAt;
    selected, used, considered := [], 0, 0;
    NothingCosts(texts, structural);
    while considered < |texts|
      invariant 0 <= considered <= |texts|
      invariant used == Cost(selected, structural) && (used <= budget || (selected == [] && used == 0))
      invariant selected == Stripped(texts[..considered])
    {
      var raw, text := texts[considered], Strip(texts[considered]);
      ghost var n := considered;
      StrippedStep(texts, n);
      considered := considered + 1;
      if text == "" {
        continue;
      }
      var remaining := budget - used;
      if remaining <= 0 {
        CutHere(texts, n, budget, structural, "");
        assert selected + [] == selected;
        return;
      }
      StripTwice(raw);
      SameClip(raw, text, remaining, structural);
      ClipIsLongest(raw, remaining, structural);
      var clipped := ClipText(text, remaining, structural);
      if clipped != text {
        CutHere(texts, n, budget, structural, clipped);
      }
      if clipped == "" {
        assert selected + [] == selected;
        return;
      }
      CostPush(selected, clipped, structural);
      selected := selected + [clipped];
      used := used + EstimateTokens(clipped, structural);
      if clipped != text {
        return;
      }
    }
    assert texts[..considered] == texts;
  }

  lemma NothingCosts(texts: seq<string>, structural: char -> bool)
    ensures Cost([], structural) == 0 && Stripped(texts[..0]) == []
  {
  }

  lemma SameClip(raw: string, text: string, cap: int, structural: char -> bool)
    requires Strip(raw) == Strip(text)
    ensures ClipOf(raw, cap, structural) == ClipOf(text, cap, structural)
  {
    hide EstimateTokens, Strip, RStrip;
  }

  lemma StripTwice(s: string)
    ensures Strip(Strip(s)) == Strip(s)
  {
    var t := Strip(s);
    if t != "" {
      assert t[0] == LStrip(s)[0];
      StripIdentity(t);
    }
  }
}
