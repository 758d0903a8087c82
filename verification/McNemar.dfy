/** The exact McNemar test of benchmarks/memory_public/scoring.py, in whole numbers: the p-value is
    Scaled / 2^discordant, so no rounding comes in. */
module McNemar {
  import opened Common

  function Choose(n: nat, k: nat): nat {
    if k == 0 then 1
    else if n == 0 then 0
    else Choose(n - 1, k - 1) + Choose(n - 1, k)
  }

  function Pow2(n: nat): (p: nat)
    ensures p >= 1
  {
    if n == 0 then 1 else 2 * Pow2(n - 1)
  }

  /** Choose(n, 0) + … + Choose(n, k). */
  function Tail(n: nat, k: nat): nat {
    if k == 0 then Choose(n, 0) else Tail(n, k - 1) + Choose(n, k)
  }

  function LeftOnly(left: seq<bool>, right: seq<bool>): nat
    requires |left| == |right|
  {
    if left == [] then 0
    else LeftOnly(left[..|left| - 1], right[..|left| - 1]) + if left[|left| - 1] && !right[|left| - 1] then 1 else 0
  }

  function Min(a: nat, b: nat): nat {
    if a <= b then a else b
  }

  /** p_value = scaled / Pow2(discordant). */
  datatype Test = Test(leftOnly: nat, rightOnly: nat, discordant: nat, scaled: nat)

  /** Twice the tail, clamped to the whole distribution. */
  function Scaled(l: nat, r: nat): nat {
    if l + r == 0 then 1 else Min(Pow2(l + r), 2 * Tail(l + r, Min(l, r)))
  }

  /** LeftOnly counts the places where only the left vector is true. */
  lemma {:induction false} LeftOnlyCounts(left: seq<bool>, right: seq<bool>)
    requires |left| == |right|
    ensures LeftOnly(left, right) == |set i: nat | i < |left| && left[i] && !right[i]|
  {
    var places := set i: nat | i < |left| && left[i] && !right[i];
    if left != [] {
      var n := |left| - 1;
      LeftOnlyCounts(left[..n], right[..n]);
      PlacesGrow((set i: nat | i < |left[..n]| && left[..n][i] && !right[..n][i]), places, n);
    }
  }

  // ----- binomial coefficients

  function Factorial(n: nat): (f: nat)
    ensures f >= 1
  {
    if n == 0 then 1 else n * Factorial(n - 1)
  }

  /** The coefficients are n! / (k! (n - k)!). */
  lemma {:induction false} ChooseIsQuotient(n: nat, k: nat)
    requires k <= n
    ensures Choose(n, k) * (Factorial(k) * Factorial(n - k)) == Factorial(n)
  {
    if k == 0 {
    } else if k == n {
      ChooseAll(n);
    } else {
      ChooseIsQuotient(n - 1, k - 1);
      ChooseIsQuotient(n - 1, k);
      PascalTimes(Choose(n - 1, k - 1), Choose(n - 1, k), k, n - k, Factorial(k - 1), Factorial(n - k - 1), Factorial(n - 1));
    }
  }

  lemma PascalTimes(a: nat, b: nat, k: nat, m: nat, x: nat, y: nat, whole: nat)
    requires a * (x * (m * y)) == whole && b * ((k * x) * y) == whole
    ensures (a + b) * ((k * x) * (m * y)) == (k + m) * whole
  {
    calc {
      (a + b) * ((k * x) * (m * y));
      a * ((k * x) * (m * y)) + b * ((k * x) * (m * y));
      { assert a * ((k * x) * (m * y)) == k * (a * (x * (m * y))) by { Regroup(a, k, x, m * y); } }
      { assert b * ((k * x) * (m * y)) == m * (b * ((k * x) * y)) by { Regroup2(b, k * x, m, y); } }
      k * whole + m * whole;
      (k + m) * whole;
    }
  }

  lemma Regroup(a: nat, k: nat, x: nat, z: nat)
    ensures a * ((k * x) * z) == k * (a * (x * z))
  {
  }

  lemma Regroup2(b: nat, w: nat, m: nat, y: nat)
    ensures b * (w * (m * y)) == m * (b * (w * y))
  {
  }

  lemma {:induction false} ChooseAbove(n: nat, k: nat)
    requires k > n
    ensures Choose(n, k) == 0
  {
    if n > 0 {
      ChooseAbove(n - 1, k - 1);
      ChooseAbove(n - 1, k);
    }
  }

  lemma {:induction false} ChooseAll(n: nat)
    ensures Choose(n, n) == 1
  {
    if n > 0 {
      ChooseAll(n - 1);
      ChooseAbove(n - 1, n);
    }
  }

  lemma {:induction false} ChoosePositive(n: nat, k: nat)
    requires k <= n
    ensures Choose(n, k) >= 1
  {
    if 0 < k {
      ChoosePositive(n - 1, k - 1);
    }
  }

  lemma {:induction false} ChooseSymmetric(n: nat, k: nat)
    requires k <= n
    ensures Choose(n, k) == Choose(n, n - k)
  {
    if k == 0 || k == n {
      ChooseAll(n);
    } else {
      ChooseSymmetric(n - 1, k - 1);
      ChooseSymmetric(n - 1, k);
      assert Choose(n, n - k) == Choose(n - 1, n - k - 1) + Choose(n - 1, n - k);
    }
  }

  /** Pascal's rule, summed. */
  lemma {:induction false} TailDoubles(n: nat, k: nat)
    requires n > 0 && k > 0
    ensures Tail(n, k) == Tail(n - 1, k) + Tail(n - 1, k - 1)
  {
    if k > 1 {
      TailDoubles(n, k - 1);
    }
  }

  lemma {:induction false} RowSum(n: nat)
    ensures Tail(n, n) == Pow2(n)
  {
    if n > 0 {
      RowSum(n - 1);
      TailDoubles(n, n);
      ChooseAbove(n - 1, n);
    }
  }

  /** The upper part of a row mirrors the lower part. */
  lemma {:induction false} TailMirrors(n: nat, k: nat)
    requires k < n
    ensures Tail(n, k) + Tail(n, n - 1 - k) == Pow2(n)
  {
    RowSum(n);
    if k == 0 {
      ChooseAll(n);
    } else {
      TailMirrors(n, k - 1);
      ChooseSymmetric(n, k);
    }
  }

  lemma {:induction false} TailGrows(n: nat, k: nat, m: nat)
    requires k <= m
    ensures Tail(n, k) <= Tail(n, m)
    decreases m - k
  {
    if k < m { TailGrows(n, k, m - 1); }
  }

  /** MAIN RESULT: with discordant pairs, the clamp acts exactly at ties. Off a tie twice the tail is at most everything;
      at a tie it is everything and the middle coefficient once more. */
  lemma ClampExactlyAtTies(l: nat, r: nat)
    requires l + r > 0
    ensures 2 * Tail(l + r, Min(l, r)) <= Pow2(l + r) <==> l != r
    ensures l == r ==> 2 * Tail(l + r, l) == Pow2(l + r) + Choose(l + r, l)
    ensures Scaled(l, r) == Pow2(l + r) <==> l == r || l == r + 1 || r == l + 1
  {
    hide Tail, Choose, Pow2;
    if l == r {
      TieTail(l);
      ChoosePositive(l + r, l);
    } else {
      OffTieTail(l + r, Min(l, r));
    }
  }

  lemma TieTail(k: nat)
    requires k > 0
    ensures 2 * Tail(k + k, k) == Pow2(k + k) + Choose(k + k, k)
  {
    hide Choose, Pow2;
    TailMirrors(k + k, k);
  }

  /** Less than half of a row sums to at most half of it, and to half of it only if one more term would be the middle. */
  lemma OffTieTail(n: nat, k: nat)
    requires k + k < n
    ensures 2 * Tail(n, k) <= Pow2(n)
    ensures 2 * Tail(n, k) == Pow2(n) <==> n == k + k + 1
  {
    hide Tail, Choose, Pow2;
    TailMirrors(n, k);
    if n - 1 - k > k {
      TailGrows(n, k, n - 2 - k);
      TailStep(n, n - 1 - k);
      ChoosePositive(n, n - 1 - k);
    }
  }

  lemma TailStep(n: nat, k: nat)
    requires k > 0
    ensures Tail(n, k) == Tail(n, k - 1) + Choose(n, k)
  {
  }

  /** The p-value is positive, at most one, and the same whichever side is called left. */
  lemma PValueBounds(l: nat, r: nat)
    ensures 1 <= Scaled(l, r) <= Pow2(l + r)
    ensures Scaled(l, r) == Scaled(r, l)
  {
    if l + r > 0 {
      TailGrows(l + r, 0, Min(l, r));
    }
  }

  /** The further the discordant pairs lean to one side, the smaller the p-value. */
  lemma LeaningLowers(l: nat, r: nat)
    requires 0 < l <= r
    ensures Scaled(l - 1, r + 1) < Scaled(l, r)
  {
    var n := l + r;
    ChoosePositive(n, l);
    ClampExactlyAtTies(l, r);
    ClampExactlyAtTies(l - 1, r + 1);
    assert Tail(n, l) == Tail(n, l - 1) + Choose(n, l);
  }

  /** `mcnemar_exact`: None for vectors of different length. */
  method McNemarExact(left: seq<bool>, right: seq<bool>) returns (r: Option<Test>)
    ensures r.None? <==> |left| != |right|
    ensures r.Some? ==>
              && r.value.leftOnly == LeftOnly(left, right) && r.value.rightOnly == LeftOnly(right, left)
              && r.value.leftOnly == |set i: nat | i < |left| && left[i] && !right[i]|
              && r.value.rightOnly == |set i: nat | i < |left| && right[i] && !left[i]|
              && r.value.discordant == r.value.leftOnly + r.value.rightOnly
              && r.value.scaled == Scaled(r.value.leftOnly, r.value.rightOnly)
  {
    if |left| != |right| {
      return None;
    }
    var l, o, i := 0, 0, 0;
    while i < |left|
      invariant 0 <= i <= |left|
      invariant l == LeftOnly(left[..i], right[..i]) && o == LeftOnly(right[..i], left[..i])
    {
      assert left[..i + 1][..i] == left[..i] && right[..i + 1][..i] == right[..i];
      if left[i] && !right[i] { l := l + 1; }
      if right[i] && !left[i] { o := o + 1; }
      i := i + 1;
    }
    assert left[..i] == left && right[..i] == right;
    LeftOnlyCounts(left, right);
    LeftOnlyCounts(right, left);
    if l + o == 0 {
      return Some(Test(l, o, 0, 1));
    }
    var sum, k := 1, 0;
    while k < Min(l, o)
      invariant 0 <= k <= Min(l, o) && sum == Tail(l + o, k)
    {
      k := k + 1;
      sum := sum + Choose(l + o, k);
    }
    return Some(Test(l, o, l + o, Min(Pow2(l + o), 2 * sum)));
  }

  /** Swapping the vectors swaps the counts and keeps the p-value. */
  lemma SwapKeepsPValue(left: seq<bool>, right: seq<bool>)
    requires |left| == |right|
    ensures Scaled(LeftOnly(left, right), LeftOnly(right, left)) == Scaled(LeftOnly(right, left), LeftOnly(left, right))
  {
    PValueBounds(LeftOnly(left, right), LeftOnly(right, left));
  }
}
