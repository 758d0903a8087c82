/** The optional and error-carrying values that stand for Python's None and exceptions. */
module Common {

  datatype Option<+T> = None | Some(value: T)

  datatype Result<+T, +E> = Success(value: T) | Failure(error: E)

  /** Sequence without repetition. */
  ghost predicate Distinct<T>(s: seq<T>) {
    forall i, j :: 0 <= i < j < |s| ==> s[i] != s[j]
  }

  function Elements<T>(s: seq<T>): set<T> {
    set x | x in s
  }

  lemma AppendDistinct<T>(s: seq<T>, x: T)
    requires Distinct(s) && x !in s
    ensures Distinct(s + [x]) && Elements(s + [x]) == Elements(s) + {x}
  {
  }

  /** Places below n + 1 are those below n, and n if it belongs to them. */
  lemma PlacesGrow(before: set<nat>, after: set<nat>, n: nat)
    requires forall i :: i in before ==> i < n
    requires forall i: nat :: i < n ==> (i in after <==> i in before)
    requires forall i :: i in after ==> i <= n
    ensures |after| == |before| + if n in after then 1 else 0
  {
    assert after == before + if n in after then {n} else {};
  }

  /** The first element of a sequence, found and taken out of a permutation of it. */
  lemma TakeOut<T>(a: seq<T>, b: seq<T>) returns (j: nat)
    requires a != [] && multiset(a) == multiset(b)
    ensures j < |b| && b[j] == a[0]
    ensures multiset(a[1..]) == multiset(b[..j] + b[j + 1..])
  {
    j := Position(b, a[0], a);
    Without(a, 0);
    Without(b, j);
    assert a[..0] + a[1..] == a[1..];
  }

  lemma Position<T>(b: seq<T>, x: T, a: seq<T>) returns (j: nat)
    requires x in a && multiset(a) == multiset(b)
    ensures j < |b| && b[j] == x
  {
    assert x in multiset(a);
    j :| 0 <= j < |b| && b[j] == x;
  }

  lemma Without<T>(s: seq<T>, j: nat)
    requires j < |s|
    ensures multiset(s[..j] + s[j + 1..]) == multiset(s) - multiset{s[j]}
  {
    assert s == s[..j] + ([s[j]] + s[j + 1..]);
    assert multiset(s) == multiset(s[..j]) + (multiset{s[j]} + multiset(s[j + 1..]));
  }
}
