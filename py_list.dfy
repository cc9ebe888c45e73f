/**
 * The two list operations of Python's library that the generators call:
 * `random.shuffle(xs)` and `xs.index(x)`.
 *
 * `random.shuffle` is CPython's Fisher–Yates loop: for i from len(xs)-1 down
 * to 1 it draws j uniformly in [0, i] and swaps xs[i] and xs[j]. The random
 * number generator is not modelled; its draws are an input: draw k is the j
 * chosen when i == len(xs) - 1 - k.
 */
module PyList {
  import opened Wrappers

  /** Each draw lies in the range CPython's loop asks for at that step. */
  predicate DrawsFit(draws: seq<nat>, n: nat) {
    forall k :: 0 <= k < |draws| ==> k < n && draws[k] <= n - 1 - k
  }

  /** A complete set of draws for shuffling a list of length n: n - 1 of them. */
  predicate ShuffleDraws(draws: seq<nat>, n: nat) {
    DrawsFit(draws, n) && |draws| == if n == 0 then 0 else n - 1
  }

  /** `xs[i], xs[j] = xs[j], xs[i]` */
  function Swap<T>(s: seq<T>, i: nat, j: nat): (r: seq<T>)
    requires i < |s| && j < |s|
    ensures |r| == |s|
  {
    s[i := s[j]][j := s[i]]
  }

  /** The list after the first |draws| steps of the shuffle loop. */
  function Shuffled<T>(s: seq<T>, draws: seq<nat>): (r: seq<T>)
    requires DrawsFit(draws, |s|)
    ensures |r| == |s|
  {
    if |draws| == 0 then s
    else
      var k := |draws| - 1;
      assert k < |s| && draws[k] <= |s| - 1 - k;
      Swap(Shuffled(s, draws[..k]), |s| - 1 - k, draws[k])
  }

  lemma SwapPermutes<T>(s: seq<T>, i: nat, j: nat)
    requires i < |s| && j < |s|
    ensures multiset(Swap(s, i, j)) == multiset(s)
  {
    var t := s[i := s[j]];
    assert multiset(t) == multiset(s) - multiset{s[i]} + multiset{s[j]};
    assert t[i] == s[j];
    assert multiset(t[j := s[i]]) == multiset(t) - multiset{t[j]} + multiset{s[i]};
    if i == j {
      assert t == s;
    } else {
      assert t[j] == s[j];
    }
  }

  /** Shuffling only reorders: the result is a permutation of the list. */
  lemma {:induction false} ShuffledPermutes<T>(s: seq<T>, draws: seq<nat>)
    requires DrawsFit(draws, |s|)
    ensures multiset(Shuffled(s, draws)) == multiset(s)
  {
    if |draws| > 0 {
      var k := |draws| - 1;
      assert k < |s| && draws[k] <= |s| - 1 - k;
      assert DrawsFit(draws[..k], |s|);
      ShuffledPermutes(s, draws[..k]);
      SwapPermutes(Shuffled(s, draws[..k]), |s| - 1 - k, draws[k]);
    }
  }

  /** `random.shuffle(xs)`, on the list's value: the loop of CPython's implementation. */
  method Shuffle<T>(xs: seq<T>, draws: seq<nat>) returns (ys: seq<T>)
    requires ShuffleDraws(draws, |xs|)
    ensures ys == Shuffled(xs, draws)
    ensures multiset(ys) == multiset(xs)
  {
    ys := xs;
    var i := |xs| - 1;
    while i >= 1
      invariant 0 <= |xs| - 1 - i <= |draws|
      invariant i >= 0 || |xs| == 0
      invariant ys == Shuffled(xs, draws[..|xs| - 1 - i])
    {
      var k := |xs| - 1 - i;
      var j := draws[k];
      assert draws[..k + 1][..k] == draws[..k];
      ys := ys[i := ys[j]][j := ys[i]];
      i := i - 1;
    }
    assert draws[..|draws|] == draws;
    ShuffledPermutes(xs, draws);
  }

  /** `xs.index(x)`: the first position holding x; ValueError (None) when absent. */
  function IndexOf<T(==)>(s: seq<T>, x: T): (r: Option<nat>)
    ensures r.None? <==> x !in s
    ensures r.Some? ==> r.value < |s| && s[r.value] == x && x !in s[..r.value]
  {
    if |s| == 0 then None
    else if s[0] == x then Some(0)
    else match IndexOf(s[1..], x)
      case None => None
      case Some(i) =>
        assert s[..i + 1] == [s[0]] + s[1..][..i];
        Some(i + 1)
  }

  /** The first element occurs once exactly when the rest do not hold it. */
  lemma FirstOccursOnce<T>(s: seq<T>)
    requires |s| > 0
    ensures multiset(s)[s[0]] == 1 <==> s[0] !in s[1..]
  {
    assert s == [s[0]] + s[1..];
    assert multiset(s) == multiset{s[0]} + multiset(s[1..]);
  }
}
