/** The Fisher–Yates `shuffle` of src/app/page.tsx. `Math.random` is replaced by a
    sequence of draws, each in [0, 1): draw `k` is the one taken when the loop is
    at index `i = |arr| - 1 - k`. */
module FisherYates {

  /** Enough draws for one shuffle of `n` elements, each as `Math.random` returns them. */
  predicate RandomDraws(draws: seq<real>, n: nat) {
    && |draws| >= n - 1
    && forall k :: 0 <= k < |draws| ==> 0.0 <= draws[k] < 1.0
  }

  /** `Math.floor(x * (i + 1))`. */
  function SwapIndex(x: real, i: nat): int {
    (x * (i + 1) as real).Floor
  }

  /** Every swap partner lies between 0 and the current index, inclusive. */
  lemma SwapIndexInRange(x: real, i: nat)
    requires 0.0 <= x < 1.0
    ensures 0 <= SwapIndex(x, i) <= i
  {
    var n := (i + 1) as real;
    assert n - x * n == (1.0 - x) * n;
    assert (1.0 - x) * n > 0.0;
    assert 0.0 <= x * n;
  }

  /** `[a[i], a[j]] = [a[j], a[i]]` on a value. */
  function Swap<T>(s: seq<T>, i: nat, j: nat): (r: seq<T>)
    requires i < |s| && j < |s|
  {
    s[i := s[j]][j := s[i]]
  }

  /** The loop from index `i` down to 1, applied to `s`. */
  function ShuffleFrom<T>(s: seq<T>, i: int, draws: seq<real>): seq<T>
    requires i < |s|
    requires RandomDraws(draws, |s|)
    decreases i
  {
    if i <= 0 then s
    else
      var j := SwapIndex(draws[|s| - 1 - i], i);
      SwapIndexInRange(draws[|s| - 1 - i], i);
      ShuffleFrom(Swap(s, i, j), i - 1, draws)
  }

  /** What `shuffle(arr)` returns for the given draws. */
  function Shuffled<T>(arr: seq<T>, draws: seq<real>): seq<T>
    requires RandomDraws(draws, |arr|)
  {
    ShuffleFrom(arr, |arr| - 1, draws)
  }

  lemma SwapPermutes<T>(s: seq<T>, i: nat, j: nat)
    requires i < |s| && j < |s|
    ensures |Swap(s, i, j)| == |s|
    ensures multiset(Swap(s, i, j)) == multiset(s)
  {
  }

  lemma {:induction false} ShuffleFromPermutes<T>(s: seq<T>, i: int, draws: seq<real>)
    requires i < |s|
    requires RandomDraws(draws, |s|)
    ensures |ShuffleFrom(s, i, draws)| == |s|
    ensures multiset(ShuffleFrom(s, i, draws)) == multiset(s)
    decreases i
  {
    if i > 0 {
      var j := SwapIndex(draws[|s| - 1 - i], i);
      SwapIndexInRange(draws[|s| - 1 - i], i);
      SwapPermutes(s, i, j);
      ShuffleFromPermutes(Swap(s, i, j), i - 1, draws);
    }
  }

  /** `shuffle` returns a permutation of its input: same length, same elements with
      the same multiplicities. */
  lemma ShuffledPermutes<T>(arr: seq<T>, draws: seq<real>)
    requires RandomDraws(draws, |arr|)
    ensures |Shuffled(arr, draws)| == |arr|
    ensures multiset(Shuffled(arr, draws)) == multiset(arr)
  {
    ShuffleFromPermutes(arr, |arr| - 1, draws);
  }

  /** No element occurs twice. */
  predicate Distinct<T(==)>(s: seq<T>) {
    forall i, j :: 0 <= i < j < |s| ==> s[i] != s[j]
  }

  lemma {:induction false} ShuffleFromKeepsDistinct<T>(s: seq<T>, i: int, draws: seq<real>)
    requires i < |s|
    requires RandomDraws(draws, |s|)
    requires Distinct(s)
    ensures Distinct(ShuffleFrom(s, i, draws))
    decreases i
  {
    if i > 0 {
      var j := SwapIndex(draws[|s| - 1 - i], i);
      SwapIndexInRange(draws[|s| - 1 - i], i);
      var t := Swap(s, i, j);
      forall a, b | 0 <= a < b < |t| ensures t[a] != t[b] {
        var pa := if a == i then j else if a == j then i else a;
        var pb := if b == i then j else if b == j then i else b;
        assert t[a] == s[pa] && t[b] == s[pb];
      }
      ShuffleFromKeepsDistinct(t, i - 1, draws);
    }
  }

  /** Shuffling a list without repeated ids yields a list without repeated ids. */
  lemma ShuffledKeepsDistinct<T>(arr: seq<T>, draws: seq<real>)
    requires RandomDraws(draws, |arr|)
    requires Distinct(arr)
    ensures Distinct(Shuffled(arr, draws))
  {
    ShuffleFromKeepsDistinct(arr, |arr| - 1, draws);
  }

  /** The source's loop: copy the input into a fresh array, then swap from the last
      index down to 1. The input, a value, is left as it was. */
  method Shuffle<T>(arr: seq<T>, draws: seq<real>) returns (r: seq<T>)
    requires RandomDraws(draws, |arr|)
    ensures r == Shuffled(arr, draws)
    ensures |r| == |arr| && multiset(r) == multiset(arr)
  {
    var a := new T[|arr|](k requires 0 <= k < |arr| => arr[k]);
    assert a[..] == arr;
    var i := a.Length - 1;
    while i > 0
      invariant -1 <= i < a.Length
      invariant i == -1 ==> a.Length == 0
      invariant ShuffleFrom(a[..], i, draws) == Shuffled(arr, draws)
    {
      var x := draws[a.Length - 1 - i];
      SwapIndexInRange(x, i);
      var j := SwapIndex(x, i);
      ghost var before := a[..];
      a[i], a[j] := a[j], a[i];
      assert a[..] == Swap(before, i, j);
      i := i - 1;
    }
    r := a[..];
    ShuffledPermutes(arr, draws);
  }
}
