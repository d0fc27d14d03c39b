/** The `Utils` helpers of memylon.js: shuffleArray, every, lerp and setDefaults. */
module Utils {

  /** No two positions of `s` hold the same value. */
  predicate Distinct<T(==)>(s: seq<T>) {
    forall i, j :: 0 <= i < j < |s| ==> s[i] != s[j]
  }

  /** `f` applied to every element of `s`, in order. */
  function MapSeq<T, U>(s: seq<T>, f: T -> U): (r: seq<U>)
    ensures |r| == |s| && forall i :: 0 <= i < |s| ==> r[i] == f(s[i])
  {
    seq(|s|, i requires 0 <= i < |s| => f(s[i]))
  }

  /** The positions 0, 1, ..., n - 1 in order. */
  function Iota(n: nat): (r: seq<int>)
    ensures |r| == n && forall i :: 0 <= i < n ==> r[i] == i
  {
    seq(n, i => i)
  }

  // ---------------------------------------------------------------------------
  // shuffleArray

  /** Every draw lies in [0, 1), which is what Math.random() returns. */
  predicate UnitDraws(draws: seq<real>) {
    forall j :: 0 <= j < |draws| ==> 0.0 <= draws[j] < 1.0
  }

  /** r * i, written as i additions of r so that the solver only sees linear
      arithmetic; ScaledIsProduct shows it is the product. */
  function Scaled(r: real, i: nat): (x: real)
    ensures 0.0 <= r ==> 0.0 <= x
    ensures 0.0 <= r < 1.0 && i > 0 ==> x < i as real
  {
    if i == 0 then 0.0 else Scaled(r, i - 1) + r
  }

  lemma {:induction false} ScaledIsProduct(r: real, i: nat)
    ensures Scaled(r, i) == r * i as real
  {
    if i > 0 {
      ScaledIsProduct(r, i - 1);
      assert r * i as real == r * (i - 1) as real + r;
    }
  }

  /** The index picked on the iteration for position `i` from the draw `r`:
      Math.floor(r * i). It is below `i`, and 0 when `i` is 0, so the
      position itself is never picked once `i` >= 1. */
  function DrawIndex(r: real, i: nat): (k: int)
    requires 0.0 <= r < 1.0
    ensures 0 <= k
    ensures if i == 0 then k == 0 else k < i
  {
    Scaled(r, i).Floor
  }

  /** The drawn index is Math.floor(r * i). */
  lemma DrawIndexIsFloor(r: real, i: nat)
    requires 0.0 <= r < 1.0
    ensures DrawIndex(r, i) == (r * i as real).Floor
  {
    ScaledIsProduct(r, i);
  }

  /** One iteration of the loop: the value at `i` moves to `k` and the value
      at `k` moves to `i` (nothing moves when `k == i`). */
  function Swap<T>(s: seq<T>, i: nat, k: nat): (r: seq<T>)
    requires i < |s| && k < |s|
    ensures |r| == |s| && r[i] == s[k] && r[k] == s[i]
    ensures forall j :: 0 <= j < |s| && j != i && j != k ==> r[j] == s[j]
  {
    s[k := s[i]][i := s[k]]
  }

  /** The array after the loop of shuffleArray has visited positions
      0 .. n - 1, position `j` having been swapped with the index drawn
      from `draws[j]`. */
  function Shuffled<T>(s: seq<T>, draws: seq<real>, n: nat): (r: seq<T>)
    requires n <= |s| == |draws| && UnitDraws(draws)
    ensures |r| == |s|
  {
    if n == 0 then s
    else Swap(Shuffled(s, draws, n - 1), n - 1, DrawIndex(draws[n - 1], n - 1))
  }

  /** shuffleArray: visits every index in increasing order and swaps it with
      the index Math.floor(random * i); the draws are supplied by the caller. */
  method ShuffleArray<T>(arr: array<T>, draws: seq<real>)
    requires |draws| == arr.Length && UnitDraws(draws)
    modifies arr
    ensures arr[..] == Shuffled(old(arr[..]), draws, arr.Length)
    ensures multiset(arr[..]) == multiset(old(arr[..]))
  {
    ghost var orig := arr[..];
    var i := 0;
    while i < arr.Length
      invariant 0 <= i <= arr.Length
      invariant arr[..] == Shuffled(orig, draws, i)
    {
      var k := DrawIndex(draws[i], i);
      ghost var before := arr[..];
      var val := arr[k];
      arr[k] := arr[i];
      arr[i] := val;
      assert arr[..] == Swap(before, i, k);
      i := i + 1;
    }
    ShuffledPermutation(orig, draws, arr.Length);
  }

  /** One iteration only moves values around. */
  lemma SwapPermutes<T>(s: seq<T>, i: nat, k: nat)
    requires i < |s| && k < |s|
    ensures multiset(Swap(s, i, k)) == multiset(s)
  {
    var mid := s[k := s[i]];
    assert multiset(mid) == multiset(s) - multiset{s[k]} + multiset{s[i]};
    assert mid[i] == s[i];
    assert multiset(mid[i := s[k]]) == multiset(mid) - multiset{s[i]} + multiset{s[k]};
    assert s[k] in multiset(s);
  }

  /** Whatever the draws, the shuffled array is a permutation of the input. */
  lemma {:induction false} ShuffledPermutation<T>(s: seq<T>, draws: seq<real>, n: nat)
    requires n <= |s| == |draws| && UnitDraws(draws)
    ensures multiset(Shuffled(s, draws, n)) == multiset(s)
  {
    if n > 0 {
      var prev := Shuffled(s, draws, n - 1);
      var k := DrawIndex(draws[n - 1], n - 1);
      calc {
        multiset(Shuffled(s, draws, n));
        multiset(Swap(prev, n - 1, k));
        { SwapPermutes(prev, n - 1, k); }
        multiset(prev);
        { ShuffledPermutation(s, draws, n - 1); }
        multiset(s);
      }
    }
  }

  /** A shuffle of pairwise different values still holds pairwise different
      values. */
  lemma {:induction false} ShuffledDistinct<T>(s: seq<T>, draws: seq<real>, n: nat)
    requires n <= |s| == |draws| && UnitDraws(draws) && Distinct(s)
    ensures Distinct(Shuffled(s, draws, n))
  {
    if n > 0 {
      ShuffledDistinct(s, draws, n - 1);
      var prev := Shuffled(s, draws, n - 1);
      var k := DrawIndex(draws[n - 1], n - 1);
      var r := Swap(prev, n - 1, k);
      forall a, b | 0 <= a < b < |r|
        ensures r[a] != r[b]
      {
        var a' := if a == n - 1 then k else if a == k then n - 1 else a;
        var b' := if b == n - 1 then k else if b == k then n - 1 else b;
        assert r[a] == prev[a'] && r[b] == prev[b'] && a' != b';
      }
    }
  }

  /** Shuffling commutes with projecting the elements: the shuffle only moves
      values, it never looks at them. */
  lemma {:induction false} ShuffledMap<T, U>(s: seq<T>, f: T -> U, draws: seq<real>, n: nat)
    requires n <= |s| == |draws| && UnitDraws(draws)
    ensures Shuffled(MapSeq(s, f), draws, n) == MapSeq(Shuffled(s, draws, n), f)
  {
    if n > 0 {
      ShuffledMap(s, f, draws, n - 1);
    }
  }

  /** The first two iterations always exchange positions 0 and 1: the draw
      for position 0 picks 0 and the draw for position 1 picks 0. */
  lemma ShuffledFirstTwo(draws: seq<real>)
    requires 2 <= |draws| && UnitDraws(draws)
    ensures Shuffled(Iota(|draws|), draws, 2) == Swap(Iota(|draws|), 1, 0)
  {
    var s := Iota(|draws|);
    assert DrawIndex(draws[0], 0) == 0;
    assert Shuffled(s, draws, 1) == Swap(s, 0, 0) == s;
    assert DrawIndex(draws[1], 1) == 0;
  }

  /** On the index sequence, after the iterations for positions 0 .. n - 1
      (n >= 2) none of those positions holds its own index and all of them
      hold an index below n; the later positions are untouched. */
  lemma {:induction false} ShuffledIndicesMove(draws: seq<real>, n: nat)
    requires 2 <= n <= |draws| && UnitDraws(draws)
    ensures forall j :: 0 <= j < n ==>
      Shuffled(Iota(|draws|), draws, n)[j] != j && 0 <= Shuffled(Iota(|draws|), draws, n)[j] < n
    ensures forall j :: n <= j < |draws| ==> Shuffled(Iota(|draws|), draws, n)[j] == j
  {
    var s := Iota(|draws|);
    var p := Shuffled(s, draws, n);
    if n == 2 {
      ShuffledFirstTwo(draws);
      assert p == Swap(s, 1, 0);
    } else {
      ShuffledIndicesMove(draws, n - 1);
      var prev := Shuffled(s, draws, n - 1);
      var k := DrawIndex(draws[n - 1], n - 1);
      assert k < n - 1;
      assert p == Swap(prev, n - 1, k);
      forall j | n <= j < |draws|
        ensures p[j] == j
      {
        assert p[j] == prev[j];
      }
      forall j | 0 <= j < n
        ensures p[j] != j && 0 <= p[j] < n
      {
        if j == n - 1 {
          assert p[j] == prev[k];
        } else if j == k {
          assert p[j] == prev[n - 1] == n - 1;
        } else {
          assert p[j] == prev[j];
        }
      }
    }
  }

  /** As written, shuffleArray never leaves an element where it was: for two
      or more pairwise different values, every position ends up holding a
      value that came from another position. */
  lemma ShuffleMovesEveryElement<T>(s: seq<T>, draws: seq<real>)
    requires 2 <= |s| == |draws| && UnitDraws(draws) && Distinct(s)
    ensures forall j :: 0 <= j < |s| ==> Shuffled(s, draws, |s|)[j] != s[j]
  {
    var f := (i: int) => if 0 <= i < |s| then s[i] else s[0];
    var ids := Iota(|s|);
    assert MapSeq(ids, f) == s;
    ShuffledMap(ids, f, draws, |s|);
    ShuffledIndicesMove(draws, |s|);
  }

  // ---------------------------------------------------------------------------
  // every

  /** every: true exactly when `test` holds of every element; it stops at the
      first element that fails. */
  method Every<T>(arr: seq<T>, test: T -> bool) returns (all: bool)
    ensures all <==> forall i :: 0 <= i < |arr| ==> test(arr[i])
  {
    var i := 0;
    while i < |arr|
      invariant 0 <= i <= |arr|
      invariant forall j :: 0 <= j < i ==> test(arr[j])
    {
      if !test(arr[i]) {
        return false;
      }
      i := i + 1;
    }
    return true;
  }

  // ---------------------------------------------------------------------------
  // lerp

  /** lerp: linear interpolation from `a` (at t = 0) to `b` (at t = 1). */
  function Lerp(a: real, b: real, t: real): (r: real)
    ensures t == 0.0 ==> r == a
    ensures t == 1.0 ==> r == b
    ensures a == b ==> r == a
  {
    a + t * (b - a)
  }

  // ---------------------------------------------------------------------------
  // setDefaults

  /** The object `params` once every key of `defaults` it lacks has been
      filled with the default; keys it already has keep their values. */
  function WithDefaults<K, V>(params: map<K, V>, defaults: map<K, V>): (r: map<K, V>)
    ensures r.Keys == params.Keys + defaults.Keys
    ensures forall k :: k in params ==> r[k] == params[k]
    ensures forall k :: k in defaults && k !in params ==> r[k] == defaults[k]
  {
    map k | k in params.Keys + defaults.Keys :: if k in params then params[k] else defaults[k]
  }

  /** setDefaults: walks the keys of `defaults` and writes each one whose
      value in `params` is undefined. An absent key stands for undefined. */
  method SetDefaults<K, V>(params: map<K, V>, defaults: map<K, V>) returns (filled: map<K, V>)
    ensures filled == WithDefaults(params, defaults)
  {
    filled := params;
    var todo := defaults.Keys;
    while todo != {}
      invariant todo <= defaults.Keys
      invariant filled.Keys == params.Keys + (defaults.Keys - todo)
      invariant forall k :: k in filled ==> filled[k] == WithDefaults(params, defaults)[k]
      decreases todo
    {
      var k :| k in todo;
      if k !in filled {
        filled := filled[k := defaults[k]];
      }
      todo := todo - {k};
    }
  }

  /** Filling twice with the same defaults changes nothing the first fill did
      not: the fill is idempotent. */
  lemma WithDefaultsIdempotent<K, V>(params: map<K, V>, defaults: map<K, V>)
    ensures WithDefaults(WithDefaults(params, defaults), defaults) == WithDefaults(params, defaults)
  {
  }
}
