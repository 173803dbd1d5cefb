/**
 * Order-preserving deduplication keeping the first element of each key.
 *
 * Used twice by the program: the `seen` loop that deduplicates candidate links
 * (main.py:56-60, key = the link itself) and the `drop_duplicates(subset=["URL"])`
 * of the result table (main.py:281, key = the row's URL, first row kept).
 */
module Dedup {

  /** Some element of `xs` has key `k`. */
  predicate HasKey<T, K(==)>(xs: seq<T>, key: T -> K, k: K) {
    exists i :: 0 <= i < |xs| && key(xs[i]) == k
  }

  /** No two elements of `xs` share a key. */
  predicate KeysDistinct<T, K(==)>(xs: seq<T>, key: T -> K) {
    forall i, j :: 0 <= i < j < |xs| ==> key(xs[i]) != key(xs[j])
  }

  /** `xs[j]` is the first element of `xs` carrying its key. */
  predicate IsFirst<T, K(==)>(xs: seq<T>, key: T -> K, j: int)
    requires 0 <= j < |xs|
  {
    !HasKey(xs[..j], key, key(xs[j]))
  }

  /**
   * Reference reading of "keep the first occurrence": the elements among the first
   * `n` of `xs` that are the first of their key, in their original order.
   */
  function Firsts<T, K(==)>(xs: seq<T>, key: T -> K, n: nat): (r: seq<T>)
    requires n <= |xs|
    ensures |r| <= n
  {
    if n == 0 then []
    else Firsts(xs, key, n - 1) + (if IsFirst(xs, key, n - 1) then [xs[n - 1]] else [])
  }

  /**
   * Walks `xs` from the front and keeps an element only when no kept element has its
   * key yet. The result has distinct keys, only elements of `xs`, and exactly the keys
   * of `xs`.
   */
  function DedupBy<T, K(==)>(xs: seq<T>, key: T -> K): (r: seq<T>)
    ensures |r| <= |xs|
    ensures KeysDistinct(r, key)
    ensures forall x :: x in r ==> x in xs
    ensures forall i :: 0 <= i < |xs| ==> HasKey(r, key, key(xs[i]))
  {
    if |xs| == 0 then []
    else
      var init, x := xs[..|xs| - 1], xs[|xs| - 1];
      var p := DedupBy(init, key);
      assert forall i :: 0 <= i < |xs| - 1 ==> xs[i] == init[i];
      if HasKey(p, key, key(x)) then p
      else
        assert forall i :: 0 <= i < |p| ==> key(p[i]) != key(x);
        assert forall i :: 0 <= i < |p| ==> (p + [x])[i] == p[i];
        assert forall i :: 0 <= i < |p| ==> HasKey(p + [x], key, key(p[i]));
        assert HasKey(p + [x], key, key(x)) by { assert (p + [x])[|p|] == x; }
        p + [x]
  }

  /** Deduplication keeps exactly the keys present in the input. */
  lemma DedupKeys<T, K>(xs: seq<T>, key: T -> K, k: K)
    ensures HasKey(DedupBy(xs, key), key, k) <==> HasKey(xs, key, k)
  {
    var r := DedupBy(xs, key);
    if HasKey(r, key, k) {
      var j :| 0 <= j < |r| && key(r[j]) == k;
      assert r[j] in xs;
      var i :| 0 <= i < |xs| && xs[i] == r[j];
    }
    if HasKey(xs, key, k) {
      var i :| 0 <= i < |xs| && key(xs[i]) == k;
    }
  }

  /** Deduplication is exactly the first-occurrence filter, in original order. */
  lemma {:induction false} DedupIsFirsts<T, K>(xs: seq<T>, key: T -> K)
    ensures DedupBy(xs, key) == Firsts(xs, key, |xs|)
  {
    DedupPrefixIsFirsts(xs, key, |xs|);
    assert xs[..|xs|] == xs;
  }

  lemma {:induction false} DedupPrefixIsFirsts<T, K>(xs: seq<T>, key: T -> K, n: nat)
    requires n <= |xs|
    ensures DedupBy(xs[..n], key) == Firsts(xs, key, n)
  {
    if n > 0 {
      DedupPrefixIsFirsts(xs, key, n - 1);
      var pre := xs[..n];
      assert pre[..|pre| - 1] == xs[..n - 1];
      assert pre[|pre| - 1] == xs[n - 1];
      var p := DedupBy(xs[..n - 1], key);
      DedupKeys(xs[..n - 1], key, key(xs[n - 1]));
    }
  }

  /** A sequence whose keys are already distinct is left unchanged. */
  lemma {:induction false} DedupOfDistinct<T, K>(xs: seq<T>, key: T -> K)
    requires KeysDistinct(xs, key)
    ensures DedupBy(xs, key) == xs
  {
    if |xs| > 0 {
      var init, x := xs[..|xs| - 1], xs[|xs| - 1];
      assert KeysDistinct(init, key);
      DedupOfDistinct(init, key);
      assert init + [x] == xs;
    }
  }

  /** Deduplicating twice is the same as deduplicating once. */
  lemma DedupIdempotent<T, K>(xs: seq<T>, key: T -> K)
    ensures DedupBy(DedupBy(xs, key), key) == DedupBy(xs, key)
  {
    DedupOfDistinct(DedupBy(xs, key), key);
  }
}
