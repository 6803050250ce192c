/**
 * The de-duplication idiom that ends `extractConversationData`:
 *
 *   xs.filter((x, index, self) => index === self.findIndex(y => key(y) === key(x)))
 *
 * which keeps an element exactly when it is the first one carrying its key.
 * Keys are compared with `==`, standing for the strict equality `===`.
 */
module Dedup {

  /** `xs.findIndex(y => key(y) === k)`: the first index whose element has key `k`, or -1. */
  function FindIndex<T, K(==)>(xs: seq<T>, key: T -> K, k: K): (r: int)
    ensures -1 <= r < |xs|
    ensures r >= 0 ==> key(xs[r]) == k
    ensures forall i :: 0 <= i < |xs| && (r == -1 || i < r) ==> key(xs[i]) != k
  {
    if xs == [] then -1
    else if key(xs[0]) == k then 0
    else
      var r := FindIndex(xs[1..], key, k);
      if r == -1 then -1 else r + 1
  }

  /** Element `i` is the first one carrying its key. */
  predicate IsFirst<T, K(==)>(xs: seq<T>, key: T -> K, i: int)
    requires 0 <= i < |xs|
  {
    FindIndex(xs, key, key(xs[i])) == i
  }

  /** The `filter` callback run over the first `n` elements of `xs`. */
  function FilterFirst<T, K(==)>(xs: seq<T>, key: T -> K, n: nat): seq<T>
    requires n <= |xs|
  {
    if n == 0 then []
    else FilterFirst(xs, key, n - 1) + (if IsFirst(xs, key, n - 1) then [xs[n - 1]] else [])
  }

  /** The de-duplicated list. */
  function Dedup<T, K(==)>(xs: seq<T>, key: T -> K): seq<T> {
    FilterFirst(xs, key, |xs|)
  }

  /** The indices among the first `n` whose element is the first one carrying its key, in order. */
  function FirstIndices<T, K(==)>(xs: seq<T>, key: T -> K, n: nat): seq<int>
    requires n <= |xs|
  {
    if n == 0 then []
    else FirstIndices(xs, key, n - 1) + (if IsFirst(xs, key, n - 1) then [n - 1] else [])
  }

  /** `n` copies of `xs` one after the other. */
  function Repeat<T>(xs: seq<T>, n: nat): seq<T> {
    if n == 0 then [] else Repeat(xs, n - 1) + xs
  }

  /** The keys the elements of `xs` carry. */
  function Keys<T, K>(xs: seq<T>, key: T -> K): set<K> {
    set i | 0 <= i < |xs| :: key(xs[i])
  }

  // ---------------------------------------------------------------------
  // The filter keeps exactly the first occurrences, in order

  /**
   * The indices of the first occurrences among the first `n` elements, in
   * increasing order: an index below `n` is listed exactly when its element
   * is the first one carrying its key.
   */
  lemma {:induction false} FirstIndicesSorted<T, K>(xs: seq<T>, key: T -> K, n: nat)
    requires n <= |xs|
    ensures forall m :: 0 <= m < |FirstIndices(xs, key, n)| ==> 0 <= FirstIndices(xs, key, n)[m] < n
    ensures forall a, b :: 0 <= a < b < |FirstIndices(xs, key, n)| ==>
      FirstIndices(xs, key, n)[a] < FirstIndices(xs, key, n)[b]
    ensures forall i :: 0 <= i < n ==> (i in FirstIndices(xs, key, n) <==> IsFirst(xs, key, i))
  {
    if n > 0 {
      FirstIndicesSorted(xs, key, n - 1);
      var ix := FirstIndices(xs, key, n - 1);
      if IsFirst(xs, key, n - 1) {
        assert FirstIndices(xs, key, n) == ix + [n - 1];
      } else {
        assert FirstIndices(xs, key, n) == ix;
      }
    }
  }

  /**
   * The filtered prefix is the subsequence of `xs` at the indices of the
   * first occurrences of their keys.
   */
  lemma {:induction false} FilterFirstIsSubsequence<T, K>(xs: seq<T>, key: T -> K, n: nat)
    requires n <= |xs|
    ensures |FilterFirst(xs, key, n)| == |FirstIndices(xs, key, n)|
    ensures forall m :: 0 <= m < |FirstIndices(xs, key, n)| ==>
      0 <= FirstIndices(xs, key, n)[m] < n && FilterFirst(xs, key, n)[m] == xs[FirstIndices(xs, key, n)[m]]
  {
    if n > 0 {
      FilterFirstIsSubsequence(xs, key, n - 1);
      var f, ix := FilterFirst(xs, key, n - 1), FirstIndices(xs, key, n - 1);
      if IsFirst(xs, key, n - 1) {
        assert FilterFirst(xs, key, n) == f + [xs[n - 1]];
        assert FirstIndices(xs, key, n) == ix + [n - 1];
      } else {
        assert FilterFirst(xs, key, n) == f;
        assert FirstIndices(xs, key, n) == ix;
      }
    }
  }

  /** No two entries of the de-duplicated list carry the same key. */
  lemma DedupNoDuplicateKeys<T, K>(xs: seq<T>, key: T -> K)
    ensures forall a, b :: 0 <= a < b < |Dedup(xs, key)| ==> key(Dedup(xs, key)[a]) != key(Dedup(xs, key)[b])
  {
    var r, ix := Dedup(xs, key), FirstIndices(xs, key, |xs|);
    FilterFirstIsSubsequence(xs, key, |xs|);
    FirstIndicesSorted(xs, key, |xs|);
    forall a, b | 0 <= a < b < |r| ensures key(r[a]) != key(r[b]) {
      var i, j := ix[a], ix[b];
      assert i < j && IsFirst(xs, key, i) && IsFirst(xs, key, j);
      if key(xs[i]) == key(xs[j]) {
        assert false;
      }
    }
  }

  /** Every key of the input survives, on the element that carried it first. */
  lemma DedupKeepsFirstOccurrences<T, K>(xs: seq<T>, key: T -> K)
    ensures forall i :: 0 <= i < |xs| ==> xs[FindIndex(xs, key, key(xs[i]))] in Dedup(xs, key)
    ensures forall x :: x in Dedup(xs, key) ==> x in xs
  {
    var r, ix := Dedup(xs, key), FirstIndices(xs, key, |xs|);
    FilterFirstIsSubsequence(xs, key, |xs|);
    FirstIndicesSorted(xs, key, |xs|);
    forall i | 0 <= i < |xs| ensures xs[FindIndex(xs, key, key(xs[i]))] in r {
      var f := FindIndex(xs, key, key(xs[i]));
      assert 0 <= f && key(xs[f]) == key(xs[i]);
      assert IsFirst(xs, key, f);
      var m :| 0 <= m < |ix| && ix[m] == f;
      assert r[m] == xs[f];
    }
    forall x | x in r ensures x in xs {
      var m :| 0 <= m < |r| && r[m] == x;
      assert xs[ix[m]] == x;
    }
  }

  // ---------------------------------------------------------------------
  // Repeated copies collapse

  /** Appending elements whose keys already occur does not change where a key first occurs. */
  lemma FindIndexAppend<T, K>(xs: seq<T>, ys: seq<T>, key: T -> K, k: K)
    requires FindIndex(xs, key, k) >= 0
    ensures FindIndex(xs + ys, key, k) == FindIndex(xs, key, k)
  {
    var r := FindIndex(xs, key, k);
    assert (xs + ys)[r] == xs[r];
  }

  /** On the positions of `xs`, filtering `xs + ys` agrees with filtering `xs`. */
  lemma {:induction false} FilterFirstAppendPrefix<T, K>(xs: seq<T>, ys: seq<T>, key: T -> K, n: nat)
    requires n <= |xs|
    ensures FilterFirst(xs + ys, key, n) == FilterFirst(xs, key, n)
  {
    if n > 0 {
      var zs := xs + ys;
      FilterFirstAppendPrefix(xs, ys, key, n - 1);
      assert zs[n - 1] == xs[n - 1];
      assert FindIndex(xs, key, key(xs[n - 1])) >= 0;
      FindIndexAppend(xs, ys, key, key(xs[n - 1]));
      assert IsFirst(zs, key, n - 1) == IsFirst(xs, key, n - 1);
      assert FilterFirst(zs, key, n) ==
        FilterFirst(zs, key, n - 1) + (if IsFirst(zs, key, n - 1) then [zs[n - 1]] else []);
    }
  }

  /** Elements after `xs` whose keys already occur in `xs` are all filtered out. */
  lemma {:induction false} FilterFirstCoveredTail<T, K>(xs: seq<T>, ys: seq<T>, key: T -> K, n: nat)
    requires |xs| <= n <= |xs| + |ys|
    requires forall j :: 0 <= j < |ys| ==> key(ys[j]) in Keys(xs, key)
    ensures FilterFirst(xs + ys, key, n) == FilterFirst(xs + ys, key, |xs|)
  {
    if n > |xs| {
      FilterFirstCoveredTail(xs, ys, key, n - 1);
      var k := key((xs + ys)[n - 1]);
      assert (xs + ys)[n - 1] == ys[n - 1 - |xs|];
      var i :| 0 <= i < |xs| && key(xs[i]) == k;
      assert (xs + ys)[i] == xs[i];
      assert !IsFirst(xs + ys, key, n - 1);
    }
  }

  /** De-duplicating `xs + ys` gives the de-duplicated `xs` when every key of `ys` already occurs in `xs`. */
  lemma DedupAppendCovered<T, K>(xs: seq<T>, ys: seq<T>, key: T -> K)
    requires forall j :: 0 <= j < |ys| ==> key(ys[j]) in Keys(xs, key)
    ensures Dedup(xs + ys, key) == Dedup(xs, key)
  {
    FilterFirstCoveredTail(xs, ys, key, |xs| + |ys|);
    FilterFirstAppendPrefix(xs, ys, key, |xs|);
  }

  /** One or more copies of `xs` start with `xs`. */
  lemma {:induction false} RepeatStartsWith<T>(xs: seq<T>, n: nat)
    requires n >= 1
    ensures xs <= Repeat(xs, n)
  {
    if n > 1 {
      RepeatStartsWith(xs, n - 1);
    } else {
      assert Repeat(xs, 1) == [] + xs;
    }
  }

  /** De-duplicating `n >= 1` copies of a list gives the same result as de-duplicating it once. */
  lemma {:induction false} DedupRepeat<T, K>(xs: seq<T>, key: T -> K, n: nat)
    requires n >= 1
    ensures Dedup(Repeat(xs, n), key) == Dedup(xs, key)
  {
    if n == 1 {
      assert Repeat(xs, 1) == xs;
    } else {
      var prev := Repeat(xs, n - 1);
      RepeatStartsWith(xs, n - 1);
      forall j | 0 <= j < |xs| ensures key(xs[j]) in Keys(prev, key) {
        assert prev[j] == xs[j];
      }
      DedupAppendCovered(prev, xs, key);
      DedupRepeat(xs, key, n - 1);
    }
  }
}
