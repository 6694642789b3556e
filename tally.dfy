/**
  Grouping a sequence by a key in one pass, the way the application fills a
  Python dict: a key is inserted the first time it is seen, so the dict's
  keys come out in order of first appearance. This module gives that key
  order and the per-key counts the dicts accumulate, and proves that the
  per-key counts add up to the overall count.
 */
module Tally {

  /** The keys of `xs` in order of first appearance, each once. */
  function Keys<T, K(==)>(xs: seq<T>, key: T -> K): (ks: seq<K>)
    ensures Distinct(ks)
    ensures forall i :: 0 <= i < |xs| ==> key(xs[i]) in ks
    ensures forall k :: k in ks ==> exists i :: 0 <= i < |xs| && key(xs[i]) == k
    decreases |xs|
  {
    if xs == [] then []
    else
      var prefix := xs[..|xs| - 1];
      var ks := Keys(prefix, key);
      var k := key(xs[|xs| - 1]);
      assert forall i :: 0 <= i < |prefix| ==> prefix[i] == xs[i];
      if k in ks then ks else ks + [k]
  }

  /** Position of the first element of `xs` with key `k`, or `|xs|` when
      there is none. */
  function FirstAt<T, K(==)>(xs: seq<T>, key: T -> K, k: K): (r: nat)
    ensures r <= |xs|
    ensures r < |xs| ==> key(xs[r]) == k
    ensures forall j :: 0 <= j < r ==> key(xs[j]) != k
    decreases |xs|
  {
    if xs == [] then 0
    else
      var prefix := xs[..|xs| - 1];
      var r := FirstAt(prefix, key, k);
      assert forall i :: 0 <= i < |prefix| ==> prefix[i] == xs[i];
      if r < |prefix| then r
      else if key(xs[|xs| - 1]) == k then |prefix|
      else |xs|
  }

  /** Of two keys in `ks`, the earlier one occurs first in `xs`, and each
      occurs somewhere. */
  predicate InFirstAppearanceOrder<T, K(==)>(xs: seq<T>, key: T -> K, ks: seq<K>) {
    forall a, b :: 0 <= a < b < |ks| ==> FirstAt(xs, key, ks[a]) < FirstAt(xs, key, ks[b]) < |xs|
  }

  /** `Keys` lists the keys in order of first appearance. */
  lemma {:induction false} KeysFirstAppearance<T, K>(xs: seq<T>, key: T -> K)
    ensures InFirstAppearanceOrder(xs, key, Keys(xs, key))
    decreases |xs|
  {
    if xs != [] {
      var prefix := xs[..|xs| - 1];
      var ks := Keys(prefix, key);
      KeysFirstAppearance(prefix, key);
      assert forall i :: 0 <= i < |prefix| ==> prefix[i] == xs[i];
      forall k | k in ks
        ensures FirstAt(xs, key, k) == FirstAt(prefix, key, k) < |prefix|
      {
        var i :| 0 <= i < |prefix| && key(prefix[i]) == k;
      }
      var k := key(xs[|xs| - 1]);
      var ks' := if k in ks then ks else ks + [k];
      assert Keys(xs, key) == ks';
      forall a, b | 0 <= a < b < |ks'|
        ensures FirstAt(xs, key, ks'[a]) < FirstAt(xs, key, ks'[b]) < |xs|
      {
        assert ks'[a] == ks[a] && ks[a] in ks;
        if b < |ks| {
          assert ks'[b] == ks[b] && ks[b] in ks;
          assert FirstAt(prefix, key, ks[a]) < FirstAt(prefix, key, ks[b]);
        } else {
          assert ks'[b] == k && k !in ks;
          assert FirstAt(xs, key, k) == |prefix|;
        }
      }
    }
  }

  predicate Distinct<K(==)>(ks: seq<K>) {
    forall a, b :: 0 <= a < b < |ks| ==> ks[a] != ks[b]
  }

  /** Position of `k` in `ks`, or `|ks|` when it is absent. */
  function IndexOf<K(==)>(ks: seq<K>, k: K): (r: nat)
    ensures r <= |ks|
    ensures r < |ks| <==> k in ks
    ensures r < |ks| ==> ks[r] == k
    ensures forall j :: 0 <= j < r ==> ks[j] != k
    decreases |ks|
  {
    if ks == [] then 0
    else if ks[0] == k then 0
    else 1 + IndexOf(ks[1..], k)
  }

  /** How many elements of `xs` have key `k` and satisfy `p`. */
  function CountKey<T, K(==)>(xs: seq<T>, key: T -> K, k: K, p: T -> bool): (n: nat)
    ensures n <= |xs|
    decreases |xs|
  {
    if xs == [] then 0
    else
      CountKey(xs[..|xs| - 1], key, k, p)
      + (if key(xs[|xs| - 1]) == k && p(xs[|xs| - 1]) then 1 else 0)
  }

  /** How many elements of `xs` satisfy `p`. */
  function CountWhere<T>(xs: seq<T>, p: T -> bool): (n: nat)
    ensures n <= |xs|
    decreases |xs|
  {
    if xs == [] then 0
    else CountWhere(xs[..|xs| - 1], p) + (if p(xs[|xs| - 1]) then 1 else 0)
  }

  lemma CountWhereSnoc<T>(xs: seq<T>, x: T, p: T -> bool)
    ensures CountWhere(xs + [x], p) == CountWhere(xs, p) + (if p(x) then 1 else 0)
  {
    assert (xs + [x])[..|xs|] == xs;
  }

  /** The count is positive exactly when some element satisfies `p`. */
  lemma {:induction false} CountWherePositive<T>(xs: seq<T>, p: T -> bool)
    ensures CountWhere(xs, p) > 0 <==> exists i :: 0 <= i < |xs| && p(xs[i])
    decreases |xs|
  {
    if xs != [] {
      var prefix := xs[..|xs| - 1];
      CountWherePositive(prefix, p);
      assert forall i :: 0 <= i < |prefix| ==> prefix[i] == xs[i];
      if CountWhere(prefix, p) == 0 && !p(xs[|xs| - 1]) {
        forall i | 0 <= i < |xs| ensures !p(xs[i]) {
          if i < |prefix| {
            assert !p(prefix[i]);
          }
        }
      }
    }
  }

  /** The sum, over the keys `ks`, of their counts in `xs`. */
  function SumCounts<T, K(==)>(ks: seq<K>, xs: seq<T>, key: T -> K, p: T -> bool): nat
    decreases |ks|
  {
    if ks == [] then 0
    else SumCounts(ks[..|ks| - 1], xs, key, p) + CountKey(xs, key, ks[|ks| - 1], p)
  }

  /** One more element adds one to its key's count when it satisfies `p`. */
  lemma CountKeySnoc<T, K>(xs: seq<T>, x: T, key: T -> K, k: K, p: T -> bool)
    ensures CountKey(xs + [x], key, k, p)
         == CountKey(xs, key, k, p) + (if key(x) == k && p(x) then 1 else 0)
  {
    assert (xs + [x])[..|xs|] == xs;
  }

  /** A key that never occurs has count zero. */
  lemma {:induction false} CountKeyAbsent<T, K>(xs: seq<T>, key: T -> K, k: K, p: T -> bool)
    requires forall i :: 0 <= i < |xs| ==> key(xs[i]) != k
    ensures CountKey(xs, key, k, p) == 0
    decreases |xs|
  {
    if xs != [] {
      var prefix := xs[..|xs| - 1];
      assert forall i :: 0 <= i < |prefix| ==> prefix[i] == xs[i];
      CountKeyAbsent(prefix, key, k, p);
    }
  }

  /** Adding one element to `xs` adds one to the sum exactly when the
      element is counted and its key is among the (distinct) keys. */
  lemma {:induction false} SumCountsSnoc<T, K>(ks: seq<K>, xs: seq<T>, key: T -> K, p: T -> bool)
    requires xs != [] && Distinct(ks)
    ensures SumCounts(ks, xs, key, p)
         == SumCounts(ks, xs[..|xs| - 1], key, p)
            + (if key(xs[|xs| - 1]) in ks && p(xs[|xs| - 1]) then 1 else 0)
    decreases |ks|
  {
    if ks != [] {
      var init := ks[..|ks| - 1];
      assert forall a, b :: 0 <= a < b < |init| ==> init[a] == ks[a] && init[b] == ks[b];
      SumCountsSnoc(init, xs, key, p);
      var k := key(xs[|xs| - 1]);
      assert k in ks <==> k in init || k == ks[|ks| - 1];
      assert k in init ==> k != ks[|ks| - 1];
    }
  }

  /** Conservation: the per-key counts of all the keys add up to the
      overall count. */
  lemma {:induction false} SumOfCounts<T, K>(xs: seq<T>, key: T -> K, p: T -> bool)
    ensures SumCounts(Keys(xs, key), xs, key, p) == CountWhere(xs, p)
    decreases |xs|
  {
    if xs != [] {
      var prefix := xs[..|xs| - 1];
      var x := xs[|xs| - 1];
      var ks := Keys(prefix, key);
      SumOfCounts(prefix, key, p);
      SumCountsSnoc(ks, xs, key, p);
      if key(x) !in ks {
        var ks' := ks + [key(x)];
        assert ks'[..|ks'| - 1] == ks;
        assert forall i :: 0 <= i < |prefix| ==> key(prefix[i]) != key(x);
        CountKeyAbsent(prefix, key, key(x), p);
      }
    }
  }
}
