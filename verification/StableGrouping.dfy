/**
 * Stable grouping of a list by key: the specification both collectors refine.
 * Groups come in the order in which their keys first appear, and each group
 * keeps the order of the list.
 */
module StableGrouping {

  /** The keys in the order of their first appearance. */
  function Keys<K(==), V>(items: seq<(K, V)>): seq<K> {
    if items == [] then []
    else
      var n := |items| - 1;
      var keys := Keys(items[..n]);
      if items[n].0 in keys then keys else keys + [items[n].0]
  }

  /** The values with key k, in order. */
  function Group<K(==), V>(items: seq<(K, V)>, k: K): seq<V> {
    if items == [] then []
    else
      var n := |items| - 1;
      Group(items[..n], k) + if items[n].0 == k then [items[n].1] else []
  }

  function Values<K, V>(items: seq<(K, V)>): seq<V> {
    seq(|items|, i requires 0 <= i < |items| => items[i].1)
  }

  /** What adding one item does to keys and groups. */
  lemma AppendItem<K, V>(items: seq<(K, V)>, k: K, v: V)
    ensures Keys(items + [(k, v)]) == if k in Keys(items) then Keys(items) else Keys(items) + [k]
    ensures forall j :: Group(items + [(k, v)], j) == Group(items, j) + if j == k then [v] else []
  {
    assert (items + [(k, v)])[..|items|] == items;
  }

  /** Exactly the keys that occur are listed. */
  lemma {:induction false} KeysAreThoseThatOccur<K, V>(items: seq<(K, V)>, k: K)
    ensures k in Keys(items) <==> exists i :: 0 <= i < |items| && items[i].0 == k
  {
    if items != [] {
      var n := |items| - 1;
      KeysAreThoseThatOccur(items[..n], k);
      assert forall i :: 0 <= i < n ==> items[..n][i] == items[i];
      if i :| 0 <= i < |items| && items[i].0 == k {
        assert i == n || items[..n][i].0 == k;
      }
    }
  }

  lemma {:induction false} KeysDistinct<K, V>(items: seq<(K, V)>)
    ensures forall a, b :: 0 <= a < b < |Keys(items)| ==> Keys(items)[a] != Keys(items)[b]
  {
    if items != [] {
      KeysDistinct(items[..|items| - 1]);
    }
  }

  /** A group is empty exactly when its key is not listed. */
  lemma {:induction false} GroupNonempty<K, V>(items: seq<(K, V)>, k: K)
    ensures Group(items, k) != [] <==> k in Keys(items)
  {
    if items != [] {
      GroupNonempty(items[..|items| - 1], k);
    }
  }

  // ---------- Stability ----------

  ghost predicate Increasing(s: seq<nat>) {
    forall a, b :: 0 <= a < b < |s| ==> s[a] < s[b]
  }

  /** idx lists, in order, all positions of key k, and g the values found there. */
  ghost predicate PickedAt<K(!new), V(!new)>(items: seq<(K, V)>, k: K, idx: seq<nat>, g: seq<V>) {
    && Increasing(idx)
    && |g| == |idx|
    && (forall a :: 0 <= a < |idx| ==> idx[a] < |items| && items[idx[a]] == (k, g[a]))
    && (forall i :: 0 <= i < |items| && items[i].0 == k ==> i in idx)
  }

  lemma PickSame<K(!new), V(!new)>(items: seq<(K, V)>, k: K, idx: seq<nat>, g: seq<V>, v: V)
    requires PickedAt(items, k, idx, g)
    ensures PickedAt(items + [(k, v)], k, idx + [|items|], g + [v])
  {
    var idx' := idx + [|items|];
    forall i | 0 <= i <= |items| && (items + [(k, v)])[i].0 == k ensures i in idx' {
      assert i == |items| ==> idx'[|idx|] == i;
      assert i < |items| ==> i in idx;
    }
  }

  lemma PickOther<K(!new), V(!new)>(items: seq<(K, V)>, k: K, idx: seq<nat>, g: seq<V>, j: K, v: V)
    requires PickedAt(items, k, idx, g) && j != k
    ensures PickedAt(items + [(j, v)], k, idx, g)
  {
    forall i | 0 <= i <= |items| && (items + [(j, v)])[i].0 == k ensures i in idx {
      assert items[i].0 == k;
    }
  }

  /** Each group is exactly the in-order subsequence of the values with its key. */
  lemma {:induction false} GroupIsSubsequence<K(!new), V(!new)>(items: seq<(K, V)>, k: K) returns (idx: seq<nat>)
    ensures PickedAt(items, k, idx, Group(items, k))
  {
    idx := [];
    if items != [] {
      var init, j, v := items[..|items| - 1], items[|items| - 1].0, items[|items| - 1].1;
      assert items == init + [(j, v)];
      idx := GroupIsSubsequence(init, k);
      if j == k {
        PickSame(init, k, idx, Group(init, k), v);
        idx := idx + [|init|];
      } else {
        PickOther(init, k, idx, Group(init, k), j, v);
        assert Group(items, k) == Group(init, k);
      }
    }
  }

  /** The position at which k first appears. */
  function FirstIndex<K(==), V>(items: seq<(K, V)>, k: K): (i: nat)
    requires k in Keys(items)
    ensures i < |items| && items[i].0 == k
    ensures forall j :: 0 <= j < i ==> items[j].0 != k
  {
    var n := |items| - 1;
    if k in Keys(items[..n]) then
      var i := FirstIndex(items[..n], k);
      assert items[i] == items[..n][i];
      assert forall j :: 0 <= j < i ==> items[j] == items[..n][j];
      i
    else
      assert forall j :: 0 <= j < n ==> items[j].0 != k by {
        KeysAreThoseThatOccur(items[..n], k);
        assert forall j :: 0 <= j < n ==> items[..n][j] == items[j];
      }
      n
  }

  /** Groups come in the order in which their keys first appear. */
  lemma {:induction false} KeysInFirstAppearanceOrder<K, V>(items: seq<(K, V)>, a: nat, b: nat)
    requires a < b < |Keys(items)|
    ensures FirstIndex(items, Keys(items)[a]) < FirstIndex(items, Keys(items)[b])
  {
    var n := |items| - 1;
    var init := Keys(items[..n]);
    if b < |init| {
      KeysInFirstAppearanceOrder(items[..n], a, b);
    } else {
      KeysDistinct(items);
    }
  }

  ghost predicate OrderedByAppearance<K(!new), V(!new)>(items: seq<(K, V)>, keys: seq<K>) {
    && (forall k :: k in keys ==> k in Keys(items))
    && (forall a, b :: 0 <= a < b < |keys| ==> FirstIndex(items, keys[a]) < FirstIndex(items, keys[b]))
  }

  lemma LastIsLatest<K(!new), V(!new)>(items: seq<(K, V)>, keys: seq<K>, k: K)
    requires OrderedByAppearance(items, keys) && k in keys
    ensures FirstIndex(items, k) <= FirstIndex(items, keys[|keys| - 1])
  {
  }

  lemma WithoutLast<K(!new), V(!new)>(items: seq<(K, V)>, keys: seq<K>)
    requires OrderedByAppearance(items, keys) && keys != []
    ensures OrderedByAppearance(items, keys[..|keys| - 1])
    ensures forall k :: k in keys[..|keys| - 1] <==> k in keys && k != keys[|keys| - 1]
  {
    var n := |keys| - 1;
    forall k | k in keys[..n] ensures k in keys && k != keys[n] {
      var a :| 0 <= a < n && keys[a] == k;
      assert FirstIndex(items, keys[a]) < FirstIndex(items, keys[n]);
    }
    assert keys == keys[..n] + [keys[n]];
  }

  lemma SameLast<K(!new), V(!new)>(items: seq<(K, V)>, a: seq<K>, b: seq<K>)
    requires OrderedByAppearance(items, a) && OrderedByAppearance(items, b)
    requires a != [] && b != [] && forall k :: k in a <==> k in b
    ensures a[|a| - 1] == b[|b| - 1]
  {
    var x, y := a[|a| - 1], b[|b| - 1];
    assert x in a && y in b;
    LastIsLatest(items, a, y);
    LastIsLatest(items, b, x);
  }

  lemma SameEmptiness<K>(a: seq<K>, b: seq<K>)
    requires forall k :: k in a <==> k in b
    ensures a == [] <==> b == []
  {
    if a != [] {
      assert a[0] in b;
    }
    if b != [] {
      assert b[0] in a;
    }
  }

  /** Any listing of the occurring keys in first-appearance order is the same listing. */
  lemma {:induction false} FirstAppearanceOrderUnique<K(!new), V(!new)>(items: seq<(K, V)>, a: seq<K>, b: seq<K>)
    requires OrderedByAppearance(items, a) && OrderedByAppearance(items, b)
    requires forall k :: k in a <==> k in b
    ensures a == b
    decreases |a|
  {
    SameEmptiness(a, b);
    if a != [] {
      SameLast(items, a, b);
      WithoutLast(items, a);
      WithoutLast(items, b);
      var a', b' := a[..|a| - 1], b[..|b| - 1];
      forall k ensures k in a' <==> k in b' {
        assert k in a' <==> k in a && k != a[|a| - 1];
        assert k in b' <==> k in b && k != b[|b| - 1];
      }
      FirstAppearanceOrderUnique(items, a', b');
      assert a == a' + [a[|a| - 1]] && b == b' + [b[|b| - 1]];
    }
  }

  // ---------- Conservation ----------

  /** The groups of the listed keys, one after the other. */
  function Concatenated<K(==), V>(items: seq<(K, V)>, keys: seq<K>): seq<V> {
    if keys == [] then []
    else Concatenated(items, keys[..|keys| - 1]) + Group(items, keys[|keys| - 1])
  }

  /** How one more item changes the bag of values under the given keys. */
  function Added<K(==), V>(keys: seq<K>, k: K, v: V): multiset<V> {
    if k in keys then multiset{v} else multiset{}
  }

  lemma AddedLast<K, V>(keys: seq<K>, last: K, k: K, v: V)
    requires last !in keys
    ensures Added(keys + [last], k, v) == Added(keys, k, v) + if k == last then multiset{v} else multiset{}
  {
  }

  lemma {:induction false} ConcatenatedAppend<K, V>(items: seq<(K, V)>, keys: seq<K>, k: K, v: V)
    requires forall a, b :: 0 <= a < b < |keys| ==> keys[a] != keys[b]
    ensures multiset(Concatenated(items + [(k, v)], keys)) == multiset(Concatenated(items, keys)) + Added(keys, k, v)
  {
    if keys != [] {
      var init, last := keys[..|keys| - 1], keys[|keys| - 1];
      assert keys == init + [last];
      ConcatenatedAppend(items, init, k, v);
      AppendItem(items, k, v);
      AddedLast(init, last, k, v);
    }
  }

  lemma ConcatenatedNewKey<K, V>(items: seq<(K, V)>, keys: seq<K>, k: K)
    ensures Concatenated(items, keys + [k]) == Concatenated(items, keys) + Group(items, k)
  {
    assert (keys + [k])[..|keys|] == keys;
  }

  lemma PartitionNewKey<K, V>(init: seq<(K, V)>, k: K, v: V)
    requires k !in Keys(init)
    ensures var items := init + [(k, v)];
      Concatenated(items, Keys(items)) == Concatenated(items, Keys(init)) + [v]
  {
    var items := init + [(k, v)];
    AppendItem(init, k, v);
    GroupNonempty(init, k);
    ConcatenatedNewKey(items, Keys(init), k);
  }

  lemma PartitionStep<K, V>(init: seq<(K, V)>, k: K, v: V)
    ensures var items := init + [(k, v)];
      multiset(Concatenated(items, Keys(items))) == multiset(Concatenated(init, Keys(init))) + multiset{v}
  {
    KeysDistinct(init);
    AppendItem(init, k, v);
    ConcatenatedAppend(init, Keys(init), k, v);
    if k !in Keys(init) {
      PartitionNewKey(init, k, v);
    }
  }

  lemma ValuesAppend<K, V>(items: seq<(K, V)>, k: K, v: V)
    ensures multiset(Values(items + [(k, v)])) == multiset(Values(items)) + multiset{v}
  {
    assert Values(items + [(k, v)]) == Values(items) + [v];
  }

  ghost predicate Partitioned<K, V>(items: seq<(K, V)>) {
    multiset(Concatenated(items, Keys(items))) == multiset(Values(items))
  }

  lemma PartitionedAppend<K, V>(init: seq<(K, V)>, k: K, v: V)
    requires Partitioned(init)
    ensures Partitioned(init + [(k, v)])
  {
    PartitionStep(init, k, v);
    ValuesAppend(init, k, v);
  }

  /** No value is lost, invented or counted twice: the groups together are the list. */
  lemma {:induction false} GroupsPartition<K, V>(items: seq<(K, V)>)
    ensures Partitioned(items)
  {
    if items != [] {
      var init, last := items[..|items| - 1], items[|items| - 1];
      assert items == init + [(last.0, last.1)];
      GroupsPartition(init);
      PartitionedAppend(init, last.0, last.1);
    }
  }

  /** The sizes of the groups add up to the length of the list. */
  lemma GroupSizes<K, V>(items: seq<(K, V)>)
    ensures |Concatenated(items, Keys(items))| == |items|
  {
    GroupsPartition(items);
    assert |multiset(Concatenated(items, Keys(items)))| == |multiset(Values(items))|;
  }
}
