/** `groups.setdefault(key(x), []).append(x)` over a list: the keys in first-appearance
    order (the iteration order of a Python dict) and, per key, its members in list order. */
module Grouping {
  import opened Seqs

  /** The distinct keys of `items`, in the order they first appear. */
  function Keys<K(==), T(==)>(items: seq<T>, key: T -> K): seq<K>
    decreases |items|
  {
    if items == [] then []
    else
      var ks := Keys(items[..|items| - 1], key);
      var k := key(items[|items| - 1]);
      if k in ks then ks else ks + [k]
  }

  /** The items whose key is `k`, in list order. */
  function Members<K(==), T(==)>(items: seq<T>, key: T -> K, k: K): seq<T>
    decreases |items|
  {
    if items == [] then []
    else
      Members(items[..|items| - 1], key, k) + if key(items[|items| - 1]) == k then [items[|items| - 1]] else []
  }

  /** A group is the list filtered by its key. */
  lemma {:induction false} MembersFilter<K, T>(items: seq<T>, key: T -> K, k: K)
    ensures Members(items, key, k) == Filter(items, x => key(x) == k)
    decreases |items|
  {
    if items != [] {
      MembersFilter(items[..|items| - 1], key, k);
    }
  }

  predicate Distinct<K(==)>(ks: seq<K>) {
    forall i, j :: 0 <= i < j < |ks| ==> ks[i] != ks[j]
  }

  lemma Prefix<T>(items: seq<T>, i: nat)
    requires i < |items|
    ensures items[..i + 1][..i] == items[..i]
    ensures items[..i + 1][i] == items[i]
  {
  }

  /** The key list has no repeats. */
  lemma {:induction false} KeysDistinct<K, T>(items: seq<T>, key: T -> K)
    ensures Distinct(Keys(items, key))
    decreases |items|
  {
    if items != [] {
      KeysDistinct(items[..|items| - 1], key);
    }
  }

  /** A key is listed exactly when it has members. */
  lemma {:induction false} KeysAreNonEmptyGroups<K, T>(items: seq<T>, key: T -> K, k: K)
    ensures k in Keys(items, key) <==> Members(items, key, k) != []
    decreases |items|
  {
    if items != [] {
      KeysAreNonEmptyGroups(items[..|items| - 1], key, k);
    }
  }

  /** Every member of group `k` has key `k` and comes from `items`. */
  lemma {:induction false} MembersHaveKey<K, T>(items: seq<T>, key: T -> K, k: K)
    ensures forall x :: x in Members(items, key, k) ==> key(x) == k && x in items
    decreases |items|
  {
    if items != [] {
      var init := items[..|items| - 1];
      MembersHaveKey(init, key, k);
      assert forall x :: x in init ==> x in items;
    }
  }

  /** Every item belongs to the group of its own key. */
  lemma {:induction false} ItemInOwnGroup<K, T>(items: seq<T>, key: T -> K, x: T)
    requires x in items
    ensures x in Members(items, key, key(x))
    decreases |items|
  {
    var init := items[..|items| - 1];
    if x != items[|items| - 1] {
      assert items == init + [items[|items| - 1]];
      ItemInOwnGroup(init, key, x);
    }
  }

  /** The sum of the group sizes over `ks`. */
  function SumSizes<K(==), T(==)>(items: seq<T>, key: T -> K, ks: seq<K>): nat
    decreases |ks|
  {
    if ks == [] then 0
    else SumSizes(items, key, ks[..|ks| - 1]) + |Members(items, key, ks[|ks| - 1])|
  }

  lemma {:induction false} SumSizesStep<K, T>(items: seq<T>, x: T, key: T -> K, ks: seq<K>)
    requires Distinct(ks)
    ensures SumSizes(items + [x], key, ks) == SumSizes(items, key, ks) + if key(x) in ks then 1 else 0
    decreases |ks|
  {
    if ks != [] {
      var init := ks[..|ks| - 1];
      assert (items + [x])[..|items + [x]| - 1] == items;
      assert key(x) in ks <==> key(x) in init || key(x) == ks[|ks| - 1];
      SumSizesStep(items, x, key, init);
    }
  }

  /** The groups partition the list: their sizes add up to its length. */
  lemma {:induction false} GroupsPartition<K, T>(items: seq<T>, key: T -> K)
    ensures SumSizes(items, key, Keys(items, key)) == |items|
    decreases |items|
  {
    if items != [] {
      var init := items[..|items| - 1];
      var x := items[|items| - 1];
      assert items == init + [x];
      GroupsPartition(init, key);
      KeysDistinct(init, key);
      SumSizesStep(init, x, key, Keys(init, key));
      if key(x) !in Keys(init, key) {
        KeysAreNonEmptyGroups(init, key, key(x));
      }
    }
  }

  /** `groups.setdefault(key(x), []).append(x)` for every `x`, in order. */
  method GroupBy<K(==), T(==)>(items: seq<T>, key: T -> K) returns (ks: seq<K>, groups: map<K, seq<T>>)
    ensures ks == Keys(items, key)
    ensures forall k :: k in groups <==> k in ks
    ensures forall k :: k in groups ==> groups[k] == Members(items, key, k)
  {
    ks := [];
    groups := map[];
    for i := 0 to |items|
      invariant ks == Keys(items[..i], key)
      invariant forall k :: k in groups <==> k in ks
      invariant forall k :: k in groups ==> groups[k] == Members(items[..i], key, k)
    {
      Prefix(items, i);
      var k := key(items[i]);
      if k in groups {
        groups := groups[k := groups[k] + [items[i]]];
      } else {
        KeysAreNonEmptyGroups(items[..i], key, k);
        groups := groups[k := [items[i]]];
        ks := ks + [k];
      }
    }
    assert items[..|items|] == items;
  }
}
