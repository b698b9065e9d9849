/**
 Dictionaries filled by a loop: each round computes a key and a value, or raises.  A later
 round with the same key replaces an earlier one; a round that raises loses everything.
 */
module Collecting {
  import opened Wrappers
  import opened Enumerations

  datatype Item<K, V> = Item(key: K, value: V)

  /** The dictionary after the first `n` rounds. */
  ghost function CollectUpTo<K, V>(items: seq<Option<Item<K, V>>>, n: nat): Option<map<K, V>>
    requires n <= |items|
  {
    if n == 0 then Some(map[])
    else
      match CollectUpTo(items, n - 1)
      case None => None
      case Some(m) => if items[n - 1].None? then None else Some(m[items[n - 1].value.key := items[n - 1].value.value])
  }

  ghost function Collect<K, V>(items: seq<Option<Item<K, V>>>): Option<map<K, V>> {
    CollectUpTo(items, |items|)
  }

  lemma {:induction false} CollectFails<K, V>(items: seq<Option<Item<K, V>>>, n: nat, m: nat)
    requires n <= m <= |items| && CollectUpTo(items, n).None?
    ensures CollectUpTo(items, m).None?
  {
    if n < m {
      CollectFails(items, n, m - 1);
    }
  }

  /** A loop completes exactly when no round raises. */
  lemma {:induction false} CollectSucceeds<K, V>(items: seq<Option<Item<K, V>>>, n: nat)
    requires n <= |items|
    ensures CollectUpTo(items, n).Some? <==> forall i :: 0 <= i < n ==> items[i].Some?
  {
    if n > 0 {
      CollectSucceeds(items, n - 1);
    }
  }

  /** Round `i` is the last of the first `n` with its key. */
  ghost predicate LastOfKey<K, V>(items: seq<Option<Item<K, V>>>, n: nat, i: nat)
    requires n <= |items| && forall j :: 0 <= j < n ==> items[j].Some?
  {
    i < n && forall j :: i < j < n ==> items[j].value.key != items[i].value.key
  }

  /** `m` holds for each key the value of the last of the first `n` rounds with that key. */
  ghost predicate HoldsLast<K, V>(items: seq<Option<Item<K, V>>>, n: nat, m: map<K, V>)
    requires n <= |items| && forall i :: 0 <= i < n ==> items[i].Some?
  {
    && (forall i :: 0 <= i < n ==> items[i].value.key in m)
    && (forall i: nat :: LastOfKey(items, n, i) ==> m[items[i].value.key] == items[i].value.value)
    && (forall k :: k in m ==> exists i: nat :: LastOfKey(items, n, i) && items[i].value.key == k)
  }

  lemma NoRound<K, V>(items: seq<Option<Item<K, V>>>)
    ensures HoldsLast(items, 0, map[])
  {
  }

  lemma NextRound<K, V>(items: seq<Option<Item<K, V>>>, n: nat, was: map<K, V>)
    requires 0 < n <= |items| && items[n - 1].Some? && CollectUpTo(items, n - 1) == Some(was)
    ensures CollectUpTo(items, n) == Some(was[items[n - 1].value.key := items[n - 1].value.value])
  {
  }

  /** What a completed loop holds. */
  lemma {:induction false} CollectedValues<K, V>(items: seq<Option<Item<K, V>>>, n: nat) returns (m: map<K, V>)
    requires n <= |items| && forall i :: 0 <= i < n ==> items[i].Some?
    ensures CollectUpTo(items, n) == Some(m) && HoldsLast(items, n, m)
  {
    if n == 0 {
      m := map[];
      NoRound(items);
    } else {
      var was := CollectedValues(items, n - 1);
      NextRound(items, n, was);
      m := was[items[n - 1].value.key := items[n - 1].value.value];
    }
  }

  /** The map holds exactly the listed pairs. */
  ghost predicate HoldsPairs<K, V>(m: map<K, V>, keys: seq<K>, values: seq<V>)
    requires |keys| == |values|
  {
    && (forall i :: 0 <= i < |keys| ==> keys[i] in m && m[keys[i]] == values[i])
    && (forall k :: k in m ==> exists i :: 0 <= i < |keys| && keys[i] == k)
  }

  /** The first `n` rounds give the first `n` pairs, if no key comes twice. */
  lemma {:induction false} CollectPairs<K, V>(items: seq<Option<Item<K, V>>>, keys: seq<K>, values: seq<V>, n: nat)
      returns (m: map<K, V>)
    requires |items| == |keys| == |values| && n <= |items| && NoDuplicates(keys)
    requires forall i :: 0 <= i < |items| ==> items[i] == Some(Item(keys[i], values[i]))
    ensures CollectUpTo(items, n) == Some(m) && HoldsPairs(m, keys[..n], values[..n])
  {
    m := map[];
    if n > 0 {
      var was := CollectPairs(items, keys, values, n - 1);
      m := was[keys[n - 1] := values[n - 1]];
      forall k | k in m ensures exists i :: 0 <= i < n && keys[..n][i] == k {
        if k == keys[n - 1] {
          assert keys[..n][n - 1] == k;
        } else {
          var i :| 0 <= i < n - 1 && keys[..n - 1][i] == k;
          assert keys[..n][i] == k;
        }
      }
      forall i | 0 <= i < n ensures keys[..n][i] in m && m[keys[..n][i]] == values[..n][i] {
        if i < n - 1 {
          assert keys[..n - 1][i] == keys[i] && values[..n - 1][i] == values[i];
        }
      }
    }
  }

  lemma CollectAll<K, V>(items: seq<Option<Item<K, V>>>, keys: seq<K>, values: seq<V>) returns (m: map<K, V>)
    requires |items| == |keys| == |values| && NoDuplicates(keys)
    requires forall i :: 0 <= i < |items| ==> items[i] == Some(Item(keys[i], values[i]))
    ensures Collect(items) == Some(m) && HoldsPairs(m, keys, values)
  {
    m := CollectPairs(items, keys, values, |items|);
    assert keys[..|items|] == keys && values[..|items|] == values;
  }

  /** The same when the rounds visit ids in an order of their own. */
  lemma CollectByWalk<J, K, V>(ids: seq<J>, keys: seq<K>, values: seq<V>, order: seq<J>, items: seq<Option<Item<K, V>>>)
      returns (m: map<K, V>)
    requires |ids| == |keys| == |values| && NoDuplicates(ids) && NoDuplicates(keys)
    requires NoDuplicates(order) && forall x :: x in order <==> x in ids
    requires |items| == |order|
    requires forall k, i :: 0 <= k < |order| && 0 <= i < |ids| && order[k] == ids[i] ==> items[k] == Some(Item(keys[i], values[i]))
    ensures Collect(items) == Some(m) && HoldsPairs(m, keys, values)
  {
    var at := Positions(ids, order);
    var walkedKeys := seq(|order|, k requires 0 <= k < |order| => keys[at[k]]);
    var walkedValues := seq(|order|, k requires 0 <= k < |order| => values[at[k]]);
    m := CollectAll(items, walkedKeys, walkedValues);
    forall i | 0 <= i < |ids| ensures keys[i] in m && m[keys[i]] == values[i] {
      assert ids[i] in order;
      var k :| 0 <= k < |order| && order[k] == ids[i];
      assert at[k] == i && walkedKeys[k] == keys[i];
    }
    forall key | key in m ensures exists i :: 0 <= i < |keys| && keys[i] == key {
      var k :| 0 <= k < |order| && walkedKeys[k] == key;
      assert keys[at[k]] == key;
    }
  }

  /** Where the visited ids are listed. */
  lemma Positions<J>(ids: seq<J>, order: seq<J>) returns (at: seq<nat>)
    requires forall x :: x in order ==> x in ids
    ensures |at| == |order| && forall k :: 0 <= k < |order| ==> at[k] < |ids| && ids[at[k]] == order[k]
  {
    at := [];
    while |at| < |order|
      invariant |at| <= |order|
      invariant forall k :: 0 <= k < |at| ==> at[k] < |ids| && ids[at[k]] == order[k]
      decreases |order| - |at|
    {
      assert order[|at|] in ids;
      var i: nat :| i < |ids| && ids[i] == order[|at|];
      at := at + [i];
    }
  }
}
