/** Concatenating what is held for each key of a map, in whatever order the map gives them. */
module Gathering {

  /** A listing of a set, in some order. */
  ghost predicate Lists<K>(order: seq<K>, keys: set<K>) { multiset(order) == multiset(keys) }

  lemma {:induction false} ListedKeys<K(!new)>(order: seq<K>, keys: set<K>)
    requires Lists(order, keys)
    ensures forall k :: k in order <==> k in keys
  {
    assert forall k :: k in order <==> k in multiset(order);
    assert forall k :: k in keys <==> k in multiset(keys);
  }

  function PartOf<K, V>(parts: map<K, seq<V>>, k: K): seq<V> { if k in parts then parts[k] else [] }

  function Gathered<K, V>(order: seq<K>, parts: map<K, seq<V>>): seq<V> {
    if order == [] then [] else Gathered(order[..|order| - 1], parts) + PartOf(parts, order[|order| - 1])
  }

  function Without<K>(order: seq<K>, i: nat): seq<K>
    requires i < |order|
  {
    order[..i] + order[i + 1..]
  }

  /** Any two orders gather the same things, equally often. */
  lemma {:induction false} OrderDoesNotMatter<K, V>(order: seq<K>, other: seq<K>, parts: map<K, seq<V>>)
    requires multiset(order) == multiset(other)
    ensures multiset(Gathered(order, parts)) == multiset(Gathered(other, parts))
    decreases |order|
  {
    assert |order| == |multiset(order)| == |multiset(other)| == |other|;
    if order != [] {
      var n := |order| - 1;
      assert order[n] in multiset(order);
      var i :| 0 <= i < |other| && other[i] == order[n];
      WithoutOne(order, n);
      WithoutOne(other, i);
      assert Without(order, n) == order[..n];
      OrderDoesNotMatter(order[..n], Without(other, i), parts);
      GatheredWithout(other, i, parts);
      GatheredWithout(order, n, parts);
    }
  }

  lemma {:induction false} WithoutOne<K>(order: seq<K>, i: nat)
    requires i < |order|
    ensures multiset(Without(order, i)) == multiset(order) - multiset{order[i]}
  {
    assert order == order[..i] + [order[i]] + order[i + 1..];
  }

  lemma {:induction false} GatheredWithout<K, V>(order: seq<K>, i: nat, parts: map<K, seq<V>>)
    requires i < |order|
    ensures multiset(Gathered(order, parts)) == multiset(Gathered(Without(order, i), parts)) + multiset(PartOf(parts, order[i]))
  {
    var n := |order| - 1;
    if i == n {
      assert Without(order, i) == order[..n];
    } else {
      GatheredWithout(order[..n], i, parts);
      WithoutThen(order[..n], order[n], i);
      GatheredThen(Without(order[..n], i), order[n], parts);
      InitAndLast(order);
      AddedLast(Gathered(order[..n], parts), Gathered(Without(order[..n], i), parts), PartOf(parts, order[i]), PartOf(parts, order[n]));
    }
  }

  lemma {:induction false} WithoutThen<K>(order: seq<K>, k: K, i: nat)
    requires i < |order|
    ensures Without(order + [k], i) == Without(order, i) + [k]
  {
    assert (order + [k])[i + 1..] == order[i + 1..] + [k];
  }

  lemma {:induction false} GatheredThen<K, V>(order: seq<K>, k: K, parts: map<K, seq<V>>)
    ensures Gathered(order + [k], parts) == Gathered(order, parts) + PartOf(parts, k)
  {
    assert (order + [k])[..|order|] == order;
  }

  lemma {:induction false} AddedLast<V>(all: seq<V>, rest: seq<V>, part: seq<V>, last: seq<V>)
    requires multiset(all) == multiset(rest) + multiset(part)
    ensures multiset(all + last) == multiset(rest + last) + multiset(part)
  {}

  lemma {:induction false} PrefixThen<T>(s: seq<T>, n: nat)
    requires n < |s|
    ensures s[..n + 1] == s[..n] + [s[n]] && s[..n + 1][..n] == s[..n]
  {}

  lemma {:induction false} InitAndLast<T>(s: seq<T>)
    requires s != []
    ensures s == s[..|s| - 1] + [s[|s| - 1]]
  {}
}
