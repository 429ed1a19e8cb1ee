/** Keeping one value for each key, in the order the keys first came (the add closure of Match in
    internal/match/matcher.go). */
module LastWins {

  /** The distinct keys, each at the place of its first. */
  function Firsts<K(==)>(keys: seq<K>): (firsts: seq<K>)
    ensures |firsts| <= |keys|
  {
    if keys == [] then []
    else
      var firsts, k := Firsts(keys[..|keys| - 1]), keys[|keys| - 1];
      if k in firsts then firsts else firsts + [k]
  }

  function FirstIndex<K(==)>(keys: seq<K>, k: K): (i: nat)
    requires k in keys
    ensures i < |keys| && keys[i] == k && forall j | 0 <= j < i :: keys[j] != k
  {
    if keys[0] == k then 0 else 1 + FirstIndex(keys[1..], k)
  }

  function LastIndex<K(==)>(keys: seq<K>, k: K): (i: nat)
    requires k in keys
    ensures i < |keys| && keys[i] == k && forall j | i < j < |keys| :: keys[j] != k
  {
    if keys[|keys| - 1] == k then |keys| - 1 else LastIndex(keys[..|keys| - 1], k)
  }

  /** The firsts are all of the keys, once each, in order of first appearance. */
  lemma {:induction false} FirstsAre<K(!new)>(keys: seq<K>)
    ensures forall k :: k in Firsts(keys) <==> k in keys
    ensures forall i, j | 0 <= i < j < |Firsts(keys)| ::
              FirstIndex(keys, Firsts(keys)[i]) < FirstIndex(keys, Firsts(keys)[j])
  {
    if keys != [] {
      var init, last := keys[..|keys| - 1], keys[|keys| - 1];
      FirstsAre(init);
      assert forall k | k in init :: FirstIndex(init, k) == FirstIndex(keys, k);
      assert last !in init ==> FirstIndex(keys, last) == |init|;
      assert forall k :: k in keys <==> k in init || k == last;
    }
  }

  lemma {:induction false} FirstsThen<K(!new)>(keys: seq<K>, k: K)
    ensures Firsts(keys + [k]) == if k in keys then Firsts(keys) else Firsts(keys) + [k]
    ensures forall j | j in keys :: FirstIndex(keys + [k], j) == FirstIndex(keys, j)
    ensures k !in keys ==> FirstIndex(keys + [k], k) == |keys|
  {
    assert (keys + [k])[..|keys|] == keys;
    FirstsAre(keys);
  }

  lemma {:induction false} FirstsAreDistinct<K(!new)>(keys: seq<K>, i: nat, j: nat)
    requires i < j < |Firsts(keys)|
    ensures Firsts(keys)[i] != Firsts(keys)[j]
  {
    FirstsAre(keys);
  }

  /** out holds the last value of each key, at the place of the key's first. */
  ghost predicate LastOfEach<K(!new), V>(keys: seq<K>, values: seq<V>, out: seq<V>) {
    && |keys| == |values| && |out| == |Firsts(keys)|
    && forall i | 0 <= i < |out| :: Firsts(keys)[i] in keys && out[i] == values[LastIndex(keys, Firsts(keys)[i])]
  }

  /** at says where each key is. */
  ghost predicate Indexes<K(!new)>(keys: seq<K>, at: map<K, nat>) {
    && (forall k :: k in at <==> k in keys)
    && (forall k | k in at :: at[k] < |Firsts(keys)| && Firsts(keys)[at[k]] == k)
  }

  lemma {:induction false} LastOfEachHolds<K(!new), V>(keys: seq<K>, values: seq<V>, out: seq<V>, k: K)
    requires LastOfEach(keys, values, out) && k in keys
    ensures values[LastIndex(keys, k)] in out
  {
    FirstsAre(keys);
    var i :| 0 <= i < |Firsts(keys)| && Firsts(keys)[i] == k;
    assert out[i] == values[LastIndex(keys, k)];
  }

  lemma {:induction false} NextIndex<K>(keys: seq<K>, k: K, j: K)
    ensures LastIndex(keys + [k], k) == |keys|
    ensures j in keys && j != k ==> LastIndex(keys + [k], j) == LastIndex(keys, j)
  {
    assert (keys + [k])[..|keys|] == keys;
  }

  /** One more value, of a new key. */
  lemma {:induction false} KeepsNew<K(!new), V>(keys: seq<K>, values: seq<V>, at: map<K, nat>, out: seq<V>, k: K, v: V)
    requires LastOfEach(keys, values, out) && Indexes(keys, at) && k !in at
    ensures LastOfEach(keys + [k], values + [v], out + [v]) && Indexes(keys + [k], at[k := |out|])
  {
    assert (keys + [k])[..|keys|] == keys;
    FirstsAre(keys);
    forall i | 0 <= i < |out|
      ensures Firsts(keys)[i] in keys && LastIndex(keys + [k], Firsts(keys)[i]) == LastIndex(keys, Firsts(keys)[i])
    {
      NextIndex(keys, k, Firsts(keys)[i]);
    }
    NextIndex(keys, k, k);
  }

  /** One more value, of a key that came before. */
  lemma {:induction false} KeepsAgain<K(!new), V>(keys: seq<K>, values: seq<V>, at: map<K, nat>, out: seq<V>, k: K, v: V)
    requires LastOfEach(keys, values, out) && Indexes(keys, at) && k in at
    ensures LastOfEach(keys + [k], values + [v], out[at[k] := v]) && Indexes(keys + [k], at)
  {
    assert (keys + [k])[..|keys|] == keys;
    FirstsAre(keys);
    forall i | 0 <= i < |out| && i != at[k]
      ensures LastIndex(keys + [k], Firsts(keys)[i]) == LastIndex(keys, Firsts(keys)[i])
    {
      if i < at[k] { FirstsAreDistinct(keys, i, at[k]); } else { FirstsAreDistinct(keys, at[k], i); }
      NextIndex(keys, k, Firsts(keys)[i]);
    }
    NextIndex(keys, k, k);
  }
}
