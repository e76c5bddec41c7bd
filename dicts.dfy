/**
 * A Python dict filled by a sequence of `d[key] = value` writes, as a fold
 * of map updates over the list of writes, and what a lookup then returns.
 */
module Dicts {
  import opened Seqs

  /** The keys written, in order. */
  function Keys<K, V>(writes: seq<(K, V)>): (ks: seq<K>)
    ensures |ks| == |writes|
    ensures forall i :: 0 <= i < |writes| ==> ks[i] == writes[i].0
  {
    seq(|writes|, i requires 0 <= i < |writes| => writes[i].0)
  }

  lemma KeysAppend<K, V>(a: seq<(K, V)>, b: seq<(K, V)>)
    ensures Keys(a + b) == Keys(a) + Keys(b)
  {
  }

  /** `m` after `m[k] = v` for every write `(k, v)`, first to last. */
  function StoreAll<K(==), V>(m: map<K, V>, writes: seq<(K, V)>): map<K, V>
    decreases |writes|
  {
    if writes == [] then m else StoreAll(m[writes[0].0 := writes[0].1], writes[1..])
  }

  /** One write is one map update. */
  lemma StoreOne<K, V>(m: map<K, V>, k: K, v: V)
    ensures StoreAll(m, [(k, v)]) == m[k := v]
  {
    assert [(k, v)][1..] == [];
  }

  lemma {:induction false} StoreAllAppend<K, V>(m: map<K, V>, a: seq<(K, V)>, b: seq<(K, V)>)
    ensures StoreAll(m, a + b) == StoreAll(StoreAll(m, a), b)
    decreases |a|
  {
    if a != [] {
      assert (a + b)[0] == a[0] && (a + b)[1..] == a[1..] + b;
      StoreAllAppend(m[a[0].0 := a[0].1], a[1..], b);
    } else {
      assert a + b == b;
    }
  }

  /** The keys after the writes are the old keys and the keys written. */
  lemma {:induction false} StoreAllKeys<K, V>(m: map<K, V>, writes: seq<(K, V)>)
    ensures forall k :: k in StoreAll(m, writes) <==> k in m || k in Keys(writes)
    decreases |writes|
  {
    if writes != [] {
      StoreAllKeys(m[writes[0].0 := writes[0].1], writes[1..]);
      assert Keys(writes) == [writes[0].0] + Keys(writes[1..]);
    }
  }

  /** A key that is not written keeps its old value. */
  lemma {:induction false} StoreAllUntouched<K, V>(m: map<K, V>, writes: seq<(K, V)>, k: K)
    requires k in m && k !in Keys(writes)
    ensures k in StoreAll(m, writes) && StoreAll(m, writes)[k] == m[k]
    decreases |writes|
  {
    if writes != [] {
      assert Keys(writes) == [writes[0].0] + Keys(writes[1..]);
      StoreAllUntouched(m[writes[0].0 := writes[0].1], writes[1..], k);
    }
  }

  /** When no key is written twice, a lookup returns the value written for it. */
  lemma {:induction false} StoreAllLookup<K, V>(m: map<K, V>, writes: seq<(K, V)>, i: nat)
    requires NoDups(Keys(writes)) && i < |writes|
    ensures writes[i].0 in StoreAll(m, writes) && StoreAll(m, writes)[writes[i].0] == writes[i].1
    decreases |writes|
  {
    var rest := writes[1..];
    assert Keys(writes) == [writes[0].0] + Keys(rest);
    NoDupsConcat([writes[0].0], Keys(rest));
    if i == 0 {
      StoreAllUntouched(m[writes[0].0 := writes[0].1], rest, writes[0].0);
    } else {
      assert rest[i - 1] == writes[i];
      StoreAllLookup(m[writes[0].0 := writes[0].1], rest, i - 1);
    }
  }

  /** The same, for a write known only by membership. */
  lemma StoreAllLookupIn<K, V>(m: map<K, V>, writes: seq<(K, V)>, k: K, v: V)
    requires NoDups(Keys(writes)) && (k, v) in writes
    ensures k in StoreAll(m, writes) && StoreAll(m, writes)[k] == v
  {
    var i :| 0 <= i < |writes| && writes[i] == (k, v);
    StoreAllLookup(m, writes, i);
  }
}
