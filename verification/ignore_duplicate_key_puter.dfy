/**
 * The duplicate-key policy that ignores a repeated key: putting into the
 * constant map adds the entry only when the key is not there yet, so the
 * first value stored under a key is the one that stays.
 */
module IgnoreDuplicateKeyPuter {
  import opened Wrappers

  /** The map of constants the puter writes into, shared with its caller. */
  class ConstantMap<K(==), V> {
    var entries: map<K, V>

    constructor(entries: map<K, V>)
      ensures this.entries == entries
    {
      this.entries := entries;
    }
  }

  /** The map after an insert that ignores a key already present. */
  function PutIfAbsent<K(==), V>(m: map<K, V>, key: K, value: V): (r: map<K, V>)
    ensures key in m ==> r == m
    ensures key !in m ==> r.Keys == m.Keys + {key} && r[key] == value
    ensures forall k :: k in m ==> k in r && r[k] == m[k]
  {
    if key in m then m else m[key := value]
  }

  /** put: stores `value` under `key` in `constant` unless `key` is already there. */
  method Put<K(==), V>(constant: ConstantMap<K, V>, key: K, value: V)
    modifies constant
    ensures constant.entries == PutIfAbsent(old(constant.entries), key, value)
  {
    if key !in constant.entries {
      constant.entries := constant.entries[key := value];
    }
  }

  /** Repeating a put changes nothing more. */
  lemma PutIdempotent<K, V>(m: map<K, V>, key: K, value: V)
    ensures PutIfAbsent(PutIfAbsent(m, key, value), key, value) == PutIfAbsent(m, key, value)
  {
  }

  /** The value a sequence of puts leaves under `key`: the first one offered for it. */
  function FirstFor<K(==), V>(pairs: seq<(K, V)>, key: K): (r: Option<V>)
    ensures r.Some? <==> exists i :: 0 <= i < |pairs| && pairs[i].0 == key
  {
    if pairs == [] then None
    else if pairs[0].0 == key then Some(pairs[0].1)
    else
      var r := FirstFor(pairs[1..], key);
      assert forall i :: 1 <= i < |pairs| ==> pairs[i] == pairs[1..][i - 1];
      r
  }

  /** The map after putting every pair in turn. */
  function PutAll<K(==), V>(m: map<K, V>, pairs: seq<(K, V)>): map<K, V>
    decreases |pairs|
  {
    if pairs == [] then m else PutAll(PutIfAbsent(m, pairs[0].0, pairs[0].1), pairs[1..])
  }

  function Get<K(==), V>(m: map<K, V>, key: K): Option<V> {
    if key in m then Some(m[key]) else None
  }

  /** After any sequence of puts, a key keeps its old value if it had one, and otherwise holds the first value offered. */
  lemma {:induction false} FirstValueWins<K, V>(m: map<K, V>, pairs: seq<(K, V)>, key: K)
    ensures Get(PutAll(m, pairs), key) == if key in m then Some(m[key]) else FirstFor(pairs, key)
    decreases |pairs|
  {
    if pairs != [] {
      FirstValueWins(PutIfAbsent(m, pairs[0].0, pairs[0].1), pairs[1..], key);
    }
  }

  /** Two puts under different keys commute. */
  lemma PutsCommute<K, V>(m: map<K, V>, k1: K, v1: V, k2: K, v2: V)
    requires k1 != k2
    ensures PutIfAbsent(PutIfAbsent(m, k1, v1), k2, v2) == PutIfAbsent(PutIfAbsent(m, k2, v2), k1, v1)
  {
  }

  /** Putting into a caller's map in place: a repeated key keeps its first value. */
  method FirstPutWins() returns (constant: ConstantMap<string, int>)
    ensures constant.entries == map["timeout" := 30, "retries" := 3]
  {
    constant := new ConstantMap(map[]);
    Put(constant, "timeout", 30);
    Put(constant, "retries", 3);
    Put(constant, "timeout", 60);
  }
}
