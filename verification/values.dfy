/**
 * Ruby's dynamic values as they reach the core: user properties, condition
 * values in the workspace, remote config values and event values.
 */
module RubyValues {

  /**
   * A Ruby object. Numbers are Ruby Integers; `Hash` keeps its entries in
   * insertion order, as Ruby hashes do; `Other` is any other object (a
   * Symbol, a Time, a user-defined object), distinguished by a tag.
   */
  datatype Value =
    | Null
    | Str(s: string)
    | Num(n: int)
    | Bool(b: bool)
    | Arr(items: seq<Value>)
    | Hash(entries: seq<(Value, Value)>)
    | Other(tag: int)
}

/**
 * Ruby hashes that the SDK builds itself (identifiers, properties): ordered
 * association lists with distinct keys. Assigning an existing key replaces
 * its value in place; a new key goes to the end.
 */
module OrderedMaps {
  import opened Wrappers

  function Keys<K, V>(es: seq<(K, V)>): (r: seq<K>)
    ensures |r| == |es| && forall i :: 0 <= i < |es| ==> r[i] == es[i].0
  {
    if |es| == 0 then [] else [es[0].0] + Keys(es[1..])
  }

  predicate DistinctKeys<K(==), V>(es: seq<(K, V)>)
  {
    forall i, j :: 0 <= i < j < |es| ==> es[i].0 != es[j].0
  }

  /** `hash[key]`: the value stored under `key`, `None` when absent. */
  function Get<K(==), V>(es: seq<(K, V)>, key: K): (r: Option<V>)
    ensures r.None? <==> key !in Keys(es)
    ensures r.Some? ==> exists i :: 0 <= i < |es| && es[i] == (key, r.value)
  {
    if |es| == 0 then None
    else if es[0].0 == key then Some(es[0].1)
    else
      var r := Get(es[1..], key);
      assert r.Some? ==> exists i :: 0 <= i < |es[1..]| && es[1..][i] == (key, r.value);
      r
  }

  /** `hash[key] = value`. */
  function Put<K(==), V>(es: seq<(K, V)>, key: K, value: V): (r: seq<(K, V)>)
    ensures key in Keys(es) ==> |r| == |es| && Keys(r) == Keys(es)
    ensures key !in Keys(es) ==> r == es + [(key, value)]
  {
    if |es| == 0 then [(key, value)]
    else if es[0].0 == key then [(key, value)] + es[1..]
    else [es[0]] + Put(es[1..], key, value)
  }

  /** Every entry after `hash[key] = value` is the new pair or an entry that was already there. */
  lemma {:induction false} PutEntries<K, V>(es: seq<(K, V)>, key: K, value: V)
    ensures forall e :: e in Put(es, key, value) ==> e == (key, value) || e in es
  {
    if |es| > 0 && es[0].0 != key {
      PutEntries(es[1..], key, value);
      assert Put(es, key, value) == [es[0]] + Put(es[1..], key, value);
    }
  }

  /** After `hash[key] = value`, the key maps to the value and every other key is untouched; keys stay distinct. */
  lemma GetPut<K, V>(es: seq<(K, V)>, key: K, value: V, other: K)
    requires DistinctKeys(es)
    ensures DistinctKeys(Put(es, key, value))
    ensures Get(Put(es, key, value), key) == Some(value)
    ensures other != key ==> Get(Put(es, key, value), other) == Get(es, other)
  {
    PutKeepsDistinct(es, key, value);
    GetAfterPut(es, key, value, other);
  }

  /** `hash[key] = value` never makes two entries share a key. */
  lemma PutKeepsDistinct<K, V>(es: seq<(K, V)>, key: K, value: V)
    requires DistinctKeys(es)
    ensures DistinctKeys(Put(es, key, value))
  {
    var r := Put(es, key, value);
    if key in Keys(es) {
      forall i, j | 0 <= i < j < |r|
        ensures r[i].0 != r[j].0
      {
        assert r[i].0 == Keys(r)[i] == Keys(es)[i] == es[i].0;
        assert r[j].0 == Keys(r)[j] == Keys(es)[j] == es[j].0;
      }
    } else {
      forall i, j | 0 <= i < j < |r|
        ensures r[i].0 != r[j].0
      {
        if j == |es| {
          assert Keys(es)[i] == es[i].0;
        }
      }
    }
  }

  /** The lookups after `hash[key] = value`, by induction on the entries. */
  lemma {:induction false} GetAfterPut<K, V>(es: seq<(K, V)>, key: K, value: V, other: K)
    ensures Get(Put(es, key, value), key) == Some(value)
    ensures other != key ==> Get(Put(es, key, value), other) == Get(es, other)
  {
    if |es| > 0 {
      var r := Put(es, key, value);
      if es[0].0 != key {
        GetAfterPut(es[1..], key, value, other);
        assert r[1..] == Put(es[1..], key, value);
      } else {
        assert r[1..] == es[1..];
      }
    }
  }

  /** In a hash with distinct keys, `hash[key]` is `value` exactly when the entry `(key, value)` is present. */
  lemma {:induction false} GetIff<K, V>(es: seq<(K, V)>, key: K, value: V)
    requires DistinctKeys(es)
    ensures Get(es, key) == Some(value) <==> (key, value) in es
  {
    if |es| > 0 {
      if es[0].0 != key {
        GetIff(es[1..], key, value);
        assert es == [es[0]] + es[1..];
      }
    }
  }
}
