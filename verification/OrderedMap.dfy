/** A JavaScript `Map`: entries in order of first insertion, one for each key. */
module OrderedMap {
  import opened Common

  datatype Entry<+K, +V> = Entry(key: K, value: V)

  function Get<K(==), V>(m: seq<Entry<K, V>>, k: K): Option<V> {
    if m == [] then None else if m[0].key == k then Some(m[0].value) else Get(m[1..], k)
  }

  /** `map.set`: an existing key keeps its place. */
  function Put<K(==), V>(m: seq<Entry<K, V>>, k: K, v: V): seq<Entry<K, V>> {
    if m == [] then [Entry(k, v)]
    else if m[0].key == k then [Entry(k, v)] + m[1..]
    else [m[0]] + Put(m[1..], k, v)
  }

  /** `map.delete`. */
  function Drop<K(==), V>(m: seq<Entry<K, V>>, k: K): seq<Entry<K, V>> {
    if m == [] then []
    else if m[0].key == k then m[1..]
    else [m[0]] + Drop(m[1..], k)
  }

  function Values<K, V>(m: seq<Entry<K, V>>): (s: seq<V>)
    ensures |s| == |m| && forall i :: 0 <= i < |m| ==> s[i] == m[i].value
  {
    if m == [] then [] else [m[0].value] + Values(m[1..])
  }

  predicate Keyed<K(==), V>(m: seq<Entry<K, V>>) {
    forall i, j :: 0 <= i < j < |m| ==> m[i].key != m[j].key
  }

  lemma {:induction false} GetAt<K, V>(m: seq<Entry<K, V>>, i: nat)
    requires Keyed(m) && i < |m|
    ensures Get(m, m[i].key) == Some(m[i].value)
  {
    if i > 0 {
      assert m[0].key != m[i].key;
      GetAt(m[1..], i - 1);
    }
  }

  lemma {:induction false} GetFound<K, V>(m: seq<Entry<K, V>>, k: K) returns (i: nat)
    requires Get(m, k).Some?
    ensures i < |m| && m[i].key == k && Get(m, k) == Some(m[i].value)
  {
    if m[0].key == k { i := 0; } else { i := GetFound(m[1..], k); i := i + 1; }
  }

  lemma {:induction false} GetMissing<K, V>(m: seq<Entry<K, V>>, k: K)
    ensures Get(m, k).None? <==> forall i :: 0 <= i < |m| ==> m[i].key != k
  {
    if m != [] && m[0].key != k {
      GetMissing(m[1..], k);
      forall i | Get(m, k).None? && 0 <= i < |m| ensures m[i].key != k {
        assert i > 0 ==> m[i] == m[1..][i - 1];
      }
    }
  }

  lemma {:induction false} GetPut<K, V>(m: seq<Entry<K, V>>, k: K, v: V, other: K)
    ensures Get(Put(m, k, v), other) == if other == k then Some(v) else Get(m, other)
  {
    if m != [] && m[0].key != k {
      GetPut(m[1..], k, v, other);
    }
  }

  lemma {:induction false} GetDrop<K, V>(m: seq<Entry<K, V>>, k: K, other: K)
    requires Keyed(m)
    ensures Get(Drop(m, k), other) == if other == k then None else Get(m, other)
  {
    if m != [] {
      if m[0].key == k {
        GetMissing(m[1..], k);
      } else {
        GetDrop(m[1..], k, other);
      }
    }
  }

  lemma ConsKeyed<K, V>(e: Entry<K, V>, m: seq<Entry<K, V>>)
    requires Keyed(m) && forall x :: x in m ==> x.key != e.key
    ensures Keyed([e] + m)
  {
    forall i, j | 0 <= i < j < |[e] + m| ensures ([e] + m)[i].key != ([e] + m)[j].key {
      assert ([e] + m)[j] == m[j - 1];
    }
  }

  lemma {:induction false} PutKeyed<K, V>(m: seq<Entry<K, V>>, k: K, v: V)
    requires Keyed(m)
    ensures Keyed(Put(m, k, v))
    ensures forall e :: e in Put(m, k, v) ==> e == Entry(k, v) || e in m
  {
    if m != [] && m[0].key != k {
      PutKeyed(m[1..], k, v);
      ConsKeyed(m[0], Put(m[1..], k, v));
    }
  }

  lemma {:induction false} DropKeyed<K, V>(m: seq<Entry<K, V>>, k: K)
    requires Keyed(m)
    ensures Keyed(Drop(m, k))
    ensures forall e :: e in Drop(m, k) ==> e in m
  {
    if m != [] && m[0].key != k {
      DropKeyed(m[1..], k);
      ConsKeyed(m[0], Drop(m[1..], k));
    }
  }

  /** A new key goes to the end. */
  lemma {:induction false} PutNew<K, V>(m: seq<Entry<K, V>>, k: K, v: V)
    requires Get(m, k).None?
    ensures Put(m, k, v) == m + [Entry(k, v)]
  {
    if m != [] {
      PutNew(m[1..], k, v);
      assert m == [m[0]] + m[1..];
    }
  }
}
