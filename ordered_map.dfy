/** A JavaScript object used as a dictionary with string keys: its own keys
    in insertion order, and the value stored under each. */
module OrderedMaps {
  import opened Wrappers
  import opened Seqs

  datatype OrderedMap<V> = OrderedMap(keys: seq<string>, values: map<string, V>)

  /** The key sequence lists each stored key exactly once. */
  ghost predicate WellFormed<V>(m: OrderedMap<V>) {
    Distinct(m.keys) && (forall k :: k in m.values <==> k in m.keys)
  }

  /** `{}` */
  function Empty<V>(): (m: OrderedMap<V>)
    ensures WellFormed(m) && m.keys == []
  {
    OrderedMap([], map[])
  }

  /** `obj[k] = v`: a new key goes to the end, an existing key keeps its place. */
  function Put<V>(m: OrderedMap<V>, k: string, v: V): (r: OrderedMap<V>)
    requires WellFormed(m)
    ensures WellFormed(r)
  {
    OrderedMap(if k in m.values then m.keys else m.keys + [k], m.values[k := v])
  }

  /** `obj[Object.keys(obj)[i]]`: the value under the key at position `i`,
      `undefined` past the last key. */
  function ValueAt<V>(m: OrderedMap<V>, i: nat): (r: Option<V>)
    requires WellFormed(m)
    ensures r.Some? <==> i < |m.keys|
    ensures r.Some? ==> m.keys[i] in m.values && r.value == m.values[m.keys[i]]
  {
    if i < |m.keys| then Some(m.values[m.keys[i]]) else None
  }

  /** `delete obj[k]`. */
  function Remove<V>(m: OrderedMap<V>, k: string): (r: OrderedMap<V>)
    requires WellFormed(m)
    ensures WellFormed(r)
    ensures r.values == m.values - {k}
  {
    RemoveElemSpec(m.keys, k);
    OrderedMap(RemoveElem(m.keys, k), m.values - {k})
  }

  /** `s` without any occurrence of `x`. */
  function RemoveElem<T(==)>(s: seq<T>, x: T): seq<T>
  {
    if s == [] then []
    else if s[0] == x then RemoveElem(s[1..], x)
    else [s[0]] + RemoveElem(s[1..], x)
  }

  lemma {:induction false} RemoveElemSpec<T>(s: seq<T>, x: T)
    ensures forall y :: y in RemoveElem(s, x) <==> y in s && y != x
    ensures Distinct(s) ==> Distinct(RemoveElem(s, x))
  {
    if s != [] {
      RemoveElemSpec(s[1..], x);
      if Distinct(s) {
        assert Distinct(s[1..]);
        assert s[0] !in s[1..];
      }
    }
  }

  lemma {:induction false} RemoveElemLast<T>(s: seq<T>, x: T)
    requires x !in s
    ensures RemoveElem(s + [x], x) == s
  {
    if s == [] {
      assert [x][1..] == [];
    } else {
      assert (s + [x])[1..] == s[1..] + [x];
      RemoveElemLast(s[1..], x);
      assert s == [s[0]] + s[1..];
    }
  }

  /** Deleting a key that was just added restores the object exactly. */
  lemma RemoveAfterPut<V>(m: OrderedMap<V>, k: string, v: V)
    requires WellFormed(m) && k !in m.values
    ensures Remove(Put(m, k, v), k) == m
  {
    RemoveElemLast(m.keys, k);
    assert m.values[k := v] - {k} == m.values;
  }

  /** Adding a key that was just deleted restores the stored values, but the
      key moves to the end of the key order. */
  lemma PutAfterRemove<V>(m: OrderedMap<V>, k: string)
    requires WellFormed(m) && k in m.values
    ensures Put(Remove(m, k), k, m.values[k]).values == m.values
    ensures Put(Remove(m, k), k, m.values[k]).keys == RemoveElem(m.keys, k) + [k]
  {
    var r := Remove(m, k);
    assert r.values == m.values - {k};
    MapRestore(m.values, k);
  }

  /** Storing a value under a present key and then its old value again
      restores the object, key order included. */
  lemma PutBack<V>(m: OrderedMap<V>, k: string, v: V)
    requires WellFormed(m) && k in m.values
    ensures Put(Put(m, k, v), k, m.values[k]) == m
  {
    var n := m.values[k := v][k := m.values[k]];
    assert n.Keys == m.values.Keys;
    assert forall x :: x in n ==> n[x] == m.values[x];
  }

  lemma MapRestore<V>(values: map<string, V>, k: string)
    requires k in values
    ensures (values - {k})[k := values[k]] == values
  {
    var n := (values - {k})[k := values[k]];
    assert n.Keys == values.Keys;
    assert forall x :: x in n ==> n[x] == values[x];
  }

  /** The stored values, in key order (`Object.values(obj)`). */
  function Values<V>(m: OrderedMap<V>): (r: seq<V>)
    requires WellFormed(m)
    ensures |r| == |m.keys|
    ensures forall i :: 0 <= i < |r| ==> r[i] == m.values[m.keys[i]]
  {
    seq(|m.keys|, i requires 0 <= i < |m.keys| => m.values[m.keys[i]])
  }
}
