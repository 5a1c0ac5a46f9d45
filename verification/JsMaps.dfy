/** JavaScript's Map with string keys: entries in insertion order. */
module JsMaps {
  import opened Outcomes

  type Entries<V> = seq<(string, V)>

  function Get<V>(m: Entries<V>, key: string): Option<V> {
    if m == [] then None else if m[0].0 == key then Some(m[0].1) else Get(m[1..], key)
  }

  /** An existing key keeps its position, a new one goes last. */
  function Put<V>(m: Entries<V>, key: string, value: V): (r: Entries<V>)
    ensures r != []
  {
    if m == [] then [(key, value)]
    else if m[0].0 == key then [(key, value)] + m[1..]
    else [m[0]] + Put(m[1..], key, value)
  }

  function Remove<V>(m: Entries<V>, key: string): Entries<V> {
    if m == [] then [] else if m[0].0 == key then m[1..] else [m[0]] + Remove(m[1..], key)
  }

  function Values<V>(m: Entries<V>): (values: seq<V>)
    ensures |values| == |m| && forall i :: 0 <= i < |m| ==> values[i] == m[i].1
  {
    if m == [] then [] else [m[0].1] + Values(m[1..])
  }

  predicate UniqueKeys<V>(m: Entries<V>) {
    m == [] || (Get(m[1..], m[0].0).None? && UniqueKeys(m[1..]))
  }

  lemma {:induction false} GetOfMember<V>(m: Entries<V>, e: (string, V))
    requires e in m
    ensures Get(m, e.0).Some?
  {
    if m[0] != e {
      GetOfMember(m[1..], e);
    }
  }

  lemma {:induction false} MemberOfGet<V>(m: Entries<V>, key: string)
    requires Get(m, key).Some?
    ensures (key, Get(m, key).value) in m
  {
    if m[0].0 != key {
      MemberOfGet(m[1..], key);
    }
  }

  lemma {:induction false} GetPut<V>(m: Entries<V>, key: string, value: V, other: string)
    ensures Get(Put(m, key, value), other) == if other == key then Some(value) else Get(m, other)
  {
    if m != [] && m[0].0 != key {
      GetPut(m[1..], key, value, other);
      assert Put(m, key, value)[1..] == Put(m[1..], key, value);
    }
  }

  lemma {:induction false} PutUnique<V>(m: Entries<V>, key: string, value: V)
    requires UniqueKeys(m)
    ensures UniqueKeys(Put(m, key, value))
    ensures Get(m, key).None? ==> Put(m, key, value) == m + [(key, value)]
  {
    if m == [] {
      assert UniqueKeys([(key, value)]);
    } else if m[0].0 == key {
      assert Put(m, key, value)[1..] == m[1..];
    } else {
      PutUnique(m[1..], key, value);
      GetPut(m[1..], key, value, m[0].0);
      assert Put(m, key, value)[1..] == Put(m[1..], key, value);
    }
  }

  lemma {:induction false} GetRemove<V>(m: Entries<V>, key: string, other: string)
    requires UniqueKeys(m)
    ensures Get(Remove(m, key), other) == if other == key then None else Get(m, other)
  {
    if m != [] && m[0].0 != key {
      GetRemove(m[1..], key, other);
      assert Remove(m, key)[1..] == Remove(m[1..], key);
    }
  }

  lemma {:induction false} RemoveUnique<V>(m: Entries<V>, key: string)
    requires UniqueKeys(m)
    ensures UniqueKeys(Remove(m, key))
  {
    if m != [] && m[0].0 != key {
      RemoveUnique(m[1..], key);
      GetRemove(m[1..], key, m[0].0);
      assert Remove(m, key)[1..] == Remove(m[1..], key);
    }
  }

  // In a list without repeated keys an entry's key does not occur before it.
  lemma {:induction false} UniqueBefore<V>(m: Entries<V>, e: (string, V), rest: Entries<V>)
    requires UniqueKeys(m + ([e] + rest))
    ensures Get(m, e.0).None?
  {
    if m != [] {
      var all := m + ([e] + rest);
      assert all[1..] == m[1..] + ([e] + rest);
      assert all[1..][|m| - 1] == e;
      GetOfMember(all[1..], e);
      UniqueBefore(m[1..], e, rest);
    }
  }

  class JsMap<V> {
    var entries: Entries<V>

    ghost predicate Valid()
      reads this
    {
      UniqueKeys(entries)
    }

    constructor ()
      ensures Valid() && entries == []
    {
      entries := [];
    }

    function Lookup(key: string): Option<V>
      reads this
    {
      Get(entries, key)
    }

    method Set(key: string, value: V)
      requires Valid()
      modifies this
      ensures Valid() && entries == Put(old(entries), key, value)
    {
      PutUnique(entries, key, value);
      entries := Put(entries, key, value);
    }

    method Delete(key: string)
      requires Valid()
      modifies this
      ensures Valid() && entries == Remove(old(entries), key)
    {
      RemoveUnique(entries, key);
      entries := Remove(entries, key);
    }

    method Clear()
      modifies this
      ensures Valid() && entries == []
    {
      entries := [];
    }
  }
}
