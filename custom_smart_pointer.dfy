/** The custom smart pointers of src/s2_custom_smart_pointer.rs: the `MyBox`
    wrapper and the `MyMap` association list. */
module CustomPointers {
  import opened Wrappers

  /** `MyBox<T>`: a tuple struct around one value. */
  datatype MyBox<T> = MyBox(inner: T) {
    /** `*b`: the wrapped value. */
    function Deref(): T
    {
      inner
    }
  }

  /** `MyBox::new`: dereferencing the new box gives back exactly `x`. */
  function NewBox<T>(x: T): (b: MyBox<T>)
    ensures b.Deref() == x
  {
    MyBox(x)
  }

  /** The first-match lookup of `get` over a list of entries: the value of the
      earliest entry whose key equals `key`, or `None`. */
  function Lookup<K(==), V>(entries: seq<(K, V)>, key: K): (r: Option<V>)
    ensures r.None? <==> forall i :: 0 <= i < |entries| ==> entries[i].0 != key
    decreases |entries|
  {
    if |entries| == 0 then None
    else if entries[0].0 == key then Some(entries[0].1)
    else Lookup(entries[1..], key)
  }

  /** `Lookup` finds the value at the first index holding `key`; earlier
      entries with the same key shadow later ones. */
  lemma {:induction false} LookupFirstMatch<K, V>(entries: seq<(K, V)>, key: K, i: nat)
    requires i < |entries| && entries[i].0 == key
    requires forall j :: 0 <= j < i ==> entries[j].0 != key
    ensures Lookup(entries, key) == Some(entries[i].1)
    decreases i
  {
    if i > 0 {
      LookupFirstMatch(entries[1..], key, i - 1);
    }
  }

  /** Whatever `Lookup` returns comes from an entry with that key. */
  lemma {:induction false} LookupFound<K, V>(entries: seq<(K, V)>, key: K)
    requires Lookup(entries, key).Some?
    ensures exists i :: 0 <= i < |entries| && entries[i] == (key, Lookup(entries, key).value)
    decreases |entries|
  {
    if entries[0].0 != key {
      LookupFound(entries[1..], key);
      var i :| 0 <= i < |entries[1..]| && entries[1..][i] == (key, Lookup(entries, key).value);
      assert entries[i + 1] == entries[1..][i];
    }
  }

  /** Appending an entry never changes an answer the list already gave; a key
      not yet present now finds the new value. */
  lemma {:induction false} LookupAppend<K, V>(entries: seq<(K, V)>, k: K, v: V, key: K)
    ensures Lookup(entries + [(k, v)], key) ==
      if Lookup(entries, key).Some? then Lookup(entries, key)
      else if key == k then Some(v)
      else None
    decreases |entries|
  {
    if |entries| > 0 {
      assert (entries + [(k, v)])[1..] == entries[1..] + [(k, v)];
      LookupAppend(entries[1..], k, v, key);
    }
  }

  /** `MyMap<K, V>`: the entries vector that `add` pushes onto. */
  class MyMap<K(==), V> {
    var entries: seq<(K, V)>

    /** `MyMap::new`: no entries. */
    constructor ()
      ensures entries == []
    {
      entries := [];
    }

    /** `add`: pushes `(key, value)` at the end, earlier entries unchanged. */
    method Add(key: K, value: V)
      modifies this
      ensures entries == old(entries) + [(key, value)]
    {
      entries := entries + [(key, value)];
    }

    /** `get`: scans the entries in order and returns the value of the first
        one whose key equals `key`; the map is only read. */
    method Get(key: K) returns (r: Option<V>)
      ensures r == Lookup(entries, key)
    {
      for i := 0 to |entries|
        invariant Lookup(entries[i..], key) == Lookup(entries, key)
      {
        if entries[i].0 == key {
          return Some(entries[i].1);
        }
        assert entries[i..][1..] == entries[i + 1..];
      }
      r := None;
    }
  }

  /** A new map answers `None` for every key. */
  method NewIsEmpty<K(==), V>(key: K) returns (r: Option<V>)
    ensures r == None
  {
    var m := new MyMap<K, V>();
    r := m.Get(key);
  }

  /** Adding a key absent from the map makes `get` find the new value. */
  method AddThenGet<K(==), V>(m: MyMap<K, V>, key: K, value: V) returns (r: Option<V>)
    requires forall i :: 0 <= i < |m.entries| ==> m.entries[i].0 != key
    modifies m
    ensures r == Some(value)
  {
    LookupAppend(m.entries, key, value, key);
    m.Add(key, value);
    r := m.Get(key);
  }

  /** The unit test: after apple→3, kiwi→1 and orange→5, `get("apple")` is 3
      and `get("orange")` is 5. */
  method FruitScenario() returns (apple: Option<int>, orange: Option<int>)
    ensures apple == Some(3) && orange == Some(5)
  {
    var m := new MyMap<string, int>();
    m.Add("apple", 3);
    m.Add("kiwi", 1);
    m.Add("orange", 5);
    assert m.entries == [("apple", 3), ("kiwi", 1), ("orange", 5)];
    LookupFirstMatch(m.entries, "orange", 2);
    apple := m.Get("apple");
    orange := m.Get("orange");
  }
}
