/**
 * JavaScript objects with string keys, as ordered lists of entries: an assignment to a new
 * key appends, an assignment to an existing key keeps its position.
 */
module JsObject {
  import opened Wrappers

  datatype Entry<+V> = Entry(key: string, value: V)

  /** The value under `key`, or None when the property is undefined. */
  function Get<V>(entries: seq<Entry<V>>, key: string): Option<V> {
    if entries == [] then None
    else if entries[0].key == key then Some(entries[0].value)
    else Get(entries[1..], key)
  }

  /** `object[key] = value` */
  function Put<V>(entries: seq<Entry<V>>, key: string, value: V): seq<Entry<V>> {
    if entries == [] then [Entry(key, value)]
    else if entries[0].key == key then [Entry(key, value)] + entries[1..]
    else [entries[0]] + Put(entries[1..], key, value)
  }

  /** `delete object[key]` */
  function Remove<V>(entries: seq<Entry<V>>, key: string): seq<Entry<V>> {
    if entries == [] then []
    else if entries[0].key == key then Remove(entries[1..], key)
    else [entries[0]] + Remove(entries[1..], key)
  }

  /** Appending a key that is not there yet. */
  lemma {:induction false} PutNew<V>(entries: seq<Entry<V>>, key: string, value: V)
    requires Get(entries, key).None?
    ensures Put(entries, key, value) == entries + [Entry(key, value)]
  {
    if entries != [] {
      PutNew(entries[1..], key, value);
      assert entries == [entries[0]] + entries[1..];
    }
  }

  /** An assignment changes the assigned key and no other. */
  lemma {:induction false} GetPut<V>(entries: seq<Entry<V>>, key: string, value: V, other: string)
    ensures Get(Put(entries, key, value), other) == if other == key then Some(value) else Get(entries, other)
  {
    if entries != [] && entries[0].key != key {
      GetPut(entries[1..], key, value, other);
    }
  }

  /** A deletion removes the deleted key and no other. */
  lemma {:induction false} GetRemove<V>(entries: seq<Entry<V>>, key: string, other: string)
    ensures Get(Remove(entries, key), other) == if other == key then None else Get(entries, other)
  {
    if entries != [] {
      GetRemove(entries[1..], key, other);
    }
  }

  function FirstFound<V>(a: Option<V>, b: Option<V>): Option<V> {
    if a.Some? then a else b
  }

  lemma GetOne<V>(e: Entry<V>, key: string)
    ensures Get([e], key) == if e.key == key then Some(e.value) else None
  {
    assert [e][1..] == [];
  }

  /** In a list of entries the earlier one is found. */
  lemma {:induction false} GetConcat<V>(a: seq<Entry<V>>, b: seq<Entry<V>>, key: string)
    ensures Get(a + b, key) == FirstFound(Get(a, key), Get(b, key))
  {
    if a == [] {
      assert a + b == b;
    } else {
      assert (a + b)[1..] == a[1..] + b;
      GetConcat(a[1..], b, key);
    }
  }
}
