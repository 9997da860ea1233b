/** `SetOnceDict`: a map written through `d[key] = value` in which a key,
    once it holds a value other than `None`, keeps that value for good.
    A key is in one of three states: absent, holding `None` (still
    writable), or holding a value (sealed). */
module Utils {
  import opened PyValues

  /** The outcome of `d[key]`: the stored value, or the `KeyError` raised
      for a key that was never written. */
  datatype Lookup = Found(value: Value) | KeyError(key: string)

  /** A key whose value can no longer change. */
  predicate Sealed(m: map<string, Value>, key: string)
  {
    key in m && m[key] != PyNone
  }

  /** The map after `d[key] = value`. A sealed key ignores the write and the
      map stays as it was; otherwise the key holds `value` afterwards. No
      other key changes and the key set gains exactly `key`. */
  function Written(m: map<string, Value>, key: string, value: Value): (r: map<string, Value>)
    ensures r.Keys == m.Keys + {key}
    ensures Sealed(m, key) ==> r == m
    ensures !Sealed(m, key) ==> r[key] == value
    ensures forall k :: k in m && k != key ==> r[k] == m[k]
  {
    if Sealed(m, key) then m else m[key := value]
  }

  /** The map after the writes `ws`, applied in order. */
  function WriteAll(m: map<string, Value>, ws: seq<(string, Value)>): map<string, Value>
    decreases |ws|
  {
    if ws == [] then m else WriteAll(Written(m, ws[0].0, ws[0].1), ws[1..])
  }

  /** The keys that the writes `ws` name. */
  function WrittenKeys(ws: seq<(string, Value)>): set<string>
    decreases |ws|
  {
    if ws == [] then {} else {ws[0].0} + WrittenKeys(ws[1..])
  }

  /** Once a key holds a value other than `None`, any further sequence of
      writes leaves it holding that value. */
  lemma {:induction false} SealedStays(m: map<string, Value>, ws: seq<(string, Value)>, key: string)
    requires Sealed(m, key)
    ensures Sealed(WriteAll(m, ws), key)
    ensures WriteAll(m, ws)[key] == m[key]
    decreases |ws|
  {
    if ws != [] {
      SealedStays(Written(m, ws[0].0, ws[0].1), ws[1..], key);
    }
  }

  /** There is no delete: the keys after a sequence of writes are the old
      keys together with the written ones. */
  lemma {:induction false} WriteAllKeys(m: map<string, Value>, ws: seq<(string, Value)>)
    ensures WriteAll(m, ws).Keys == m.Keys + WrittenKeys(ws)
    decreases |ws|
  {
    if ws != [] {
      WriteAllKeys(Written(m, ws[0].0, ws[0].1), ws[1..]);
    }
  }

  /** A key that no write names keeps its state, present or absent. */
  lemma {:induction false} UnwrittenKeyUnchanged(m: map<string, Value>, ws: seq<(string, Value)>, key: string)
    requires key !in WrittenKeys(ws)
    ensures key in WriteAll(m, ws) <==> key in m
    ensures key in m ==> WriteAll(m, ws)[key] == m[key]
    decreases |ws|
  {
    if ws != [] {
      UnwrittenKeyUnchanged(Written(m, ws[0].0, ws[0].1), ws[1..], key);
    }
  }

  /** The first write that gives an open key a value other than `None`
      decides its value for good. */
  lemma {:induction false} FirstValueWins(m: map<string, Value>, key: string, v: Value, ws: seq<(string, Value)>)
    requires !Sealed(m, key) && v != PyNone
    ensures key in WriteAll(m, [(key, v)] + ws)
    ensures WriteAll(m, [(key, v)] + ws)[key] == v
  {
    var m1 := Written(m, key, v);
    assert Sealed(m1, key);
    SealedStays(m1, ws, key);
    assert ([(key, v)] + ws)[1..] == ws;
  }

  /** The write-once map. `entries` is the wrapped `_dict`. */
  class SetOnceDict {
    var entries: map<string, Value>

    /** `SetOnceDict()`: an empty map. */
    constructor()
      ensures entries == map[]
    {
      entries := map[];
    }

    /** `d[key] = value`: ignored when `key` is sealed, a plain store
        otherwise. */
    method SetItem(key: string, value: Value)
      modifies this
      ensures entries == Written(old(entries), key, value)
      ensures GetItem(key) == if old(Sealed(entries, key)) then old(GetItem(key)) else Found(value)
    {
      if key in entries && entries[key] != PyNone {
        return;
      }
      entries := entries[key := value];
    }

    /** `d[key]`: the stored value, `None` included, or `KeyError` for a key
        never written. */
    function GetItem(key: string): (r: Lookup)
      reads this
      ensures r.Found? <==> key in entries
      ensures r.Found? ==> r.value == entries[key]
      ensures r.KeyError? ==> r.key == key
    {
      if key in entries then Found(entries[key]) else KeyError(key)
    }
  }

  /** The first test: a second write to a sealed key is ignored. */
  lemma SetTwiceKeepsFirst()
    ensures var m := WriteAll(map[], [("key", PyStr("value")), ("key", PyStr("new_value"))]);
            m == map["key" := PyStr("value")]
  {
    var m1 := Written(map[], "key", PyStr("value"));
    assert m1 == map["key" := PyStr("value")];
    assert Sealed(m1, "key");
  }

  /** The second test: a key holding `None` takes a later value. */
  lemma NoneThenValue()
    ensures var m := WriteAll(map[], [("key", PyNone), ("key", PyStr("new_value"))]);
            m == map["key" := PyStr("new_value")]
  {
    var m1 := Written(map[], "key", PyNone);
    assert m1 == map["key" := PyNone];
  }
}
