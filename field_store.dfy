/** The per-object field store: a Python instance `__dict__`, an
    insertion-ordered map from attribute names to values. It is modelled as
    the sequence of its entries in store order; `Distinct` (no key twice) is
    the invariant every operation keeps. */
module FieldStore {
  import opened PyValues

  type Entry = (string, Value)

  ghost predicate Distinct(s: seq<Entry>)
  {
    forall i, j :: 0 <= i < j < |s| ==> s[i].0 != s[j].0
  }

  /** `list(d.keys())`: the keys in store order. */
  function Keys(s: seq<Entry>): (ks: seq<string>)
    ensures |ks| == |s|
    ensures forall i :: 0 <= i < |s| ==> ks[i] == s[i].0
  {
    if s == [] then [] else [s[0].0] + Keys(s[1..])
  }

  /** `list(d.values())`: the values in store order. */
  function Values(s: seq<Entry>): (vs: seq<Value>)
    ensures |vs| == |s|
    ensures forall i :: 0 <= i < |s| ==> vs[i] == s[i].1
  {
    if s == [] then [] else [s[0].1] + Values(s[1..])
  }

  /** Lookup of `k`: the value stored under it, or `None` when the key is
      absent. On a store without repeated keys it is the value at the
      key's position. */
  function Find(s: seq<Entry>, k: string): (r: Option<Value>)
  {
    if s == [] then None
    else if s[0].0 == k then Some(s[0].1)
    else Find(s[1..], k)
  }

  /** `d[k] = v`: an existing key is updated where it stands, a new key is
      appended at the end (`PutPresent`, `PutAbsent`). */
  function Put(s: seq<Entry>, k: string, v: Value): (r: seq<Entry>)
    ensures Find(r, k) == Some(v)
  {
    if s == [] then [(k, v)]
    else if s[0].0 == k then [(k, v)] + s[1..]
    else [s[0]] + Put(s[1..], k, v)
  }

  /** `d.pop(k, None)`: every entry under `k` is dropped and the rest keep
      their order (`RemovePresent`); an absent key leaves the store as it is. */
  function Remove(s: seq<Entry>, k: string): (r: seq<Entry>)
    ensures Find(r, k) == None
    ensures k !in Keys(s) ==> r == s
  {
    if s == [] then []
    else if s[0].0 == k then Remove(s[1..], k)
    else [s[0]] + Remove(s[1..], k)
  }

  /** Updating a key already present rewrites that one entry in place. */
  lemma {:induction false} PutPresent(s: seq<Entry>, k: string, v: Value, i: nat)
    requires Distinct(s) && i < |s| && s[i].0 == k
    ensures Put(s, k, v) == s[i := (k, v)]
  {
    if i > 0 {
      assert s[0].0 != k;
      PutPresent(s[1..], k, v, i - 1);
      assert s[i := (k, v)] == [s[0]] + s[1..][i - 1 := (k, v)];
    }
  }

  /** Storing a new key appends one entry and leaves the others as they were. */
  lemma {:induction false} PutAbsent(s: seq<Entry>, k: string, v: Value)
    requires k !in Keys(s)
    ensures Put(s, k, v) == s + [(k, v)]
  {
    if s != [] {
      var t := s[1..];
      assert Keys(s) == [s[0].0] + Keys(t);
      PutAbsent(t, k, v);
      assert s == [s[0]] + t;
    }
  }

  /** Deleting a present key removes exactly its entry: the entries before
      and after it stay, in the same order. */
  lemma {:induction false} RemovePresent(s: seq<Entry>, k: string, i: nat)
    requires Distinct(s) && i < |s| && s[i].0 == k
    ensures Remove(s, k) == s[..i] + s[i + 1..]
  {
    if i == 0 {
      RemoveHead(s);
    } else {
      RemoveTail(s, i);
      RemovePresent(s[1..], k, i - 1);
      DropAtCons(s, i);
    }
  }

  /** Popping the first key of a store without repeated keys drops the
      first entry only. */
  lemma RemoveHead(s: seq<Entry>)
    requires Distinct(s) && s != []
    ensures Remove(s, s[0].0) == s[1..]
  {
    forall j | 0 <= j < |s| - 1 ensures Keys(s[1..])[j] != s[0].0 {
      assert s[1..][j] == s[j + 1];
    }
  }

  lemma DropAtCons(s: seq<Entry>, i: nat)
    requires 0 < i < |s|
    ensures [s[0]] + (s[1..][..i - 1] + s[1..][i..]) == s[..i] + s[i + 1..]
  {
  }

  lemma RemoveTail(s: seq<Entry>, i: nat)
    requires Distinct(s) && 0 < i < |s|
    ensures Distinct(s[1..]) && s[1..][i - 1] == s[i]
    ensures Remove(s, s[i].0) == [s[0]] + Remove(s[1..], s[i].0)
  {
  }

  lemma KeysAppend(a: seq<Entry>, b: seq<Entry>)
    ensures Keys(a + b) == Keys(a) + Keys(b)
  {
    assert forall i :: 0 <= i < |a + b| ==> Keys(a + b)[i] == (Keys(a) + Keys(b))[i];
  }

  /** Lookup succeeds exactly on the keys the store lists. */
  lemma {:induction false} FindKeys(s: seq<Entry>, k: string)
    ensures Find(s, k).Some? <==> k in Keys(s)
  {
    if s != [] {
      assert Keys(s) == [s[0].0] + Keys(s[1..]);
      FindKeys(s[1..], k);
    }
  }

  /** On a store without repeated keys, lookup yields the value at the
      key's position. */
  lemma {:induction false} FindAt(s: seq<Entry>, k: string, i: nat)
    requires Distinct(s) && i < |s| && s[i].0 == k
    ensures Find(s, k) == Some(s[i].1)
  {
    if i > 0 {
      assert s[0].0 != k;
      FindAt(s[1..], k, i - 1);
    }
  }

  lemma FindAtAll(s: seq<Entry>, k: string)
    requires Distinct(s)
    ensures forall i :: 0 <= i < |s| && s[i].0 == k ==> Find(s, k) == Some(s[i].1)
  {
    forall i | 0 <= i < |s| && s[i].0 == k ensures Find(s, k) == Some(s[i].1) {
      FindAt(s, k, i);
    }
  }

  /** `d[k] = v` does not change what any other key maps to. */
  lemma {:induction false} PutFrame(s: seq<Entry>, k: string, v: Value, k': string)
    requires k' != k
    ensures Find(Put(s, k, v), k') == Find(s, k')
  {
    if s != [] && s[0].0 != k {
      PutFrame(s[1..], k, v, k');
    }
  }

  /** `d[k] = v` keeps the key order: an existing key stays where it is, a
      new key goes last. */
  lemma {:induction false} PutKeys(s: seq<Entry>, k: string, v: Value)
    ensures Keys(Put(s, k, v)) == if k in Keys(s) then Keys(s) else Keys(s) + [k]
  {
    if s != [] {
      var t := s[1..];
      assert s == [s[0]] + t;
      KeysAppend([s[0]], t);
      if s[0].0 == k {
        KeysAppend([(k, v)], t);
      } else {
        PutKeys(t, k, v);
        KeysAppend([s[0]], Put(t, k, v));
      }
    }
  }

  /** A store whose key list has no repetition satisfies `Distinct`. */
  lemma DistinctFromKeys(s: seq<Entry>)
    requires forall i, j :: 0 <= i < j < |Keys(s)| ==> Keys(s)[i] != Keys(s)[j]
    ensures Distinct(s)
  {
    forall i, j | 0 <= i < j < |s| ensures s[i].0 != s[j].0 {
      assert Keys(s)[i] == s[i].0 && Keys(s)[j] == s[j].0;
    }
  }

  lemma PutDistinct(s: seq<Entry>, k: string, v: Value)
    requires Distinct(s)
    ensures Distinct(Put(s, k, v))
  {
    PutKeys(s, k, v);
    DistinctFromKeys(Put(s, k, v));
  }

  /** `d.pop(k, None)` does not change what any other key maps to. */
  lemma {:induction false} RemoveFrame(s: seq<Entry>, k: string, k': string)
    requires k' != k
    ensures Find(Remove(s, k), k') == Find(s, k')
  {
    if s != [] {
      RemoveFrame(s[1..], k, k');
    }
  }

  /** The keys left by `d.pop(k, None)` all come from the old store. */
  lemma {:induction false} RemoveKeysFrom(s: seq<Entry>, k: string)
    ensures forall x :: x in Keys(Remove(s, k)) ==> x in Keys(s)
  {
    if s != [] {
      var t := s[1..];
      assert Keys(s) == [s[0].0] + Keys(t);
      RemoveKeysFrom(t, k);
      if s[0].0 != k {
        assert Keys(Remove(s, k)) == [s[0].0] + Keys(Remove(t, k));
      }
    }
  }

  lemma {:induction false} RemoveDistinct(s: seq<Entry>, k: string)
    requires Distinct(s)
    ensures Distinct(Remove(s, k))
  {
    if s != [] {
      var t := s[1..];
      assert Distinct(t);
      RemoveDistinct(t, k);
      if s[0].0 != k {
        RemoveKeysFrom(t, k);
        assert s[0].0 !in Keys(Remove(t, k)) by {
          assert Keys(s) == [s[0].0] + Keys(t);
          assert s[0].0 !in Keys(t);
        }
      }
    }
  }
}
