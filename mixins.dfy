/** The behaviours the library's mixin classes layer on a host object's field
    store: keyed access (`ItemGetMixin`, `ItemSetMixin`, `ItemDelMixin`,
    `ItemMixin`), attribute reads with a `None` default (`AttrGetMixin`),
    iteration (`IterMixin`), rebuilding the store from declared members
    (`ReDictMixin`), the formatted representation (`ReprMixin`) and the
    text of `MixinError`. */
module Mixins {
  import opened PyValues
  import FS = FieldStore

  // ---------------------------------------------------------------------
  // MixinError

  /** A `MixinError`: its message and, when there is one, the text of the
      exception it wraps. */
  datatype MixinError = MixinError(message: string, originalError: Option<string>)

  /** `str(MixinError(...))`: the message, followed by the wrapped error
      when there is one. */
  function ErrorText(e: MixinError): (r: string)
    ensures |e.message| <= |r| && r[..|e.message|] == e.message
    ensures r == e.message <==> e.originalError.None?
    ensures e.originalError.Some? ==>
      r[|e.message|..] == " (Original error: " + e.originalError.value + ")"
  {
    match e.originalError
    case Some(cause) => e.message + " (Original error: " + cause + ")"
    case None => e.message
  }

  // ---------------------------------------------------------------------
  // Rebuilding the store from declared members (ReDictMixin)

  /** What reading a member yields: a plain value, something callable, or an
      `AttributeError`. */
  datatype Kind = Field(value: Value) | Callable | Raises

  /** A member the rebuild scans: a name of the class's own `__dict__`
      (`get_dict_from_class`) or a name `dir()` lists for the instance
      together with what `getattr` returns for it (`get_dict_from_instance`). */
  datatype Member = Member(name: string, kind: Kind)

  /** Names starting with `__` are skipped by the rebuild. */
  predicate IsDunder(name: string)
  {
    |name| >= 2 && name[..2] == "__"
  }

  /** A member the rebuild copies into the store: not `__`-prefixed, readable
      and not callable. */
  predicate Eligible(m: Member)
  {
    !IsDunder(m.name) && m.kind.Field?
  }

  /** The `attrs` dict the rebuild loop builds: the eligible members, taken
      in scan order, each stored under its name. */
  function Collect(ms: seq<Member>): seq<FS.Entry>
    decreases |ms|
  {
    if ms == [] then []
    else
      var acc := Collect(ms[..|ms| - 1]);
      var m := ms[|ms| - 1];
      if Eligible(m) then FS.Put(acc, m.name, m.kind.value) else acc
  }

  /** The store after a rebuild: refilled from the members only when it was
      empty, left alone otherwise. */
  function Rebuild(s: seq<FS.Entry>, ms: seq<Member>): (r: seq<FS.Entry>)
    ensures s != [] ==> r == s
    ensures s == [] ==> r == Collect(ms)
  {
    if s == [] then Collect(ms) else s
  }

  /** The rebuilt store never holds a key twice. */
  lemma {:induction false} CollectDistinct(ms: seq<Member>)
    ensures FS.Distinct(Collect(ms))
  {
    if ms != [] {
      var m := ms[|ms| - 1];
      CollectDistinct(ms[..|ms| - 1]);
      if Eligible(m) {
        FS.PutDistinct(Collect(ms[..|ms| - 1]), m.name, m.kind.value);
      }
    }
  }

  /** A key ends up in the rebuilt store exactly when some eligible member
      carries that name. */
  lemma {:induction false} CollectKeys(ms: seq<Member>, k: string)
    ensures k in FS.Keys(Collect(ms)) <==>
      exists i :: 0 <= i < |ms| && Eligible(ms[i]) && ms[i].name == k
  {
    if ms != [] {
      var init := ms[..|ms| - 1];
      var m := ms[|ms| - 1];
      CollectKeys(init, k);
      if Eligible(m) {
        FS.PutKeys(Collect(init), m.name, m.kind.value);
      }
      if exists i :: 0 <= i < |ms| && Eligible(ms[i]) && ms[i].name == k {
        var i :| 0 <= i < |ms| && Eligible(ms[i]) && ms[i].name == k;
        if i < |ms| - 1 {
          assert init[i] == ms[i];
        }
      } else {
        forall i | 0 <= i < |init| ensures !(Eligible(init[i]) && init[i].name == k) {
          assert init[i] == ms[i];
        }
      }
    }
  }

  /** The value stored under a name is that of the last eligible member
      with that name. */
  lemma {:induction false} CollectValue(ms: seq<Member>, i: nat)
    requires i < |ms| && Eligible(ms[i])
    requires forall j :: i < j < |ms| && Eligible(ms[j]) ==> ms[j].name != ms[i].name
    ensures FS.Find(Collect(ms), ms[i].name) == Some(ms[i].kind.value)
  {
    var init := ms[..|ms| - 1];
    var m := ms[|ms| - 1];
    if i < |ms| - 1 {
      forall j | i < j < |init| && Eligible(init[j]) ensures init[j].name != init[i].name {
        assert init[j] == ms[j];
      }
      CollectValue(init, i);
      if Eligible(m) {
        FS.PutFrame(Collect(init), m.name, m.kind.value, ms[i].name);
      }
    }
  }

  /** The eligible members as store entries, in scan order. */
  function Selected(ms: seq<Member>): seq<FS.Entry>
    decreases |ms|
  {
    if ms == [] then []
    else
      var m := ms[|ms| - 1];
      Selected(ms[..|ms| - 1]) + if Eligible(m) then [(m.name, m.kind.value)] else []
  }

  predicate DistinctNames(ms: seq<Member>)
  {
    forall i, j :: 0 <= i < j < |ms| ==> ms[i].name != ms[j].name
  }

  /** A name no member carries is not a key of `Selected(ms)`. */
  lemma {:induction false} SelectedOmits(ms: seq<Member>, k: string)
    requires forall i :: 0 <= i < |ms| ==> ms[i].name != k
    ensures k !in FS.Keys(Selected(ms))
  {
    if ms != [] {
      var init := ms[..|ms| - 1];
      var m := ms[|ms| - 1];
      var tail: seq<FS.Entry> := if Eligible(m) then [(m.name, m.kind.value)] else [];
      forall i | 0 <= i < |init| ensures init[i].name != k {
        assert init[i] == ms[i];
      }
      SelectedOmits(init, k);
      FS.KeysAppend(Selected(init), tail);
    }
  }

  /** When the scanned names are distinct, as in a class `__dict__` or a
      `dir()` listing, the rebuilt store is exactly the eligible members in
      scan order. */
  lemma {:induction false} CollectInScanOrder(ms: seq<Member>)
    requires DistinctNames(ms)
    ensures Collect(ms) == Selected(ms)
  {
    if ms != [] {
      var init := ms[..|ms| - 1];
      var m := ms[|ms| - 1];
      assert DistinctNames(init);
      CollectInScanOrder(init);
      if Eligible(m) {
        forall i | 0 <= i < |init| ensures init[i].name != m.name {
          assert init[i] == ms[i];
        }
        SelectedOmits(init, m.name);
        FS.PutAbsent(Selected(init), m.name, m.kind.value);
      }
    }
  }

  /** Rebuilding twice is the same as rebuilding once. */
  lemma RebuildIdempotent(s: seq<FS.Entry>, ms: seq<Member>)
    ensures Rebuild(Rebuild(s, ms), ms) == Rebuild(s, ms)
  {
  }

  // ---------------------------------------------------------------------
  // The formatted representation (ReprMixin)

  /** `f'{k}={v!r}'` */
  function Render(e: FS.Entry): string
  {
    e.0 + "=" + ReprValue(e.1)
  }

  /** The `k=repr(v)` pieces of a store, in store order. */
  function Renders(s: seq<FS.Entry>): (parts: seq<string>)
    ensures |parts| == |s|
    ensures forall i :: 0 <= i < |s| ==> parts[i] == Render(s[i])
  {
    if s == [] then [] else [Render(s[0])] + Renders(s[1..])
  }

  /** `sep.join(parts)` */
  function Join(sep: string, parts: seq<string>): string
    decreases |parts|
  {
    if |parts| == 0 then ""
    else if |parts| == 1 then parts[0]
    else parts[0] + sep + Join(sep, parts[1..])
  }

  /** `ClassName(p1, p2, ...)` around already rendered pieces, with the
      explicit `ClassName()` case when there are none. */
  function Enclose(className: string, parts: seq<string>): string
  {
    if parts == [] then className + "()"
    else className + "(" + Join(", ", parts) + ")"
  }

  /** `ClassName(k1=repr(v1), k2=repr(v2), ...)` over a store, in store order. */
  function Format(className: string, s: seq<FS.Entry>): string
  {
    Enclose(className, Renders(s))
  }

  /** Splitting a join at part `i`: the parts before it, a separator, part
      `i`, a separator, the parts after it. */
  lemma {:induction false} JoinSplit(sep: string, parts: seq<string>, i: nat)
    requires i < |parts|
    ensures Join(sep, parts) ==
      Join(sep, parts[..i]) + (if i == 0 then "" else sep) + parts[i]
      + (if i + 1 < |parts| then sep + Join(sep, parts[i + 1..]) else "")
  {
    if i > 0 {
      var rest := parts[1..];
      JoinSplit(sep, rest, i - 1);
      assert rest[i - 1] == parts[i];
      assert rest[i..] == parts[i + 1..];
      if i > 1 {
        assert parts[..i][1..] == rest[..i - 1];
      }
    }
  }

  /** Piece `i` stands in the enclosed text after the pieces before it and
      before the pieces after it, each pair separated by `", "`. */
  lemma EncloseSplit(className: string, parts: seq<string>, i: nat)
    requires i < |parts|
    ensures Enclose(className, parts) ==
      className + "(" + Join(", ", parts[..i]) + (if i == 0 then "" else ", ")
      + parts[i]
      + (if i + 1 < |parts| then ", " + Join(", ", parts[i + 1..]) else "") + ")"
  {
    JoinSplit(", ", parts, i);
  }

  predicate OccursAt(text: string, part: string, p: int)
  {
    0 <= p <= |text| - |part| && text[p..p + |part|] == part
  }

  /** Python's `part in text` on strings. */
  ghost predicate Contains(text: string, part: string)
  {
    exists p :: OccursAt(text, part, p)
  }

  lemma EncloseContains(className: string, parts: seq<string>, i: nat)
    requires i < |parts|
    ensures Contains(Enclose(className, parts), parts[i])
    ensures Enclose(className, parts)[..|className| + 1] == className + "("
  {
    EncloseSplit(className, parts, i);
    var pre := className + "(" + Join(", ", parts[..i]) + (if i == 0 then "" else ", ");
    var post := (if i + 1 < |parts| then ", " + Join(", ", parts[i + 1..]) else "") + ")";
    var text := Enclose(className, parts);
    assert text == pre + parts[i] + post;
    assert text[|pre|..|pre| + |parts[i]|] == parts[i];
    assert OccursAt(text, parts[i], |pre|);
    assert text[..|className| + 1] == pre[..|className| + 1];
  }

  /** Entry `i` of the store is rendered in the representation as
      `k=repr(v)` between the renderings of the entries before it and
      those of the entries after it. */
  lemma FormatSplit(className: string, s: seq<FS.Entry>, i: nat)
    requires i < |s|
    ensures Format(className, s) ==
      className + "(" + Join(", ", Renders(s[..i])) + (if i == 0 then "" else ", ")
      + Render(s[i])
      + (if i + 1 < |s| then ", " + Join(", ", Renders(s[i + 1..])) else "") + ")"
  {
    var parts := Renders(s);
    EncloseSplit(className, parts, i);
    RendersSlice(s, i);
  }

  /** The pieces of the entries before and after `i` are the pieces before
      and after piece `i`. */
  lemma RendersSlice(s: seq<FS.Entry>, i: nat)
    requires i < |s|
    ensures Renders(s)[..i] == Renders(s[..i])
    ensures Renders(s)[i + 1..] == Renders(s[i + 1..])
  {
    var parts, pre, post := Renders(s), Renders(s[..i]), Renders(s[i + 1..]);
    forall j | 0 <= j < i ensures parts[..i][j] == pre[j] {
      assert s[..i][j] == s[j];
    }
    forall j | 0 <= j < |s| - i - 1 ensures parts[i + 1..][j] == post[j] {
      assert s[i + 1..][j] == s[i + 1 + j];
    }
  }

  /** Every stored pair `k=repr(v)` can be found in the representation
      (Python's `"name='test'" in repr(obj)`), which starts with the class
      name and an opening parenthesis. */
  lemma FormatShowsEntry(className: string, s: seq<FS.Entry>, i: nat)
    requires i < |s|
    ensures Contains(Format(className, s), Render(s[i]))
    ensures Format(className, s)[..|className| + 1] == className + "("
  {
    EncloseContains(className, Renders(s), i);
  }

  /** The renderings of the values the library's tests store. */
  lemma RenderExamples()
    ensures Render(("name", PyStr("test"))) == "name='test'"
    ensures Render(("value", PyInt(42))) == "value=42"
    ensures Render(("debug", PyBool(true))) == "debug=True"
    ensures Render(("timeout", PyInt(30))) == "timeout=30"
    ensures Render(("host", PyStr("localhost"))) == "host='localhost'"
  {
    RenderIntExamples();
    RenderTextExamples();
  }

  lemma RenderIntExamples()
    ensures Render(("value", PyInt(42))) == "value=42"
    ensures Render(("timeout", PyInt(30))) == "timeout=30"
  {
    DecimalExamples();
  }

  lemma RenderTextExamples()
    ensures Render(("name", PyStr("test"))) == "name='test'"
    ensures Render(("debug", PyBool(true))) == "debug=True"
    ensures Render(("host", PyStr("localhost"))) == "host='localhost'"
  {
  }

  lemma DecimalExamples()
    ensures IntToString(42) == "42" && IntToString(30) == "30"
  {
    assert NatToString(4) == "4";
    assert NatToString(3) == "3";
  }

  /** The formats of the test objects: an object without fields, and one
      holding `name='test'` and `value=42` in that order. */
  lemma FormatTestClass()
    ensures Format("TestClass", []) == "TestClass()"
    ensures Format("TestClass", [("name", PyStr("test")), ("value", PyInt(42))])
      == "TestClass(name='test', value=42)"
  {
    var s := [("name", PyStr("test")), ("value", PyInt(42))];
    RenderExamples();
    assert Renders(s) == ["name='test'", "value=42"];
    EncloseTestClass();
  }

  lemma EncloseTestClass()
    ensures Enclose("TestClass", ["name='test'", "value=42"]) == "TestClass(name='test', value=42)"
  {
    var parts := ["name='test'", "value=42"];
    assert Join(", ", parts) == parts[0] + ", " + parts[1];
  }

  /** The integration test's configuration object: `debug=False` and
      `timeout=30` set first, then `debug` overwritten where it stood and
      `host` appended; its representation shows `debug=True` and
      `host='localhost'`. */
  lemma FormatConfig()
    ensures FS.Put(FS.Put(FS.Put(FS.Put([], "debug", PyBool(false)),
      "timeout", PyInt(30)), "debug", PyBool(true)), "host", PyStr("localhost"))
      == [("debug", PyBool(true)), ("timeout", PyInt(30)), ("host", PyStr("localhost"))]
    ensures Contains(Format("Config", [("debug", PyBool(true)), ("timeout", PyInt(30)),
      ("host", PyStr("localhost"))]), "debug=True")
    ensures Contains(Format("Config", [("debug", PyBool(true)), ("timeout", PyInt(30)),
      ("host", PyStr("localhost"))]), "host='localhost'")
  {
    var s := [("debug", PyBool(true)), ("timeout", PyInt(30)), ("host", PyStr("localhost"))];
    RenderExamples();
    FormatShowsEntry("Config", s, 0);
    FormatShowsEntry("Config", s, 2);
  }

  // ---------------------------------------------------------------------
  // The host object

  /** An object that mixes in the library's behaviours: the class's
      qualified name, the class's own `__dict__` members (what
      `get_dict_from_class` scans) and the instance `__dict__`, the field
      store every behaviour reads and writes. */
  class HostObject {
    const className: string
    const classMembers: seq<Member>
    var store: seq<FS.Entry>

    ghost predicate Valid()
      reads this
    {
      FS.Distinct(store)
    }

    /** A new instance starts with an empty field store. */
    constructor (className: string, classMembers: seq<Member>)
      ensures Valid()
      ensures this.className == className && this.classMembers == classMembers
      ensures store == []
    {
      this.className := className;
      this.classMembers := classMembers;
      store := [];
    }

    /** `obj[key]` (`ItemGetMixin.__getitem__`): the stored value, or `None`
        when the key is missing; a miss is not an error. */
    function GetItem(key: string): (r: Value)
      reads this
      requires Valid()
      ensures forall i :: 0 <= i < |store| && store[i].0 == key ==> r == store[i].1
      ensures key !in FS.Keys(store) ==> r == PyNone
    {
      FS.FindKeys(store, key);
      FS.FindAtAll(store, key);
      match FS.Find(store, key)
      case Some(v) => v
      case None => PyNone
    }

    /** `obj[key] = value` (`ItemSetMixin.__setitem__`). */
    method SetItem(key: string, value: Value)
      requires Valid()
      modifies this
      ensures Valid()
      ensures store == FS.Put(old(store), key, value)
      ensures GetItem(key) == value
      ensures forall k :: k != key ==> GetItem(k) == old(GetItem(k))
      ensures FS.Keys(store) ==
        if key in FS.Keys(old(store)) then FS.Keys(old(store)) else FS.Keys(old(store)) + [key]
    {
      ghost var before := store;
      FS.PutDistinct(store, key, value);
      FS.PutKeys(store, key, value);
      store := FS.Put(store, key, value);
      forall k | k != key ensures GetItem(k) == old(GetItem(k)) {
        FS.PutFrame(before, key, value, k);
      }
    }

    /** `del obj[key]` (`ItemDelMixin.__delitem__`, `pop(key, None)`): the
        entry under `key` goes, everything else stays in order; a missing
        key is not an error. */
    method DelItem(key: string)
      requires Valid()
      modifies this
      ensures Valid()
      ensures store == FS.Remove(old(store), key)
      ensures key !in FS.Keys(store) && GetItem(key) == PyNone
      ensures forall k :: k != key ==> GetItem(k) == old(GetItem(k))
      ensures key !in FS.Keys(old(store)) ==> store == old(store)
      ensures forall i :: 0 <= i < |old(store)| && old(store)[i].0 == key ==>
        store == old(store)[..i] + old(store)[i + 1..]
    {
      ghost var before := store;
      FS.RemoveDistinct(store, key);
      store := FS.Remove(store, key);
      FS.FindKeys(store, key);
      forall k | k != key ensures GetItem(k) == old(GetItem(k)) {
        FS.RemoveFrame(before, key, k);
      }
      forall i | 0 <= i < |before| && before[i].0 == key
        ensures store == before[..i] + before[i + 1..]
      {
        FS.RemovePresent(before, key, i);
      }
    }

    /** `obj.keys()` (`ItemMixin.keys`): a fresh list of the keys in store order. */
    function Keys(): (ks: seq<string>)
      reads this
      ensures |ks| == |store|
      ensures forall i :: 0 <= i < |store| ==> ks[i] == store[i].0
    {
      FS.Keys(store)
    }

    /** `obj.values()` (`ItemMixin.values`): the values in store order. */
    function Values(): (vs: seq<Value>)
      reads this
      ensures |vs| == |store|
      ensures forall i :: 0 <= i < |store| ==> vs[i] == store[i].1
    {
      FS.Values(store)
    }

    /** `obj.items()` (`ItemMixin.items`): the pairs in store order, entry
        `i` pairing the `i`-th key with the `i`-th value. */
    function Items(): (its: seq<FS.Entry>)
      reads this
      ensures |its| == |Keys()| == |Values()|
      ensures forall i :: 0 <= i < |its| ==> its[i] == (Keys()[i], Values()[i])
    {
      store
    }

    /** `list(obj)` (`IterMixin.__iter__`): iteration yields exactly the
        `items()` pairs, in store order; an empty store yields nothing. */
    function Iter(): (r: seq<FS.Entry>)
      reads this
      ensures r == Items()
      ensures |r| == |store|
      ensures forall i :: 0 <= i < |r| ==> r[i] == store[i]
    {
      store
    }

    /** `obj.name` (`AttrGetMixin.__getattr__`): a name found in the
        instance store reads its value; for any other name the hook
        answers `None` instead of raising `AttributeError`. */
    function GetAttr(key: string): (r: Value)
      reads this
      requires Valid()
      ensures key !in FS.Keys(store) ==> r == PyNone
      ensures key in FS.Keys(store) ==> FS.Find(store, key) == Some(r)
    {
      FS.FindKeys(store, key);
      match FS.Find(store, key)
      case Some(v) => v
      case None => MissingAttr(key)
    }

    /** `get_dict_from_instance`: when the store is empty, scan what the
        instance exposes (`visible`, in `dir()` order with what `getattr`
        yields) and replace the store with the eligible members; otherwise
        leave it alone. */
    method GetDictFromInstance(visible: seq<Member>) returns (d: seq<FS.Entry>)
      requires Valid()
      modifies this
      ensures Valid()
      ensures store == Rebuild(old(store), visible)
      ensures d == store
    {
      if store == [] {
        var attrs: seq<FS.Entry> := [];
        var i := 0;
        while i < |visible|
          invariant 0 <= i <= |visible|
          invariant attrs == Collect(visible[..i])
        {
          var m := visible[i];
          assert visible[..i + 1][..i] == visible[..i];
          if !IsDunder(m.name) {
            match m.kind
            case Raises =>
            case Callable =>
            case Field(value) =>
              attrs := FS.Put(attrs, m.name, value);
          }
          i := i + 1;
        }
        assert visible[..i] == visible;
        CollectDistinct(visible);
        store := attrs;
      }
      d := store;
    }

    /** `get_dict_from_class`: when the store is empty, replace it with the
        eligible members of the class's own `__dict__`; otherwise leave it
        alone. */
    method GetDictFromClass() returns (d: seq<FS.Entry>)
      requires Valid()
      modifies this
      ensures Valid()
      ensures store == Rebuild(old(store), classMembers)
      ensures d == store
    {
      if store == [] {
        var attrs: seq<FS.Entry> := [];
        var i := 0;
        while i < |classMembers|
          invariant 0 <= i <= |classMembers|
          invariant attrs == Collect(classMembers[..i])
        {
          var m := classMembers[i];
          assert classMembers[..i + 1][..i] == classMembers[..i];
          if !IsDunder(m.name) && m.kind.Field? {
            attrs := FS.Put(attrs, m.name, m.kind.value);
          }
          i := i + 1;
        }
        assert classMembers[..i] == classMembers;
        CollectDistinct(classMembers);
        store := attrs;
      }
      d := store;
    }

    /** `get_dict`, bound to `get_dict_from_class`. */
    method GetDict() returns (d: seq<FS.Entry>)
      requires Valid()
      modifies this
      ensures Valid()
      ensures store == Rebuild(old(store), classMembers)
      ensures d == store
    {
      d := GetDictFromClass();
    }

    /** `repr(obj)` (`ReprMixin.__repr__`): an empty store is first rebuilt
        from the class members (which replaces the store), then the store
        is formatted in store order. */
    method Repr() returns (r: string)
      requires Valid()
      modifies this
      ensures Valid()
      ensures store == Rebuild(old(store), classMembers)
      ensures r == Format(className, store)
      ensures store == [] ==> r == className + "()"
    {
      var dic := store;
      if dic == [] {
        dic := GetDict();
      }
      r := Format(className, dic);
    }
  }

  /** The `__getattr__` hook itself: reached only for names normal lookup
      misses, it answers `None`. */
  function MissingAttr(key: string): Value
  {
    PyNone
  }
}
