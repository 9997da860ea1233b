/** Choosing which mixins a class receives: the base list `MixinClsMeta`
    builds from a class's own `Mixin*` flags, and the list
    `MixinConfig.get_mixins` builds from a configuration dict. */
module Metaclass {
  import opened PyValues

  /** A base class. The four single-purpose capabilities have their own
      constructors; any other base (`GetSetDelMixin`, user classes) is
      identified by its name. */
  datatype Base = ItemMixin | AttrMixin | IterMixin | ReprMixin | Other(name: string)

  const GetSetDelMixin: Base := Other("GetSetDelMixin")

  /** `MixinClsMeta.MIXIN_MAP`, in its fixed order. */
  const MixinMap: seq<(string, Base)> :=
    [("MixinItem", ItemMixin), ("MixinAttr", AttrMixin), ("MixinIter", IterMixin), ("MixinRepr", ReprMixin)]

  /** `MixinConfig.DEFAULT_MIXINS`, in its fixed order. */
  const DefaultMixins: seq<(string, Base)> :=
    [("item", ItemMixin), ("attr", AttrMixin), ("iter", IterMixin), ("repr", ReprMixin)]

  /** `[mixin for key, mixin in table.items() if flags.get(key)]` */
  function Enabled(table: seq<(string, Base)>, flags: map<string, Value>): seq<Base>
    decreases |table|
  {
    if table == [] then []
    else
      var last := table[|table| - 1];
      Enabled(table[..|table| - 1], flags) + if FlagSet(flags, last.0) then [last.1] else []
  }

  /** `[b]` when `c` holds, `[]` otherwise. */
  function When(c: bool, b: Base): seq<Base>
  {
    if c then [b] else []
  }

  /** The capabilities whose condition holds, in the fixed order Item, Attr,
      Iter, Repr. */
  function Pick(item: bool, attr: bool, iter: bool, repr: bool): seq<Base>
  {
    When(item, ItemMixin) + When(attr, AttrMixin) + When(iter, IterMixin) + When(repr, ReprMixin)
  }

  /** `MIXIN_MAP.values()`: the four capabilities in the table's order. */
  const Capabilities: seq<Base> := [ItemMixin, AttrMixin, IterMixin, ReprMixin]

  /** `table.values()`: the second components, in the table's order. */
  function TableValues(table: seq<(string, Base)>): (r: seq<Base>)
    ensures |r| == |table|
    ensures forall k :: 0 <= k < |table| ==> r[k] == table[k].1
    decreases |table|
  {
    if table == [] then [] else [table[0].1] + TableValues(table[1..])
  }

  /** `MIXIN_MAP` has four distinct keys and maps them to Item, Attr, Iter,
      Repr in that order. */
  lemma MixinMapTable()
    ensures |MixinMap| == 4
    ensures TableValues(MixinMap) == Capabilities
    ensures forall i, j :: 0 <= i < j < |MixinMap| ==> MixinMap[i].0 != MixinMap[j].0
  {
  }

  /** `DEFAULT_MIXINS` has four distinct keys and the same values as
      `MIXIN_MAP`, in the same order. */
  lemma DefaultMixinsTable()
    ensures |DefaultMixins| == 4
    ensures TableValues(DefaultMixins) == TableValues(MixinMap) == Capabilities
    ensures forall i, j :: 0 <= i < j < |DefaultMixins| ==> DefaultMixins[i].0 != DefaultMixins[j].0
  {
  }

  /** The test `base in MIXIN_MAP.values()` holds exactly for the four
      capabilities, each of which appears once. */
  lemma CapabilitiesMembership(b: Base)
    ensures b in Capabilities <==> !b.Other?
    ensures NoDuplicates(Capabilities)
  {
  }

  predicate NoDuplicates<T(==)>(s: seq<T>)
  {
    forall i, j :: 0 <= i < j < |s| ==> s[i] != s[j]
  }

  /** `a` is `b` with some elements left out, the rest in their order. */
  predicate IsSubsequence<T(==)>(a: seq<T>, b: seq<T>)
    decreases |b|
  {
    if a == [] then true
    else if b == [] then false
    else if a[0] == b[0] then IsSubsequence(a[1..], b[1..])
    else IsSubsequence(a, b[1..])
  }

  /** A pick holds each capability exactly when its condition does and
      never another base. */
  lemma PickMembers(item: bool, attr: bool, iter: bool, repr: bool)
    ensures ItemMixin in Pick(item, attr, iter, repr) <==> item
    ensures AttrMixin in Pick(item, attr, iter, repr) <==> attr
    ensures IterMixin in Pick(item, attr, iter, repr) <==> iter
    ensures ReprMixin in Pick(item, attr, iter, repr) <==> repr
    ensures forall b :: b in Pick(item, attr, iter, repr) ==> !b.Other?
  {
  }

  /** Every picked capability is one whose condition holds. */
  lemma PickOnly(item: bool, attr: bool, iter: bool, repr: bool)
    ensures forall b :: b in Pick(item, attr, iter, repr) ==>
      (b == ItemMixin && item) || (b == AttrMixin && attr) || (b == IterMixin && iter) || (b == ReprMixin && repr)
  {
  }

  /** A pick keeps the fixed order Item, Attr, Iter, Repr, so it holds no
      capability twice and at most four entries. */
  lemma PickOrder(item: bool, attr: bool, iter: bool, repr: bool)
    ensures IsSubsequence(Pick(item, attr, iter, repr), Capabilities)
    ensures NoDuplicates(Pick(item, attr, iter, repr))
    ensures |Pick(item, attr, iter, repr)| <= 4
  {
    var r := Pick(item, attr, iter, repr);
    var tail3 := When(repr, ReprMixin);
    var tail2 := When(iter, IterMixin) + tail3;
    var tail1 := When(attr, AttrMixin) + tail2;
    assert r == When(item, ItemMixin) + tail1;
    assert tail3 == When(repr, ReprMixin) + [];
    WhenCons(repr, ReprMixin, [], []);
    WhenCons(iter, IterMixin, tail3, [ReprMixin]);
    WhenCons(attr, AttrMixin, tail2, [IterMixin, ReprMixin]);
    WhenCons(item, ItemMixin, tail1, [AttrMixin, IterMixin, ReprMixin]);
    assert [ItemMixin] + [AttrMixin, IterMixin, ReprMixin] == Capabilities;
    SubsequenceLength(r, Capabilities);
    SubsequenceOfDistinct(r, Capabilities);
  }

  lemma WhenCons(c: bool, x: Base, rest: seq<Base>, b: seq<Base>)
    requires IsSubsequence(rest, b)
    ensures IsSubsequence(When(c, x) + rest, [x] + b)
  {
    if c {
      assert ([x] + rest)[1..] == rest;
      assert ([x] + b)[1..] == b;
    } else {
      assert When(c, x) + rest == rest;
      SubsequencePrepend(rest, b, x);
    }
  }

  lemma {:induction false} SubsequenceDropHead<T>(a: seq<T>, b: seq<T>)
    requires IsSubsequence(a, b) && a != []
    ensures IsSubsequence(a[1..], b)
    decreases |b|, 0
  {
    if a[1..] != [] {
      assert [b[0]] + b[1..] == b;
      if a[0] == b[0] {
        SubsequencePrepend(a[1..], b[1..], b[0]);
      } else {
        SubsequenceDropHead(a, b[1..]);
        SubsequencePrepend(a[1..], b[1..], b[0]);
      }
    }
  }

  lemma {:induction false} SubsequencePrepend<T>(a: seq<T>, b: seq<T>, x: T)
    requires IsSubsequence(a, b)
    ensures IsSubsequence(a, [x] + b)
    decreases |b|, 1
  {
    if a != [] {
      assert ([x] + b)[1..] == b;
      if a[0] == x {
        SubsequenceDropHead(a, b);
      }
    }
  }

  lemma {:induction false} SubsequenceLength<T>(a: seq<T>, b: seq<T>)
    requires IsSubsequence(a, b)
    ensures |a| <= |b|
    ensures forall x :: x in a ==> x in b
  {
    if a != [] && b != [] {
      if a[0] == b[0] {
        SubsequenceLength(a[1..], b[1..]);
        assert a == [a[0]] + a[1..];
      } else {
        SubsequenceLength(a, b[1..]);
      }
    }
  }

  /** A subsequence of a list without duplicates has none either. */
  lemma {:induction false} SubsequenceOfDistinct<T>(a: seq<T>, b: seq<T>)
    requires IsSubsequence(a, b) && NoDuplicates(b)
    ensures NoDuplicates(a)
  {
    if a != [] && b != [] {
      assert NoDuplicates(b[1..]);
      if a[0] == b[0] {
        SubsequenceOfDistinct(a[1..], b[1..]);
        SubsequenceLength(a[1..], b[1..]);
        forall j | 0 < j < |a| ensures a[0] != a[j] {
          assert a[j] == a[1..][j - 1];
          assert b[0] !in b[1..];
        }
      } else {
        SubsequenceOfDistinct(a, b[1..]);
      }
    }
  }

  lemma EnabledFixedFour(table: seq<(string, Base)>, flags: map<string, Value>)
    requires |table| == 4
    requires table[0].1 == ItemMixin && table[1].1 == AttrMixin
    requires table[2].1 == IterMixin && table[3].1 == ReprMixin
    ensures Enabled(table, flags) == Pick(FlagSet(flags, table[0].0), FlagSet(flags, table[1].0),
                                          FlagSet(flags, table[2].0), FlagSet(flags, table[3].0))
  {
    var f0, f1, f2, f3 := FlagSet(flags, table[0].0), FlagSet(flags, table[1].0),
                          FlagSet(flags, table[2].0), FlagSet(flags, table[3].0);
    assert table[..1][..0] == [];
    assert Enabled(table[..1], flags) == When(f0, ItemMixin);
    assert table[..2][..1] == table[..1];
    assert Enabled(table[..2], flags) == When(f0, ItemMixin) + When(f1, AttrMixin);
    assert table[..3][..2] == table[..2];
    assert Enabled(table[..3], flags) == When(f0, ItemMixin) + When(f1, AttrMixin) + When(f2, IterMixin);
    assert table[..4][..3] == table[..3] && table[..4] == table;
  }

  // ---------------------------------------------------------------------
  // MixinConfig.get_mixins

  /** `MixinConfig.get_mixins(config)`: exactly the capabilities whose key
      is truthy in `config`, in the fixed order item, attr, iter, repr
      whatever the order of the dict; a missing key counts as false. */
  function GetMixins(config: map<string, Value>): (r: seq<Base>)
    ensures r == Pick(FlagSet(config, "item"), FlagSet(config, "attr"),
                      FlagSet(config, "iter"), FlagSet(config, "repr"))
  {
    EnabledFixedFour(DefaultMixins, config);
    Enabled(DefaultMixins, config)
  }

  /** `get_mixins` returns a capability exactly when its key is truthy; the
      result is a subsequence of `DEFAULT_MIXINS`, so at most four entries
      and none twice. */
  lemma GetMixinsProperties(config: map<string, Value>)
    ensures ItemMixin in GetMixins(config) <==> FlagSet(config, "item")
    ensures AttrMixin in GetMixins(config) <==> FlagSet(config, "attr")
    ensures IterMixin in GetMixins(config) <==> FlagSet(config, "iter")
    ensures ReprMixin in GetMixins(config) <==> FlagSet(config, "repr")
    ensures forall b :: b in GetMixins(config) ==> !b.Other?
    ensures IsSubsequence(GetMixins(config), Capabilities)
    ensures |GetMixins(config)| <= 4
    ensures NoDuplicates(GetMixins(config))
  {
    PickMembers(FlagSet(config, "item"), FlagSet(config, "attr"),
                FlagSet(config, "iter"), FlagSet(config, "repr"));
    PickOrder(FlagSet(config, "item"), FlagSet(config, "attr"),
              FlagSet(config, "iter"), FlagSet(config, "repr"));
  }

  /** `get_mixins({'item': True, 'attr': False, 'iter': True, 'repr': False})` */
  lemma GetMixinsExample()
    ensures GetMixins(map["item" := PyBool(true), "attr" := PyBool(false),
                          "iter" := PyBool(true), "repr" := PyBool(false)])
      == [ItemMixin, IterMixin]
  {
  }

  // ---------------------------------------------------------------------
  // MixinClsMeta.__new__

  /** The capabilities `MixinClsMeta.__new__` appends: each one whose flag
      is truthy in the class's own dict and which is not itself among the
      explicit bases, in the fixed order Item, Attr, Iter, Repr. */
  function Appended(bases: seq<Base>, dct: map<string, Value>): seq<Base>
  {
    Pick(FlagSet(dct, "MixinItem") && ItemMixin !in bases,
         FlagSet(dct, "MixinAttr") && AttrMixin !in bases,
         FlagSet(dct, "MixinIter") && IterMixin !in bases,
         FlagSet(dct, "MixinRepr") && ReprMixin !in bases)
  }

  /** `mixin_classes` filtered by `mixin_cls not in existing_mixins`. */
  function NotIn(ms: seq<Base>, existing: set<Base>): seq<Base>
    decreases |ms|
  {
    if ms == [] then []
    else
      var last := ms[|ms| - 1];
      NotIn(ms[..|ms| - 1], existing) + if last !in existing then [last] else []
  }

  lemma {:induction false} NotInAppend(a: seq<Base>, b: seq<Base>, existing: set<Base>)
    ensures NotIn(a + b, existing) == NotIn(a, existing) + NotIn(b, existing)
    decreases |b|
  {
    if b == [] {
      assert a + b == a;
    } else {
      assert (a + b)[..|a + b| - 1] == a + b[..|b| - 1];
      NotInAppend(a, b[..|b| - 1], existing);
    }
  }

  lemma NotInStep(ms: seq<Base>, j: nat, existing: set<Base>)
    requires j < |ms|
    ensures NotIn(ms[..j + 1], existing)
      == NotIn(ms[..j], existing) + if ms[j] !in existing then [ms[j]] else []
  {
    assert ms[..j + 1][..j] == ms[..j];
  }

  lemma NotInWhen(c: bool, b: Base, existing: set<Base>)
    ensures NotIn(When(c, b), existing) == When(c && b !in existing, b)
  {
    if c {
      assert [b][..0] == [];
    }
  }

  /** Filtering a pick by `existing` picks the capabilities outside it. */
  lemma NotInPick(item: bool, attr: bool, iter: bool, repr: bool, existing: set<Base>)
    ensures NotIn(Pick(item, attr, iter, repr), existing)
      == Pick(item && ItemMixin !in existing, attr && AttrMixin !in existing,
              iter && IterMixin !in existing, repr && ReprMixin !in existing)
  {
    var w1, w2, w3, w4 := When(item, ItemMixin), When(attr, AttrMixin), When(iter, IterMixin), When(repr, ReprMixin);
    NotInAppend(w1 + w2 + w3, w4, existing);
    NotInAppend(w1 + w2, w3, existing);
    NotInAppend(w1, w2, existing);
    NotInWhen(item, ItemMixin, existing);
    NotInWhen(attr, AttrMixin, existing);
    NotInWhen(iter, IterMixin, existing);
    NotInWhen(repr, ReprMixin, existing);
  }

  /** `MixinClsMeta.__new__(name, bases, dct)` up to the call that creates
      the class: the new base list is the explicit bases, unchanged and in
      order, followed by the capabilities to append. */
  method ComposeBases(bases: seq<Base>, dct: map<string, Value>) returns (newBases: seq<Base>)
    ensures newBases == bases + Appended(bases, dct)
  {
    var mixinClasses: seq<Base> := [];
    var i := 0;
    while i < |MixinMap|
      invariant 0 <= i <= |MixinMap|
      invariant mixinClasses == Enabled(MixinMap[..i], dct)
    {
      assert MixinMap[..i + 1][..i] == MixinMap[..i];
      var (mixinKey, mixinClass) := MixinMap[i];
      if FlagSet(dct, mixinKey) {
        mixinClasses := mixinClasses + [mixinClass];
      }
      i := i + 1;
    }
    newBases := bases;
    var existing := set b | b in bases && b in Capabilities;
    var j := 0;
    while j < |mixinClasses|
      invariant 0 <= j <= |mixinClasses|
      invariant newBases == bases + NotIn(mixinClasses[..j], existing)
    {
      NotInStep(mixinClasses, j, existing);
      if mixinClasses[j] !in existing {
        newBases := newBases + [mixinClasses[j]];
      }
      j := j + 1;
    }
    assert mixinClasses[..j] == mixinClasses;
    assert MixinMap[..i] == MixinMap;
    EnabledFixedFour(MixinMap, dct);
    NotInExisting(bases, dct, existing);
  }

  /** Filtering the flagged capabilities by the set of capabilities among
      the explicit bases leaves what `Appended` describes. */
  lemma NotInExisting(bases: seq<Base>, dct: map<string, Value>, existing: set<Base>)
    requires existing == set b | b in bases && b in Capabilities
    ensures NotIn(Pick(FlagSet(dct, "MixinItem"), FlagSet(dct, "MixinAttr"),
                       FlagSet(dct, "MixinIter"), FlagSet(dct, "MixinRepr")), existing)
      == Appended(bases, dct)
  {
    assert ItemMixin in existing <==> ItemMixin in bases;
    assert AttrMixin in existing <==> AttrMixin in bases;
    assert IterMixin in existing <==> IterMixin in bases;
    assert ReprMixin in existing <==> ReprMixin in bases;
    NotInPick(FlagSet(dct, "MixinItem"), FlagSet(dct, "MixinAttr"),
              FlagSet(dct, "MixinIter"), FlagSet(dct, "MixinRepr"), existing);
  }

  /** What `__new__` appends: a capability exactly when its flag is truthy
      and it is not already an explicit base; never another base; in the
      fixed order; each at most once. */
  lemma AppendedProperties(bases: seq<Base>, dct: map<string, Value>)
    ensures ItemMixin in Appended(bases, dct) <==> FlagSet(dct, "MixinItem") && ItemMixin !in bases
    ensures AttrMixin in Appended(bases, dct) <==> FlagSet(dct, "MixinAttr") && AttrMixin !in bases
    ensures IterMixin in Appended(bases, dct) <==> FlagSet(dct, "MixinIter") && IterMixin !in bases
    ensures ReprMixin in Appended(bases, dct) <==> FlagSet(dct, "MixinRepr") && ReprMixin !in bases
    ensures forall b :: b in Appended(bases, dct) ==> !b.Other? && b !in bases
    ensures IsSubsequence(Appended(bases, dct), Capabilities)
    ensures NoDuplicates(Appended(bases, dct))
  {
    var item, attr := FlagSet(dct, "MixinItem") && ItemMixin !in bases, FlagSet(dct, "MixinAttr") && AttrMixin !in bases;
    var iter, repr := FlagSet(dct, "MixinIter") && IterMixin !in bases, FlagSet(dct, "MixinRepr") && ReprMixin !in bases;
    var r := Appended(bases, dct);
    assert r == Pick(item, attr, iter, repr);
    PickMembers(item, attr, iter, repr);
    PickOrder(item, attr, iter, repr);
    PickOnly(item, attr, iter, repr);
  }

  /** When the explicit bases hold no duplicates neither does the composed
      list. */
  lemma ComposedNoDuplicates(bases: seq<Base>, dct: map<string, Value>)
    requires NoDuplicates(bases)
    ensures NoDuplicates(bases + Appended(bases, dct))
  {
    var added := Appended(bases, dct);
    var r := bases + added;
    AppendedProperties(bases, dct);
    forall i, j | 0 <= i < j < |r| ensures r[i] != r[j] {
      if j >= |bases| {
        assert r[j] == added[j - |bases|];
        if i >= |bases| {
          assert r[i] == added[i - |bases|];
        } else {
          assert r[i] in bases;
        }
      }
    }
  }

  /** Duplicate suppression is by exact identity: a base that already
      provides keyed access, such as `GetSetDelMixin`, does not stop
      `ItemMixin` from being appended. */
  lemma ExactMatchOnly(dct: map<string, Value>)
    requires FlagSet(dct, "MixinItem")
    ensures ItemMixin in Appended([GetSetDelMixin], dct)
  {
    assert ItemMixin !in [GetSetDelMixin];
    assert Appended([GetSetDelMixin], dct)[0] == ItemMixin;
  }
}
