# xtclass, modelled in Dafny

`xtclass` is a small Python library of mixin classes. Mixed into a class,
they give its instances dictionary-style access to their own attributes
(`obj['k']`, `obj['k'] = v`, `del obj['k']`, `keys()`, `values()`,
`items()`), attribute reads that answer `None` instead of raising,
iteration over `(key, value)` pairs, a rebuild of the instance `__dict__`
from declared members, and a `ClassName(k=repr(v), ...)` representation.
A metaclass, `MixinClsMeta`, appends the right mixins to a class's bases
from `MixinItem`/`MixinAttr`/`MixinIter`/`MixinRepr` flags in its body, and
`MixinConfig.get_mixins` picks mixins from a configuration dict.
`SetOnceDict` is a map whose keys, once they hold a value other than
`None`, cannot be overwritten.

The model has five modules:

- `PyValues` (`values.dfy`): the Python values stored in attributes
  (`None`, `bool`, `int`, `str`), truthiness, and `repr` of those values.
- `FieldStore` (`field_store.dfy`): the instance `__dict__` as an
  insertion-ordered map, the list of its entries, with the dict operations
  `d.get`, `d[k] = v` and `d.pop(k, None)` and their laws (order kept,
  nothing else changes, no key twice).
- `Mixins` (`mixins.dfy`): a `HostObject` class whose `store` field is the
  instance `__dict__`, and methods and functions for the behaviours each
  mixin adds; the rebuild (`ReDictMixin`), the representation
  (`ReprMixin`) and `str(MixinError)` as functions with lemmas.
- `Metaclass` (`metaclass.dfy`): the base list `MixinClsMeta.__new__`
  builds, as a method with the source's two loops proved against a
  specification function, and `MixinConfig.get_mixins`.
- `Utils` (`utils.dfy`): `SetOnceDict` as a class with one map field; the
  effect of a write is the function `Written`, and lemmas follow a key
  through any sequence of writes.

The Python reflection used by the rebuild (`dir`, `getattr`, `callable`)
is replaced by explicit member lists: a `Member` carries a name and what
reading it yields (a plain value, something callable, or an
`AttributeError`). The class's own `__dict__` is the list the object was
created with; the instance listing of `dir()` is a parameter of
`GetDictFromInstance`, given in `dir()` order.

## Model

| member | source | states |
|---|---|---|
| PyValues.Truthy | xtclass/metaclass.py:53 | Python truthiness of a value: `None`, `False`, `0` and `''` are false, everything else true |
| PyValues.FlagSet | xtclass/metaclass.py:53 | `flags.get(key)` used as a condition: the key is present and its value truthy |
| PyValues.DigitChar | xtclass/mixins.py:272 | the character of a decimal digit, whose digit value is that digit |
| PyValues.NatToString | xtclass/mixins.py:272 | decimal rendering used by `repr` of an `int`: at least one character, all digits |
| PyValues.NatToStringValue | xtclass/mixins.py:272 | the digits `NatToString(n)` produces spell `n`, and there is no leading zero |
| PyValues.IntToString | xtclass/mixins.py:272 | `repr(i)` of an `int`: a minus sign exactly for negative `i`, then digits with no leading zero (only `0` itself starts with `0`); reading it back gives `i` |
| PyValues.ReprValue | xtclass/mixins.py:272 | `repr(v)`: `None`, `True` and `False` as Python's literals; an `int` as its decimal text (`IntToString`: minus sign exactly for negatives, digits only, no leading zero, reads back as the number); a `str` between single quotes |
| FieldStore.Keys | xtclass/mixins.py:119 | `list(d.keys())`: one key per entry, the `i`-th key is that of the `i`-th entry |
| FieldStore.Values | xtclass/mixins.py:123 | `list(d.values())`: one value per entry, in entry order |
| FieldStore.Find | xtclass/mixins.py:58 | `d.get(k)`: the value of the first entry with key `k`, or nothing when no entry has it |
| FieldStore.Put | xtclass/mixins.py:83 | after `d[k] = v`, looking `k` up yields `v` |
| FieldStore.Remove | xtclass/mixins.py:107 | after `d.pop(k, None)` the key is gone; on an absent key the store is exactly as before |
| FieldStore.PutPresent | xtclass/mixins.py:83 | updating an existing key rewrites that entry where it stands, nothing else |
| FieldStore.PutAbsent | xtclass/mixins.py:83 | storing a new key appends one entry at the end, nothing else |
| FieldStore.RemovePresent | xtclass/mixins.py:107 | popping a present key removes exactly its entry; the entries before and after keep their order |
| FieldStore.KeysAppend | xtclass/mixins.py:119 | the keys of two concatenated stores are the concatenated key lists |
| FieldStore.FindKeys | xtclass/mixins.py:58 | lookup succeeds exactly on the keys the store lists |
| FieldStore.FindAt | xtclass/mixins.py:58 | on a store without repeated keys lookup yields the value at the key's position |
| FieldStore.FindAtAll | xtclass/mixins.py:58 | the same for every position holding the key |
| FieldStore.PutFrame | xtclass/mixins.py:83 | `d[k] = v` does not change what any other key maps to |
| FieldStore.PutKeys | xtclass/mixins.py:83 | `d[k] = v` keeps the key order: an existing key stays, a new key goes last |
| FieldStore.DistinctFromKeys | xtclass/mixins.py:119 | a store whose key list has no repetition has no key twice |
| FieldStore.PutDistinct | xtclass/mixins.py:83 | `d[k] = v` keeps the store free of repeated keys |
| FieldStore.RemoveFrame | xtclass/mixins.py:107 | `d.pop(k, None)` does not change what any other key maps to |
| FieldStore.RemoveKeysFrom | xtclass/mixins.py:107 | every key left after the pop was a key before |
| FieldStore.RemoveDistinct | xtclass/mixins.py:107 | the pop keeps the store free of repeated keys |
| Mixins.ErrorText | xtclass/mixins.py:31-35 | `str(MixinError)` starts with the message; it is the message alone exactly when there is no wrapped error, else the message followed by ` (Original error: ...)` |
| Mixins.IsDunder | xtclass/mixins.py:207 | `key.startswith('__')` |
| Mixins.Eligible | xtclass/mixins.py:207-211 | a member is copied when its name does not start with `__` and reading it gives a value that is not callable |
| Mixins.Collect | xtclass/mixins.py:205-211 | the `attrs` dict the rebuild loop builds: each eligible member stored under its name, in scan order, a later member overwriting an earlier one of the same name |
| Mixins.Selected | xtclass/mixins.py:226-228 | reference list: the eligible members as entries, in scan order |
| Mixins.Rebuild | xtclass/mixins.py:203-215 | the rebuild refills the store from the members only when it is empty and returns a non-empty store untouched |
| Mixins.CollectDistinct | xtclass/mixins.py:205-214 | the rebuilt `attrs` dict has no key twice |
| Mixins.CollectKeys | xtclass/mixins.py:206-211 | a key is rebuilt exactly when some member with that name is not `__`-prefixed, readable and not callable |
| Mixins.CollectValue | xtclass/mixins.py:209-211 | the value stored under a name is that of the last eligible member with that name |
| Mixins.SelectedOmits | xtclass/mixins.py:206-211 | a name no member carries never becomes a key |
| Mixins.CollectInScanOrder | xtclass/mixins.py:226-228 | with distinct member names (a class `__dict__`, a `dir()` listing) the rebuilt store is the eligible members in scan order |
| Mixins.RebuildIdempotent | xtclass/mixins.py:203-231 | rebuilding twice gives the same store as rebuilding once |
| Mixins.Render | xtclass/mixins.py:272 | one pair as `f'{k}={v!r}'`: the key, `=`, the `repr` of the value |
| Mixins.Join | xtclass/mixins.py:273 | `sep.join(parts)`: the parts with `sep` between neighbours |
| Mixins.Enclose | xtclass/mixins.py:268-273 | `ClassName()` for no pieces, else `ClassName(` + the pieces joined by `", "` + `)` |
| Mixins.Format | xtclass/mixins.py:268-273 | the representation of a store: `Enclose` over its rendered pairs in store order |
| Mixins.Renders | xtclass/mixins.py:272 | one `k=repr(v)` piece per entry, the `i`-th piece that of the `i`-th entry |
| Mixins.JoinSplit | xtclass/mixins.py:273 | `sep.join(parts)` is the parts before piece `i`, a separator, piece `i`, a separator, the parts after it |
| Mixins.EncloseSplit | xtclass/mixins.py:268-273 | the enclosed text is `ClassName(`, the pieces before `i`, piece `i`, the pieces after, `)` |
| Mixins.EncloseContains | xtclass/mixins.py:268-273 | every piece occurs in the enclosed text, which starts with `ClassName(` |
| Mixins.FormatSplit | xtclass/mixins.py:268-273 | the representation is `ClassName(`, then the pairs `k=repr(v)` in store order separated by `", "`, then `)` |
| Mixins.RendersSlice | xtclass/mixins.py:272 | the pieces of the entries before and after entry `i` are the pieces before and after piece `i` |
| Mixins.FormatShowsEntry | xtclass/mixins.py:268-273 | every stored pair `k=repr(v)` occurs in the representation, which starts with `ClassName(` |
| Mixins.RenderExamples | xtclass/mixins.py:272 | the pairs of the tests render as `name='test'`, `value=42`, `debug=True`, `timeout=30`, `host='localhost'` |
| Mixins.DecimalExamples | xtclass/mixins.py:272 | `repr(42)` is `42` and `repr(30)` is `30` |
| Mixins.FormatTestClass | xtclass/mixins.py:268-273 | an empty store formats as `TestClass()`; `name='test'` then `value=42` as `TestClass(name='test', value=42)` |
| Mixins.EncloseTestClass | xtclass/mixins.py:273 | the two rendered test pairs enclose to `TestClass(name='test', value=42)` |
| Mixins.FormatConfig | xtclass/mixins.py:268-273 | the integration test's writes leave `debug=True`, `timeout=30`, `host='localhost'` in that order, and the representation shows `debug=True` and `host='localhost'` |
| Mixins.MissingAttr | xtclass/mixins.py:133-136 | the `__getattr__` hook: `None` for any name |
| Mixins.HostObject.constructor | tests/test_xtclass.py:196-201 | models the empty instance `__dict__` of a newly created object (an `__init__` that sets nothing); keeps its class name and class members |
| Mixins.HostObject.GetItem | xtclass/mixins.py:57-58 | `obj[key]` is the value stored under `key`, and `None` for a missing key rather than an error |
| Mixins.HostObject.SetItem | xtclass/mixins.py:82-83 | after `obj[key] = value`, `obj[key]` is `value`, every other key reads as before, an existing key keeps its place and a new key goes last |
| Mixins.HostObject.DelItem | xtclass/mixins.py:106-107 | after `del obj[key]` the key is gone and reads `None`, every other key reads as before, the other entries keep their order, and deleting an absent key changes nothing |
| Mixins.HostObject.Keys | xtclass/mixins.py:117-119 | one key per entry in store order |
| Mixins.HostObject.Values | xtclass/mixins.py:121-123 | one value per entry in store order |
| Mixins.HostObject.Items | xtclass/mixins.py:125-127 | as long as `keys()` and `values()`, with `items()[i] == (keys()[i], values()[i])` |
| Mixins.HostObject.Iter | xtclass/mixins.py:243-245 | iteration yields exactly the `items()` pairs in store order, nothing for an empty store |
| Mixins.HostObject.GetAttr | xtclass/mixins.py:133-136 | `obj.name` reads the stored value of a present name and is `None` for any missing name |
| Mixins.HostObject.GetDictFromInstance | xtclass/mixins.py:197-215 | with an empty store, the store becomes the eligible members of the `dir()` listing (`__` names, callables and `AttributeError` skipped), and the result is the store; a non-empty store is left alone |
| Mixins.HostObject.GetDictFromClass | xtclass/mixins.py:217-231 | with an empty store, the store becomes the eligible members of the class `__dict__`, and the result is the store; a non-empty store is left alone |
| Mixins.HostObject.GetDict | xtclass/mixins.py:233 | `get_dict` behaves as `get_dict_from_class` |
| Mixins.HostObject.Repr | xtclass/mixins.py:255-273 | `repr(obj)` rebuilds an empty store from the class members first, then formats the store; a store still empty gives `ClassName()` |
| Metaclass.TableValues | xtclass/metaclass.py:58 | `table.values()`: one value per entry, the entry's value at each position |
| Metaclass.MixinMapTable | xtclass/metaclass.py:31-36 | `MIXIN_MAP` has four distinct keys whose values are Item, Attr, Iter, Repr in that fixed order |
| Metaclass.DefaultMixinsTable | xtclass/metaclass.py:70-75 | `DEFAULT_MIXINS` has four distinct keys and the same values as `MIXIN_MAP` in the same fixed order |
| Metaclass.CapabilitiesMembership | xtclass/metaclass.py:58 | `base in MIXIN_MAP.values()` holds exactly for the four capabilities and for no other base; none of them appears twice |
| Metaclass.Enabled | xtclass/metaclass.py:52-54 | `[b for key, b in table.items() if flags.get(key)]`, in table order |
| Metaclass.When | xtclass/metaclass.py:53-54 | one capability when its condition holds, none otherwise |
| Metaclass.Pick | xtclass/metaclass.py:31-36 | the capabilities whose conditions hold, in the fixed order Item, Attr, Iter, Repr |
| Metaclass.PickMembers | xtclass/metaclass.py:52-54 | a selection holds each capability exactly when its condition holds, and no other base |
| Metaclass.PickOnly | xtclass/metaclass.py:52-54 | a capability is selected only when its own condition holds |
| Metaclass.PickOrder | xtclass/metaclass.py:31-36 | a selection is a subsequence of Item, Attr, Iter, Repr, hence without duplicates and at most four long |
| Metaclass.WhenCons | xtclass/metaclass.py:52-54 | keeping or dropping the head capability keeps a selection a subsequence |
| Metaclass.SubsequenceDropHead | xtclass/metaclass.py:80 | dropping the first element keeps a subsequence a subsequence |
| Metaclass.SubsequencePrepend | xtclass/metaclass.py:80 | a subsequence stays one when the larger list gains an element in front |
| Metaclass.SubsequenceLength | xtclass/metaclass.py:80 | a subsequence is no longer than the list and holds only its elements |
| Metaclass.SubsequenceOfDistinct | xtclass/metaclass.py:80 | a subsequence of a list without duplicates has none |
| Metaclass.EnabledFixedFour | xtclass/metaclass.py:52-54 | filtering a four-entry table in the Item, Attr, Iter, Repr order by truthy flags selects exactly those capabilities, in that order |
| Metaclass.GetMixins | xtclass/metaclass.py:77-80 | `get_mixins(config)` is the capabilities whose key is truthy, in the order item, attr, iter, repr, whatever the dict's order; missing keys are false |
| Metaclass.GetMixinsProperties | xtclass/metaclass.py:77-80 | a capability is returned exactly when its key is truthy; the result is a subsequence of `DEFAULT_MIXINS`, at most four long, without duplicates |
| Metaclass.GetMixinsExample | xtclass/metaclass.py:80 | `{item: True, attr: False, iter: True, repr: False}` gives `[ItemMixin, IterMixin]` |
| Metaclass.Appended | xtclass/metaclass.py:52-62 | the capabilities `__new__` appends: flagged truthy in the class dict and not an explicit base, in the fixed order |
| Metaclass.NotIn | xtclass/metaclass.py:60-62 | the second loop's filter: the elements not in `existing_mixins`, in order |
| Metaclass.NotInAppend | xtclass/metaclass.py:60-62 | the `not in existing_mixins` filter distributes over concatenation |
| Metaclass.NotInStep | xtclass/metaclass.py:60-62 | one more loop step keeps the next capability exactly when it is not among the existing ones |
| Metaclass.NotInWhen | xtclass/metaclass.py:61 | the filter keeps a single capability exactly when it is not among the existing ones |
| Metaclass.NotInPick | xtclass/metaclass.py:60-62 | filtering a selection drops exactly the capabilities already present |
| Metaclass.ComposeBases | xtclass/metaclass.py:50-64 | the new base list is the explicit bases, unchanged and in order, followed by exactly the capabilities flagged in the class body and not already among the bases |
| Metaclass.NotInExisting | xtclass/metaclass.py:58-62 | filtering the flagged capabilities by `existing_mixins` leaves those not among the explicit bases |
| Metaclass.AppendedProperties | xtclass/metaclass.py:53-62 | a capability is appended iff its flag is truthy and it is not an explicit base; nothing else is appended; the order is Item, Attr, Iter, Repr; none twice |
| Metaclass.ComposedNoDuplicates | xtclass/metaclass.py:57-62 | explicit bases without duplicates give a base list without duplicates |
| Metaclass.ExactMatchOnly | xtclass/metaclass.py:58-62 | a `GetSetDelMixin` base does not stop `ItemMixin` from being appended: suppression is by exact identity |
| Utils.Sealed | xtclass/utils.py:34 | the guard of `__setitem__`: the key is present and its value is not `None` |
| Utils.Written | xtclass/utils.py:34-36 | a write to a key holding a non-`None` value leaves the map unchanged, otherwise the key holds the new value; other keys never change and the key set gains exactly the key |
| Utils.WriteAll | xtclass/utils.py:34-36 | the map after a sequence of `d[key] = value` writes applied in order |
| Utils.SealedStays | xtclass/utils.py:34-35 | once a key holds a non-`None` value it keeps that value after any sequence of writes |
| Utils.WriteAllKeys | xtclass/utils.py:25-36 | the keys after a sequence of writes are the old keys and the written ones; none is ever removed |
| Utils.UnwrittenKeyUnchanged | xtclass/utils.py:25-36 | a key no write names keeps its state, present or absent |
| Utils.FirstValueWins | xtclass/utils.py:34-36 | the first non-`None` value written to an open key is its value for good |
| Utils.SetOnceDict.constructor | xtclass/utils.py:23 | a new `SetOnceDict` is empty |
| Utils.SetOnceDict.SetItem | xtclass/utils.py:25-36 | `d[key] = value` has the effect `Written` describes: ignored on a sealed key, stored otherwise |
| Utils.SetOnceDict.GetItem | xtclass/utils.py:38-50 | `d[key]` is the stored value, `None` included, for a written key, and `KeyError(key)` for a key never written |
| Utils.SetTwiceKeepsFirst | xtclass/utils.py:34-36 | writing `'value'` then `'new_value'` to one key keeps `'value'` |
| Utils.NoneThenValue | xtclass/utils.py:34-36 | writing `None` then `'new_value'` to one key leaves `'new_value'` |

## Left out

- `AttrSetMixin.__setattr__` and `AttrDelMixin.__delattr__` only forward to Python's default attribute handling; attribute writes are not modelled separately, and deleting a missing attribute (which raises in CPython) is not modelled.
- The `MixinError` wrapping branches of `__getitem__`, `__setitem__` and `__delitem__` cannot be reached in the model, where every object has its store; only the error text is modelled.
- `hasattr(self, '__dict__')` in the rebuild is taken as always true, because every host object has a store.
- Python reflection (`dir`, `getattr`, `callable`) is replaced by explicit member lists; how Python orders `dir()` and decides callability is not modelled.
- Mixins.HostObject.GetAttr: class attributes and methods, which Python's normal lookup finds before `__getattr__`, are not modelled; only the instance store and the `None` fallback are.
- Actual class creation, MRO linearisation and `super().__new__` in `MixinClsMeta`: only the base list is modelled, not whether Python accepts it.
- Extra keyword arguments of `MixinClsMeta.__new__` are accepted and dropped (line 64 of `xtclass/metaclass.py` does not forward them to `super().__new__`); they are not modelled.
- `repr` of values other than `None`, `bool`, `int` and `str`, string escaping, Python's switch to double quotes for strings holding a single quote, and `__qualname__` nesting are not modelled; the class name is a plain string.
- `SetOnceDict.__repr__` delegates to the built-in dict `repr` and is not modelled.
- `SetOnceDict._dict` is modelled as an unordered `map`: its insertion order is visible only through `__repr__`, which is not modelled.
- Mixins.HostObject.GetDictFromInstance: Python returns the live `self.__dict__`, so a caller's later write to the result changes the store; the model returns the store's value at the time of the call, and that aliasing is not modelled.
- Mixins.HostObject.GetDictFromClass: the same aliasing of the returned `self.__dict__` is not modelled.
- Mixins.HostObject.Iter: `__iter__` (xtclass/mixins.py:245) is a generator over the live `self.__dict__`; the model yields a snapshot of the store, so a write made while an iteration is unfinished (a changed value that the generator would see, or a size change on which the interpreter raises `RuntimeError`) is not modelled.
- A `getattr` during `get_dict_from_instance` that raises something other than `AttributeError` propagates out of the rebuild; `Kind` has no case for it, so that path is not modelled.
- Utils.SetOnceDict.GetItem: keys are strings, where Python accepts any hashable key.
- `xtclass/__init__.py` only re-exports names and defines `BaseCls` from a fixed mixin list; it is not part of this model.
- Logging, concurrency and the library's example script are not modelled.
