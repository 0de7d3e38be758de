// Multipart form building (src/common/libs/generate-form-data.ts): a nested
// value is flattened into a FormData buffer of (key, value) pairs, objects
// under `key[subKey]`, object-like array items under `key[index]`, all other
// array items under `key[]`, in depth-first order.

module FormDataFlatten {
  import opened Strings
  import opened JsValues

  /** What a FormData entry holds: text, or a file or blob appended as is. */
  datatype EntryValue = TextEntry(s: string) | FileEntry(fileId: nat) | BlobEntry(blobId: nat)

  type Entry = (string, EntryValue)

  /** `formData.append(key, v)` stores a file or blob as it is and converts
      anything else with `String(v)`. */
  function Appended(v: Value): EntryValue
  {
    match v
    case File(id) => FileEntry(id)
    case Blob(id) => BlobEntry(id)
    case _ => TextEntry(ToText(v))
  }

  /** An array item that is recursed into: `typeof item === "object"` and
      not a file or blob (so also null, dates and arrays). */
  predicate RecursesInto(item: Value)
  {
    IsObject(item) && !item.File? && !item.Blob?
  }

  function IndexKey(key: string, index: nat): string
  {
    key + "[" + NatToString(index) + "]"
  }

  function SubKey(key: string, subKey: string): string
  {
    key + "[" + subKey + "]"
  }

  // ---------------------------------------------------------------------------
  // The flattening, as a specification

  /** The pairs `appendFormData(key, v)` appends. */
  function Flatten(key: string, v: Value): seq<Entry>
    decreases v, 1, 0
  {
    match v
    case Undefined => []
    case Null => []
    case Date(iso, _) => [(key, TextEntry(iso))]
    case File(_) => [(key, Appended(v))]
    case Blob(_) => [(key, Appended(v))]
    case Arr(items) => FlattenItems(key, v, |items|)
    case Obj(fields) => FlattenFields(key, v, |fields|)
    case _ => [(key, TextEntry(ToText(v)))]
  }

  /** The pairs of the first n items of array `v`. */
  function FlattenItems(key: string, v: Value, n: nat): seq<Entry>
    requires v.Arr? && n <= |v.items|
    decreases v, 0, n
  {
    if n == 0 then []
    else FlattenItems(key, v, n - 1) + ItemEntries(key, v, n - 1)
  }

  /** The pairs of item i of array `v`. */
  function ItemEntries(key: string, v: Value, i: nat): seq<Entry>
    requires v.Arr? && i < |v.items|
    decreases v, 0, 0
  {
    var item := v.items[i];
    if RecursesInto(item) then Flatten(IndexKey(key, i), item) else [(key + "[]", Appended(item))]
  }

  /** The pairs of the first n fields of object `v`. */
  function FlattenFields(key: string, v: Value, n: nat): seq<Entry>
    requires v.Obj? && n <= |v.fields|
    decreases v, 0, n
  {
    if n == 0 then []
    else FlattenFields(key, v, n - 1) + Flatten(SubKey(key, v.fields[n - 1].0), v.fields[n - 1].1)
  }

  /** The pairs `generateFormData` produces for the first n top-level fields. */
  function FlattenData(data: seq<(string, Value)>, n: nat): seq<Entry>
    requires n <= |data|
  {
    if n == 0 then [] else FlattenData(data, n - 1) + Flatten(data[n - 1].0, data[n - 1].1)
  }

  // ---------------------------------------------------------------------------
  // The buffer and the builder

  /** A FormData object: its entries in append order. */
  class FormData {
    var entries: seq<Entry>

    constructor()
      ensures entries == []
    {
      entries := [];
    }

    method Append(key: string, value: EntryValue)
      modifies this
      ensures entries == old(entries) + [(key, value)]
    {
      entries := entries + [(key, value)];
    }
  }

  /** `appendFormData(key, value)`. */
  method AppendFormData(fd: FormData, key: string, value: Value)
    modifies fd
    ensures fd.entries == old(fd.entries) + Flatten(key, value)
    decreases value
  {
    match value {
      case Undefined =>
      case Null =>
      case Date(iso, _) =>
        fd.Append(key, TextEntry(iso));
      case File(_) =>
        fd.Append(key, Appended(value));
      case Blob(_) =>
        fd.Append(key, Appended(value));
      case Arr(items) =>
        var i := 0;
        while i < |items|
          invariant 0 <= i <= |items|
          invariant fd.entries == old(fd.entries) + FlattenItems(key, value, i)
        {
          var item := items[i];
          if RecursesInto(item) {
            AppendFormData(fd, IndexKey(key, i), item);
          } else {
            fd.Append(key + "[]", Appended(item));
          }
          i := i + 1;
        }
      case Obj(fields) =>
        var j := 0;
        while j < |fields|
          invariant 0 <= j <= |fields|
          invariant fd.entries == old(fd.entries) + FlattenFields(key, value, j)
        {
          AppendFormData(fd, SubKey(key, fields[j].0), fields[j].1);
          j := j + 1;
        }
      case _ =>
        fd.Append(key, TextEntry(ToText(value)));
    }
  }

  /** `generateFormData(data)` for an object `data` given by its own fields. */
  method GenerateFormData(data: seq<(string, Value)>) returns (fd: FormData)
    ensures fresh(fd)
    ensures fd.entries == FlattenData(data, |data|)
  {
    fd := new FormData();
    var j := 0;
    while j < |data|
      invariant 0 <= j <= |data|
      invariant fd.entries == FlattenData(data, j)
    {
      AppendFormData(fd, data[j].0, data[j].1);
      j := j + 1;
    }
  }

  // ---------------------------------------------------------------------------
  // Properties

  /** Null and undefined emit nothing; a primitive emits one pair under its
      key; a date its ISO text; a file or blob itself. */
  lemma LeafValues(key: string, v: Value)
    requires !v.Arr? && !v.Obj?
    ensures v.Undefined? || v.Null? ==> Flatten(key, v) == []
    ensures v.Date? ==> Flatten(key, v) == [(key, TextEntry(v.iso))]
    ensures v.File? ==> Flatten(key, v) == [(key, FileEntry(v.fileId))]
    ensures v.Blob? ==> Flatten(key, v) == [(key, BlobEntry(v.blobId))]
    ensures v.Bool? || v.Num? || v.Str? ==> Flatten(key, v) == [(key, TextEntry(ToText(v)))]
  {
  }

  /** Every emitted key is the key itself or extends it with a bracket, so it
      begins with the top-level key it came from. */
  lemma {:induction false} KeysExtendKey(key: string, v: Value)
    ensures forall e :: e in Flatten(key, v) ==> e.0 == key || StartsWith(e.0, key + "[")
    decreases v, 1, 0
  {
    match v
    case Arr(items) => ItemKeysExtendKey(key, v, |items|);
    case Obj(fields) => FieldKeysExtendKey(key, v, |fields|);
    case _ =>
  }

  lemma {:induction false} ItemKeysExtendKey(key: string, v: Value, n: nat)
    requires v.Arr? && n <= |v.items|
    ensures forall e :: e in FlattenItems(key, v, n) ==> StartsWith(e.0, key + "[")
    decreases v, 0, n
  {
    if n > 0 {
      ItemKeysExtendKey(key, v, n - 1);
      var item := v.items[n - 1];
      if RecursesInto(item) {
        var k := IndexKey(key, n - 1);
        KeysExtendKey(k, item);
        forall e | e in Flatten(k, item)
          ensures StartsWith(e.0, key + "[")
        {
          assert k == key + "[" + (NatToString(n - 1) + "]");
          if e.0 != k {
            PrefixOfConcat(k, "[", e.0);
          }
          PrefixOfConcat(key + "[", NatToString(n - 1) + "]", e.0);
        }
      } else {
        PrefixOfConcat(key + "[", "]", key + "[]");
      }
    }
  }

  lemma {:induction false} FieldKeysExtendKey(key: string, v: Value, n: nat)
    requires v.Obj? && n <= |v.fields|
    ensures forall e :: e in FlattenFields(key, v, n) ==> StartsWith(e.0, key + "[")
    decreases v, 0, n
  {
    if n > 0 {
      FieldKeysExtendKey(key, v, n - 1);
      var k := SubKey(key, v.fields[n - 1].0);
      KeysExtendKey(k, v.fields[n - 1].1);
      forall e | e in Flatten(k, v.fields[n - 1].1)
        ensures StartsWith(e.0, key + "[")
      {
        assert k == key + "[" + (v.fields[n - 1].0 + "]");
        if e.0 != k {
          PrefixOfConcat(k, "[", e.0);
        }
        PrefixOfConcat(key + "[", v.fields[n - 1].0 + "]", e.0);
      }
    }
  }

  /** Top-level fields are processed in order: the pairs of `a + b` are the
      pairs of `a` followed by those of `b`. */
  lemma {:induction false} DataInOrder(a: seq<(string, Value)>, b: seq<(string, Value)>, n: nat)
    requires n <= |b|
    ensures FlattenData(a + b, |a| + n) == FlattenData(a, |a|) + FlattenData(b, n)
  {
    if n == 0 {
      PrefixUnchanged(a, b, |a|);
    } else {
      DataInOrder(a, b, n - 1);
      assert (a + b)[|a| + n - 1] == b[n - 1];
    }
  }

  lemma {:induction false} PrefixUnchanged(a: seq<(string, Value)>, b: seq<(string, Value)>, n: nat)
    requires n <= |a|
    ensures FlattenData(a + b, n) == FlattenData(a, n)
  {
    if n > 0 {
      PrefixUnchanged(a, b, n - 1);
      assert (a + b)[n - 1] == a[n - 1];
    }
  }

  /** Array items: a null item emits nothing, an undefined item emits the
      text "undefined" under `key[]`, primitives go under `key[]`. */
  lemma ArrayItems(key: string)
    ensures Flatten(key, Arr([Null])) == []
    ensures Flatten(key, Arr([Undefined])) == [(key + "[]", TextEntry("undefined"))]
    ensures Flatten(key, Arr([Str("a"), Num(7)])) ==
      [(key + "[]", TextEntry("a")), (key + "[]", TextEntry("7"))]
  {
    var u := Arr([Undefined]);
    assert FlattenItems(key, u, 1) == ItemEntries(key, u, 0);
    var p := Arr([Str("a"), Num(7)]);
    assert ToText(Num(7)) == "7";
    assert ItemEntries(key, p, 1) == [(key + "[]", TextEntry("7"))];
    assert FlattenItems(key, p, 1) == [(key + "[]", TextEntry("a"))];
  }

  /** A nested object item goes under `key[i]`, its fields under
      `key[i][field]`. */
  lemma ArrayNestedItem(key: string)
    ensures Flatten(key, Arr([Obj([("id", Num(1))])])) == [(key + "[0][id]", TextEntry("1"))]
  {
    var o := Obj([("id", Num(1))]);
    assert NatToString(0) == "0";
    assert SubKey(IndexKey(key, 0), "id") == key + "[0][id]";
    assert ToText(Num(1)) == "1";
    assert Flatten(SubKey(IndexKey(key, 0), "id"), Num(1)) == [(key + "[0][id]", TextEntry("1"))];
    assert FlattenFields(IndexKey(key, 0), o, 1) == [(key + "[0][id]", TextEntry("1"))];
    assert ItemEntries(key, Arr([o]), 0) == Flatten(IndexKey(key, 0), o);
  }
}
