// The JavaScript values that reach the serialisers (query strings and form
// data) and the cells of inferred columns, with `String(v)` and truthiness.
// Numbers are integers here; a Date carries the two texts the code asks of it
// (`toISOString()` and `String(date)`), since date formatting is not modelled.

module JsValues {
  import opened Strings

  datatype Value =
    | Undefined
    | Null
    | Bool(b: bool)
    | Num(n: int)
    | Str(s: string)
    | Date(iso: string, text: string)
    | File(fileId: nat)
    | Blob(blobId: nat)
    | Arr(items: seq<Value>)
      /** A plain object: its own enumerable keys in enumeration order. */
    | Obj(fields: seq<(string, Value)>)

  /** `String(v)`. An array prints its items joined by "," with null and
      undefined items printed as "". */
  function ToText(v: Value): string
  {
    match v
    case Undefined => "undefined"
    case Null => "null"
    case Bool(b) => if b then "true" else "false"
    case Num(n) => IntToString(n)
    case Str(s) => s
    case Date(_, text) => text
    case File(_) => "[object File]"
    case Blob(_) => "[object Blob]"
    case Arr(items) => Join(ItemTexts(items), ",")
    case Obj(_) => "[object Object]"
  }

  function ItemTexts(items: seq<Value>): (r: seq<string>)
    ensures |r| == |items|
  {
    if items == [] then []
    else [if items[0].Undefined? || items[0].Null? then "" else ToText(items[0])] + ItemTexts(items[1..])
  }

  /** Truthiness: `undefined`, `null`, `false`, `0` and "" are falsy; every
      object is truthy. */
  predicate Truthy(v: Value)
  {
    match v
    case Undefined => false
    case Null => false
    case Bool(b) => b
    case Num(n) => n != 0
    case Str(s) => s != ""
    case _ => true
  }

  /** `typeof v === "object"`: true of null, dates, files, blobs, arrays and
      plain objects. */
  predicate IsObject(v: Value)
  {
    v.Null? || v.Date? || v.File? || v.Blob? || v.Arr? || v.Obj?
  }
}
