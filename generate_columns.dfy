// Column inference for the data table (src/common/data-table/generate-columns.tsx):
// one column per key of the first row except "id", a header label derived from
// the key, and a cell that shows a UI element as it is and anything else as
// its `String(value)` text.

module GenerateColumns {
  import opened Wrappers
  import opened JsValues

  /** What a row holds under a key: a UI element, or a plain value. */
  datatype Field = Element(elementId: nat) | Data(v: Value)

  /** A row: its own keys in enumeration order, with their fields. */
  type Row = seq<(string, Field)>

  /** An inferred column: `accessorKey` and `header`; the cell renderer is
      `CellOf`. */
  datatype Column = Column(accessorKey: string, header: string)

  /** What a cell renders: the element itself, or a span with text. */
  datatype Cell = ElementCell(elementId: nat) | TextCell(text: string)

  // ---------------------------------------------------------------------------
  // Header labels

  /** A character of the regular-expression class `\w`. */
  predicate IsWordChar(c: char)
  {
    ('a' <= c <= 'z') || ('A' <= c <= 'Z') || ('0' <= c <= '9') || c == '_'
  }

  /** `toUpperCase` on the characters `\w` matches: only a-z change. */
  function Upper(c: char): (u: char)
    ensures IsWordChar(u) <==> IsWordChar(c)
    ensures 'a' <= c <= 'z' ==> 'A' <= u <= 'Z'
    ensures !('a' <= c <= 'z') ==> u == c
  {
    if 'a' <= c <= 'z' then (c as int - 'a' as int + 'A' as int) as char else c
  }

  /** `replace(/_/g, " ")`. */
  function SpaceUnderscores(s: string): (r: string)
    ensures |r| == |s|
    ensures forall k :: 0 <= k < |r| ==> r[k] == (if s[k] == '_' then ' ' else s[k])
  {
    seq(|s|, k requires 0 <= k < |s| => if s[k] == '_' then ' ' else s[k])
  }

  /** Position k starts a word (`\b\w`): a word character at the start or
      after a character that is not one. */
  predicate StartsWord(s: string, k: nat)
    requires k < |s|
  {
    IsWordChar(s[k]) && (k == 0 || !IsWordChar(s[k - 1]))
  }

  /** `replace(/\b\w/g, c => c.toUpperCase())`. */
  function CapitalizeWords(s: string): (r: string)
    ensures |r| == |s|
    ensures forall k :: 0 <= k < |r| ==> r[k] == (if StartsWord(s, k) then Upper(s[k]) else s[k])
  {
    seq(|s|, k requires 0 <= k < |s| => if StartsWord(s, k) then Upper(s[k]) else s[k])
  }

  /** The header label of a key. */
  function Header(key: string): string
  {
    CapitalizeWords(SpaceUnderscores(key))
  }

  // ---------------------------------------------------------------------------
  // Columns and cells

  /** `Object.keys(row)`. */
  function KeysOf(row: Row): (keys: seq<string>)
    ensures |keys| == |row| && forall j :: 0 <= j < |row| ==> keys[j] == row[j].0
  {
    seq(|row|, j requires 0 <= j < |row| => row[j].0)
  }

  /** `filter(key => key !== "id")`. */
  function WithoutId(keys: seq<string>): (r: seq<string>)
    ensures |r| <= |keys|
    ensures forall k :: 0 <= k < |r| ==> r[k] != "id"
  {
    if keys == [] then []
    else
      var rest := WithoutId(keys[1..]);
      if keys[0] == "id" then rest else [keys[0]] + rest
  }

  /** The filter keeps exactly the keys other than "id". */
  lemma {:induction false} WithoutIdMembership(keys: seq<string>, key: string)
    ensures key in WithoutId(keys) <==> key in keys && key != "id"
  {
    if keys != [] {
      WithoutIdMembership(keys[1..], key);
      assert keys == [keys[0]] + keys[1..];
    }
  }

  /** The `map` from a key to its column. */
  function ColumnsFor(keys: seq<string>): (r: seq<Column>)
    ensures |r| == |keys|
    ensures forall i :: 0 <= i < |r| ==> r[i].accessorKey == keys[i] && r[i].header == Header(keys[i])
  {
    seq(|keys|, i requires 0 <= i < |keys| => Column(keys[i], Header(keys[i])))
  }

  function AccessorKeys(columns: seq<Column>): seq<string>
  {
    seq(|columns|, i requires 0 <= i < |columns| => columns[i].accessorKey)
  }

  /** `generateColumnsFromData`: no columns for null or empty data, otherwise
      the columns of the first row. */
  function GenerateColumnsFromData(data: Option<seq<Row>>): seq<Column>
  {
    match data
    case None => []
    case Some(rows) => if |rows| == 0 then [] else ColumnsFor(WithoutId(KeysOf(rows[0])))
  }

  /** The value of `key` in a row; a key the row lacks reads as undefined. */
  function FieldOf(row: Row, key: string): Field
  {
    if row == [] then Data(Undefined)
    else if row[0].0 == key then row[0].1
    else FieldOf(row[1..], key)
  }

  /** The cell of a column for a row. */
  function CellOf(row: Row, key: string): (c: Cell)
    ensures FieldOf(row, key).Element? ==> c == ElementCell(FieldOf(row, key).elementId)
    ensures FieldOf(row, key).Data? ==> c == TextCell(ToText(FieldOf(row, key).v))
  {
    match FieldOf(row, key)
    case Element(id) => ElementCell(id)
    case Data(v) => TextCell(ToText(v))
  }

  // ---------------------------------------------------------------------------
  // Properties

  /** Null and empty data give no columns. */
  lemma NoDataNoColumns()
    ensures GenerateColumnsFromData(None) == []
    ensures GenerateColumnsFromData(Some([])) == []
  {
  }

  /** Only the first row decides: keys that appear only on later rows give no
      column. */
  lemma LaterRowsIgnored(first: Row, later: seq<Row>)
    ensures GenerateColumnsFromData(Some([first] + later)) == GenerateColumnsFromData(Some([first]))
  {
  }

  /** A key of the first row has a column exactly when it is not "id"; no
      other key has one; each column is labelled by its key's header. */
  lemma ColumnKeysAreFirstRowKeys(rows: seq<Row>, key: string)
    requires |rows| > 0
    ensures var columns := GenerateColumnsFromData(Some(rows));
      (key in AccessorKeys(columns) <==> key in KeysOf(rows[0]) && key != "id") &&
      forall i :: 0 <= i < |columns| ==> columns[i].header == Header(columns[i].accessorKey)
  {
    var keys := WithoutId(KeysOf(rows[0]));
    assert AccessorKeys(ColumnsFor(keys)) == keys;
    WithoutIdMembership(KeysOf(rows[0]), key);
  }

  /** The key filter keeps the order of the keys: it distributes over
      concatenation and keeps a single key unless it is "id". */
  lemma {:induction false} WithoutIdKeepsOrder(a: seq<string>, b: seq<string>, key: string)
    ensures WithoutId(a + b) == WithoutId(a) + WithoutId(b)
    ensures WithoutId([key]) == (if key == "id" then [] else [key])
  {
    WithoutIdCons(key, []);
    if a == [] {
      assert a + b == b;
    } else {
      WithoutIdKeepsOrder(a[1..], b, key);
      assert a + b == [a[0]] + (a[1..] + b);
      WithoutIdCons(a[0], a[1..] + b);
      assert a == [a[0]] + a[1..];
      WithoutIdCons(a[0], a[1..]);
    }
  }

  /** One step of the key filter. */
  lemma WithoutIdCons(key: string, rest: seq<string>)
    ensures WithoutId([key] + rest) == (if key == "id" then [] else [key]) + WithoutId(rest)
  {
    assert ([key] + rest)[1..] == rest;
  }

  /** The header has no underscore left, has the key's length, and changes
      a character only to upper-case the initial letter of a word. */
  lemma HeaderShape(key: string)
    ensures |Header(key)| == |key|
    ensures forall k :: 0 <= k < |key| ==> Header(key)[k] != '_'
    ensures forall k :: 0 <= k < |key| && key[k] != '_' && Header(key)[k] != key[k] ==>
      'a' <= key[k] <= 'z' && Header(key)[k] == Upper(key[k])
  {
  }

  /** Labelling a label changes nothing. */
  lemma HeaderIdempotent(key: string)
    ensures Header(Header(key)) == Header(key)
  {
    var h := Header(key);
    var s := SpaceUnderscores(key);
    assert SpaceUnderscores(h) == h;
    forall k | 0 <= k < |h|
      ensures StartsWord(h, k) == StartsWord(s, k)
    {
    }
  }

  /** `unit_price` is labelled "Unit Price", and "a1_b" as "A1 B". */
  lemma HeaderExamples()
    ensures Header("unit_price") == "Unit Price"
    ensures Header("a1_b") == "A1 B"
  {
    assert Header("unit_price") == "Unit Price";
    assert Header("a1_b") == "A1 B";
  }

  /** A cell shows an element unchanged and anything else as `String(value)`;
      a key the row lacks shows "undefined". */
  lemma CellShowsValue(row: Row, key: string, v: Value, id: nat)
    ensures CellOf([(key, Element(id))] + row, key) == ElementCell(id)
    ensures CellOf([(key, Data(v))] + row, key) == TextCell(ToText(v))
    ensures CellOf([], key) == TextCell("undefined")
  {
  }
}
