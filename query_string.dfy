// Query-string building (src/common/libs/generate-query-string.ts): entries
// whose value is undefined or null are dropped, every other one becomes
// `key=` followed by the encoded text of its value, and the pieces are joined
// by "&".

module QueryString {
  import opened Strings
  import opened JsValues
  import opened UriEncoding

  type Params = seq<(string, Value)>

  predicate Kept(entry: (string, Value))
  {
    !entry.1.Undefined? && !entry.1.Null?
  }

  /** `filter(([_, value]) => value !== undefined && value !== null)`. */
  function KeptEntries(params: Params): (r: Params)
    ensures |r| <= |params|
    ensures forall k :: 0 <= k < |r| ==> Kept(r[k])
  {
    if params == [] then []
    else
      var rest := KeptEntries(params[1..]);
      if Kept(params[0]) then [params[0]] + rest else rest
  }

  /** The filter keeps exactly the entries whose value is present. */
  lemma {:induction false} KeptMembership(params: Params, e: (string, Value))
    ensures e in KeptEntries(params) <==> e in params && Kept(e)
  {
    if params != [] {
      KeptMembership(params[1..], e);
      assert params == [params[0]] + params[1..];
    }
  }

  /** `${key}=${encodeURIComponent(value)}`. */
  function Piece(entry: (string, Value)): string
  {
    entry.0 + "=" + EncodeUriComponent(ToText(entry.1))
  }

  function Pieces(params: Params): (r: seq<string>)
    ensures |r| == |params|
    ensures forall k :: 0 <= k < |r| ==> r[k] == Piece(params[k])
  {
    seq(|params|, k requires 0 <= k < |params| => Piece(params[k]))
  }

  /** `generateQueryString(params)`. */
  function GenerateQueryString(params: Params): string
  {
    Join(Pieces(KeptEntries(params)), "&")
  }

  // ---------------------------------------------------------------------------
  // Properties

  /** Entries are kept in their order: the filter distributes over
      concatenation. */
  lemma {:induction false} KeptInOrder(a: Params, b: Params)
    ensures KeptEntries(a + b) == KeptEntries(a) + KeptEntries(b)
  {
    if a == [] {
      assert a + b == b;
    } else {
      KeptInOrder(a[1..], b);
      assert a + b == [a[0]] + (a[1..] + b);
      KeptCons(a[0], a[1..] + b);
      assert a == [a[0]] + a[1..];
      KeptCons(a[0], a[1..]);
    }
  }

  /** One step of the filter. */
  lemma KeptCons(e: (string, Value), rest: Params)
    ensures KeptEntries([e] + rest) == (if Kept(e) then [e] else []) + KeptEntries(rest)
  {
    assert ([e] + rest)[1..] == rest;
  }

  /** Empty input, or input whose every value is null or undefined, gives "". */
  lemma {:induction false} NothingKeptIsEmpty(params: Params)
    requires forall k :: 0 <= k < |params| ==> !Kept(params[k])
    ensures GenerateQueryString(params) == ""
  {
    if params != [] {
      NothingKeptIsEmpty(params[1..]);
      assert KeptEntries(params) == KeptEntries(params[1..]);
    }
  }

  /** Falsy values other than null and undefined are kept: "", 0 and false
      render as "k=", "k=0" and "k=false". */
  lemma FalsyValuesKept(key: string)
    ensures GenerateQueryString([(key, Str(""))]) == key + "="
    ensures GenerateQueryString([(key, Num(0))]) == key + "=0"
    ensures GenerateQueryString([(key, Bool(false))]) == key + "=false"
  {
    KeptText(key, Str(""), "");
    KeptText(key, Num(0), "0");
    KeptText(key, Bool(false), "false");
  }

  /** A present value whose text needs no escaping appears as it is. */
  lemma KeptText(key: string, v: Value, text: string)
    requires Kept((key, v)) && ToText(v) == text
    requires forall k :: 0 <= k < |text| ==> Unescaped(text[k])
    ensures GenerateQueryString([(key, v)]) == key + "=" + text
  {
    SingleEntry(key, v);
    EncodeIdentity(text);
  }

  /** A single present entry becomes its one piece. */
  lemma SingleEntry(key: string, v: Value)
    requires Kept((key, v))
    ensures GenerateQueryString([(key, v)]) == Piece((key, v))
  {
    assert KeptEntries([(key, v)]) == [(key, v)];
  }

  /** No encoded value holds "&" or "=". */
  lemma EncodedHasNoSeparators(s: string)
    ensures '&' !in EncodeUriComponent(s) && '=' !in EncodeUriComponent(s)
  {
    var r := EncodeUriComponent(s);
    forall k | 0 <= k < |r|
      ensures r[k] != '&' && r[k] != '='
    {
    }
  }

  /** When no key holds "&", splitting the string on "&" gives back exactly
      one piece per kept entry, in order. */
  lemma SplitRecoversPieces(params: Params)
    requires KeptEntries(params) != []
    requires forall k :: 0 <= k < |params| ==> '&' !in params[k].0
    ensures Split(GenerateQueryString(params), '&') == Pieces(KeptEntries(params))
  {
    var kept := KeptEntries(params);
    var pieces := Pieces(kept);
    forall k | 0 <= k < |pieces|
      ensures '&' !in pieces[k]
    {
      PieceHasNoAmpersand(params, kept[k]);
    }
    assert GenerateQueryString(params) == Join(pieces, "&");
    SplitJoin(pieces, '&');
  }

  /** The piece of a kept entry holds no "&" when no key does. */
  lemma PieceHasNoAmpersand(params: Params, e: (string, Value))
    requires e in KeptEntries(params)
    requires forall k :: 0 <= k < |params| ==> '&' !in params[k].0
    ensures '&' !in Piece(e)
  {
    KeptMembership(params, e);
    var j :| 0 <= j < |params| && params[j] == e;
    EncodedHasNoSeparators(ToText(e.1));
    NotInConcat('&', e.0 + "=", EncodeUriComponent(ToText(e.1)));
  }

  /** A character in neither part is not in their concatenation. */
  lemma NotInConcat(c: char, a: string, b: string)
    requires c !in a && c !in b
    ensures c !in a + b
  {
  }

  /** Each piece reads back: the text before the first "=" is the key (when
      the key holds no "="), and the rest percent-decodes to the UTF-8 bytes
      of the value's text. */
  lemma PieceReadsBack(key: string, v: Value)
    requires '=' !in key
    ensures Before(Piece((key, v)), '=') == key
    ensures PercentDecode(Piece((key, v))[|key| + 1..]) == Utf8String(ToText(v))
  {
    var enc := EncodeUriComponent(ToText(v));
    assert Piece((key, v)) == key + ['='] + enc;
    SplitAfterPiece(key, '=', enc);
    assert Piece((key, v))[|key| + 1..] == enc;
    EncodeDecode(ToText(v));
  }

  /** `{ q: "a b", page: 2, empty: null }` becomes "q=a%20b&page=2". */
  lemma Example()
    ensures GenerateQueryString([("q", Str("a b")), ("page", Num(2)), ("empty", Null)]) == "q=a%20b&page=2"
  {
    var params := [("q", Str("a b")), ("page", Num(2)), ("empty", Null)];
    var kept := [("q", Str("a b")), ("page", Num(2))];
    assert KeptEntries(params[2..]) == [];
    assert KeptEntries(params[1..]) == [("page", Num(2))];
    assert KeptEntries(params) == kept;
    assert Utf8(' ') == [32];
    assert EncodeUriComponent("a b") == "a%20b";
    assert ToText(Num(2)) == "2";
    assert EncodeUriComponent("2") == "2";
    assert Piece(kept[0]) == "q=a%20b";
    assert Piece(kept[1]) == "page=2";
    assert Pieces(kept) == ["q=a%20b", "page=2"];
  }
}
