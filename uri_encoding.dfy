// `encodeURIComponent`: every character outside the unreserved set of section
// 2.3 of RFC 3986 (letters, digits, "-", ".", "_", "~") and the marks
// "!", "*", "'", "(", ")" is replaced by the percent-encoding (section 2.1 of
// RFC 3986, upper-case hex digits) of each byte of its UTF-8 encoding.

module UriEncoding {

  /** The characters `encodeURIComponent` leaves as they are. */
  predicate Unescaped(c: char)
  {
    ('A' <= c <= 'Z') || ('a' <= c <= 'z') || ('0' <= c <= '9') ||
    c == '-' || c == '_' || c == '.' || c == '!' || c == '~' || c == '*' || c == '\'' || c == '(' || c == ')'
  }

  predicate IsUpperHexDigit(c: char)
  {
    ('0' <= c <= '9') || ('A' <= c <= 'F')
  }

  function HexDigit(d: nat): (c: char)
    requires d < 16
    ensures IsUpperHexDigit(c)
  {
    if d < 10 then ('0' as int + d) as char else ('A' as int + d - 10) as char
  }

  function HexValue(c: char): nat
  {
    if '0' <= c <= '9' then c as int - '0' as int
    else if 'A' <= c <= 'F' then c as int - 'A' as int + 10
    else 0
  }

  lemma HexRoundTrip(d: nat)
    requires d < 16
    ensures HexValue(HexDigit(d)) == d
  {
  }

  /** The UTF-8 encoding of one character (section 3 of RFC 3629). */
  function Utf8(c: char): (bytes: seq<nat>)
    ensures 1 <= |bytes| <= 4
    ensures forall k :: 0 <= k < |bytes| ==> bytes[k] < 256
    ensures c as int < 0x80 ==> bytes == [c as int]
  {
    var n := c as int;
    if n < 0x80 then [n]
    else if n < 0x800 then [0xC0 + n / 64, 0x80 + n % 64]
    else if n < 0x10000 then [0xE0 + n / 4096, 0x80 + (n / 64) % 64, 0x80 + n % 64]
    else [0xF0 + n / 262144, 0x80 + (n / 4096) % 64, 0x80 + (n / 64) % 64, 0x80 + n % 64]
  }

  /** "%XX" for each byte. */
  function Escapes(bytes: seq<nat>): (r: string)
    requires forall k :: 0 <= k < |bytes| ==> bytes[k] < 256
    ensures |r| == 3 * |bytes|
    ensures forall k :: 0 <= k < |r| ==> r[k] == '%' || IsUpperHexDigit(r[k])
  {
    if bytes == [] then ""
    else ['%', HexDigit(bytes[0] / 16), HexDigit(bytes[0] % 16)] + Escapes(bytes[1..])
  }

  function EncodeChar(c: char): string
  {
    if Unescaped(c) then [c] else Escapes(Utf8(c))
  }

  /** `encodeURIComponent(s)`. */
  function EncodeUriComponent(s: string): (r: string)
    ensures |r| >= |s|
    ensures forall k :: 0 <= k < |r| ==> Unescaped(r[k]) || r[k] == '%' || IsUpperHexDigit(r[k])
  {
    if s == [] then ""
    else
      var head := EncodeChar(s[0]);
      var rest := EncodeUriComponent(s[1..]);
      assert forall k :: |head| <= k < |head + rest| ==> (head + rest)[k] == rest[k - |head|];
      head + rest
  }

  // ---------------------------------------------------------------------------
  // The inverse: percent-decoding gives back the UTF-8 bytes

  /** The UTF-8 bytes of a string. */
  function Utf8String(s: string): seq<nat>
  {
    if s == [] then [] else Utf8(s[0]) + Utf8String(s[1..])
  }

  /** Percent-decoding to bytes: "%XX" is the byte XX, any other character
      its own code. */
  function PercentDecode(s: string): seq<nat>
  {
    if s == [] then []
    else if s[0] == '%' && |s| >= 3 then [HexValue(s[1]) * 16 + HexValue(s[2])] + PercentDecode(s[3..])
    else [s[0] as int] + PercentDecode(s[1..])
  }

  lemma {:induction false} DecodeEscapes(bytes: seq<nat>, rest: string)
    requires forall k :: 0 <= k < |bytes| ==> bytes[k] < 256
    ensures PercentDecode(Escapes(bytes) + rest) == bytes + PercentDecode(rest)
  {
    if bytes != [] {
      var b := bytes[0];
      ByteDigits(b);
      var head := ['%', HexDigit(b / 16), HexDigit(b % 16)];
      var tail := Escapes(bytes[1..]) + rest;
      assert Escapes(bytes) + rest == head + tail by {
        assert Escapes(bytes) == head + Escapes(bytes[1..]);
      }
      assert PercentDecode(head + tail) == [b] + PercentDecode(tail) by {
        DecodeOneEscape(b, tail);
      }
      DecodeEscapes(bytes[1..], rest);
      assert bytes == [b] + bytes[1..];
    } else {
      assert Escapes(bytes) + rest == rest;
    }
  }

  /** A byte splits into two hexadecimal digits. */
  lemma ByteDigits(b: nat)
    requires b < 256
    ensures b / 16 < 16 && b % 16 < 16 && (b / 16) * 16 + b % 16 == b
  {
  }

  /** One escape "%XX" decodes to the byte XX, ahead of whatever follows. */
  lemma DecodeOneEscape(b: nat, t: string)
    requires b < 256
    ensures PercentDecode(['%', HexDigit(b / 16), HexDigit(b % 16)] + t) == [b] + PercentDecode(t)
  {
    HexRoundTrip(b / 16);
    HexRoundTrip(b % 16);
    var s := ['%', HexDigit(b / 16), HexDigit(b % 16)] + t;
    assert s[3..] == t;
  }

  /** Decoding an encoding gives the UTF-8 bytes of the original text. */
  lemma {:induction false} EncodeDecode(s: string)
    ensures PercentDecode(EncodeUriComponent(s)) == Utf8String(s)
  {
    if s != [] {
      EncodeDecode(s[1..]);
      var rest := EncodeUriComponent(s[1..]);
      if Unescaped(s[0]) {
        assert ([s[0]] + rest)[1..] == rest;
      } else {
        DecodeEscapes(Utf8(s[0]), rest);
      }
    }
  }

  /** Text made of unescaped characters only is left as it is, and only such
      text is. */
  lemma {:induction false} EncodeIdentity(s: string)
    ensures EncodeUriComponent(s) == s <==> forall k :: 0 <= k < |s| ==> Unescaped(s[k])
  {
    if s != [] {
      EncodeIdentity(s[1..]);
      var rest := EncodeUriComponent(s[1..]);
      if Unescaped(s[0]) {
        assert EncodeUriComponent(s) == [s[0]] + rest;
        if rest == s[1..] {
          assert [s[0]] + s[1..] == s;
        }
        assert EncodeUriComponent(s) == s ==> rest == s[1..] by {
          if EncodeUriComponent(s) == s {
            assert s[1..] == ([s[0]] + rest)[1..];
          }
        }
        assert (forall k :: 0 <= k < |s| ==> Unescaped(s[k])) <==>
               (forall k :: 0 <= k < |s[1..]| ==> Unescaped(s[1..][k])) by {
          forall k | 0 < k < |s| ensures s[k] == s[1..][k - 1] { }
        }
      } else {
        var head := Escapes(Utf8(s[0]));
        assert head[0] == '%';
        assert EncodeUriComponent(s)[0] == '%';
      }
    }
  }

  /** A space becomes "%20", "&" becomes "%26", and "é" its two UTF-8 bytes. */
  lemma EncodeExamples()
    ensures EncodeUriComponent(" ") == "%20"
    ensures EncodeUriComponent("a&b") == "a%26b"
    ensures EncodeUriComponent("\U{00E9}") == "%C3%A9"
  {
    assert Utf8(' ') == [32];
    assert EncodeUriComponent(" ") == "%20";
    assert Utf8('&') == [38];
    assert EncodeUriComponent("a&b") == "a%26b";
    assert Utf8('\U{00E9}') == [0xC3, 0xA9];
    assert EncodeUriComponent("\U{00E9}") == "%C3%A9";
  }
}
