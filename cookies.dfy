// Cookie helpers (src/common/libs/cookies.ts) over `document.cookie`: reading
// a cookie by name from the "; "-separated cookie-pair list (section 4.2.1 of
// RFC 6265), and writing Set-Cookie-style assignment strings (section 4.1.1
// of RFC 6265) to set, delete and remove every cookie.

module Cookies {
  import opened Wrappers
  import opened Strings

  const MillisecondsPerDay := 24 * 60 * 60 * 1000
  const EpochUtcText := "Thu, 01 Jan 1970 00:00:00 GMT"
  const Attributes := ";path=/;SameSite=Lax"

  // ---------------------------------------------------------------------------
  // Reading

  /** The value after `nameEq` in the first trimmed segment that starts with
      it. */
  function FindCookie(segments: seq<string>, nameEq: string): (r: Option<string>)
    ensures r.Some? ==>
      exists i :: 0 <= i < |segments| && Trim(segments[i]) == nameEq + r.value &&
        forall j :: 0 <= j < i ==> !StartsWith(Trim(segments[j]), nameEq)
    ensures r.None? ==> forall i :: 0 <= i < |segments| ==> !StartsWith(Trim(segments[i]), nameEq)
  {
    if segments == [] then None
    else
      var t := Trim(segments[0]);
      if StartsWith(t, nameEq) then
        assert t == nameEq + t[|nameEq|..];
        Some(t[|nameEq|..])
      else
        var r := FindCookie(segments[1..], nameEq);
        assert forall i :: 1 <= i < |segments| ==> segments[i] == segments[1..][i - 1];
        r
  }

  /** What `getCookie(name)` returns for a cookie string. */
  function Lookup(cookie: string, name: string): Option<string>
  {
    FindCookie(Split(cookie, ';'), name + "=")
  }

  // ---------------------------------------------------------------------------
  // Writing

  /** `now + days * 24 * 60 * 60 * 1000`. */
  function ExpiryTime(now: int, days: int): int
  {
    now + days * MillisecondsPerDay
  }

  /** The string assigned to `document.cookie` for a cookie and its expiry. */
  function Assignment(name: string, value: string, expiresText: string): string
  {
    name + "=" + value + ";expires=" + expiresText + Attributes
  }

  function DeleteAssignment(name: string): string
  {
    name + "=;expires=" + EpochUtcText + Attributes
  }

  /** The name `removeAllCookies` deletes for a segment: the trimmed text
      before its first "=". */
  function SegmentName(segment: string): string
  {
    Before(Trim(segment), '=')
  }

  /** The assignments `removeAllCookies` makes for the first n segments. */
  function Deletions(segments: seq<string>, n: nat): (r: seq<string>)
    requires n <= |segments|
    ensures |r| == n
    ensures forall k :: 0 <= k < n ==> r[k] == DeleteAssignment(SegmentName(segments[k]))
  {
    if n == 0 then [] else Deletions(segments, n - 1) + [DeleteAssignment(SegmentName(segments[n - 1]))]
  }

  /** The page's document, if there is one: what reading `document.cookie`
      gives, and every string assigned to it, oldest first. */
  class Document {
    const hasDocument: bool
    var cookie: string
    var assignments: seq<string>

    constructor(hasDocument: bool, cookie: string)
      ensures this.hasDocument == hasDocument && this.cookie == cookie && assignments == []
    {
      this.hasDocument := hasDocument;
      this.cookie := cookie;
      assignments := [];
    }

    /** `getCookie(name)`. */
    method GetCookie(name: string) returns (r: Option<string>)
      ensures r == if hasDocument then Lookup(cookie, name) else None
    {
      if !hasDocument {
        return None;
      }
      var nameWithEquals := name + "=";
      var cookies := Split(cookie, ';');
      var i := 0;
      while i < |cookies|
        invariant 0 <= i <= |cookies|
        invariant FindCookie(cookies, nameWithEquals) == FindCookie(cookies[i..], nameWithEquals)
      {
        var c := Trim(cookies[i]);
        assert cookies[i..][1..] == cookies[i + 1..];
        if StartsWith(c, nameWithEquals) {
          return Some(c[|nameWithEquals|..]);
        }
        i := i + 1;
      }
      return None;
    }

    /** `setCookie(name, value, days)`, with the clock reading `now` and the
        date formatter `toUtcString` as parameters. */
    method SetCookie(name: string, value: string, days: int, now: int, toUtcString: int -> string)
      modifies this`assignments
      ensures assignments == old(assignments) +
        if hasDocument then [Assignment(name, value, toUtcString(ExpiryTime(now, days)))] else []
    {
      if !hasDocument {
        return;
      }
      var expires := toUtcString(now + days * 24 * 60 * 60 * 1000);
      assignments := assignments + [name + "=" + value + ";expires=" + expires + Attributes];
    }

    /** `deleteCookie(name)`. */
    method DeleteCookie(name: string)
      modifies this`assignments
      ensures assignments == old(assignments) + if hasDocument then [DeleteAssignment(name)] else []
    {
      if !hasDocument {
        return;
      }
      assignments := assignments + [name + "=;expires=" + EpochUtcText + Attributes];
    }

    /** `removeAllCookies()`: one deletion per segment of the cookie string. */
    method RemoveAllCookies()
      modifies this`assignments
      ensures assignments == old(assignments) +
        if hasDocument then Deletions(Split(cookie, ';'), |Split(cookie, ';')|) else []
    {
      if !hasDocument {
        return;
      }
      var cookies := Split(cookie, ';');
      var i := 0;
      while i < |cookies|
        invariant 0 <= i <= |cookies|
        invariant assignments == old(assignments) + Deletions(cookies, i)
      {
        var c := Trim(cookies[i]);
        var name := Split(c, '=')[0];
        DeleteCookie(name);
        i := i + 1;
      }
    }
  }

  // ---------------------------------------------------------------------------
  // Properties

  /** Trimming strips leading spaces off text whose ends are not white
      space. */
  lemma TrimPadded(pad: string, s: string)
    requires forall k :: 0 <= k < |pad| ==> pad[k] == ' '
    requires s != [] && !IsJsWhitespace(s[0]) && !IsJsWhitespace(s[|s| - 1])
    ensures Trim(pad + s) == s
  {
    TrimStartSpaces(pad, s);
    TrimKeeps(s);
  }

  /** The lookup finds the value of the first segment that starts with the
      name. */
  lemma {:induction false} FoundAt(segments: seq<string>, i: nat, nameEq: string, value: string)
    requires i < |segments| && Trim(segments[i]) == nameEq + value
    requires forall j :: 0 <= j < i ==> !StartsWith(Trim(segments[j]), nameEq)
    ensures FindCookie(segments, nameEq) == Some(value)
  {
    if i == 0 {
      var t := Trim(segments[0]);
      assert t[..|nameEq|] == nameEq;
      assert t[|nameEq|..] == value;
    } else {
      assert !StartsWith(Trim(segments[0]), nameEq);
      FoundAt(segments[1..], i - 1, nameEq, value);
    }
  }

  /** Reading back: in a cookie string whose segment i is `name=value` after
      leading spaces, with no earlier segment starting with `name=`, the
      lookup gives `value` exactly (no decoding). */
  lemma ReadBack(segments: seq<string>, i: nat, pad: string, name: string, value: string)
    requires |segments| >= 1 && forall k :: 0 <= k < |segments| ==> ';' !in segments[k]
    requires forall k :: 0 <= k < |pad| ==> pad[k] == ' '
    requires name == [] || !IsJsWhitespace(name[0])
    requires value == [] || !IsJsWhitespace(value[|value| - 1])
    requires i < |segments| && segments[i] == pad + (name + "=" + value)
    requires forall j :: 0 <= j < i ==> !StartsWith(Trim(segments[j]), name + "=")
    ensures Lookup(Join(segments, ";"), name) == Some(value)
  {
    SplitJoin(segments, ';');
    var pair := name + "=" + value;
    assert pair[0] == (if name == [] then '=' else name[0]);
    assert pair[|pair| - 1] == (if value == [] then '=' else value[|value| - 1]);
    TrimPadded(pad, pair);
    FoundAt(segments, i, name + "=", value);
  }

  /** The name test is a prefix test on whole names: `id` is not found in
      "uid=5", but is found in "uid=5; id=7" at the second segment. */
  lemma PrefixMatching()
    ensures Lookup("uid=5", "id") == None
    ensures Lookup("uid=5; id=7", "id") == Some("7")
  {
    NotInOther();
    FoundInSecond();
  }

  lemma NotInOther()
    ensures !StartsWith(Trim("uid=5"), "id=")
    ensures Lookup("uid=5", "id") == None
  {
    SplitNoSep("uid=5", ';');
    TrimKeeps("uid=5");
    assert "uid=5"[..3] != "id=" by {
      assert "uid=5"[0] == 'u';
    }
  }

  lemma FoundInSecond()
    requires !StartsWith(Trim("uid=5"), "id=")
    ensures Lookup("uid=5; id=7", "id") == Some("7")
  {
    var segments := ["uid=5", " id=7"];
    assert Join(segments, ";") == "uid=5; id=7";
    ReadBack(segments, 1, " ", "id", "7");
  }

  /** Deleting is setting the empty value with the epoch as expiry. */
  lemma DeleteIsExpiredSet(name: string)
    ensures DeleteAssignment(name) == Assignment(name, "", EpochUtcText)
  {
  }

  /** The assignment `setCookie` writes starts with the `name=value` pair,
      and the expiry lies `days` whole days after the clock reading. */
  lemma AssignmentShape(name: string, value: string, expiresText: string, now: int, days: int)
    requires ';' !in name && ';' !in value
    ensures Before(Assignment(name, value, expiresText), ';') == name + "=" + value
    ensures ExpiryTime(now, days) - now == days * 86400000
  {
    var pair := name + "=" + value;
    assert ';' !in pair;
    assert Assignment(name, value, expiresText) == pair + [';'] + ("expires=" + expiresText + Attributes);
    SplitAfterPiece(pair, ';', "expires=" + expiresText + Attributes);
  }

  /** An empty cookie string still makes one deletion, for the empty name;
      a jar of n pairs makes n deletions naming its cookies in order. */
  lemma RemoveAllNames(names: seq<string>, values: seq<string>)
    requires |names| == |values| >= 1
    requires forall k :: 0 <= k < |names| ==>
      ';' !in names[k] && '=' !in names[k] && ';' !in values[k] &&
      names[k] != [] && !IsJsWhitespace(names[k][0]) &&
      (values[k] == [] || !IsJsWhitespace(values[k][|values[k]| - 1]))
    ensures Deletions(Split("", ';'), 1) == [DeleteAssignment("")]
    ensures var segments := seq(|names|, k requires 0 <= k < |names| => names[k] + "=" + values[k]);
      var cookies := Split(Join(segments, ";"), ';');
      |cookies| == |names| &&
      forall k :: 0 <= k < |names| ==> Deletions(cookies, |cookies|)[k] == DeleteAssignment(names[k])
  {
    assert Split("", ';') == [""];
    assert TrimStart("") == "" && TrimEnd("") == "";
    assert SegmentName("") == "";
    var segments := seq(|names|, k requires 0 <= k < |names| => names[k] + "=" + values[k]);
    forall k | 0 <= k < |names|
      ensures ';' !in segments[k] && SegmentName(segments[k]) == names[k]
    {
      var s := segments[k];
      assert s == names[k] + ['='] + values[k];
      assert s[0] == names[k][0];
      assert s[|s| - 1] == if values[k] == [] then '=' else values[k][|values[k]| - 1];
      TrimKeeps(s);
      SplitAfterPiece(names[k], '=', values[k]);
    }
    SplitJoin(segments, ';');
  }
}
