/** Shared vocabulary: optional values, identities, HTTP status codes and the
    JavaScript string operations (trim, ASCII lower-casing, decimal
    rendering) that the routes and forms rely on. */
module Common {

  datatype Option<+T> = None | Some(value: T)

  /** Server-generated identity (a MongoDB ObjectId in the original). */
  type Id = nat

  /** Milliseconds since the epoch. */
  type Millis = int

  // HTTP status codes used by the route handlers.
  const OK: int := 200
  const CREATED: int := 201
  const NO_CONTENT: int := 204
  const BAD_REQUEST: int := 400
  const UNAUTHORIZED: int := 401
  const FORBIDDEN: int := 403
  const NOT_FOUND: int := 404
  const CONFLICT: int := 409
  const SERVER_ERROR: int := 500

  /** JavaScript truthiness of an optional string request field:
      `undefined` and `''` are both falsy. */
  predicate Given(o: Option<string>) {
    o.Some? && o.value != ""
  }

  /** The characters `String.prototype.trim` removes: WhiteSpace
      (tab, vertical tab, form feed, BOM and the Unicode Zs category)
      and LineTerminator. */
  predicate IsJsSpace(c: char) {
    c == '\t' || c == '\n' || c == '\U{000B}' || c == '\U{000C}' || c == '\r' ||
    c == ' ' || c == '\U{00A0}' || c == '\U{1680}' ||
    ('\U{2000}' <= c <= '\U{200A}') ||
    c == '\U{2028}' || c == '\U{2029}' || c == '\U{202F}' || c == '\U{205F}' ||
    c == '\U{3000}' || c == '\U{FEFF}'
  }

  /** Drops leading whitespace (see `TrimStartSpec`). */
  function TrimStart(s: string): (r: string)
    ensures |r| <= |s|
  {
    if s == [] || !IsJsSpace(s[0]) then s else TrimStart(s[1..])
  }

  /** Drops trailing whitespace (see `TrimEndSpec`). */
  function TrimEnd(s: string): (r: string)
    ensures |r| <= |s|
  {
    if s == [] || !IsJsSpace(s[|s| - 1]) then s else TrimEnd(s[..|s| - 1])
  }

  /** `TrimStart(s)` is the longest suffix of `s` that does not start with
      whitespace: everything dropped is whitespace. */
  lemma {:induction false} TrimStartSpec(s: string)
    ensures var r := TrimStart(s);
      && r == s[|s| - |r|..]
      && (r == [] || !IsJsSpace(r[0]))
      && forall i :: 0 <= i < |s| - |r| ==> IsJsSpace(s[i])
  {
    if s != [] && IsJsSpace(s[0]) {
      TrimStartSpec(s[1..]);
    }
  }

  /** `TrimEnd(s)` is the longest prefix of `s` that does not end with
      whitespace: everything dropped is whitespace. */
  lemma {:induction false} TrimEndSpec(s: string)
    ensures var r := TrimEnd(s);
      && r == s[..|r|]
      && (r == [] || !IsJsSpace(r[|r| - 1]))
      && forall i :: |r| <= i < |s| ==> IsJsSpace(s[i])
  {
    if s != [] && IsJsSpace(s[|s| - 1]) {
      TrimEndSpec(s[..|s| - 1]);
    }
  }

  /** `s.trim()`: whitespace removed at both ends. The result is the slice
      of `s` left after dropping whitespace-only ends. */
  function Trim(s: string): (r: string)
    ensures |r| <= |s|
    ensures IsTrimmed(r)
    ensures exists i, j ::
              && 0 <= i <= j <= |s| && r == s[i..j]
              && (forall k :: 0 <= k < i ==> IsJsSpace(s[k]))
              && (forall k :: j <= k < |s| ==> IsJsSpace(s[k]))
  {
    TrimStartSpec(s);
    var t := TrimStart(s);
    TrimEndSpec(t);
    var i := |s| - |t|;
    var j := i + |TrimEnd(t)|;
    assert TrimEnd(t) == s[i..j];
    assert forall k :: j <= k < |s| ==> IsJsSpace(s[k]) by {
      forall k | j <= k < |s| ensures IsJsSpace(s[k]) {
        assert s[k] == t[k - i];
      }
    }
    TrimEnd(t)
  }

  predicate IsTrimmed(s: string) {
    s == [] || (!IsJsSpace(s[0]) && !IsJsSpace(s[|s| - 1]))
  }

  /** Trimming a trimmed string changes nothing, so `Trim` is idempotent. */
  lemma {:induction false} TrimOfTrimmed(s: string)
    requires IsTrimmed(s)
    ensures Trim(s) == s
  {
    assert TrimStart(s) == s;
    assert TrimEnd(s) == s;
  }

  lemma TrimIdempotent(s: string)
    ensures Trim(Trim(s)) == Trim(s)
  {
    TrimOfTrimmed(Trim(s));
  }

  /** The UTF-16 code units of one character: two for a character outside
      the Basic Multilingual Plane (a surrogate pair), otherwise one. */
  function CodeUnits(c: char): nat {
    if c as int >= 0x10000 then 2 else 1
  }

  /** JavaScript's `s.length`, which Mongoose's `minlength` also uses: the
      number of UTF-16 code units, not of characters. */
  function JsLength(s: string): (n: nat)
    ensures |s| <= n <= 2 * |s|
  {
    if s == [] then 0 else CodeUnits(s[0]) + JsLength(s[1..])
  }

  lemma {:induction false} JsLengthAppend(a: string, b: string)
    ensures JsLength(a + b) == JsLength(a) + JsLength(b)
  {
    if a != [] {
      assert (a + b)[1..] == a[1..] + b;
      JsLengthAppend(a[1..], b);
    } else {
      assert a + b == b;
    }
  }

  /** Within the Basic Multilingual Plane, code units and characters agree. */
  lemma {:induction false} JsLengthOfBmp(s: string)
    requires forall i :: 0 <= i < |s| ==> s[i] as int < 0x10000
    ensures JsLength(s) == |s|
  {
    if s != [] {
      assert forall i :: 0 <= i < |s[1..]| ==> s[1..][i] == s[i + 1];
      JsLengthOfBmp(s[1..]);
    }
  }

  /** An emoji counts twice: a two-character string can have `length` 3. */
  lemma AstralCountsTwice()
    ensures |"\U{1F600}a"| == 2 && JsLength("\U{1F600}a") == 3
  {
    assert "\U{1F600}a"[1..] == "a";
  }

  /** Lower-casing of the ASCII letters (`toLowerCase` restricted to ASCII). */
  function LowerChar(c: char): (r: char)
    ensures 'A' <= c <= 'Z' ==> 'a' <= r <= 'z'
    ensures !('A' <= c <= 'Z') ==> r == c
  {
    if 'A' <= c <= 'Z' then (c as int - 'A' as int + 'a' as int) as char else c
  }

  function Lower(s: string): (r: string)
    ensures |r| == |s|
    ensures forall i :: 0 <= i < |s| ==> r[i] == LowerChar(s[i])
  {
    if s == [] then [] else [LowerChar(s[0])] + Lower(s[1..])
  }

  predicate IsDigit(c: char) {
    '0' <= c <= '9'
  }

  /** Decimal rendering of a natural number, as template literals print it. */
  function NatToString(n: nat): (r: string)
    ensures |r| >= 1
    ensures forall i :: 0 <= i < |r| ==> IsDigit(r[i])
  {
    if n < 10 then [('0' as int + n) as char]
    else NatToString(n / 10) + [('0' as int + n % 10) as char]
  }

  function DigitValue(c: char): nat
    requires IsDigit(c)
  {
    c as int - '0' as int
  }

  /** Reads a string of decimal digits back as a number. */
  function ParseNat(s: string): nat
    requires forall i :: 0 <= i < |s| ==> IsDigit(s[i])
  {
    if s == [] then 0 else 10 * ParseNat(s[..|s| - 1]) + DigitValue(s[|s| - 1])
  }

  /** The rendering is exact: reading it back gives the number. */
  lemma {:induction false} NatToStringRoundTrip(n: nat)
    ensures ParseNat(NatToString(n)) == n
  {
    if n >= 10 {
      var r := NatToString(n);
      assert r[..|r| - 1] == NatToString(n / 10);
      NatToStringRoundTrip(n / 10);
    }
  }
}
