/**
 * The slice of JavaScript value semantics that the Knighthoot client and
 * server code relies on: JSON values, truthiness, the `??` operator,
 * `Number(...)`, property and index lookup, `String.prototype.trim`,
 * `toLowerCase` (ASCII letters only), `includes`, and decimal rendering
 * of counters in user-visible messages.
 */
module Js {

  /** A JSON value as the server sends it or the browser parses it.
      Numbers carried inside JSON are always finite. */
  datatype Value =
    | Undefined
    | Null
    | Bool(b: bool)
    | Num(x: real)
    | Str(s: string)
    | Arr(items: seq<Value>)
    | Obj(fields: map<string, Value>)

  /** The result of a numeric conversion, which may be NaN or infinite. */
  datatype Number = NaN | Infinity(negative: bool) | Finite(x: real)

  /** `v == null` in JavaScript: the two values `??` skips over. */
  predicate Nullish(v: Value) {
    v.Undefined? || v.Null?
  }

  /** `a ?? b` */
  function Coalesce(a: Value, b: Value): (r: Value)
    ensures !Nullish(a) ==> r == a
    ensures Nullish(a) ==> r == b
  {
    if Nullish(a) then b else a
  }

  /** `!!v` */
  predicate Truthy(v: Value) {
    match v
    case Undefined => false
    case Null => false
    case Bool(b) => b
    case Num(x) => x != 0.0
    case Str(s) => s != ""
    case Arr(_) => true
    case Obj(_) => true
  }

  /** `!!n` for a number. */
  predicate TruthyNumber(n: Number) {
    match n
    case NaN => false
    case Infinity(_) => true
    case Finite(x) => x != 0.0
  }

  /** `v?.[key]`: a property of an object, `undefined` for anything else. */
  function Get(v: Value, key: string): Value {
    if v.Obj? && key in v.fields then v.fields[key] else Undefined
  }

  /** `Array.isArray(v) ? v : []` */
  function ItemsOrEmpty(v: Value): seq<Value> {
    if v.Arr? then v.items else []
  }

  // ---------------------------------------------------------------------------
  // Whitespace and trim

  /** The characters ECMAScript counts as WhiteSpace or LineTerminator. */
  predicate IsSpace(c: char) {
    var k := c as int;
    k == 0x09 || k == 0x0A || k == 0x0B || k == 0x0C || k == 0x0D || k == 0x20
    || k == 0xA0 || k == 0x1680 || (0x2000 <= k <= 0x200A) || k == 0x2028 || k == 0x2029
    || k == 0x202F || k == 0x205F || k == 0x3000 || k == 0xFEFF
  }

  predicate AllSpace(s: string) {
    forall i :: 0 <= i < |s| ==> IsSpace(s[i])
  }

  /** Neither the first nor the last character is whitespace. */
  predicate Trimmed(s: string) {
    s == [] || (!IsSpace(s[0]) && !IsSpace(s[|s| - 1]))
  }

  function TrimStart(s: string): (r: string)
    ensures |r| <= |s| && r == s[|s| - |r|..]
    ensures AllSpace(s[..|s| - |r|])
    ensures r == [] || !IsSpace(r[0])
  {
    if s != [] && IsSpace(s[0]) then
      var r := TrimStart(s[1..]);
      assert s[..|s| - |r|] == [s[0]] + s[1..][..|s| - 1 - |r|];
      r
    else s
  }

  function TrimEnd(s: string): (r: string)
    ensures |r| <= |s| && r == s[..|r|]
    ensures AllSpace(s[|r|..])
    ensures r == [] || !IsSpace(r[|r| - 1])
  {
    if s != [] && IsSpace(s[|s| - 1]) then
      var r := TrimEnd(s[..|s| - 1]);
      assert s[|r|..] == s[..|s| - 1][|r|..] + [s[|s| - 1]];
      r
    else s
  }

  /** `s.trim()`: `s` with its leading and trailing whitespace removed;
      it is empty exactly when `s` is blank. */
  function Trim(s: string): (r: string)
    ensures Trimmed(r) && |r| <= |s|
    ensures r == "" <==> AllSpace(s)
  {
    var a := TrimStart(s);
    var r := TrimEnd(a);
    BlankSplit(s, |s| - |a|);
    BlankSplit(a, |r|);
    r
  }

  /** A string split in two is blank exactly when both parts are. */
  lemma BlankSplit(s: string, k: nat)
    requires k <= |s|
    ensures AllSpace(s) <==> AllSpace(s[..k]) && AllSpace(s[k..])
  {
    if AllSpace(s[..k]) && AllSpace(s[k..]) {
      forall i | 0 <= i < |s| ensures IsSpace(s[i]) {
        if i < k { assert s[..k][i] == s[i]; } else { assert s[k..][i - k] == s[i]; }
      }
    }
  }

  /** Trimming twice changes nothing more. */
  lemma TrimIdempotent(s: string)
    ensures Trim(Trim(s)) == Trim(s)
  {
    TrimmedIsFixed(Trim(s));
  }

  /** A string with no whitespace at either end is left as it is. */
  lemma TrimmedIsFixed(t: string)
    requires Trimmed(t)
    ensures TrimStart(t) == t && TrimEnd(t) == t
    ensures Trim(t) == t
  {
    if t != [] {
      assert !IsSpace(t[0]);
      assert TrimStart(t) == t;
      assert !IsSpace(t[|t| - 1]);
      assert TrimEnd(t) == t;
    }
  }

  // ---------------------------------------------------------------------------
  // Case and substrings

  /** `toLowerCase`, for the ASCII letters. */
  function LowerChar(c: char): char {
    if 'A' <= c <= 'Z' then (c as int + 32) as char else c
  }

  function Lower(s: string): (r: string)
    ensures |r| == |s|
    ensures forall i :: 0 <= i < |s| ==> r[i] == LowerChar(s[i])
  {
    if s == [] then [] else [LowerChar(s[0])] + Lower(s[1..])
  }

  /** `s.includes(t)` */
  predicate Contains(s: string, t: string) {
    exists i | 0 <= i <= |s| - |t| :: OccursAt(s, t, i)
  }

  predicate OccursAt(s: string, t: string, i: int)
    requires 0 <= i <= |s| - |t|
  {
    s[i..i + |t|] == t
  }

  // ---------------------------------------------------------------------------
  // Decimal digits

  predicate IsDigit(c: char) {
    '0' <= c <= '9'
  }

  predicate AllDigits(s: string) {
    forall i :: 0 <= i < |s| ==> IsDigit(s[i])
  }

  function DigitChar(d: nat): char
    requires d < 10
  {
    ('0' as int + d) as char
  }

  /** The value of a string of decimal digits. */
  function DigitsValue(s: string): nat
    requires AllDigits(s)
  {
    if s == [] then 0 else DigitsValue(s[..|s| - 1]) * 10 + (s[|s| - 1] as int - '0' as int)
  }

  /** `String(n)` for a natural number. */
  function Decimal(n: nat): (r: string)
    ensures |r| >= 1 && AllDigits(r)
  {
    if n < 10 then [DigitChar(n)] else Decimal(n / 10) + [DigitChar(n % 10)]
  }

  /** Reading back the decimal rendering of a number gives the number. */
  lemma {:induction false} DecimalRoundTrip(n: nat)
    ensures DigitsValue(Decimal(n)) == n
  {
    if n >= 10 {
      var d := Decimal(n / 10);
      DecimalRoundTrip(n / 10);
      assert (d + [DigitChar(n % 10)])[..|d|] == d;
    }
  }

  /** The longest run of digits at the start of `s`. */
  function DigitPrefix(s: string): (r: string)
    ensures AllDigits(r) && |r| <= |s| && r == s[..|r|]
  {
    if s != [] && IsDigit(s[0]) then [s[0]] + DigitPrefix(s[1..]) else []
  }

  /** The longest run of digits at the end of `s`. */
  function DigitSuffix(s: string): (r: string)
    ensures AllDigits(r) && |r| <= |s| && r == s[|s| - |r|..]
  {
    if s != [] && IsDigit(s[|s| - 1]) then DigitSuffix(s[..|s| - 1]) + [s[|s| - 1]] else []
  }

  /** Digits followed by a non-digit: the digit run read from the front is
      exactly those digits. */
  lemma {:induction false} DigitPrefixOf(a: string, s: string)
    requires AllDigits(a) && (s == [] || !IsDigit(s[0]))
    ensures DigitPrefix(a + s) == a
  {
    if a != [] {
      assert (a + s)[1..] == a[1..] + s;
      DigitPrefixOf(a[1..], s);
    } else {
      assert a + s == s;
    }
  }

  /** A non-digit followed by digits: the digit run read from the back is
      exactly those digits. */
  lemma {:induction false} DigitSuffixOf(s: string, b: string)
    requires AllDigits(b) && (s == [] || !IsDigit(s[|s| - 1]))
    ensures DigitSuffix(s + b) == b
  {
    if b != [] {
      var init, c := b[..|b| - 1], b[|b| - 1];
      var t := s + b;
      assert t == (s + init) + [c];
      assert IsDigit(t[|t| - 1]);
      assert t[..|t| - 1] == s + init;
      DigitSuffixOf(s, init);
      assert DigitSuffix(t) == DigitSuffix(s + init) + [c];
      assert init + [c] == b;
    } else {
      assert s + b == s;
    }
  }

  /** Digits followed by a non-digit split only one way. */
  lemma DigitsThenRest(d1: string, r1: string, d2: string, r2: string)
    requires AllDigits(d1) && AllDigits(d2)
    requires r1 != [] && !IsDigit(r1[0]) && r2 != [] && !IsDigit(r2[0])
    requires d1 + r1 == d2 + r2
    ensures d1 == d2 && r1 == r2
  {
    DigitPrefixOf(d1, r1);
    DigitPrefixOf(d2, r2);
    assert r1 == (d1 + r1)[|d1|..];
    assert r2 == (d2 + r2)[|d2|..];
  }

  /** Different numbers have different decimal renderings. */
  lemma DecimalInjective(a: nat, b: nat)
    requires Decimal(a) == Decimal(b)
    ensures a == b
  {
    DecimalRoundTrip(a);
    DecimalRoundTrip(b);
  }

  // ---------------------------------------------------------------------------
  // Numeric conversion

  /** `Number(s)` for a string: surrounding whitespace is ignored, a blank
      string is 0, a string of decimal digits is its value and every other
      string is NaN here. */
  function StringToNumber(s: string): Number {
    var t := Trim(s);
    if t == "" then Finite(0.0)
    else if AllDigits(t) then Finite(DigitsValue(t) as real)
    else NaN
  }

  /** `Number(v)` */
  function ToNumber(v: Value): Number {
    match v
    case Undefined => NaN
    case Null => Finite(0.0)
    case Bool(b) => Finite(if b then 1.0 else 0.0)
    case Num(x) => Finite(x)
    case Str(s) => StringToNumber(s)
    case Arr(_) => NaN
    case Obj(_) => NaN
  }

  /** A decimal rendering converts back to the same number. */
  lemma DecimalToNumber(n: nat)
    ensures StringToNumber(Decimal(n)) == Finite(n as real)
  {
    var d := Decimal(n);
    assert Trimmed(d) && |d| >= 1 && !IsSpace(d[0]);
    assert TrimStart(d) == d;
    assert TrimEnd(d) == d;
    DecimalRoundTrip(n);
  }

  /** `x` names an element of a list of length `len`: a whole number in range. */
  predicate IsIndex(x: real, len: nat) {
    x.Floor as real == x && 0 <= x.Floor < len
  }

  /** `items[n]`: the element when `n` is an index, `undefined` otherwise
      (fractions, negatives, NaN and infinities name no element). */
  function Index(items: seq<Value>, n: Number): Value {
    if n.Finite? && IsIndex(n.x, |items|) then items[n.x.Floor] else Undefined
  }
}
