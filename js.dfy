/**
 * The handful of JavaScript value semantics that the CRM's server code leans on:
 * truthiness and `||` defaulting, `parseInt`, `String(x)`, `Number(x)`, `trim`,
 * `Array.prototype.slice` index clamping and `Math.ceil(a / b)`.
 */
module Js {

  datatype Option<+T> = None | Some(value: T)

  datatype Result<+T, +E> = Ok(value: T) | Err(error: E)

  /** A JSON-ish JavaScript value as it arrives in a request body or a spreadsheet row.
      Numbers are integers here; fractional numbers are not modelled. */
  datatype JsVal = JUndefined | JNull | JBool(b: bool) | JNum(n: int) | JStr(s: string)

  /** `!!v` */
  predicate Truthy(v: JsVal) {
    match v
    case JUndefined => false
    case JNull => false
    case JBool(b) => b
    case JNum(n) => n != 0
    case JStr(s) => s != ""
  }

  /** Reads `obj.key` from a plain object given as a map; a missing key reads as `undefined`. */
  function Field(obj: map<string, JsVal>, key: string): JsVal {
    if key in obj then obj[key] else JUndefined
  }

  /** `obj[k0] || obj[k1] || ... || obj[kn]`: the first truthy operand, or else the last operand. */
  function FirstTruthy(obj: map<string, JsVal>, keys: seq<string>): (r: JsVal)
    requires keys != []
    ensures Truthy(r) <==> exists k :: k in keys && Truthy(Field(obj, k))
    ensures Truthy(Field(obj, keys[0])) ==> r == Field(obj, keys[0])
    ensures !Truthy(r) ==> r == Field(obj, keys[|keys| - 1])
  {
    if |keys| == 1 || Truthy(Field(obj, keys[0])) then Field(obj, keys[0])
    else
      var r := FirstTruthy(obj, keys[1..]);
      assert forall k :: k in keys[1..] ==> k in keys;
      assert forall k :: k in keys && k != keys[0] ==> k in keys[1..];
      r
  }

  /** `a || b` for two already-evaluated operands. */
  function OrElse(a: JsVal, b: JsVal): JsVal {
    if Truthy(a) then a else b
  }

  // ---------------------------------------------------------------- decimal text

  predicate IsDigit(c: char) { '0' <= c <= '9' }

  function DigitChar(d: nat): char
    requires d < 10
  {
    "0123456789"[d]
  }

  function DigitValue(c: char): nat
    requires IsDigit(c)
  {
    (c as int - '0' as int) as nat
  }

  /** Value of a run of decimal digits, most significant first. */
  function DigitsValue(ds: string): nat
    requires forall i :: 0 <= i < |ds| ==> IsDigit(ds[i])
  {
    if ds == [] then 0 else 10 * DigitsValue(ds[..|ds| - 1]) + DigitValue(ds[|ds| - 1])
  }

  /** Shortest decimal spelling of a natural number, as `String(n)` gives it. */
  function NatToString(n: nat): (s: string)
    ensures s != [] && forall i :: 0 <= i < |s| ==> IsDigit(s[i])
    ensures n != 0 ==> s[0] != '0'
    decreases n
  {
    if n < 10 then [DigitChar(n)] else NatToString(n / 10) + [DigitChar(n % 10)]
  }

  /** `String(n)` for an integer. */
  function IntToString(n: int): (s: string)
    ensures s != []
    ensures n < 0 <==> s[0] == '-'
  {
    if n < 0 then "-" + NatToString(-n) else NatToString(n)
  }

  /** `String(v)` / template-literal interpolation. */
  function JsToString(v: JsVal): string {
    match v
    case JUndefined => "undefined"
    case JNull => "null"
    case JBool(b) => if b then "true" else "false"
    case JNum(n) => IntToString(n)
    case JStr(s) => s
  }

  // ---------------------------------------------------------------- white space

  /** ECMAScript WhiteSpace and LineTerminator code points (what `trim` and `parseInt` skip). */
  predicate IsJsSpace(c: char) {
    c == '\t' || c == '\n' || c == '\U{B}' || c == '\U{C}' || c == '\r' || c == ' '
    || c == '\U{A0}' || c == '\U{1680}' || ('\U{2000}' <= c <= '\U{200A}')
    || c == '\U{2028}' || c == '\U{2029}' || c == '\U{202F}' || c == '\U{205F}'
    || c == '\U{3000}' || c == '\U{FEFF}'
  }

  function TrimStart(s: string): (r: string)
    ensures |r| <= |s| && r == s[|s| - |r|..]
    ensures forall i :: 0 <= i < |s| - |r| ==> IsJsSpace(s[i])
    ensures r != [] ==> !IsJsSpace(r[0])
  {
    if s != [] && IsJsSpace(s[0]) then TrimStart(s[1..]) else s
  }

  function TrimEnd(s: string): (r: string)
    ensures |r| <= |s| && r == s[..|r|]
    ensures forall i :: |r| <= i < |s| ==> IsJsSpace(s[i])
    ensures r != [] ==> !IsJsSpace(r[|r| - 1])
  {
    if s != [] && IsJsSpace(s[|s| - 1]) then TrimEnd(s[..|s| - 1]) else s
  }

  /** `s.trim()` */
  function Trim(s: string): string {
    TrimEnd(TrimStart(s))
  }

  // ---------------------------------------------------------------- parseInt / Number

  /** The longest prefix of `s` made of decimal digits. */
  function DigitPrefix(s: string): (ds: string)
    ensures |ds| <= |s| && ds == s[..|ds|]
    ensures forall i :: 0 <= i < |ds| ==> IsDigit(ds[i])
    ensures |ds| < |s| ==> !IsDigit(s[|ds|])
  {
    if s != [] && IsDigit(s[0]) then [s[0]] + DigitPrefix(s[1..]) else []
  }

  /** `parseInt(s)` with radix 10: skips leading white space, reads an optional sign and the longest
      run of digits; `None` stands for `NaN` (no digit after the sign). */
  function ParseIntStr(s: string): Option<int> {
    ParseSigned(TrimStart(s))
  }

  /** The sign step of `parseInt`, on text whose leading white space is gone. */
  function ParseSigned(t: string): Option<int> {
    if t != [] && t[0] == '-' then
      match ParseDigits(t[1..])
      case None => None
      case Some(v) => Some(-v)
    else if t != [] && t[0] == '+' then ParseDigits(t[1..])
    else ParseDigits(t)
  }

  /** The longest run of leading digits as a number; `None` when there is none. */
  function ParseDigits(body: string): (r: Option<int>)
    ensures r.Some? ==> r.value >= 0
  {
    var ds := DigitPrefix(body);
    if ds == [] then None else Some(DigitsValue(ds))
  }

  /** `parseInt(v)`: the value is first converted with `String(v)`. */
  function ParseInt(v: JsVal): Option<int> {
    ParseIntStr(JsToString(v))
  }

  /** `Number(s)` for strings holding a (possibly signed) decimal integer, after trimming;
      the empty string is 0 and anything else is `NaN` (`None`). */
  function StringToNumber(s: string): Option<int> {
    var t := Trim(s);
    if t == [] then Some(0)
    else
      var neg := t[0] == '-';
      var body := if t[0] == '-' || t[0] == '+' then t[1..] else t;
      if body != [] && DigitPrefix(body) == body then
        var v: int := DigitsValue(body);
        Some(if neg then -v else v)
      else None
  }

  /** `Number(v)` */
  function ToNumber(v: JsVal): Option<int> {
    match v
    case JUndefined => None
    case JNull => Some(0)
    case JBool(b) => Some(if b then 1 else 0)
    case JNum(n) => Some(n)
    case JStr(s) => StringToNumber(s)
  }

  lemma {:induction false} DigitsValueOfNatToString(n: nat)
    ensures DigitsValue(NatToString(n)) == n
    decreases n
  {
    var s := NatToString(n);
    if n >= 10 {
      DigitsValueOfNatToString(n / 10);
      assert s[..|s| - 1] == NatToString(n / 10);
    }
  }

  lemma DigitPrefixOfDigits(s: string)
    requires forall i :: 0 <= i < |s| ==> IsDigit(s[i])
    ensures DigitPrefix(s) == s
  {
  }

  /** `parseInt(String(n)) == n`: the decimal spelling of an integer reads back as that integer. */
  lemma ParseIntOfIntToString(n: int)
    ensures ParseIntStr(IntToString(n)) == Some(n)
  {
    if n < 0 {
      ParseIntOfNegative(n);
    } else {
      ParseIntOfNatToString(n);
    }
  }

  lemma TrimStartUnspaced(s: string)
    requires s != [] && !IsJsSpace(s[0])
    ensures TrimStart(s) == s
  {
  }

  /** A run of digits parses as its value. */
  lemma ParseDigitsOfDigits(digits: string)
    requires digits != [] && forall i :: 0 <= i < |digits| ==> IsDigit(digits[i])
    ensures ParseDigits(digits) == Some(DigitsValue(digits) as int)
  {
    DigitPrefixOfDigits(digits);
  }

  lemma ParseIntOfNatToString(n: nat)
    ensures ParseIntStr(IntToString(n)) == Some(n)
  {
    var digits := NatToString(n);
    assert IntToString(n) == digits;
    TrimStartUnspaced(digits);
    assert digits[0] != '-' && digits[0] != '+';
    ParseDigitsOfDigits(digits);
    DigitsValueOfNatToString(n);
  }

  lemma ParseIntOfNegative(n: int)
    requires n < 0
    ensures ParseIntStr(IntToString(n)) == Some(n)
  {
    var m: nat := -n;
    var digits := NatToString(m);
    var s := "-" + digits;
    assert IntToString(n) == s;
    TrimStartUnspaced(s);
    assert s[0] == '-' && s[1..] == digits;
    ParseDigitsOfDigits(digits);
    DigitsValueOfNatToString(m);
  }

  /** Parsing a number value gives the number back: `parseInt(42) == 42`. */
  lemma ParseIntOfNumber(n: int)
    ensures ParseInt(JNum(n)) == Some(n)
  {
    ParseIntOfIntToString(n);
  }

  // ---------------------------------------------------------------- Array.prototype.slice and Math.ceil

  /** How `slice` turns a possibly negative or oversized bound into an index of a sequence of length `len`. */
  function SliceBound(k: int, len: nat): (i: nat)
    ensures i <= len
    ensures 0 <= k <= len ==> i == k
  {
    if k < 0 then (if len + k < 0 then 0 else len + k) else if k > len then len else k
  }

  /** `s.slice(start, end)` */
  function Slice<T>(s: seq<T>, start: int, end: int): (r: seq<T>)
    ensures |r| <= |s|
    ensures 0 <= start && start <= end ==> |r| <= end - start
    ensures 0 <= start <= end <= |s| ==> r == s[start..end]
    ensures var a := SliceBound(start, |s|); a + |r| <= |s| && r == s[a..a + |r|]
  {
    var a := SliceBound(start, |s|);
    var b := SliceBound(end, |s|);
    if a < b then s[a..b] else []
  }

  /** A slice holds only elements of the sequence it is cut from. */
  lemma SliceMembers<T>(s: seq<T>, start: int, end: int)
    ensures forall x :: x in Slice(s, start, end) ==> x in s
  {
    var a := SliceBound(start, |s|);
    var r := Slice(s, start, end);
    forall x | x in r ensures x in s {
      var i :| 0 <= i < |r| && r[i] == x;
      assert r[i] == s[a + i];
    }
  }

  /** `Math.ceil(total / limit)` for a non-negative total and a non-zero integer limit. */
  function CeilDiv(total: nat, limit: int): (r: int)
    requires limit != 0
    ensures limit > 0 ==> r >= 0
    ensures limit > 0 ==> (r - 1) * limit < total <= r * limit
    ensures limit < 0 ==> r <= 0 && r * limit <= total < (r - 1) * limit
  {
    if limit > 0 then (total + limit - 1) / limit else -(total / (-limit))
  }
}
