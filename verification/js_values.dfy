/** The JavaScript values the dashboard passes around: API rows, option
    records, filter selections and chart cells, together with the language
    rules the components rely on (truthiness, `||`, `String(x)`, `Number(x)`,
    `parseInt`, `+`, `===` and `==`).

    Numbers are integers or NaN: the filters and the reporting service hand
    over integer identifiers and counts. The one exception, a performance
    percentage that may be fractional, is only ever tested for truthiness. */
module JsValues {
  import opened Strings

  datatype JsNumber = Int(i: int) | NaN

  /** A JSON-like value. An object lists its own properties in the order
      `Object.keys` enumerates them. */
  datatype JsValue =
    | Undefined
    | Null
    | Bool(b: bool)
    | Num(n: JsNumber)
    | Str(s: string)
    | Obj(fields: seq<(string, JsValue)>)

  /** A plain object: an API row or a filter option record. */
  type Record = seq<(string, JsValue)>

  const Zero: JsValue := Num(Int(0))

  /** `obj[key]`: the value of the first property named `key`, or undefined. */
  function Get(r: Record, key: string): (v: JsValue)
    ensures v != Undefined ==> exists i :: 0 <= i < |r| && r[i] == (key, v)
    ensures (forall i :: 0 <= i < |r| ==> r[i].0 != key) ==> v == Undefined
  {
    if |r| == 0 then Undefined
    else if r[0].0 == key then r[0].1
    else Get(r[1..], key)
  }

  /** `obj[key]` on an object held as a map: undefined when absent. */
  function Field(m: map<string, JsValue>, key: string): (v: JsValue)
    ensures key !in m ==> v == Undefined
  {
    if key in m then m[key] else Undefined
  }

  /** `Boolean(v)`. */
  predicate Truthy(v: JsValue) {
    match v
    case Undefined => false
    case Null => false
    case Bool(b) => b
    case Num(n) => n.Int? && n.i != 0
    case Str(s) => s != ""
    case Obj(_) => true
  }

  /** `a || b`. */
  function Or(a: JsValue, b: JsValue): (r: JsValue)
    ensures r == a || r == b
    ensures Truthy(r) <==> Truthy(a) || Truthy(b)
  {
    if Truthy(a) then a else b
  }

  /** `String(v)`. */
  function ToStr(v: JsValue): string {
    match v
    case Undefined => "undefined"
    case Null => "null"
    case Bool(b) => if b then "true" else "false"
    case Num(n) => if n.Int? then IntToString(n.i) else "NaN"
    case Str(s) => s
    case Obj(_) => "[object Object]"
  }

  /** The characters JavaScript's `trim` and number parsing treat as white
      space or line terminators. */
  predicate IsJsSpace(c: char) {
    c == '\t' || c == '\n' || c == '\U{000B}' || c == '\U{000C}' || c == '\r' || c == ' '
    || c == '\U{00A0}' || c == '\U{1680}' || ('\U{2000}' <= c <= '\U{200A}')
    || c == '\U{2028}' || c == '\U{2029}' || c == '\U{202F}' || c == '\U{205F}'
    || c == '\U{3000}' || c == '\U{FEFF}'
  }

  /** `s` without its leading white space. */
  function TrimStart(s: string): (r: string)
    ensures |r| <= |s| && r == s[|s| - |r|..]
    ensures |r| > 0 ==> !IsJsSpace(r[0])
  {
    if |s| > 0 && IsJsSpace(s[0]) then TrimStart(s[1..]) else s
  }

  /** `s` without its trailing white space. */
  function TrimEnd(s: string): (r: string)
    ensures |r| <= |s| && r == s[..|r|]
    ensures |r| > 0 ==> !IsJsSpace(r[|r| - 1])
  {
    if |s| > 0 && IsJsSpace(s[|s| - 1]) then TrimEnd(s[..|s| - 1]) else s
  }

  /** The value of digit character `c` in bases up to 16, or -1. */
  function DigitValue(c: char): int {
    if '0' <= c <= '9' then c as int - '0' as int
    else if 'a' <= c <= 'f' then c as int - 'a' as int + 10
    else if 'A' <= c <= 'F' then c as int - 'A' as int + 10
    else -1
  }

  predicate IsRadixDigit(c: char, radix: int) {
    0 <= DigitValue(c) < radix
  }

  /** Length of the longest prefix of `s` made of digits of `radix`. */
  function DigitPrefixLength(s: string, radix: int): (n: nat)
    ensures n <= |s|
    ensures forall i :: 0 <= i < n ==> IsRadixDigit(s[i], radix)
    ensures n < |s| ==> !IsRadixDigit(s[n], radix)
  {
    if |s| > 0 && IsRadixDigit(s[0], radix) then 1 + DigitPrefixLength(s[1..], radix) else 0
  }

  /** The value of a string of `radix` digits. */
  function RadixValue(s: string, radix: int): int
    requires 2 <= radix <= 16
    requires forall i :: 0 <= i < |s| ==> IsRadixDigit(s[i], radix)
  {
    if |s| == 0 then 0
    else
      var init := s[..|s| - 1];
      assert forall i :: 0 <= i < |init| ==> IsRadixDigit(init[i], radix) by {
        forall i | 0 <= i < |init|
          ensures IsRadixDigit(init[i], radix)
        {
          assert init[i] == s[i];
        }
      }
      assert IsRadixDigit(s[|s| - 1], radix);
      RadixValue(init, radix) * radix + DigitValue(s[|s| - 1])
  }

  /** For decimal digits, the radix value is the decimal value. */
  lemma {:induction false} RadixValueDecimal(s: string)
    requires IsDigits(s)
    ensures forall i :: 0 <= i < |s| ==> IsRadixDigit(s[i], 10)
    ensures RadixValue(s, 10) == DigitsValue(s)
  {
    if |s| > 0 {
      RadixValueDecimal(s[..|s| - 1]);
    }
  }

  /** Whether `s` starts with `0x` or `0X`. */
  predicate HasHexPrefix(s: string) {
    |s| >= 2 && s[0] == '0' && (s[1] == 'x' || s[1] == 'X')
  }

  /** `parseInt(s)` with no radix: leading white space is skipped, an
      optional sign is read, a `0x` prefix selects base 16, and the longest
      run of digits that follows is the value; no digits gives NaN. */
  function ParseInt(s: string): JsNumber {
    var t := TrimStart(s);
    var negative := |t| > 0 && t[0] == '-';
    var u := if |t| > 0 && (t[0] == '-' || t[0] == '+') then t[1..] else t;
    var radix := if HasHexPrefix(u) then 16 else 10;
    var w := if radix == 16 then u[2..] else u;
    var n := DigitPrefixLength(w, radix);
    if n == 0 then NaN
    else
      var m: int := RadixValue(w[..n], radix);
      Int(if negative then -m else m)
  }

  /** A string that starts with a digit has no leading white space. */
  lemma TrimStartOfDigits(s: string)
    requires |s| > 0 && IsDigit(s[0])
    ensures TrimStart(s) == s
  {
  }

  /** A string that ends with a digit has no trailing white space. */
  lemma TrimEndOfDigits(s: string)
    requires |s| > 0 && IsDigit(s[|s| - 1])
    ensures TrimEnd(s) == s
  {
  }

  /** Every character of a decimal string is a base-10 digit. */
  lemma DecimalPrefixIsWhole(s: string)
    requires IsDigits(s)
    ensures DigitPrefixLength(s, 10) == |s|
  {
    RadixValueDecimal(s);
  }

  /** `parseInt` reads a string of decimal digits exactly. */
  lemma ParseIntOfDigits(s: string)
    requires |s| > 0 && IsDigits(s)
    requires !HasHexPrefix(s)
    ensures ParseInt(s) == Int(DigitsValue(s))
  {
    assert IsDigit(s[0]);
    TrimStartOfDigits(s);
    DecimalPrefixIsWhole(s);
    RadixValueDecimal(s);
    assert s[..|s|] == s;
  }

  /** `parseInt` reads a plain decimal rendering back exactly. */
  lemma ParseIntOfNatToString(n: nat)
    ensures ParseInt(NatToString(n)) == Int(n)
  {
    var s := NatToString(n);
    assert !HasHexPrefix(s) by {
      if |s| >= 2 { assert IsDigit(s[1]); }
    }
    ParseIntOfDigits(s);
    DigitsValueOfNatToString(n);
  }

  /** Whether `s` is a non-empty run of `radix` digits. */
  predicate AllRadixDigits(s: string, radix: int) {
    |s| > 0 && forall i :: 0 <= i < |s| ==> IsRadixDigit(s[i], radix)
  }

  /** The base a `0x`, `0o` or `0b` prefix selects, 0 without one. */
  function LiteralRadix(t: string): (radix: int)
    ensures radix in {0, 2, 8, 16}
    ensures radix != 0 ==> |t| > 2 && t[0] == '0'
  {
    if |t| <= 2 || t[0] != '0' then 0
    else if t[1] == 'x' || t[1] == 'X' then 16
    else if t[1] == 'o' || t[1] == 'O' then 8
    else if t[1] == 'b' || t[1] == 'B' then 2
    else 0
  }

  /** `Number(s)` for a string: surrounding white space is ignored, the
      empty string is 0, `0x`/`0o`/`0b` literals and optionally signed
      decimal integers are read; every other string is NaN here (fractions,
      exponents and `Infinity` fall outside the integer model). */
  function StringToNumber(s: string): JsNumber {
    var t := TrimEnd(TrimStart(s));
    var radix := LiteralRadix(t);
    if t == "" then Int(0)
    else if radix != 0 && AllRadixDigits(t[2..], radix) then Int(RadixValue(t[2..], radix))
    else if t[0] == '-' && AllRadixDigits(t[1..], 10) then Int(0 - RadixValue(t[1..], 10))
    else if t[0] == '+' && AllRadixDigits(t[1..], 10) then Int(RadixValue(t[1..], 10))
    else if AllRadixDigits(t, 10) then Int(RadixValue(t, 10))
    else NaN
  }

  /** `Number(v)`. */
  function ToNumber(v: JsValue): JsNumber {
    match v
    case Undefined => NaN
    case Null => Int(0)
    case Bool(b) => Int(if b then 1 else 0)
    case Num(n) => n
    case Str(s) => StringToNumber(s)
    case Obj(_) => NaN
  }

  /** `Number` reads a decimal string without a leading zero exactly. */
  lemma StringToNumberOfDigits(s: string)
    requires |s| > 0 && IsDigits(s) && (|s| > 1 ==> s[0] != '0')
    ensures StringToNumber(s) == Int(DigitsValue(s))
  {
    assert IsDigit(s[0]) && IsDigit(s[|s| - 1]);
    TrimStartOfDigits(s);
    TrimEndOfDigits(s);
    RadixValueDecimal(s);
    assert TrimEnd(TrimStart(s)) == s;
    assert AllRadixDigits(s, 10);
  }

  /** A minus sign followed by digits has no surrounding white space. */
  lemma TrimOfNegative(d: string)
    requires |d| > 0 && IsDigits(d)
    ensures TrimEnd(TrimStart("-" + d)) == "-" + d
  {
    var s := "-" + d;
    assert !IsJsSpace(s[0]);
    assert TrimStart(s) == s;
    assert s[|s| - 1] == d[|d| - 1];
    assert IsDigit(d[|d| - 1]);
    TrimEndOfDigits(s);
  }

  /** `Number` reads a minus sign followed by decimal digits exactly. */
  lemma StringToNumberOfNegative(d: string)
    requires |d| > 0 && IsDigits(d)
    ensures StringToNumber("-" + d) == Int(0 - DigitsValue(d))
  {
    var s := "-" + d;
    assert TrimEnd(TrimStart(s)) == s by { TrimOfNegative(d); }
    assert AllRadixDigits(d, 10) && RadixValue(d, 10) == DigitsValue(d) by { RadixValueDecimal(d); }
    assert s[0] == '-' && s[1..] == d && LiteralRadix(s) == 0;
  }

  /** `Number(String(i))` is `i`: the decimal rendering reads back. */
  lemma NumberOfString(i: int)
    ensures ToNumber(Str(IntToString(i))) == Int(i)
  {
    var m: nat := if i < 0 then -i else i;
    DigitsValueOfNatToString(m);
    if i < 0 {
      StringToNumberOfNegative(NatToString(m));
    } else {
      StringToNumberOfDigits(NatToString(m));
    }
  }

  /** Number addition: NaN absorbs. */
  function AddNumbers(a: JsNumber, b: JsNumber): JsNumber {
    if a.Int? && b.Int? then Int(a.i + b.i) else NaN
  }

  /** The primitive an operand of `+` turns into: a plain object becomes
      the string "[object Object]". */
  function ToPrimitive(v: JsValue): JsValue {
    if v.Obj? then Str(ToStr(v)) else v
  }

  /** `a + b`: concatenation when either primitive operand is a string,
      numeric addition otherwise. */
  function Plus(a: JsValue, b: JsValue): (r: JsValue)
    ensures a.Num? && b.Num? ==> r == Num(AddNumbers(a.n, b.n))
    ensures a.Str? || b.Str? || a.Obj? || b.Obj? ==> r.Str?
    ensures !(a.Str? || b.Str? || a.Obj? || b.Obj?) ==> r.Num?
  {
    var pa, pb := ToPrimitive(a), ToPrimitive(b);
    if pa.Str? || pb.Str? then Str(ToStr(pa) + ToStr(pb))
    else Num(AddNumbers(ToNumber(pa), ToNumber(pb)))
  }

  /** `a === b`. Objects compare by structure, which coincides with
      identity for a value copied from the very object it is compared to. */
  predicate StrictEquals(a: JsValue, b: JsValue) {
    if a.Num? && b.Num? then a.n.Int? && b.n.Int? && a.n.i == b.n.i
    else a == b
  }

  /** `a == b` (abstract equality) between primitives and objects. */
  predicate LooseEquals(a: JsValue, b: JsValue)
    decreases (if a.Obj? then 1 else 0) + (if b.Obj? then 1 else 0)
  {
    if (a.Undefined? || a.Null?) && (b.Undefined? || b.Null?) then true
    else if a.Undefined? || a.Null? || b.Undefined? || b.Null? then false
    else if a.Obj? && b.Obj? then a == b
    else if a.Obj? then LooseEquals(ToPrimitive(a), b)
    else if b.Obj? then LooseEquals(a, ToPrimitive(b))
    else if a.Str? && b.Str? then a.s == b.s
    else if a.Bool? && b.Bool? then a.b == b.b
    else
      var x, y := ToNumber(a), ToNumber(b);
      x.Int? && y.Int? && x.i == y.i
  }
}
