/**
 * A value produced by `json.loads`, with the Python semantics the core relies
 * on: truthiness, `str()`, `dict.get` and `float()`.
 */
module JsonValue {
  import opened Wrappers
  import opened Text

  /** A Python float. Finite values are exact decimals (binary rounding is not modelled). */
  datatype Num = Finite(value: real) | PosInf | NegInf | NaN

  /**
   * 2^1024 - 2^970, half-way between the largest double and 2^1024: a value
   * of at least this magnitude rounds to an infinity as a double.
   */
  const DoubleOverflowBound: int :=
    179769313486231580793728971405303415079934132710037826936173778980444968292764750946649017977587207096330286416692887910946555547851940402630657488671505820681908902000708383676273854845817711531764475730270069855571366959622842914819860834936475292719074168444365510704342711559699508093042880177904174497792

  /** Within the range of a double: strictly inside the overflow bound. */
  predicate InDoubleRange(x: real)
  {
    -DoubleOverflowBound as real < x < DoubleOverflowBound as real
  }

  /** An exact value read as a float literal: an infinity of its sign from the overflow bound on. */
  function ToDouble(x: real): (r: Num)
    ensures r.Finite? <==> InDoubleRange(x)
    ensures r.Finite? ==> r.value == x
    ensures r == PosInf <==> x >= DoubleOverflowBound as real
    ensures r == NegInf <==> x <= -DoubleOverflowBound as real
  {
    if x >= DoubleOverflowBound as real then PosInf
    else if x <= -DoubleOverflowBound as real then NegInf
    else Finite(x)
  }

  /**
   * A decoded JSON value. An object is its list of (key, value) entries in
   * document order, keys distinct as `json.loads` leaves them. A number carries
   * the text that Python's `str()` prints for it. A number written without
   * fraction or exponent is a Python `int`, of any size; any other is a float,
   * which `float()` brings into the double range (`ToFloat`).
   */
  datatype Json =
    | JNull
    | JBool(b: bool)
    | JNum(n: Num, text: string)
    | JStr(s: string)
    | JList(items: seq<Json>)
    | JObj(fields: seq<(string, Json)>)

  /** Python's `bool(v)`. */
  predicate Truthy(v: Json)
  {
    match v
    case JNull => false
    case JBool(b) => b
    case JNum(n, _) => n != Finite(0.0)
    case JStr(s) => s != ""
    case JList(items) => items != []
    case JObj(fields) => fields != []
  }

  /** Python's `repr(v)`, with strings quoted by `'` and no escape sequences. */
  function Repr(v: Json): string
  {
    match v
    case JNull => "None"
    case JBool(b) => if b then "True" else "False"
    case JNum(_, text) => text
    case JStr(s) => "'" + s + "'"
    case JList(items) =>
      "[" + Join(", ", seq(|items|, i requires 0 <= i < |items| => Repr(items[i]))) + "]"
    case JObj(fields) =>
      "{" + Join(", ", seq(|fields|, i requires 0 <= i < |fields| =>
                              "'" + fields[i].0 + "': " + Repr(fields[i].1))) + "}"
  }

  /** Python's `str(v)`: a string is itself, anything else its `repr`. */
  function Str(v: Json): (r: string)
    ensures v.JStr? ==> r == v.s
  {
    if v.JStr? then v.s else Repr(v)
  }

  /** The text of a Python `int`: decimal digits with an optional minus sign. */
  predicate IntText(t: string)
  {
    var digits := if |t| > 0 && t[0] == '-' then t[1..] else t;
    digits != [] && AllDigits(digits)
  }

  /**
   * `type(v).__name__`. `json.loads` gives an `int` for a number written
   * without fraction or exponent, whose `str()` is plain digits.
   */
  function TypeName(v: Json): (r: string)
    ensures r in {"NoneType", "bool", "int", "float", "str", "list", "dict"}
    ensures r == "dict" <==> v.JObj?
    ensures r == "str" <==> v.JStr?
    ensures v.JNum? ==> (r == "int" <==> v.n.Finite? && IntText(v.text))
  {
    match v
    case JNull => "NoneType"
    case JBool(_) => "bool"
    case JNum(n, text) => if n.Finite? && IntText(text) then "int" else "float"
    case JStr(_) => "str"
    case JList(_) => "list"
    case JObj(_) => "dict"
  }

  /** The `AttributeError` Python raises for `v.name` on a value that has no such method. */
  function NoAttribute(v: Json, name: string): Error
  {
    AttributeError("'" + TypeName(v) + "' object has no attribute '" + name + "'")
  }

  /** `d.get(key)`: the value stored under `key`, if any. */
  function Get(fields: seq<(string, Json)>, key: string): (r: Option<Json>)
    ensures r.Some? <==> exists i :: 0 <= i < |fields| && fields[i].0 == key
    ensures r.Some? ==> exists i :: 0 <= i < |fields| && fields[i] == (key, r.value)
  {
    if fields == [] then None
    else if fields[0].0 == key then Some(fields[0].1)
    else
      var r := Get(fields[1..], key);
      assert forall i :: 1 <= i < |fields| ==> fields[i] == fields[1..][i - 1];
      r
  }

  /** `d.get(key, default)`. */
  function GetOr(fields: seq<(string, Json)>, key: string, default: Json): Json
  {
    match Get(fields, key)
    case Some(v) => v
    case None => default
  }

  predicate IsDigit(c: char) { '0' <= c <= '9' }

  predicate AllDigits(s: string) { forall i :: 0 <= i < |s| ==> IsDigit(s[i]) }

  /** The number a string of decimal digits denotes. */
  function DigitsValue(s: string): nat
    requires AllDigits(s)
  {
    if s == [] then 0 else DigitsValue(s[..|s| - 1]) * 10 + (s[|s| - 1] as int - '0' as int)
  }

  function Pow10(n: nat): (r: nat)
    ensures r >= 1
  {
    if n == 0 then 1 else 10 * Pow10(n - 1)
  }

  /** Python's `str(n)` for a natural number. */
  function NatToDigits(n: nat): (r: string)
    ensures r != [] && AllDigits(r)
  {
    if n < 10 then [('0' as int + n) as char]
    else NatToDigits(n / 10) + [('0' as int + n % 10) as char]
  }

  lemma {:induction false} NatToDigitsValue(n: nat)
    ensures DigitsValue(NatToDigits(n)) == n
  {
    if n >= 10 {
      NatToDigitsValue(n / 10);
      var r := NatToDigits(n);
      assert r[..|r| - 1] == NatToDigits(n / 10);
    }
  }

  /** A decimal literal `digits[.digits]`, `.digits` or `digits.`, exponent not included. */
  function ParseMantissa(m: string): Option<real>
  {
    var dot := FindChar(m, '.');
    var whole := if dot == -1 then m else m[..dot];
    var frac := if dot == -1 then "" else m[dot + 1..];
    if AllDigits(whole) && AllDigits(frac) && |whole| + |frac| > 0 then
      Some(DigitsValue(whole) as real + DigitsValue(frac) as real / Pow10(|frac|) as real)
    else None
  }

  /** An exponent `[+-]digits`. */
  function ParseExponent(e: string): Option<int>
  {
    if |e| > 0 && (e[0] == '+' || e[0] == '-') then
      var d := e[1..];
      if d != [] && AllDigits(d) then Some(if e[0] == '-' then 0 - DigitsValue(d) as int else DigitsValue(d) as int)
      else None
    else if e != [] && AllDigits(e) then Some(DigitsValue(e))
    else None
  }

  function Scale(x: real, e: int): real
  {
    if e >= 0 then x * Pow10(e) as real else x / Pow10(-e) as real
  }

  /** An unsigned float literal, already lower-cased: `inf`, `infinity`, `nan` or a decimal. */
  function ParseUnsigned(t: string): (r: Option<Num>)
    ensures r.Some? && r.value.Finite? ==> InDoubleRange(r.value.value)
  {
    if t == "inf" || t == "infinity" then Some(PosInf)
    else if t == "nan" then Some(NaN)
    else
      var e := FindChar(t, 'e');
      var mantissa := ParseMantissa(if e == -1 then t else t[..e]);
      var exponent := if e == -1 then Some(0) else ParseExponent(t[e + 1..]);
      if mantissa.Some? && exponent.Some? then Some(ToDouble(Scale(mantissa.value, exponent.value)))
      else None
  }

  function Negate(n: Num): Num
  {
    match n
    case Finite(x) => Finite(-x)
    case PosInf => NegInf
    case NegInf => PosInf
    case NaN => NaN
  }

  /** `float(s)` for a string: None where Python raises `ValueError`; beyond the double range an infinity. */
  function ParseFloat(s: string): (r: Option<Num>)
    ensures r.Some? && r.value.Finite? ==> InDoubleRange(r.value.value)
  {
    var t := Lower(Strip(s));
    if |t| > 0 && (t[0] == '+' || t[0] == '-') then
      match ParseUnsigned(t[1..])
      case Some(n) => Some(if t[0] == '-' then Negate(n) else n)
      case None => None
    else ParseUnsigned(t)
  }

  /** A Python `int` whose magnitude rounds past the largest double. */
  predicate IntTooLarge(v: Json)
  {
    TypeName(v) == "int" && !InDoubleRange(v.n.value)
  }

  const IntTooLargeMessage: string := "int too large to convert to float"

  /**
   * `float(v)`: the `OverflowError` of an `int` beyond the double range, the
   * `ValueError` of a string that is no float literal and the `TypeError` of
   * anything that is neither a number nor a string. A float beyond the
   * double range is an infinity, as `json.loads` and `float()` read it.
   */
  function ToFloat(v: Json): (r: Result<Num>)
    ensures r == Err(OverflowError(IntTooLargeMessage)) <==> IntTooLarge(v)
    ensures r.Err? ==> r.error.OverflowError? || r.error.ValueError? || r.error.TypeError?
    ensures r.Err? && !IntTooLarge(v) ==> (v.JStr? && ParseFloat(v.s).None?) || !(v.JStr? || v.JNum? || v.JBool?)
    ensures r.Ok? && r.value.Finite? ==> InDoubleRange(r.value.value)
    ensures v.JNum? && v.n.Finite? && InDoubleRange(v.n.value) ==> r == Ok(v.n)
  {
    match v
    case JNum(n, _) =>
      if IntTooLarge(v) then Err(OverflowError(IntTooLargeMessage))
      else Ok(if n.Finite? then ToDouble(n.value) else n)
    case JBool(b) => Ok(Finite(if b then 1.0 else 0.0))
    case JStr(s) =>
      if ParseFloat(s).Some? then Ok(ParseFloat(s).value)
      else Err(ValueError("could not convert string to float: " + Repr(v)))
    case _ => Err(TypeError("float() argument must be a string or a real number, not '" + TypeName(v) + "'"))
  }

  /** Round half to even, the rule of Python's `round`. */
  function RoundHalfEven(x: real): (r: int)
    ensures x - 0.5 <= r as real <= x + 0.5
  {
    var f := x.Floor;
    var d := x - f as real;
    if d > 0.5 then f + 1
    else if d < 0.5 then f
    else if f % 2 == 0 then f else f + 1
  }

  /** `round(x, 2)`, in hundredths. */
  function RoundToHundredths(x: real): int
  {
    RoundHalfEven(x * 100.0)
  }

  lemma RoundWhole(n: int)
    ensures RoundHalfEven(n as real) == n
  {
  }
}
