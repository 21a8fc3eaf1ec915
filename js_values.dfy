/**
 * The JavaScript values the core passes around, with the two conversions it
 * relies on: `Number(x)` (and `isNaN`, which is `Number(x)` compared with NaN)
 * and string concatenation with `''`.
 */
module JsValues {

  /**
   * The JavaScript values that reach the modelled code. A number is an
   * integer; JavaScript's own numbers are doubles, and the conversions below
   * agree with JavaScript's for integers of magnitude below 2^53.
   */
  datatype JsValue = Undefined | Bool(b: bool) | Num(n: int) | Str(s: string)

  /** JavaScript truthiness: `undefined`, `false`, `0` and `""` are falsy. */
  predicate Truthy(v: JsValue)
  {
    match v
    case Undefined => false
    case Bool(b) => b
    case Num(n) => n != 0
    case Str(s) => s != ""
  }

  /** The result of `Number(x)`: a number or NaN. */
  datatype Number = Finite(value: int) | NaN

  predicate IsDigit(c: char)
  {
    '0' <= c <= '9'
  }

  predicate IsDigits(s: string)
  {
    forall i :: 0 <= i < |s| ==> IsDigit(s[i])
  }

  /** The value of a string of decimal digits. */
  function DecimalValue(s: string): nat
    requires IsDigits(s)
    decreases |s|
  {
    if s == [] then 0
    else DecimalValue(s[..|s| - 1]) * 10 + (s[|s| - 1] as int - '0' as int)
  }

  /**
   * The shortest decimal numeral of `n`, as `String(n)` writes it for
   * `n < 2^53` (from 1e21 on JavaScript switches to exponent notation).
   */
  function DecimalString(n: nat): (s: string)
    ensures |s| >= 1 && IsDigits(s)
    decreases n
  {
    (if n < 10 then [] else DecimalString(n / 10)) + [('0' as int + n % 10) as char]
  }

  /** Appending a digit multiplies the value by ten and adds the digit. */
  lemma DecimalValueSnoc(front: string, c: char)
    requires IsDigits(front) && IsDigit(c)
    ensures IsDigits(front + [c])
    ensures DecimalValue(front + [c]) == DecimalValue(front) * 10 + (c as int - '0' as int)
  {
    assert (front + [c])[..|front|] == front;
  }

  /** Reading back a numeral gives the number it was written from. */
  lemma {:induction false} DecimalRoundTrip(n: nat)
    ensures DecimalValue(DecimalString(n)) == n
    decreases n
  {
    var last := ('0' as int + n % 10) as char;
    var front := if n < 10 then [] else DecimalString(n / 10);
    assert DecimalString(n) == front + [last];
    DecimalValueSnoc(front, last);
    if n >= 10 {
      DecimalRoundTrip(n / 10);
    }
  }

  /**
   * `Number(s)` for a string: the empty string is 0, a run of decimal digits
   * with an optional leading minus sign is its value, anything else is NaN.
   * Read exactly: JavaScript rounds values of magnitude 2^53 and above to a
   * double.
   */
  function ToNumber(s: string): Number
  {
    if IsDigits(s) then Finite(DecimalValue(s))
    else if |s| > 1 && s[0] == '-' && IsDigits(s[1..]) then Finite(-(DecimalValue(s[1..]) as int))
    else NaN
  }

  /** `Number(v)` for any modelled value. */
  function ValueToNumber(v: JsValue): Number
  {
    match v
    case Undefined => NaN
    case Bool(b) => Finite(if b then 1 else 0)
    case Num(n) => Finite(n)
    case Str(s) => ToNumber(s)
  }

  /** `String(n)` for an integer of magnitude below 2^53. */
  function IntString(n: int): (s: string)
    ensures |s| >= 1 && (IsDigits(s) || (s[0] == '-' && IsDigits(s[1..])))
  {
    if n < 0 then "-" + DecimalString(-n) else DecimalString(n)
  }

  /** `Number(String(n)) == n`: integers survive the trip through text. */
  lemma NumberOfIntString(n: int)
    ensures ToNumber(IntString(n)) == Finite(n)
  {
    if n < 0 {
      DecimalRoundTrip(-n);
      assert IntString(n)[1..] == DecimalString(-n);
      assert !IsDigit(IntString(n)[0]);
    } else {
      DecimalRoundTrip(n);
    }
  }

  /** `v + ''`: the text JavaScript makes of a value. */
  function ToJsString(v: JsValue): string
  {
    match v
    case Undefined => "undefined"
    case Bool(b) => if b then "true" else "false"
    case Num(n) => IntString(n)
    case Str(s) => s
  }
}
