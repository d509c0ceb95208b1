/** JavaScript values as the two scripts see them, and the Option/Result wrappers
    used for the scripts' thrown errors. */
module Values {

  datatype Option<+T> = None | Some(value: T)

  datatype Result<+T, +E> = Ok(value: T) | Err(error: E)

  /** 2^53: every integer up to this magnitude is a JavaScript number, and
      prints as its exact decimal digits. */
  const MaxExact := 0x20_0000_0000_0000

  /** The integers a JavaScript number holds exactly. */
  type ExactInt = n: int | -MaxExact <= n <= MaxExact

  /** The JavaScript values that reach the scripts from parsed JSON records.
      Numbers are modelled as integers of at most 2^53 in magnitude only. */
  datatype JsVal =
    | Undefined
    | Null
    | Bool(b: bool)
    | Num(n: ExactInt)
    | Str(s: string)

  /** JavaScript truthiness: `if (v)`, `v || w`, `!v`. */
  predicate Truthy(v: JsVal)
  {
    match v
    case Undefined => false
    case Null => false
    case Bool(b) => b
    case Num(n) => n != 0
    case Str(s) => s != ""
  }

  /** The character of the decimal digit `d`. */
  function DigitChar(d: nat): (c: char)
    requires d < 10
    ensures '0' <= c <= '9' && DigitValue(c) == d
  {
    ('0' as int + d) as char
  }

  /** The value of a decimal digit character. */
  function DigitValue(c: char): nat
    requires '0' <= c <= '9'
  {
    c as int - '0' as int
  }

  /** The number a string of decimal digits denotes, read most significant
      digit first. */
  function DecimalValue(r: string): nat
    requires forall i :: 0 <= i < |r| ==> '0' <= r[i] <= '9'
  {
    if r == [] then 0 else 10 * DecimalValue(r[..|r| - 1]) + DigitValue(r[|r| - 1])
  }

  /** Decimal digits of a natural number, as JavaScript prints an integer: the
      digits read back as `n`, with no leading zero. */
  function NatToDecimal(n: nat): (r: string)
    ensures |r| >= 1
    ensures forall i :: 0 <= i < |r| ==> '0' <= r[i] <= '9'
    ensures n < 10 <==> |r| == 1
    ensures DecimalValue(r) == n
    ensures |r| > 1 ==> r[0] != '0'
  {
    if n < 10 then [DigitChar(n)]
    else
      var init := NatToDecimal(n / 10);
      var r := init + [DigitChar(n % 10)];
      assert r[..|r| - 1] == init;
      r
  }

  /** The text a template literal `${v}` produces for the value `v`. A number
      prints as its decimal digits, after a minus sign when it is negative. */
  function Display(v: JsVal): (r: string)
    ensures v.Num? && v.n >= 0 ==>
              (forall i :: 0 <= i < |r| ==> '0' <= r[i] <= '9') && DecimalValue(r) == v.n
    ensures v.Num? && v.n < 0 ==>
              |r| >= 2 && r[0] == '-' && r[1] != '0' &&
              (forall i :: 1 <= i < |r| ==> '0' <= r[i] <= '9') && DecimalValue(r[1..]) == -v.n
    ensures v.Num? ==> r != [] && (|r| > 1 && r[0] != '-' ==> r[0] != '0')
  {
    match v
    case Undefined => "undefined"
    case Null => "null"
    case Bool(b) => if b then "true" else "false"
    case Num(n) => if n < 0 then "-" + NatToDecimal(-n) else NatToDecimal(n)
    case Str(s) => s
  }
}
