/** The loosely typed values that cross the spreadsheet backend: sheet cells,
    parsed JSON bodies and query parameters, with the JavaScript conversions
    the backend relies on (truthiness, `Number(...)`, `==` and property keys). */
module JsValues {
  import opened Common

  /** A primitive value as a spreadsheet cell or a JSON field holds it. An
      empty cell is `Text("")`. */
  datatype Cell = Text(s: string) | Num(n: int) | Bool(b: bool)

  /** A JavaScript object with primitive fields; an absent key reads as
      `undefined`. */
  type Record = map<string, Cell>

  function Get(r: Record, key: string): Option<Cell> {
    if key in r then Some(r[key]) else None
  }

  /** JavaScript truthiness; `undefined` is `None`. */
  predicate Truthy(v: Option<Cell>) {
    match v
    case None => false
    case Some(Text(s)) => s != ""
    case Some(Num(n)) => n != 0
    case Some(Bool(b)) => b
  }

  predicate IsDigit(c: char) {
    '0' <= c <= '9'
  }

  predicate AllDigits(s: string) {
    |s| > 0 && forall i :: 0 <= i < |s| ==> IsDigit(s[i])
  }

  /** The value of a string of decimal digits, read left to right. */
  function DigitsValue(s: string): int
    requires forall i :: 0 <= i < |s| ==> IsDigit(s[i])
  {
    if s == [] then 0
    else DigitsValue(s[..|s| - 1]) * 10 + (s[|s| - 1] as int - '0' as int)
  }

  /** `Number(s)` for the strings this model reads: the empty string is 0, an
      optionally negated run of decimal digits is its value, and anything else
      is `NaN` (`None`). */
  function StringToNumber(s: string): Option<int> {
    if s == "" then Some(0)
    else if s[0] == '-' && AllDigits(s[1..]) then Some(-DigitsValue(s[1..]))
    else if AllDigits(s) then Some(DigitsValue(s))
    else None
  }

  function NatToDecimal(n: nat): (r: string)
    ensures AllDigits(r)
  {
    if n < 10 then ['0' + n as char]
    else NatToDecimal(n / 10) + ['0' + (n % 10) as char]
  }

  /** `String(n)` for an integer. */
  function IntToDecimal(i: int): string {
    if i < 0 then "-" + NatToDecimal(-i) else NatToDecimal(i)
  }

  lemma {:induction false} NatToDecimalValue(n: nat)
    ensures DigitsValue(NatToDecimal(n)) == n
  {
    if n >= 10 {
      var s := NatToDecimal(n);
      var prefix := NatToDecimal(n / 10);
      assert s[..|s| - 1] == prefix;
      NatToDecimalValue(n / 10);
    }
  }

  /** Rendering an integer and reading it back with `Number` is the identity. */
  lemma DecimalRoundTrip(i: int)
    ensures StringToNumber(IntToDecimal(i)) == Some(i)
  {
    if i < 0 {
      var s := IntToDecimal(i);
      assert s[1..] == NatToDecimal(-i);
      NatToDecimalValue(-i);
    } else {
      NatToDecimalValue(i);
      assert IntToDecimal(i)[0] != '-';
    }
  }

  /** `Number(c)`: booleans become 0/1. */
  function ToNumber(c: Cell): Option<int> {
    match c
    case Num(n) => Some(n)
    case Bool(b) => Some(if b then 1 else 0)
    case Text(s) => StringToNumber(s)
  }

  /** `Number(v || 0)`: falsy values read as 0; `None` in the result is NaN. */
  function NumberOrZero(v: Option<Cell>): (r: Option<int>)
    ensures !Truthy(v) ==> r == Some(0)
    ensures v.Some? && v.value.Num? ==> r == Some(v.value.n)
  {
    if Truthy(v) then ToNumber(v.value) else Some(0)
  }

  /** JavaScript `==` on primitives and `undefined`: same-type operands compare
      directly, mixed operands compare as numbers, and `undefined` equals only
      itself. */
  predicate LooseEq(a: Option<Cell>, b: Option<Cell>) {
    match (a, b)
    case (None, None) => true
    case (None, _) => false
    case (_, None) => false
    case (Some(Text(x)), Some(Text(y))) => x == y
    case (Some(Num(x)), Some(Num(y))) => x == y
    case (Some(Bool(x)), Some(Bool(y))) => x == y
    case (Some(x), Some(y)) => ToNumber(x).Some? && ToNumber(x) == ToNumber(y)
  }

  /** `==` is symmetric and, on the values a cell can hold, reflexive; on
      two strings it is string equality and on a number and the string that
      renders it, it holds. */
  lemma LooseEqProperties(a: Option<Cell>, b: Option<Cell>, s: string, t: string, n: int)
    ensures LooseEq(a, b) == LooseEq(b, a)
    ensures LooseEq(a, a)
    ensures LooseEq(Some(Text(s)), Some(Text(t))) <==> s == t
    ensures LooseEq(Some(Num(n)), Some(Text(IntToDecimal(n))))
    ensures !LooseEq(None, Some(Text(s)))
  {
    DecimalRoundTrip(n);
  }

  /** Strict `===` compares type and value; `undefined === undefined` holds. */
  predicate StrictEq(a: Option<Cell>, b: Option<Cell>) {
    a == b
  }

  /** The property key a cell becomes when used as `obj[cell]`. */
  function KeyOf(c: Cell): string {
    match c
    case Text(s) => s
    case Num(n) => IntToDecimal(n)
    case Bool(b) => if b then "true" else "false"
  }
}
