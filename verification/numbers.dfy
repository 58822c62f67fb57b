/** JavaScript numbers as the client sees them: a finite value, NaN or an infinity. */
module JsNumbers {

  /** A `Number`: finite values are reals; IEEE-754 rounding is not modelled. */
  datatype JsNumber = Finite(value: real) | NaN | PosInf | NegInf

  predicate IsNaN(x: JsNumber) {
    x.NaN?
  }

  predicate IsFinite(x: JsNumber) {
    x.Finite?
  }

  /** `Math.floor`: infinities and NaN are returned as they are. */
  function Floor(x: JsNumber): JsNumber {
    match x
    case Finite(v) => Finite(v.Floor as real)
    case _ => x
  }

  /** `Math.max` of two numbers: NaN if either is NaN. */
  function Max(a: JsNumber, b: JsNumber): JsNumber {
    if a.NaN? || b.NaN? then NaN
    else if a.PosInf? || b.PosInf? then PosInf
    else if a.NegInf? then b
    else if b.NegInf? then a
    else if a.value >= b.value then a else b
  }

  /** `Math.min` of two numbers: NaN if either is NaN. */
  function Min(a: JsNumber, b: JsNumber): JsNumber {
    if a.NaN? || b.NaN? then NaN
    else if a.NegInf? || b.NegInf? then NegInf
    else if a.PosInf? then b
    else if b.PosInf? then a
    else if a.value <= b.value then a else b
  }

  function MaxInt(a: int, b: int): int {
    if a >= b then a else b
  }

  function MinInt(a: int, b: int): int {
    if a <= b then a else b
  }

  // ---------------------------------------------------------------- decimal text

  predicate IsDigit(c: char) {
    '0' <= c <= '9'
  }

  function DigitChar(d: int): char
    requires 0 <= d < 10
  {
    ('0' as int + d) as char
  }

  /** The decimal text of a natural number, most significant digit first, without leading zeros. */
  function NatToString(n: nat): (s: string)
    ensures |s| > 0
    ensures forall i | 0 <= i < |s| :: IsDigit(s[i])
    ensures |s| > 1 ==> s[0] != '0'
  {
    if n < 10 then [DigitChar(n)]
    else NatToString(n / 10) + [DigitChar(n % 10)]
  }

  /** The value a string of decimal digits denotes. */
  function DigitsValue(s: string): nat
    requires forall i | 0 <= i < |s| :: IsDigit(s[i])
  {
    if |s| == 0 then 0
    else
      assert IsDigit(s[|s| - 1]);
      DigitsValue(s[..|s| - 1]) * 10 + (s[|s| - 1] as int - '0' as int)
  }

  /** Reading back the printed decimal text recovers the number. */
  lemma {:induction false} NatToStringRoundTrip(n: nat)
    ensures DigitsValue(NatToString(n)) == n
  {
    if n >= 10 {
      NatToStringRoundTrip(n / 10);
      var s := NatToString(n);
      assert s[..|s| - 1] == NatToString(n / 10);
    }
  }

  /** `String(n)` for an integer (the exponent form JavaScript uses from 10^21 on is not modelled). */
  function IntToString(n: int): string {
    if n < 0 then "-" + NatToString(-n) else NatToString(n)
  }
}
