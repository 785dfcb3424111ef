/** The Python values the core stores in records and objects, and what
    `str()` makes of them. */
module Values {
  import opened Text

  datatype Value = Bool(b: bool) | Int(i: int) | Str(s: Text)

  /** The code point of the decimal digit `d`. */
  function DigitChar(d: int): CodePoint
    requires 0 <= d < 10
  {
    '0' as int + d
  }

  /** `str(n)` for a natural number: its decimal digits, most significant
      first, without leading zeros. */
  function NatText(n: nat): (t: Text)
    ensures |t| > 0
    ensures forall k | 0 <= k < |t| :: '0' as int <= t[k] <= '9' as int
    decreases n
  {
    if n < 10 then [DigitChar(n)] else NatText(n / 10) + [DigitChar(n % 10)]
  }

  /** `str(n)` for any integer. */
  function IntText(n: int): Text
  {
    if n < 0 then ['-' as int] + NatText(-n) else NatText(n)
  }

  /** `str(v)`: "True"/"False", the decimal form, or the string itself. */
  function PyStr(v: Value): Text
  {
    match v
    case Bool(b) => if b then FromString("True") else FromString("False")
    case Int(i) => IntText(i)
    case Str(s) => s
  }

  /** The number a run of decimal digits stands for. */
  function DigitsValue(t: Text): int
    requires forall k | 0 <= k < |t| :: '0' as int <= t[k] <= '9' as int
    decreases |t|
  {
    if t == [] then 0 else 10 * DigitsValue(t[..|t| - 1]) + (t[|t| - 1] - '0' as int)
  }

  /** `int(str(n))`: reading the decimal form back gives the number. */
  lemma {:induction false} NatTextRoundTrip(n: nat)
    ensures DigitsValue(NatText(n)) == n
    decreases n
  {
    if n >= 10 {
      NatTextRoundTrip(n / 10);
      var t := NatText(n);
      assert t[..|t| - 1] == NatText(n / 10);
    }
  }

  /** `str` of an integer starts with a minus sign just when it is negative. */
  lemma NegativeSign(n: int)
    ensures IntText(n)[0] == '-' as int <==> n < 0
  {
  }

  /** Different integers have different decimal forms, so a search by the
      `str` of an integer identifier finds only that integer. */
  lemma IntTextInjective(m: int, n: int)
    requires IntText(m) == IntText(n)
    ensures m == n
  {
    if m < 0 && n < 0 {
      assert NatText(-m) == IntText(m)[1..];
      NatTextRoundTrip(-m);
      NatTextRoundTrip(-n);
    } else if m >= 0 && n >= 0 {
      NatTextRoundTrip(m);
      NatTextRoundTrip(n);
    } else {
      NegativeSign(m);
      NegativeSign(n);
    }
  }
}
