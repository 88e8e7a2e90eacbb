/**
 * Java's 32-bit `int` and its decimal rendering (`Integer.toString`, which
 * string concatenation such as `"WIFI" + "_" + h` uses), together with a
 * parser that inverts the rendering.
 */
module JavaInt {
  import opened Options

  const Int32Min: int := -0x8000_0000
  const Int32Max: int := 0x7fff_ffff

  /** Values of Java's `int`. */
  newtype int32 = x: int | Int32Min <= x <= Int32Max

  predicate IsDigit(c: char) {
    '0' <= c <= '9'
  }

  function DigitValue(c: char): (d: nat)
    requires IsDigit(c)
    ensures d < 10
  {
    c as int - '0' as int
  }

  function DigitChar(d: nat): (c: char)
    requires d < 10
    ensures IsDigit(c) && DigitValue(c) == d
  {
    ('0' as int + d) as char
  }

  /** Decimal digits of `n`, most significant first, without leading zeros. */
  function NatToDecimal(n: nat): (s: string)
    ensures |s| >= 1
    ensures forall i :: 0 <= i < |s| ==> IsDigit(s[i])
    ensures n == 0 ==> s == "0"
    ensures n >= 1 ==> s[0] != '0'
    decreases n
  {
    if n < 10 then [DigitChar(n)] else NatToDecimal(n / 10) + [DigitChar(n % 10)]
  }

  /**
   * `Integer.toString(i)`: a minus sign for negative values, then the digits
   * of |i| without leading zeros; zero is "0".
   */
  function IntToDecimal(i: int): (s: string)
    ensures |s| >= 1
    ensures s[0] == '-' <==> i < 0
    ensures i < 0 ==> |s| >= 2 && s[1] != '0'
    ensures i >= 0 ==> (s[0] == '0' <==> i == 0)
    ensures i == 0 ==> s == "0"
  {
    if i < 0 then "-" + NatToDecimal(-i) else NatToDecimal(i)
  }

  /** The natural number a non-empty string of digits denotes; None for anything else. */
  function ParseDigits(s: string): (r: Option<nat>)
    ensures r.Some? ==> |s| >= 1 && forall i :: 0 <= i < |s| ==> IsDigit(s[i])
    decreases |s|
  {
    if |s| == 0 || !IsDigit(s[|s| - 1]) then None
    else if |s| == 1 then Some(DigitValue(s[0]))
    else match ParseDigits(s[..|s| - 1])
      case None => None
      case Some(p) => Some(p * 10 + DigitValue(s[|s| - 1]))
  }

  /** An optional minus sign followed by digits. */
  function ParseInt(s: string): Option<int> {
    if |s| > 0 && s[0] == '-' then
      match ParseDigits(s[1..])
      case None => None
      case Some(p) => Some(-(p as int))
    else
      match ParseDigits(s)
      case None => None
      case Some(p) => Some(p as int)
  }

  lemma {:induction false} ParseNatToDecimal(n: nat)
    ensures ParseDigits(NatToDecimal(n)) == Some(n)
    decreases n
  {
    if n >= 10 {
      var s := NatToDecimal(n);
      var front := NatToDecimal(n / 10);
      assert s == front + [DigitChar(n % 10)];
      assert s[..|s| - 1] == front;
      ParseNatToDecimal(n / 10);
    }
  }

  /** Reading back the rendering of any integer gives that integer. */
  lemma ParseIntToDecimal(i: int)
    ensures ParseInt(IntToDecimal(i)) == Some(i)
  {
    var s := IntToDecimal(i);
    if i < 0 {
      var digits := NatToDecimal(-i);
      assert s == "-" + digits;
      assert s[1..] == digits;
      ParseNatToDecimal(-i);
    } else {
      ParseNatToDecimal(i);
      assert s[0] != '-';
    }
  }

  /** Distinct integers are rendered as distinct strings. */
  lemma IntToDecimalInjective(i: int, j: int)
    requires IntToDecimal(i) == IntToDecimal(j)
    ensures i == j
  {
    ParseIntToDecimal(i);
    ParseIntToDecimal(j);
  }
}
