/** Generated names: a prefix that does not end in a digit, then the decimal of a counter.
    The counter can be read back, so names with different counters are different. */
module Labels {

  predicate IsDigit(c: char) {
    '0' <= c <= '9'
  }

  function Digit(d: nat): (c: char)
    requires d < 10
    ensures IsDigit(c) && DigitValue(c) == d
  {
    '0' + d as char
  }

  function DigitValue(c: char): nat
    requires IsDigit(c)
  {
    (c - '0') as nat
  }

  /** The decimal numeral of `n`, as Python's formatting writes it. */
  function Decimal(n: nat): (s: string)
    ensures s != [] && forall k :: 0 <= k < |s| ==> IsDigit(s[k])
  {
    if n < 10 then [Digit(n)] else Decimal(n / 10) + [Digit(n % 10)]
  }

  /** The number written by the digits that end `s`; 0 when `s` ends in none. */
  function Serial(s: string): nat {
    if s == [] || !IsDigit(s[|s| - 1]) then 0
    else 10 * Serial(s[..|s| - 1]) + DigitValue(s[|s| - 1])
  }

  predicate EndsPlain(s: string) {
    s != [] && !IsDigit(s[|s| - 1])
  }

  lemma {:induction false} SerialOfDecimal(prefix: string, n: nat)
    requires EndsPlain(prefix)
    ensures Serial(prefix + Decimal(n)) == n
    decreases n
  {
    var s := prefix + Decimal(n);
    if n < 10 {
      assert s[..|s| - 1] == prefix;
    } else {
      SerialOfDecimal(prefix, n / 10);
      assert s[..|s| - 1] == prefix + Decimal(n / 10);
    }
  }

  /** The name of a label or slot with counter `n`. */
  function Name(prefix: string, n: nat): (s: string)
    requires EndsPlain(prefix)
    ensures Serial(s) == n && s != []
  {
    SerialOfDecimal(prefix, n);
    prefix + Decimal(n)
  }
}
