/** Text as the engine builds it: ASCII literals and decimal numerals. */
module Texts {
  import opened Words

  function Ascii(s: string): (r: bytes)
    ensures |r| == |s|
    ensures forall i :: 0 <= i < |s| ==> r[i] == s[i] as int % 256
  {
    seq(|s|, i requires 0 <= i < |s| => s[i] as int % 256)
  }

  /** std::to_string of an unsigned word. */
  function Decimal(n: nat): (r: bytes)
    ensures |r| >= 1 && (n >= 10 <==> |r| >= 2)
    ensures forall c | c in r :: 48 <= c <= 57
  {
    if n < 10 then [48 + n] else Decimal(n / 10) + [48 + n % 10]
  }

  lemma {:induction false} DecimalInjective(a: nat, b: nat)
    requires Decimal(a) == Decimal(b)
    ensures a == b
  {
    var x, y := Decimal(a), Decimal(b);
    assert a == 10 * (a / 10) + a % 10 && b == 10 * (b / 10) + b % 10;
    assert x[|x| - 1] == 48 + a % 10 && y[|y| - 1] == 48 + b % 10;
    if a >= 10 {
      assert x[..|x| - 1] == Decimal(a / 10) && y[..|y| - 1] == Decimal(b / 10);
      DecimalInjective(a / 10, b / 10);
    }
  }

  /** The number that a text of decimal digits is read as. */
  function Numeral(b: bytes): int {
    if b == [] then 0 else 10 * Numeral(b[..|b| - 1]) + (b[|b| - 1] as int - 48)
  }

  /** The numeral of a number is read as that number, and has no zero in front unless it is zero. */
  lemma {:induction false} DecimalReads(n: nat)
    ensures Numeral(Decimal(n)) == n && (Decimal(n)[0] == 48 <==> n == 0)
  {
    if n < 10 {
      assert [48 + n][..0] == [];
    } else {
      var front: bytes := Decimal(n / 10);
      DecimalReads(n / 10);
      assert (front + [48 + n % 10])[..|front|] == front;
    }
  }
}
