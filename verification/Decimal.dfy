/** Decimal notation without leading zeros. */
module DecimalText {
  import opened Bytes

  function Digit(d: nat): byte
    requires d < 10
  {
    48 + d
  }

  predicate IsDigit(b: byte) { 48 <= b <= 57 }

  function Decimal(n: nat): (r: seq<byte>)
    ensures |r| > 0 && forall i :: 0 <= i < |r| ==> IsDigit(r[i])
  {
    if n < 10 then [Digit(n)] else Decimal(n / 10) + [Digit(n % 10)]
  }

  /** No leading zeros. */
  lemma {:induction false} FirstDigit(n: nat)
    ensures Decimal(n)[0] == 48 <==> n == 0
    ensures n == 0 ==> Decimal(n) == ['0' as int]
  {
    if n >= 10 { FirstDigit(n / 10); }
  }

  /** The number that a string of digits denotes. */
  function Value(s: seq<byte>): nat
    requires forall i :: 0 <= i < |s| ==> IsDigit(s[i])
  {
    if s == [] then 0
    else
      var last := s[|s| - 1];
      assert IsDigit(last);
      Value(s[..|s| - 1]) * 10 + (last - 48)
  }

  lemma {:induction false} ValueOfDecimal(n: nat)
    ensures Value(Decimal(n)) == n
  {
    if n >= 10 {
      var front := Decimal(n / 10);
      ValueOfDecimal(n / 10);
      assert Decimal(n)[..|Decimal(n)| - 1] == front;
    } else {
      assert Decimal(n)[..0] == [];
    }
  }
}
