/** Integers in decimal digits. */
module Decimals {
  import opened Utf8
  import opened Json

  function Decimal(n: nat): (s: bytes)
    ensures s != []
  {
    if n < 10 then [ZERO + n] else Decimal(n / 10) + [ZERO + n % 10]
  }

  function IntText(n: int): bytes {
    if n < 0 then [MINUS] + Decimal(-n) else Decimal(n)
  }

  lemma {:induction false} DecimalDigits(n: nat)
    ensures forall b | b in Decimal(n) :: IsDigit(b)
    ensures n > 0 ==> Decimal(n)[0] != ZERO
  {
    if n >= 10 {
      DecimalDigits(n / 10);
    }
  }

  // Reading them back

  /** The value of base-10 digits. */
  function ReadNat(s: bytes): int {
    if s == [] then 0 else 10 * ReadNat(s[..|s| - 1]) + (s[|s| - 1] as int - 0x30)
  }

  /** The value of a JSON integer: a minus sign, if there is one, and digits. */
  function ReadInt(s: bytes): int {
    if s != [] && s[0] == 0x2D then -ReadNat(s[1..]) else ReadNat(s)
  }

  lemma {:induction false} ReadNatOfDecimal(n: nat)
    ensures ReadNat(Decimal(n)) == n
  {
    if n < 10 {
      assert ReadNat([]) == 0 && Decimal(n)[..0] == [];
    } else {
      ReadNatOfDecimal(n / 10);
      assert Decimal(n)[..|Decimal(n)| - 1] == Decimal(n / 10);
    }
  }

  /** The text of an integer reads back as that integer. */
  lemma ReadIntOfText(n: int)
    ensures ReadInt(IntText(n)) == n
  {
    if n < 0 {
      ReadNatOfDecimal(-n);
      assert IntText(n)[1..] == Decimal(-n);
    } else {
      ReadNatOfDecimal(n);
      DecimalDigits(n);
      assert Decimal(n)[0] in Decimal(n);
    }
  }

  lemma IntTextIsInjective(a: int, b: int)
    requires IntText(a) == IntText(b)
    ensures a == b
  {
    ReadIntOfText(a);
    ReadIntOfText(b);
  }
}
