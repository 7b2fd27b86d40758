/** Bitwise arithmetic on natural numbers, as far as the seccomp filters need it. */
module Bits {

  type u32 = x: nat | x < 0x1_0000_0000
  type u64 = x: nat | x < 0x1_0000_0000_0000_0000

  function And(a: nat, b: nat): nat
    decreases a
  {
    if a == 0 || b == 0 then 0
    else 2 * And(a / 2, b / 2) + if a % 2 == 1 && b % 2 == 1 then 1 else 0
  }

  predicate Bit(a: nat, j: nat)
    decreases j
  {
    if j == 0 then a % 2 == 1 else Bit(a / 2, j - 1)
  }

  function Pow2(n: nat): nat {
    if n == 0 then 1 else 2 * Pow2(n - 1)
  }

  lemma {:induction false} AndIsBounded(a: nat, b: nat)
    ensures And(a, b) <= a && And(a, b) <= b
    decreases a
  {
    if a > 0 && b > 0 { AndIsBounded(a / 2, b / 2); }
  }

  lemma AndEven(a: nat, b: nat)
    ensures And(a, 2 * b) == 2 * And(a / 2, b)
  {
    assert 2 * b / 2 == b && 2 * b % 2 == 0;
  }

  lemma AndOdd(a: nat, b: nat)
    ensures And(a, 2 * b + 1) == 2 * And(a / 2, b) + a % 2
  {
    assert (2 * b + 1) / 2 == b && (2 * b + 1) % 2 == 1;
  }

  lemma {:induction false} AndOneBit(a: nat, j: nat)
    ensures And(a, Pow2(j)) == if Bit(a, j) then Pow2(j) else 0
    decreases j
  {
    if j == 0 {
      AndOdd(a, 0);
    } else {
      AndEven(a, Pow2(j - 1));
      AndOneBit(a / 2, j - 1);
    }
  }

  lemma ModFour(a: nat, half: nat, q: nat, r: nat)
    requires a == 2 * half + a % 2 && half == 2 * q + r && r < 2
    ensures a % 4 == 2 * r + a % 2
  {
    assert a == 4 * q + (2 * r + a % 2);
  }

  lemma ModEight(a: nat, half: nat, q: nat, r: nat)
    requires a == 2 * half + a % 2 && half == 4 * q + r && r < 4
    ensures a % 8 == 2 * r + a % 2
  {
    assert a == 8 * q + (2 * r + a % 2);
  }

  lemma ModSixteen(a: nat, half: nat, q: nat, r: nat)
    requires a == 2 * half + a % 2 && half == 8 * q + r && r < 8
    ensures a % 16 == 2 * r + a % 2
  {
    assert a == 16 * q + (2 * r + a % 2);
  }

  /** A mask of the low bits takes a remainder. */
  lemma AndMask(a: nat, mask: nat)
    requires mask in {1, 3, 7, 15}
    ensures And(a, mask) == a % (mask + 1)
    decreases mask
  {
    var half := mask / 2;
    AndOdd(a, half);
    if half > 0 {
      AndMask(a / 2, half);
      if mask == 3 {
        ModFour(a, a / 2, a / 2 / 2, a / 2 % 2);
      } else if mask == 7 {
        ModEight(a, a / 2, a / 2 / 4, a / 2 % 4);
      } else {
        ModSixteen(a, a / 2, a / 2 / 8, a / 2 % 8);
      }
    }
  }

  lemma AndNibble(a: nat, mask: nat)
    requires mask == 15
    ensures And(a, mask) == a % 16
  {
    AndMask(a, mask);
    assert mask + 1 == 16;
  }

  /** The four bits of a socket type. */
  lemma LowNibbleIs(a: nat, t: nat, mask: nat)
    requires t <= 15 && mask == 15
    ensures And(a, mask) == And(t, mask) <==> a % 16 == t
  {
    AndNibble(a, mask);
    AndNibble(t, mask);
    SmallRemainder(t);
  }

  lemma SmallRemainder(t: nat)
    requires t <= 15
    ensures t % 16 == t
  {
  }

  function Low(value: u64): u32 { value % 0x1_0000_0000 }

  function High(value: u64): u32 { value / 0x1_0000_0000 }
}
