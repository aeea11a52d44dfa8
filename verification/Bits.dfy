// Bitwise operators on natural numbers, one binary digit at a time.
module Bits {
  import opened Prelude

  function Bit(b: bool): nat { if b then 1 else 0 }

  function Or(a: nat, b: nat): nat
    decreases a + b
  {
    if a == 0 && b == 0 then 0 else Bit(a % 2 == 1 || b % 2 == 1) + 2 * Or(a / 2, b / 2)
  }

  function Xor(a: nat, b: nat): nat
    decreases a + b
  {
    if a == 0 && b == 0 then 0 else Bit(a % 2 != b % 2) + 2 * Xor(a / 2, b / 2)
  }

  function Shl(x: nat, k: nat): (r: nat)
    ensures r == x * Pow2(k)
  {
    MulMono(0, x, Pow2(k));
    x * Pow2(k)
  }

  // `|` of numbers that share no bit is their sum.
  lemma {:induction false} OrDisjoint(low: nat, high: nat, k: nat)
    requires low < Pow2(k)
    ensures Or(low, high * Pow2(k)) == low + high * Pow2(k)
    decreases k
  {
    if k == 0 {
      OrZero(high);
    } else {
      var h := high * Pow2(k - 1);
      assert high * Pow2(k) == 2 * h;
      OrDisjoint(low / 2, high, k - 1);
    }
  }

  lemma {:induction false} OrZero(a: nat)
    ensures Or(0, a) == a
  {
    if a > 0 {
      OrZero(a / 2);
    }
  }

  // Applying the same mask twice gives the number back.
  lemma {:induction false} XorTwice(a: nat, mask: nat)
    ensures Xor(Xor(a, mask), mask) == a
    decreases a + mask
  {
    if a > 0 || mask > 0 {
      XorTwice(a / 2, mask / 2);
      var x := Xor(a, mask);
      assert x % 2 == Bit(a % 2 != mask % 2) && x / 2 == Xor(a / 2, mask / 2);
      if x == 0 && mask == 0 {
        XorZero(a);
      }
    }
  }

  lemma {:induction false} XorZero(a: nat)
    ensures Xor(a, 0) == a
  {
    if a > 0 {
      XorZero(a / 2);
    }
  }

  lemma {:induction false} XorBounded(a: nat, b: nat, k: nat)
    requires a < Pow2(k) && b < Pow2(k)
    ensures Xor(a, b) < Pow2(k)
    decreases k
  {
    if k > 0 {
      XorBounded(a / 2, b / 2, k - 1);
    }
  }
}
