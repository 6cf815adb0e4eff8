/** Bit positions and left shifts on unbounded naturals, as Python integers have them. */
module Bits {
  import opened Arithmetic

  function Pow2(k: nat): (r: nat)
    ensures r > 0
  {
    if k == 0 then 1 else 2 * Pow2(k - 1)
  }

  predicate Bit(n: nat, i: nat) {
    if i == 0 then n % 2 == 1 else Bit(n / 2, i - 1)
  }

  function ShiftLeft(n: nat, d: nat): nat {
    if d == 0 then n else 2 * ShiftLeft(n, d - 1)
  }

  /** Bit i is the binary digit of weight 2^i. */
  lemma {:induction false} BitIsDigit(n: nat, i: nat)
    ensures Bit(n, i) <==> n / Pow2(i) % 2 == 1
  {
    if i > 0 {
      BitIsDigit(n / 2, i - 1);
      DividedTwice(n, 2, Pow2(i - 1));
    }
  }

  /** n | 1 */
  function SetLowBit(n: nat): nat {
    if n % 2 == 0 then n + 1 else n
  }

  lemma {:induction false} ShiftLeftBit(n: nat, d: nat, i: nat)
    ensures Bit(ShiftLeft(n, d), i) <==> d <= i && Bit(n, i - d)
  {
    if d > 0 && i > 0 {
      ShiftLeftBit(n, d - 1, i - 1);
      assert ShiftLeft(n, d) / 2 == ShiftLeft(n, d - 1);
    }
  }

  lemma SetLowBitBit(n: nat, i: nat)
    ensures Bit(SetLowBit(n), i) <==> i == 0 || Bit(n, i)
  {
    assert i > 0 ==> SetLowBit(n) / 2 == n / 2;
  }

  lemma {:induction false} ZeroHasNoBits(i: nat)
    ensures !Bit(0, i)
  {
    if i > 0 { ZeroHasNoBits(i - 1); }
  }

  lemma HalveMod(n: nat, p: nat)
    requires p > 0
    ensures (n % (2 * p)) / 2 == (n / 2) % p
    ensures (n % (2 * p)) % 2 == n % 2
  {
    var a, c := (n / 2) / p, (n / 2) % p;
    assert n / 2 == p * a + c;
    assert n == (2 * p) * a + (2 * c + n % 2);
    ModIs(n, 2 * p, a, 2 * c + n % 2);
  }

  /** Reducing modulo 2^k keeps the low k bits and clears the rest. */
  lemma {:induction false} LowBits(n: nat, k: nat, i: nat)
    ensures Bit(n % Pow2(k), i) <==> i < k && Bit(n, i)
  {
    if k == 0 {
      ZeroHasNoBits(i);
    } else {
      var p := Pow2(k - 1);
      HalveMod(n, p);
      if i > 0 { LowBits(n / 2, k - 1, i - 1); }
    }
  }

  lemma Pow2Of32()
    ensures Pow2(32) == 0x1_0000_0000
  {
    assert Pow2(8) == 256;
    assert Pow2(12) == 16 * Pow2(8);
    assert Pow2(16) == 16 * Pow2(12);
    assert Pow2(20) == 16 * Pow2(16);
    assert Pow2(24) == 16 * Pow2(20);
    assert Pow2(28) == 16 * Pow2(24);
    assert Pow2(32) == 16 * Pow2(28);
  }
}
