/**
 * Machine integers and the bit operations the capture engine applies to
 * promoted C++ `int` values: `&`, `^` and left shifts by a constant.
 */
module Bits {

  /** An unsigned 8-bit value (`vluint8_t`, `UBYTE`). */
  type u8 = x: int | 0 <= x < 0x100

  /** An unsigned 16-bit value (`vluint16_t`, `UWORD`). */
  type u16 = x: int | 0 <= x < 0x1_0000

  /** Assignment of an `int` to a `vluint16_t`: the value modulo 2^16. */
  function Wrap16(n: int): (r: u16)
    ensures 0 <= n < 0x1_0000 ==> r == n
    ensures n == 0x1_0000 ==> r == 0
  {
    n % 0x1_0000
  }

  function Pow2(k: nat): (r: nat)
    ensures r >= 1
  {
    if k == 0 then 1 else 2 * Pow2(k - 1)
  }

  /** `1 << k` for small k; also the factor of a left shift by k. */
  lemma {:induction false} Pow2Add(a: nat, b: nat)
    ensures Pow2(a + b) == Pow2(a) * Pow2(b)
  {
    if a > 0 {
      Pow2Add(a - 1, b);
    }
  }

  /** C's `<<` on a non-negative operand: k doublings. */
  function Shl(a: nat, k: nat): nat
  {
    if k == 0 then a else 2 * Shl(a, k - 1)
  }

  lemma {:induction false} ShlIsMul(a: nat, k: nat)
    ensures Shl(a, k) == a * Pow2(k)
  {
    if k > 0 {
      ShlIsMul(a, k - 1);
    }
  }

  /** C's `&` on non-negative operands. */
  function BitAnd(a: nat, b: nat): (r: nat)
    ensures r <= a && r <= b
    decreases a
  {
    if a == 0 || b == 0 then 0
    else 2 * BitAnd(a / 2, b / 2) + (if a % 2 == 1 && b % 2 == 1 then 1 else 0)
  }

  /** C's `^` on non-negative operands. */
  function BitXor(a: nat, b: nat): (r: nat)
    ensures r <= a + b
    decreases a
  {
    if a == 0 then b
    else if b == 0 then a
    else 2 * BitXor(a / 2, b / 2) + (if a % 2 != b % 2 then 1 else 0)
  }

  /** Quotient and remainder are determined by `a == q * m + r`, `0 <= r < m`. */
  lemma DivModUnique(a: int, m: int, q: int, r: int)
    requires m > 0 && 0 <= r < m && a == q * m + r
    ensures a / m == q && a % m == r
  {
    var q0, r0 := a / m, a % m;
    assert a == q0 * m + r0;
    assert (q0 - q) * m == r - r0;
    if q0 > q {
      MulMonotone(q0 - q, 1, m);
    } else if q0 < q {
      MulMonotone(q - q0, 1, m);
    }
  }

  lemma MulMonotone(a: int, b: int, m: int)
    requires a >= b && m >= 0
    ensures a * m >= b * m
  {
  }

  lemma DivModStep(a: nat, m: nat)
    requires m >= 1
    ensures a % (2 * m) == 2 * ((a / 2) % m) + a % 2
  {
    var q := (a / 2) / m;
    var r := (a / 2) % m;
    assert a / 2 == q * m + r;
    assert a == 2 * (q * m + r) + a % 2;
    assert a == q * (2 * m) + (2 * r + a % 2);
    DivModUnique(a, 2 * m, q, 2 * r + a % 2);
  }

  /** Masking with `2^k - 1` keeps the k low bits: `a & (2^k - 1) == a mod 2^k`. */
  lemma {:induction false} BitAndLowMask(a: nat, k: nat)
    ensures BitAnd(a, Pow2(k) - 1) == a % Pow2(k)
  {
    if k == 0 {
    } else if a == 0 {
    } else {
      var m := Pow2(k - 1);
      assert Pow2(k) - 1 != 0;
      assert (Pow2(k) - 1) / 2 == m - 1;
      assert (Pow2(k) - 1) % 2 == 1;
      BitAndLowMask(a / 2, k - 1);
      DivModStep(a, m);
    }
  }

  /** `n & 2` picks bit 1 of n. */
  lemma BitAndTwo(n: nat)
    ensures BitAnd(n, 2) == 2 * ((n / 2) % 2)
  {
    if n != 0 {
      assert BitAnd(n, 2) == 2 * BitAnd(n / 2, 1);
      if n / 2 != 0 {
        assert BitAnd(n / 2, 1) == 2 * BitAnd(n / 4, 0) + (if (n / 2) % 2 == 1 then 1 else 0);
      }
    }
  }

  /** `n & 3` is n mod 4. */
  lemma LowTwoBits(n: nat)
    ensures BitAnd(n, 3) == n % 4
  {
    BitAndLowMask(n, 2);
    assert Pow2(2) == 4;
  }
}
