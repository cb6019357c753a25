/** Unsigned 32-bit arithmetic as the AVR target performs it on `unsigned long`:
    every increment and addition wraps modulo 2^32. */
module Words {

  const WORD_MODULUS: int := 0x1_0000_0000

  /** A value of a 32-bit `unsigned long` (and of one EEPROM dword). */
  type UInt32 = x: int | 0 <= x < 0x1_0000_0000

  /** Truncation of a mathematical integer to 32 bits. */
  function Wrap(x: int): UInt32
  {
    x % WORD_MODULUS
  }

  /** `x++` on an `unsigned long`. */
  function Inc(x: UInt32): UInt32
  {
    Wrap(x + 1)
  }

  /** `n` successive increments of `x`. */
  function AddWrap(x: UInt32, n: nat): UInt32
  {
    Wrap(x + n)
  }

  /** Two integers that differ by a multiple of 2^32 truncate to the same word. */
  lemma WrapCongruent(x: int, y: int, k: int)
    requires x == y + k * WORD_MODULUS
    ensures Wrap(x) == Wrap(y)
  {
    var q := y / WORD_MODULUS;
    assert y == q * WORD_MODULUS + Wrap(y);
    assert x == (q + k) * WORD_MODULUS + Wrap(y);
    WrapUnique(x, q + k, Wrap(y));
  }

  /** The remainder is the only value in range that differs from `x` by a multiple of 2^32. */
  lemma WrapUnique(x: int, q: int, r: int)
    requires 0 <= r < WORD_MODULUS
    requires x == q * WORD_MODULUS + r
    ensures Wrap(x) == r
  {
  }

  /** Truncating an intermediate result does not change the final truncation. */
  lemma {:induction false} WrapAbsorbs(x: int, y: int)
    ensures Wrap(Wrap(x) + y) == Wrap(x + y)
  {
    var q := x / WORD_MODULUS;
    assert x == q * WORD_MODULUS + Wrap(x);
    WrapCongruent(x + y, Wrap(x) + y, q);
  }

  /** Zero increments leave a word as it is. */
  lemma AddWrapZero(x: UInt32)
    ensures AddWrap(x, 0) == x
  {
    WrapUnique(x, 0, x);
  }

  /** One more increment after `n` increments is `n + 1` increments. */
  lemma IncAfterAdd(x: UInt32, n: nat)
    ensures Inc(AddWrap(x, n)) == AddWrap(x, n + 1)
  {
    WrapAbsorbs(x + n, 1);
  }

  /** Increments compose: `a` then `b` increments are `a + b` increments. */
  lemma AddWrapCompose(x: UInt32, a: nat, b: nat)
    ensures AddWrap(AddWrap(x, a), b) == AddWrap(x, a + b)
  {
    WrapAbsorbs(x + a, b);
  }
}
