/** Powers of two and single bits of a natural number, as `1 << n` and
    `(x >> n) & 1` compute them on values small enough not to overflow. */
module Bits {

  function Pow2(n: nat): (r: nat)
    ensures r >= 1
  {
    if n == 0 then 1 else 2 * Pow2(n - 1)
  }

  /** Bit `n` of `x`: `(x >> n) & 1 == 1`. */
  function Bit(x: nat, n: nat): bool
  {
    if n == 0 then x % 2 == 1 else Bit(x / 2, n - 1)
  }

  lemma {:induction false} Pow2Add(a: nat, b: nat)
    ensures Pow2(a + b) == Pow2(a) * Pow2(b)
  {
    if a > 0 {
      Pow2Add(a - 1, b);
      calc {
        Pow2(a + b);
        2 * Pow2(a - 1 + b);
        2 * (Pow2(a - 1) * Pow2(b));
        (2 * Pow2(a - 1)) * Pow2(b);
        Pow2(a) * Pow2(b);
      }
    }
  }

  /** A number below `2^m` is determined by its lowest `m` bits. */
  lemma {:induction false} BitsDetermine(x: nat, y: nat, m: nat)
    requires x < Pow2(m) && y < Pow2(m)
    requires forall k :: 0 <= k < m ==> Bit(x, k) == Bit(y, k)
    ensures x == y
  {
    if m > 0 {
      forall k | 0 <= k < m - 1
        ensures Bit(x / 2, k) == Bit(y / 2, k)
      {
        assert Bit(x, k + 1) == Bit(y, k + 1);
      }
      BitsDetermine(x / 2, y / 2, m - 1);
      assert Bit(x, 0) == Bit(y, 0);
    }
  }

  /** The bits of `i + 2^m * j` (with `i < 2^m`) are those of `i` below position `m`
      and those of `j` from position `m` on. */
  lemma {:induction false} BitOfOffset(i: nat, j: nat, m: nat, n: nat)
    requires i < Pow2(m)
    ensures Bit(i + Pow2(m) * j, n) == if n < m then Bit(i, n) else Bit(j, n - m)
  {
    if m > 0 {
      var q := Pow2(m - 1) * j;
      assert Pow2(m) * j == 2 * q;
      if n == 0 {
        assert (i + 2 * q) % 2 == i % 2;
      } else {
        assert (i + 2 * q) / 2 == i / 2 + q;
        BitOfOffset(i / 2, j, m - 1, n - 1);
      }
    }
  }

  /** Every bit of `2^k - 1` below position `k` is set. */
  lemma {:induction false} BitOfAllOnes(k: nat, n: nat)
    requires n < k
    ensures Bit(Pow2(k) - 1, n)
  {
    if n > 0 {
      assert (Pow2(k) - 1) / 2 == Pow2(k - 1) - 1;
      BitOfAllOnes(k - 1, n - 1);
    }
  }
}
