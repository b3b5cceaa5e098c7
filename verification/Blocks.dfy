/** Powers of two, and blocks of addresses aligned to their own size. */
module Blocks {

  function Pow2(n: nat): (p: nat)
    ensures p > 0
  {
    if n == 0 then 1 else 2 * Pow2(n - 1)
  }

  lemma {:induction false} Pow2Add(a: nat, b: nat)
    ensures Pow2(a + b) == Pow2(a) * Pow2(b)
  {
    if a > 0 {
      Pow2Add(a - 1, b);
      assert Pow2(a + b) == 2 * (Pow2(a - 1) * Pow2(b));
      assert 2 * (Pow2(a - 1) * Pow2(b)) == (2 * Pow2(a - 1)) * Pow2(b);
    }
  }

  lemma DivUnique(x: nat, d: nat, q: nat, r: nat)
    requires d > 0 && r < d && x == q * d + r
    ensures x / d == q && x % d == r
  {
    assert x == d * (x / d) + x % d;
    assert d * (x / d - q) == d * (x / d) - q * d;
    SmallMultiple(d, x / d - q);
  }

  lemma SmallMultiple(d: nat, m: int)
    requires 0 - d < d * m < d
    ensures m == 0
  {
    if m >= 1 {
      MulAtLeast(d, m);
    } else if m <= -1 {
      MulAtLeast(d, -m);
    }
  }

  lemma MulAtLeast(d: nat, m: int)
    requires m >= 1
    ensures d * m >= d
  {
    assert d * m == d + d * (m - 1);
    assert d * (m - 1) >= 0;
  }

  lemma Recompose(a: nat, b: nat, q: nat, r: nat, s: nat)
    ensures a * (b * q + r) + s == q * (a * b) + (a * r + s)
  {
    assert a * (b * q + r) == a * (b * q) + a * r;
    assert a * (b * q) == (a * b) * q;
  }

  lemma Remainder(a: nat, b: nat, r: nat, s: nat)
    requires r < b && s < a
    ensures a * r + s < a * b
  {
    MulMonotone(a, r + 1, b);
    assert a * (r + 1) == a * r + a;
  }

  lemma DivMod(x: nat, d: nat)
    requires d > 0
    ensures x == d * (x / d) + x % d && x % d < d
  {
  }

  lemma DivDivParts(x: nat, a: nat, b: nat, q: nat, r: nat, u: nat, v: nat)
    requires x == a * q + r && q == b * u + v && r < a && v < b
    ensures a * b > 0 && x / (a * b) == u
  {
    MulAtLeast(a, b);
    Recompose(a, b, u, v, r);
    Remainder(a, b, v, r);
    DivUnique(x, a * b, u, a * v + r);
  }

  /** Dividing twice is dividing by the product. */
  lemma DivDiv(x: nat, a: nat, b: nat)
    requires a > 0 && b > 0
    ensures a * b > 0 && x / (a * b) == (x / a) / b
  {
    DivMod(x, a);
    DivMod(x / a, b);
    DivDivParts(x, a, b, x / a, x % a, (x / a) / b, (x / a) % b);
  }

  lemma MulMonotone(a: nat, x: nat, y: nat)
    requires x <= y
    ensures a * x <= a * y
  {
    assert a * (y - x) >= 0;
    assert a * y == a * x + a * (y - x);
  }

  /** The first address of the block of the given size around `x`. */
  function Base(x: nat, size: nat): (base: nat)
    requires size > 0
    ensures base <= x < base + size && base == size * (x / size)
  {
    assert x == size * (x / size) + x % size;
    x - x % size
  }

  lemma BaseInBlock(x: nat, size: nat)
    requires size > 0
    ensures Base(x, size) / size == x / size
  {
    DivUnique(Base(x, size), size, x / size, 0);
  }

  /** Two addresses are in one block exactly when they have the same base. */
  lemma SameBlock(x: nat, y: nat, size: nat)
    requires size > 0
    ensures x / size == y / size <==> Base(x, size) == Base(y, size)
    ensures x / size == y / size <==> Base(y, size) <= x < Base(y, size) + size
  {
    BaseInBlock(x, size);
    BaseInBlock(y, size);
    if Base(y, size) <= x < Base(y, size) + size {
      assert x == (y / size) * size + (x - Base(y, size));
      DivUnique(x, size, y / size, x - Base(y, size));
    }
  }

  /** A block of size `small * factor` is a union of blocks of size `small`. */
  lemma CoarserBlock(x: nat, y: nat, small: nat, factor: nat)
    requires small > 0 && factor > 0 && x / small == y / small
    ensures small * factor > 0 && x / (small * factor) == y / (small * factor)
  {
    DivDiv(x, small, factor);
    DivDiv(y, small, factor);
  }
}
