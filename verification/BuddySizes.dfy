/** Rounding, and the size class of a request. */
module BuddySizes {
  import opened PowersOfTwo

  function RoundUp(n: nat, size: nat): nat
    requires n >= 1 && size > 0
  {
    ((n - 1) / size + 1) * size
  }

  function RoundDown(n: nat, size: nat): nat
    requires size > 0
  {
    (n / size) * size
  }

  lemma RoundUpIs(n: nat, size: nat)
    requires n >= 1 && size > 0
    ensures RoundUp(n, size) % size == 0 && n <= RoundUp(n, size) < n + size
  {
    DivMod(n - 1, size);
    MulMod((n - 1) / size + 1, size);
  }

  lemma RoundDownIs(n: nat, size: nat)
    requires size > 0
    ensures RoundDown(n, size) % size == 0 && n - size < RoundDown(n, size) <= n
  {
    DivMod(n, size);
    MulMod(n / size, size);
  }

  /** The exponent of the largest power of two that is at most `m`. */
  method Log2(m: nat) returns (k: nat)
    requires m >= 1
    ensures Pow2(k) <= m < Pow2(k + 1)
  {
    var n := m;
    k := 0;
    while n > 1
      invariant n >= 1 && n * Pow2(k) <= m < (n + 1) * Pow2(k)
    {
      HalveStep(n, m, k);
      k := k + 1;
      n := n / 2;
    }
    assert (1 + 1) * Pow2(k) == Pow2(k + 1);
  }

  lemma HalveStep(n: nat, m: nat, k: nat)
    requires n > 1 && n * Pow2(k) <= m < (n + 1) * Pow2(k)
    ensures n / 2 >= 1 && (n / 2) * Pow2(k + 1) <= m < (n / 2 + 1) * Pow2(k + 1)
  {
    var q, p := n / 2, Pow2(k);
    assert Pow2(k + 1) == 2 * p;
    assert q * (2 * p) == (2 * q) * p && (q + 1) * (2 * p) == (2 * q + 2) * p;
    MulMonotone(2 * q, n, p);
    MulMonotone(n + 1, 2 * q + 2, p);
  }

  /** The smallest exponent from `k` on whose power reaches `n`. */
  function ExponentFor(n: nat, k: nat): (e: nat)
    ensures e >= k && Pow2(e) >= n && (e > k ==> Pow2(e - 1) < n)
    decreases if Pow2(k) < n then n - Pow2(k) else 0
  {
    if Pow2(k) >= n then k else ExponentFor(n, k + 1)
  }

  function NextPowerOfTwo(n: nat): nat {
    Pow2(ExponentFor(n, 0))
  }

  function TrailingZeros(n: nat): nat
    requires n > 0
  {
    if n % 2 == 1 then 0 else 1 + TrailingZeros(n / 2)
  }

  lemma {:induction false} TrailingZerosOfPow(k: nat)
    ensures TrailingZeros(Pow2(k)) == k
    decreases k
  {
    if k > 0 {
      TrailingZerosOfPow(k - 1);
    }
  }

  predicate IsPowerOfTwo(n: nat) {
    n > 0 && NextPowerOfTwo(n) == n
  }

  lemma PowerOfTwoIs(n: nat)
    requires IsPowerOfTwo(n)
    ensures n == Pow2(ExponentFor(n, 0))
  {}

  /** The size class a request of `size` bytes is served from. */
  function SizeClass(size: nat, leaf: nat): nat
    requires leaf > 0 && IsPowerOfTwo(leaf)
  {
    if size <= leaf then 0
    else
      QuotientPositive(size, leaf);
      TrailingZeros(NextPowerOfTwo(size) / leaf)
  }

  lemma QuotientIs(size: nat, leaf: nat)
    requires IsPowerOfTwo(leaf) && size > leaf
    ensures var b, e := ExponentFor(leaf, 0), ExponentFor(size, 0);
            b < e && NextPowerOfTwo(size) / leaf == Pow2(e - b)
  {
    var b, e := ExponentFor(leaf, 0), ExponentFor(size, 0);
    PowOrder(b, e);
    PowDivides(b, e);
    MulMod(Pow2(e - b), Pow2(b));
  }

  lemma QuotientPositive(size: nat, leaf: nat)
    requires IsPowerOfTwo(leaf) && size > leaf
    ensures NextPowerOfTwo(size) / leaf > 0
  {
    QuotientIs(size, leaf);
  }

  /** The size class is the smallest one whose blocks hold the request. */
  lemma SizeClassIs(size: nat, leaf: nat)
    requires IsPowerOfTwo(leaf)
    ensures var k := SizeClass(size, leaf);
            size <= Pow2(k) * leaf && (k > 0 ==> Pow2(k - 1) * leaf < size)
  {
    if size > leaf {
      var b, e := ExponentFor(leaf, 0), ExponentFor(size, 0);
      QuotientIs(size, leaf);
      TrailingZerosOfPow(e - b);
      PowAdd(e - b, b);
      PowAdd(e - b - 1, b);
    }
  }

  lemma MultiplesAdd(x: nat, y: nat, d: nat)
    requires d > 0 && x % d == 0 && y % d == 0
    ensures (x + y) % d == 0
  {
    DivMod(x, d);
    DivMod(y, d);
    assert x + y == (x / d + y / d) * d;
    MulMod(x / d + y / d, d);
  }

  lemma MultipleOfMultiple(i: nat, y: nat, d: nat)
    requires d > 0 && y % d == 0
    ensures (i * y) % d == 0
  {
    DivMod(y, d);
    assert i * y == i * ((y / d) * d) == (i * (y / d)) * d;
    MulMod(i * (y / d), d);
  }

  lemma MultipleAtLeast(size: nat, align: nat)
    requires align > 0 && size > 0 && size % align == 0
    ensures align <= size
  {
    DivMod(size, align);
    if size / align < 1 {
      MulMonotone(size / align, 0, align);
    }
  }

  /** A size of blocks that holds a multiple of `align` is one. */
  lemma BlockSizeAligned(leaf: nat, k: nat, size: nat, align: nat)
    requires IsPowerOfTwo(leaf) && IsPowerOfTwo(align) && size > 0 && size % align == 0 && size <= Pow2(k) * leaf
    ensures (Pow2(k) * leaf) % align == 0
  {
    hide Pow2, IsPowerOfTwo, NextPowerOfTwo, ExponentFor;
    PowerOfTwoIs(leaf);
    PowerOfTwoIs(align);
    var a, b := ExponentFor(align, 0), ExponentFor(leaf, 0);
    MultipleAtLeast(size, align);
    PowAdd(k, b);
    PowOrder(k + b, a);
    PowDivides(a, k + b);
  }

  lemma SmallerAligned(base: nat, maxAlign: nat, align: nat)
    requires IsPowerOfTwo(maxAlign) && IsPowerOfTwo(align) && align <= maxAlign && base % maxAlign == 0
    ensures base % align == 0
  {
    hide Pow2, IsPowerOfTwo, NextPowerOfTwo, ExponentFor;
    PowerOfTwoIs(maxAlign);
    PowerOfTwoIs(align);
    var a, m := ExponentFor(align, 0), ExponentFor(maxAlign, 0);
    PowOrder(m, a);
    PowDivides(a, m);
    DivMod(base, maxAlign);
    MultipleOfMultiple(base / maxAlign, maxAlign, align);
  }

  /** Blocks are aligned to every power of two that divides the request. */
  lemma BlockAligned(base: nat, maxAlign: nat, leaf: nat, k: nat, i: nat, size: nat, align: nat)
    requires IsPowerOfTwo(maxAlign) && IsPowerOfTwo(leaf) && IsPowerOfTwo(align) && align <= maxAlign
    requires base % maxAlign == 0 && size > 0 && size % align == 0 && size <= Pow2(k) * leaf
    ensures (base + i * (Pow2(k) * leaf)) % align == 0
  {
    hide *;
    PowerOfTwoIs(align);
    SmallerAligned(base, maxAlign, align);
    BlockSizeAligned(leaf, k, size, align);
    MultipleOfMultiple(i, Pow2(k) * leaf, align);
    MultiplesAdd(base, i * (Pow2(k) * leaf), align);
  }
}
