/**
 * Alignment helpers: the power-of-two test and rounding an address or a size
 * up or down to a multiple of a power-of-two alignment.
 */
module MemoryUtils {

  /** No alignment: every address is a multiple of 1. */
  const NoAlign: nat := 1

  /** Word alignment on a 64-bit target. */
  const WordAlign: nat := 8

  /** The recursive characterisation of a power of two: 1, or an even number whose half is one. */
  predicate PowerOfTwo(n: nat)
    decreases n
  {
    n == 1 || (n > 1 && n % 2 == 0 && PowerOfTwo(n / 2))
  }

  /** 2 raised to `k`. */
  function Pow2(k: nat): nat
  {
    if k == 0 then 1 else 2 * Pow2(k - 1)
  }

  lemma {:induction false} Pow2IsPowerOfTwo(k: nat)
    ensures PowerOfTwo(Pow2(k))
  {
    if k > 0 {
      Pow2IsPowerOfTwo(k - 1);
      assert Pow2(k) / 2 == Pow2(k - 1);
    }
  }

  lemma {:induction false} PowerOfTwoHasExponent(n: nat)
    requires PowerOfTwo(n)
    ensures exists k: nat :: n == Pow2(k)
  {
    if n == 1 {
      assert n == Pow2(0);
    } else {
      PowerOfTwoHasExponent(n / 2);
      var k: nat :| n / 2 == Pow2(k);
      assert n == Pow2(k + 1);
    }
  }

  /** `PowerOfTwo(n)` holds exactly for the numbers 2^k; so 0 is not one and 1 is. */
  lemma PowerOfTwoIffPow2(n: nat)
    ensures PowerOfTwo(n) <==> exists k: nat :: n == Pow2(k)
    ensures !PowerOfTwo(0) && PowerOfTwo(1)
  {
    if PowerOfTwo(n) {
      PowerOfTwoHasExponent(n);
    }
    if exists k: nat :: n == Pow2(k) {
      var k: nat :| n == Pow2(k);
      Pow2IsPowerOfTwo(k);
    }
  }

  /** `is_power_of_two`: halve while the number is even and above 1, then compare with 1. */
  method IsPowerOfTwo(num: nat) returns (r: bool)
    ensures r <==> PowerOfTwo(num)
  {
    var n: nat := num;
    while n % 2 == 0 && n > 1
      invariant PowerOfTwo(n) <==> PowerOfTwo(num)
      decreases n
    {
      n := n / 2;
    }
    r := n == 1;
  }

  lemma MulMonotone(a: int, b: int, c: nat)
    ensures a <= b ==> a * c <= b * c
  {
  }

  lemma MultipleMod(q: int, align: nat)
    requires align > 0
    ensures (q * align) % align == 0
  {
    var a := q * align;
    var d, m := a / align, a % align;
    assert a == d * align + m && 0 <= m < align;
    assert (q - d) * align == m;
    MulMonotone(1, q - d, align);
    MulMonotone(q - d, -1, align);
  }

  /** `align_front`: the nearest multiple of `align` at or above `addr`. */
  function AlignFront(addr: int, align: nat): (r: int)
    requires PowerOfTwo(align)
    ensures r % align == 0
    ensures addr <= r < addr + align
    ensures addr % align == 0 ==> r == addr
    ensures align == 1 ==> r == addr
  {
    if align == 1 then addr
    else if addr % align == 0 then addr
    else
      var q := addr / align;
      assert addr + (align - addr % align) == (q + 1) * align;
      MultipleMod(q + 1, align);
      addr + (align - addr % align)
  }

  /** `align_back`: the nearest multiple of `align` at or below `addr`. */
  function AlignBack(addr: int, align: nat): (r: int)
    requires PowerOfTwo(align)
    ensures r % align == 0
    ensures addr - align < r <= addr
    ensures addr % align == 0 ==> r == addr
    ensures align == 1 ==> r == addr
  {
    if align == 1 then addr
    else if addr % align == 0 then addr
    else
      var q := addr / align;
      assert addr - addr % align == q * align;
      MultipleMod(q, align);
      addr - addr % align
  }

  /** `align_size`: a size rounded up to a multiple of `align`. */
  function AlignSize(size: nat, align: nat): (r: nat)
    requires PowerOfTwo(align)
    ensures r % align == 0
    ensures size <= r < size + align
    ensures size % align == 0 ==> r == size
    ensures align == 1 ==> r == size
  {
    if align == 1 then size
    else if size % align == 0 then size
    else
      var q := size / align;
      assert size + (align - size % align) == (q + 1) * align;
      MultipleMod(q + 1, align);
      size + (align - size % align)
  }

  /** Two distinct multiples of `align` are at least `align` apart. */
  lemma MultipleGap(x: int, y: int, align: nat)
    requires align > 0 && x % align == 0 && y % align == 0
    ensures x < y ==> x + align <= y
  {
    var qx, qy := x / align, y / align;
    assert x == qx * align && y == qy * align;
    MulMonotone(qy, qx, align);
    MulMonotone(qx + 1, qy, align);
  }

  /** `align_size(s)` is the least multiple of `align` that is at least `s`. */
  lemma AlignSizeIsLeast(size: nat, align: nat, m: nat)
    requires PowerOfTwo(align)
    requires m % align == 0 && size <= m
    ensures AlignSize(size, align) <= m
  {
    MultipleGap(m, AlignSize(size, align), align);
  }

  lemma MultipleDifference(a: int, b: int, align: nat)
    requires align > 0 && a % align == 0 && b % align == 0
    ensures (a - b) % align == 0
  {
    var qa, qb := a / align, b / align;
    assert a - b == (qa - qb) * align;
    MultipleMod(qa - qb, align);
  }

  /** Rounding an aligned value does nothing, so both roundings are idempotent. */
  lemma AlignIdempotent(addr: int, align: nat)
    requires PowerOfTwo(align)
    ensures AlignFront(AlignFront(addr, align), align) == AlignFront(addr, align)
    ensures AlignBack(AlignBack(addr, align), align) == AlignBack(addr, align)
    ensures AlignSize(AlignSize(if addr < 0 then 0 else addr, align), align) == AlignSize(if addr < 0 then 0 else addr, align)
  {
  }

  /** An aligned base plus any size, rounded up, is the base plus the rounded-up size. */
  lemma {:induction false} AlignFrontShift(base: int, size: nat, align: nat)
    requires PowerOfTwo(align) && base % align == 0
    ensures AlignFront(base + size, align) == base + AlignSize(size, align)
  {
    var f := AlignFront(base + size, align);
    var g := base + AlignSize(size, align);
    assert g % align == 0 by {
      var qb := base / align;
      var qs := AlignSize(size, align) / align;
      assert g == (qb + qs) * align;
      MultipleMod(qb + qs, align);
    }
    MultipleGap(f, g, align);
    MultipleGap(g, f, align);
  }
}
