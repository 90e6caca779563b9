/** Go's unsigned integers as the estimator uses them: `uint64` values whose
    `+` and `*` wrap around modulo 2^64, and the (min, max) byte pair that
    every sized item reports. */
module Uint64 {

  const MODULUS: int := 0x1_0000_0000_0000_0000
  /** math.MaxUint64 */
  const MAX_U64: int := MODULUS - 1
  /** math.MaxUint8, math.MaxUint16, math.MaxUint32 */
  const MAX_U8: int := 255
  const MAX_U16: int := 65535
  const MAX_U32: int := 4294967295

  type U64 = x: int | 0 <= x < MODULUS
  type U8 = x: int | 0 <= x < 256

  /** `a + b` on uint64: the exact sum, less 2^64 when it overflows. */
  function Add(a: U64, b: U64): (r: U64)
    ensures a + b < MODULUS ==> r == a + b
    ensures a + b >= MODULUS ==> r == a + b - MODULUS
  {
    (a + b) % MODULUS
  }

  /** `a * b` on uint64: the exact product reduced modulo 2^64. */
  function Mul(a: U64, b: U64): (r: U64)
    ensures a * b < MODULUS ==> r == a * b
  {
    var p := a * b;
    assert 0 <= p by { MulNonNegative(a, b); }
    p % MODULUS
  }

  lemma MulNonNegative(a: nat, b: nat)
    ensures 0 <= a * b
  {
  }

  /** Multiplying by a natural number keeps the order. */
  lemma MulMonotone(k: nat, x: nat, y: nat)
    requires x <= y
    ensures k * x <= k * y
  {
  }

  /** The `(min, max uint64)` pair returned by every `Size()` of the source. */
  datatype Range = Range(min: U64, max: U64)

  /** `both(i)`: the same value for both bounds. */
  function Both(i: U64): Range
  {
    Range(i, i)
  }

  /** Componentwise `min += n; max += x`, wrapping like the source's accumulators. */
  function Plus(a: Range, b: Range): Range
  {
    Range(Add(a.min, b.min), Add(a.max, b.max))
  }

  /** The sizes `rs` accumulated in order (`min += n; max += x`), wrapping like uint64. */
  function Sum(rs: seq<Range>): Range
  {
    if |rs| == 0 then Range(0, 0) else Plus(Sum(rs[..|rs| - 1]), rs[|rs| - 1])
  }

  /** The exact sums of the lower and of the upper bounds. */
  function ExactMin(rs: seq<Range>): nat
  {
    if |rs| == 0 then 0 else ExactMin(rs[..|rs| - 1]) + rs[|rs| - 1].min
  }

  function ExactMax(rs: seq<Range>): nat
  {
    if |rs| == 0 then 0 else ExactMax(rs[..|rs| - 1]) + rs[|rs| - 1].max
  }

  /** Accumulating one more size adds it to the total. */
  lemma SumAppend(rs: seq<Range>, r: Range)
    ensures Sum(rs + [r]) == Plus(Sum(rs), r)
  {
    assert (rs + [r])[..|rs|] == rs;
  }

  /** Accumulating one more element of a prefix adds that element. */
  lemma SumPrefixStep(rs: seq<Range>, p: nat)
    requires p < |rs|
    ensures Sum(rs[..p + 1]) == Plus(Sum(rs[..p]), rs[p])
  {
    assert rs[..p + 1][..p] == rs[..p];
  }

  /** The accumulated bounds are the exact sums reduced modulo 2^64, so they
      are the exact sums whenever those fit in 64 bits. */
  lemma {:induction false} SumWraps(rs: seq<Range>)
    ensures Sum(rs) == Range(ExactMin(rs) % MODULUS, ExactMax(rs) % MODULUS)
  {
    if |rs| > 0 {
      var init := rs[..|rs| - 1];
      var r := rs[|rs| - 1];
      SumWraps(init);
      AddMod(ExactMin(init), r.min);
      AddMod(ExactMax(init), r.max);
    }
  }

  /** uint64 addition is associative, wrap-around included. */
  lemma AddAssociative(a: U64, b: U64, c: U64)
    ensures Add(Add(a, b), c) == Add(a, Add(b, c))
  {
    AddMod(a + b, c);
    AddMod(b + c, a);
    assert Add(a, Add(b, c)) == Add(Add(b, c), a);
  }

  /** Starting the accumulation from a first size adds that size to the rest. */
  lemma {:induction false} SumCons(r: Range, rs: seq<Range>)
    ensures Sum([r] + rs) == Plus(r, Sum(rs))
  {
    if |rs| == 0 {
      assert [r] + rs == [r];
      assert Sum([r]) == Plus(Sum([]), r);
    } else {
      var init, last := rs[..|rs| - 1], rs[|rs| - 1];
      SumCons(r, init);
      assert [r] + rs == ([r] + init) + [last];
      SumAppend([r] + init, last);
      AddAssociative(r.min, Sum(init).min, last.min);
      AddAssociative(r.max, Sum(init).max, last.max);
    }
  }

  /** Adding to a reduced sum reduces the full sum. */
  lemma AddMod(a: nat, b: U64)
    ensures Add(a % MODULUS, b) == (a + b) % MODULUS
  {
    var q := a / MODULUS;
    assert a == q * MODULUS + a % MODULUS;
    ModShift(a % MODULUS + b, q);
  }

  lemma ModShift(x: nat, q: nat)
    ensures (x + q * MODULUS) % MODULUS == x % MODULUS
  {
    var r := x % MODULUS;
    var k := x / MODULUS;
    assert x + q * MODULUS == (k + q) * MODULUS + r;
  }
}
