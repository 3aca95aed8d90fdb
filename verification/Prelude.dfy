/** Machine arithmetic and the small result types shared by every module. */
module Prelude {

  const TWO_64: int := 0x1_0000_0000_0000_0000

  type uint64 = x: int | 0 <= x < 0x1_0000_0000_0000_0000

  datatype Option<+T> = None | Some(value: T)

  datatype Result<+T> = Ok(value: T) | Err

  /** Unsigned addition and subtraction as the hardware does them: modulo 2^64. */
  function WrapAdd(a: uint64, b: uint64): (r: uint64) {
    if a + b < TWO_64 then a + b else a + b - TWO_64
  }

  function WrapSub(a: uint64, b: uint64): (r: uint64) {
    if b <= a then a - b else a - b + TWO_64
  }

  /** The 128-bit product split into two words. */
  function Mul64(a: uint64, b: uint64): (r: (uint64, uint64)) {
    ProductBound(a, b);
    (a * b / TWO_64, a * b % TWO_64)
  }

  lemma MulMono(a: int, b: int, c: nat)
    requires a <= b
    ensures a * c <= b * c
  {
  }

  lemma QuotientUnder(value: nat, divisor: nat, bound: nat)
    requires divisor > 0 && value < bound * divisor
    ensures value / divisor < bound
  {
    var q := value / divisor;
    if q >= bound {
      MulMono(bound, q, divisor);
      assert false;
    }
  }

  lemma ProductBound(a: uint64, b: uint64)
    ensures 0 <= a * b / TWO_64 < TWO_64
  {
    MulMono(0, a, b);
    MulMono(a, TWO_64 - 1, b);
    QuotientUnder(a * b, TWO_64, TWO_64);
  }

  /** The only `k` with `k * d <= value < (k + 1) * d` is the quotient. */
  lemma QuotientIs(value: nat, d: nat, k: nat)
    requires d > 0 && k * d <= value < (k + 1) * d
    ensures value / d == k
  {
    QuotientUnder(value, d, k + 1);
    var q := value / d;
    if q < k {
      MulMono(q + 1, k, d);
      assert false;
    }
  }

  /** A zero high word is exactly the absence of overflow. */
  lemma Mul64Exact(a: uint64, b: uint64)
    ensures Mul64(a, b).0 == 0 <==> a * b < TWO_64
    ensures Mul64(a, b).0 == 0 ==> Mul64(a, b).1 == a * b
  {
  }

  function Max(a: int, b: int): (r: int) { if a < b then b else a }

  function Min(a: int, b: int): (r: int) { if a < b then a else b }

  /** The least number of steps of size `divisor` that reach `value`. */
  function CeilDiv(value: nat, divisor: nat): (steps: nat)
    requires divisor > 0
  {
    (value + divisor - 1) / divisor
  }

  lemma CeilDivReaches(value: nat, divisor: nat)
    requires divisor > 0
    ensures value <= CeilDiv(value, divisor) * divisor
    ensures value > 0 ==> (CeilDiv(value, divisor) - 1) * divisor < value
  {
    var n := value + divisor - 1;
    var q := n / divisor;
    assert n == q * divisor + n % divisor;
    assert (q - 1) * divisor == q * divisor - divisor;
  }
}
