// Fixed-width words of the original, as ranges of the unbounded integers, and
// the conversions between them (Go conversions keep the low bits).
module Words {
  type byte = x: int | 0 <= x < 256
  type uint32 = x: int | 0 <= x < TWO_32
  type int32 = x: int | -0x8000_0000 <= x < 0x8000_0000
  type uint64 = x: int | 0 <= x < TWO_64
  type int64 = x: int | -0x8000_0000_0000_0000 <= x < 0x8000_0000_0000_0000

  const TWO_32 := 0x1_0000_0000
  const TWO_64 := 0x1_0000_0000_0000_0000
  const MAX_INT := 0x7FFF_FFFF_FFFF_FFFF

  // int32(x): keep 32 bits and read them as two's complement.
  function ToInt32(x: int): int32 {
    var low := x % TWO_32;
    if low < 0x8000_0000 then low else low - TWO_32
  }

  // int(x) on a 64-bit platform.
  function ToInt64(x: int): int64 {
    var low := x % TWO_64;
    if low <= MAX_INT then low else low - TWO_64
  }

  // uint64(x), which sign-extends a negative int32.
  function ToUint64(x: int): uint64 {
    x % TWO_64
  }

  function Pow2(n: nat): (p: nat)
    ensures p > 0
  {
    if n == 0 then 1 else 2 * Pow2(n - 1)
  }

  lemma Halve(x: nat, p: nat)
    requires p > 0
    ensures x / 2 / p == x / (2 * p)
  {
    var q, r := x / 2 / p, x / 2 % p;
    assert x / 2 == p * q + r;
    assert x == 2 * (p * q + r) + x % 2;
    assert 2 * (p * q) == (2 * p) * q;
    RemainderOf(x, 2 * p, q, 2 * r + x % 2);
  }

  lemma RemainderOf(x: nat, m: nat, q: nat, r: nat)
    requires m > 0 && r < m && x == m * q + r
    ensures x / m == q
  {
    var q', r' := x / m, x % m;
    assert m * q' + r' == m * q + r;
    if q < q' { Times(m, q + 1, q'); } else if q' < q { Times(m, q' + 1, q); }
  }

  lemma Times(m: nat, a: nat, b: nat)
    requires a <= b
    ensures m * a <= m * b
  {
  }
}
