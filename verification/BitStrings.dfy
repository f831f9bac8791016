// Bit-level containers (longbits/byte_string.go, longbits/bit_builder.go).
module BitStrings {
  import opened Words

  // Bit k of a number, counted from the least significant one.
  predicate Bit(x: nat, k: nat) {
    if k == 0 then x % 2 == 1 else Bit(x / 2, k - 1)
  }

  // x >> n on an unsigned number.
  function ShiftRight(x: nat, n: nat): nat {
    if n == 0 then x else ShiftRight(x / 2, n - 1)
  }

  // bits.TrailingZeros8 of a number that is not zero.
  function TrailingZeros(x: nat): nat
    requires x > 0
  {
    if x % 2 == 1 then 0 else 1 + TrailingZeros(x / 2)
  }

  lemma {:induction false} ShiftedBit(x: nat, n: nat, k: nat)
    ensures Bit(ShiftRight(x, n), k) == Bit(x, n + k)
  {
    if n == 0 {
    } else {
      ShiftedBit(x / 2, n - 1, k);
    }
  }

  lemma {:induction false} ZeroBits(k: nat)
    ensures !Bit(0, k)
  {
    if k == 0 {
    } else {
      ZeroBits(k - 1);
    }
  }

  // Everything below 2^n is zero from bit n on.
  lemma {:induction false} HighBits(x: nat, n: nat, k: nat)
    requires x < Pow2(n) && k >= n
    ensures !Bit(x, k)
  {
    if n == 0 { ZeroBits(k); } else { HighBits(x / 2, n - 1, k - 1); }
  }

  lemma {:induction false} TrailingZerosFound(x: nat)
    requires x > 0
    ensures Bit(x, TrailingZeros(x))
    ensures forall k :: 0 <= k < TrailingZeros(x) ==> !Bit(x, k)
  {
    if x % 2 == 0 {
      TrailingZerosFound(x / 2);
      forall k | 0 <= k < TrailingZeros(x) ensures !Bit(x, k) {
        if k > 0 { assert Bit(x, k) == Bit(x / 2, k - 1); }
      }
    }
  }

  // ^b on a byte flips each of its eight bits.
  lemma {:induction false} ComplementBit(x: nat, n: nat, k: nat)
    requires x < Pow2(n) && k < n
    ensures Bit(Pow2(n) - 1 - x, k) == !Bit(x, k)
  {
    if k == 0 {
    } else {
      assert (Pow2(n) - 1 - x) / 2 == Pow2(n - 1) - 1 - x / 2;
      ComplementBit(x / 2, n - 1, k - 1);
    }
  }

  lemma EightBits()
    ensures Pow2(8) == 256
  {
    assert Pow2(4) == 16;
  }

  // ----- Searching

  function BitPos(index: nat): (nat, nat) {
    (index / 8, index % 8)
  }

  predicate BitBool(v: seq<byte>, index: nat)
    requires index < 8 * |v|
  {
    Bit(v[BitPos(index).0], BitPos(index).1)
  }

  lemma {:induction false} BitIsMask(x: nat, k: nat)
    ensures Bit(x, k) <==> x / Pow2(k) % 2 == 1
  {
    if k == 0 {
    } else {
      BitIsMask(x / 2, k - 1);
      Halve(x, Pow2(k - 1));
    }
  }

  // Index i is bit i % 8 of byte i / 8, counted from the least significant one.
  lemma BitOfByte(v: seq<byte>, i: nat)
    requires i < 8 * |v|
    ensures BitBool(v, i) <==> v[i / 8] / Pow2(i % 8) % 2 == 1
  {
    BitIsMask(v[i / 8], i % 8);
  }

  // The linear scan: the least index from i on whose bit is the wanted one.
  function Scan(v: seq<byte>, i: nat, bit: bool): (r: int)
    ensures r == -1 || i <= r < 8 * |v|
    ensures r != -1 ==> BitBool(v, r) == bit
    ensures forall j :: i <= j < (if r == -1 then 8 * |v| else r) ==> BitBool(v, j) != bit
    decreases 8 * |v| - i
  {
    if i >= 8 * |v| then -1
    else if BitBool(v, i) == bit then i
    else Scan(v, i + 1, bit)
  }

  lemma {:induction false} ScanSkips(v: seq<byte>, i: nat, j: nat, bit: bool)
    requires i <= j <= 8 * |v|
    requires forall k :: i <= k < j ==> BitBool(v, k) != bit
    ensures Scan(v, i, bit) == Scan(v, j, bit)
    decreases j - i
  {
    if i == j {
    } else {
      ScanSkips(v, i + 1, j, bit);
    }
  }

  // What a byte, complemented for a search of zeros and shifted right, says
  // about the bits of the string from index 8 * pos + shift on.
  function Probe(b: byte, bit: bool): byte {
    if bit then b else 255 - b
  }

  lemma ProbeBit(v: seq<byte>, pos: nat, shift: nat, k: nat, bit: bool)
    requires pos < |v| && shift + k < 8
    ensures Bit(ShiftRight(Probe(v[pos], bit), shift), k) <==> BitBool(v, 8 * pos + shift + k) == bit
  {
    hide Bit, ShiftRight, Pow2;
    EightBits();
    ShiftedBit(Probe(v[pos], bit), shift, k);
    if !bit { ComplementBit(v[pos], 8, shift + k); }
    assert BitPos(8 * pos + shift + k) == (pos, shift + k);
  }

  lemma ProbeMiss(v: seq<byte>, pos: nat, shift: nat, bit: bool)
    requires pos < |v| && shift < 8 && ShiftRight(Probe(v[pos], bit), shift) == 0
    ensures Scan(v, 8 * pos + shift, bit) == Scan(v, 8 * pos + 8, bit)
  {
    hide Scan, BitBool, Bit;
    forall i | 8 * pos + shift <= i < 8 * pos + 8 ensures BitBool(v, i) != bit {
      ProbeBit(v, pos, shift, i - 8 * pos - shift, bit);
      ZeroBits(i - 8 * pos - shift);
    }
    ScanSkips(v, 8 * pos + shift, 8 * pos + 8, bit);
  }

  lemma ProbeHit(v: seq<byte>, pos: nat, shift: nat, bit: bool)
    requires pos < |v| && shift < 8 && ShiftRight(Probe(v[pos], bit), shift) > 0
    ensures Scan(v, 8 * pos + shift, bit) == 8 * pos + shift + TrailingZeros(ShiftRight(Probe(v[pos], bit), shift))
  {
    hide BitBool, Bit;
    var x := ShiftRight(Probe(v[pos], bit), shift);
    var t := TrailingZeros(x);
    TrailingZerosFound(x);
    EightBits();
    ShiftedBit(Probe(v[pos], bit), shift, t);
    if shift + t >= 8 {
      HighBits(Probe(v[pos], bit), 8, shift + t);
      assert false;
    }
    forall i | 8 * pos + shift <= i < 8 * pos + shift + t ensures BitBool(v, i) != bit {
      ProbeBit(v, pos, shift, i - 8 * pos - shift, bit);
    }
    ScanSkips(v, 8 * pos + shift, 8 * pos + shift + t, bit);
    ProbeBit(v, pos, shift, t, bit);
  }

  // The original panics on a negative start.
  method SearchBit(v: seq<byte>, startAt: nat, bit: bool) returns (r: int)
    ensures r == Scan(v, startAt, bit)
  {
    if startAt / 8 >= |v| {
      return -1;
    }
    if bit {
      r := SearchBit1(v, startAt);
    } else {
      r := SearchBit0(v, startAt);
    }
  }

  method SearchBit1(v: seq<byte>, startAt: nat) returns (r: int)
    requires startAt / 8 < |v|
    ensures r == Scan(v, startAt, true)
  {
    hide Scan, BitBool;
    var bytePos, bitPos := startAt / 8, startAt % 8;
    var b := ShiftRight(v[bytePos], bitPos);
    if b != 0 {
      ProbeHit(v, bytePos, bitPos, true);
      return 8 * bytePos + bitPos + TrailingZeros(b);
    }
    ProbeMiss(v, bytePos, bitPos, true);
    bytePos := bytePos + 1;
    while bytePos < |v|
      invariant bytePos <= |v|
      invariant Scan(v, startAt, true) == Scan(v, 8 * bytePos, true)
    {
      if v[bytePos] != 0 {
        ProbeHit(v, bytePos, 0, true);
        return 8 * bytePos + TrailingZeros(v[bytePos]);
      }
      ProbeMiss(v, bytePos, 0, true);
      bytePos := bytePos + 1;
    }
    return -1;
  }

  method SearchBit0(v: seq<byte>, startAt: nat) returns (r: int)
    requires startAt / 8 < |v|
    ensures r == Scan(v, startAt, false)
  {
    hide Scan, BitBool;
    var bytePos, bitPos := startAt / 8, startAt % 8;
    var b := ShiftRight(255 - v[bytePos] as int, bitPos);
    if b != 0 {
      ProbeHit(v, bytePos, bitPos, false);
      return 8 * bytePos + bitPos + TrailingZeros(b);
    }
    ProbeMiss(v, bytePos, bitPos, false);
    bytePos := bytePos + 1;
    while bytePos < |v|
      invariant bytePos <= |v|
      invariant Scan(v, startAt, false) == Scan(v, 8 * bytePos, false)
    {
      if v[bytePos] != 0xFF {
        ProbeHit(v, bytePos, 0, false);
        return 8 * bytePos + TrailingZeros(255 - v[bytePos] as int);
      }
      ProbeMiss(v, bytePos, 0, false);
      bytePos := bytePos + 1;
    }
    return -1;
  }
}
