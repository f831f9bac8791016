// The bit builder (longbits/bit_builder.go): full bytes, and a 16-bit
// accumulator with a sentinel bit above the bits collected so far.
module BitBuilders {
  import opened Words
  import opened BitStrings

  type uint16 = x: int | 0 <= x < 0x1_0000

  datatype BitBuilder = BitBuilder(bytes: seq<byte>, accumulator: uint16)

  const ACC_INIT := 0x80
  const ZERO := BitBuilder([], 0)

  // ----- Meaning

  // How many bits the accumulator holds: how far the sentinel has moved.
  function Held(acc: nat): nat {
    if acc <= ACC_INIT then 0 else 1 + Held(acc / 2)
  }

  // The n low bits of x, most significant first.
  function Msb(x: nat, n: nat): (s: seq<bool>)
    ensures |s| == n
  {
    if n == 0 then [] else Msb(x / 2, n - 1) + [x % 2 == 1]
  }

  function ByteBits(bytes: seq<byte>): (s: seq<bool>)
    ensures |s| == 8 * |bytes|
  {
    if bytes == [] then [] else ByteBits(bytes[..|bytes| - 1]) + Msb(bytes[|bytes| - 1], 8)
  }

  // The bit sequence a builder stands for.
  function Bits(p: BitBuilder): seq<bool> {
    ByteBits(p.bytes) + Msb(p.accumulator, Held(p.accumulator))
  }

  // At most seven bits are held, and the top bit is the sentinel.
  predicate ValidAcc(acc: nat, k: nat) {
    if k == 0 then acc == ACC_INIT else ValidAcc(acc / 2, k - 1)
  }

  predicate Valid(p: BitBuilder) {
    p == ZERO || (Held(p.accumulator) < 8 && ValidAcc(p.accumulator, Held(p.accumulator)))
  }

  function Repeat<T>(x: T, n: nat): (s: seq<T>)
    ensures |s| == n
  {
    if n == 0 then [] else Repeat(x, n - 1) + [x]
  }

  // bits.LeadingZeros8
  function LeadingZeros8(x: nat): nat {
    if x >= 128 then 0 else if x >= 64 then 1 else if x >= 32 then 2 else if x >= 16 then 3
    else if x >= 8 then 4 else if x >= 4 then 5 else if x >= 2 then 6 else if x >= 1 then 7 else 8
  }

  // x << n, before any truncation.
  function ShiftLeft(x: nat, n: nat): nat {
    if n == 0 then x else 2 * ShiftLeft(x, n - 1)
  }

  // ----- The accumulator

  lemma {:induction false} AccRange(acc: nat, k: nat)
    requires ValidAcc(acc, k)
    ensures ShiftLeft(ACC_INIT, k) <= acc < ShiftLeft(ACC_INIT, k) + ShiftLeft(1, k)
    ensures ACC_INIT <= acc && Held(acc) == k
  {
    if k == 0 {
    } else {
      AccRange(acc / 2, k - 1);
    }
  }

  lemma SmallShifts(k: nat)
    requires k <= 8
    ensures ShiftLeft(1, k) == [1, 2, 4, 8, 16, 32, 64, 128, 256][k]
    ensures ShiftLeft(ACC_INIT, k) == 128 * [1, 2, 4, 8, 16, 32, 64, 128, 256][k]
  {
    if k > 0 { SmallShifts(k - 1); }
  }

  lemma LeadingZerosOfAcc(acc: nat, k: nat)
    requires ValidAcc(acc, k) && k < 8
    ensures LeadingZeros8(acc / 256 % 256) == 8 - k
    ensures ACC_INIT <= acc < 0x8000 && (acc == ACC_INIT <==> k == 0)
  {
    hide ValidAcc, Held, ShiftLeft;
    AccRange(acc, k);
    SmallShifts(k);
  }

  // acc << j, with the bits of v (below 2^j) put in.
  lemma {:induction false} ShiftIn(acc: nat, k: nat, j: nat, v: nat)
    requires ValidAcc(acc, k) && v < ShiftLeft(1, j)
    ensures ValidAcc(ShiftLeft(acc, j) + v, k + j)
    ensures Msb(ShiftLeft(acc, j) + v, k + j) == Msb(acc, k) + Msb(v, j)
  {
    if j == 0 {
    } else {
      var x := ShiftLeft(acc, j) + v;
      assert x / 2 == ShiftLeft(acc, j - 1) + v / 2 && x % 2 == v % 2;
      ShiftIn(acc, k, j - 1, v / 2);
    }
  }

  // byte(x) keeps the low eight bits.
  lemma LowByte(x: nat)
    ensures Msb(x % 256, 8) == Msb(x, 8)
  {
    SmallShifts(8);
    ShiftLeftScales(x / 256, 8);
    HighPartIgnored(x % 256, x / 256, 8);
  }

  lemma {:induction false} ShiftLeftScales(q: nat, n: nat)
    ensures ShiftLeft(q, n) == q * ShiftLeft(1, n)
  {
    if n == 0 {
    } else {
      ShiftLeftScales(q, n - 1);
    }
  }

  lemma {:induction false} HighPartIgnored(y: nat, q: nat, n: nat)
    ensures Msb(ShiftLeft(q, n) + y, n) == Msb(y, n)
  {
    if n == 0 {
    } else {
      assert (ShiftLeft(q, n) + y) / 2 == ShiftLeft(q, n - 1) + y / 2;
      HighPartIgnored(y / 2, q, n - 1);
    }
  }

  lemma ByteBitsPush(bytes: seq<byte>, b: byte)
    ensures ByteBits(bytes + [b]) == ByteBits(bytes) + Msb(b, 8)
  {
    assert (bytes + [b])[..|bytes|] == bytes;
  }

  // The eighth bit is in: the accumulator has reached 0x8000 and its low byte
  // moves to the slice.
  lemma PushByte(bytes: seq<byte>, acc: nat)
    requires ValidAcc(acc, 8)
    ensures ByteBits(bytes + [acc % 256]) == ByteBits(bytes) + Msb(acc, 8)
    ensures 0x8000 <= acc < 0x8100
  {
    AccRange(acc, 8);
    SmallShifts(8);
    LowByte(acc);
    ByteBitsPush(bytes, acc % 256);
  }

  // ----- Operations

  method Ensure(p: BitBuilder) returns (acc: uint16)
    requires Valid(p)
    ensures ValidAcc(acc, Held(acc)) && Held(acc) < 8
    ensures Valid(p.(accumulator := acc)) && Bits(p.(accumulator := acc)) == Bits(p)
    ensures acc == if p == ZERO then ACC_INIT else p.accumulator
  {
    acc := p.accumulator;
    if acc == 0 {
      acc := ACC_INIT;
    }
  }

  method Len(p: BitBuilder) returns (n: int)
    requires Valid(p)
    ensures n == |Bits(p)|
  {
    if p != ZERO {
      LeadingZerosOfAcc(p.accumulator, Held(p.accumulator));
    }
    n := (1 + |p.bytes|) * 8 - LeadingZeros8(p.accumulator / 256 % 256);
  }

  method Append(p: BitBuilder, bit: bool) returns (q: BitBuilder)
    requires Valid(p)
    ensures Valid(q) && q != ZERO && Bits(q) == Bits(p) + [bit]
  {
    hide Held, ValidAcc, Msb, ByteBits;
    var acc0 := Ensure(p);
    ghost var k := Held(acc0);
    LeadingZerosOfAcc(acc0, k);
    OneBit(acc0, k, bit);
    var bytes, acc: nat := p.bytes, 2 * acc0;
    if bit {
      acc := acc + 1;   // |= 1: the low bit was just shifted in as zero
    }
    AccRange(acc, k + 1);
    if k == 7 { PushByte(bytes, acc); } else { LeadingZerosOfAcc(acc, k + 1); }
    if acc >= 0x8000 {
      bytes := bytes + [acc % 256];
      acc := ACC_INIT;
      NoBits();
    }
    q := BitBuilder(bytes, acc);
  }

  lemma OneBit(acc: nat, k: nat, bit: bool)
    requires ValidAcc(acc, k)
    ensures ValidAcc(2 * acc + (if bit then 1 else 0), k + 1)
    ensures Msb(2 * acc + (if bit then 1 else 0), k + 1) == Msb(acc, k) + [bit]
  {
  }

  lemma NoBits()
    ensures Held(ACC_INIT) == 0 && ValidAcc(ACC_INIT, 0) && Msb(ACC_INIT, 0) == []
  {
  }

  // bitCount appends at once do what they say exactly when the builder is at a
  // byte boundary, the bits fill the current byte exactly, or there are none.
  predicate ExactFit(p: BitBuilder, n: nat) {
    n == 0 || Held(p.accumulator) == 0 || Held(p.accumulator) + n == 8
  }

  // j copies of the bit as a number, and what the original or-s in for ones.
  function Fill(bit: bool, j: nat): (v: nat)
    ensures v < ShiftLeft(1, j)
  {
    if j == 0 then 0 else 2 * Fill(bit, j - 1) + (if bit then 1 else 0)
  }

  lemma RepeatLast<T>(x: T, n: nat)
    requires n > 0
    ensures Repeat(x, n) == Repeat(x, n - 1) + [x]
  {
  }

  lemma {:induction false} FillBits(bit: bool, j: nat)
    ensures Msb(Fill(bit, j), j) == Repeat(bit, j)
    ensures Fill(false, j) == 0
  {
    if j == 0 {
    } else {
      FillBits(bit, j - 1);
      FillBits(false, j - 1);
      RepeatLast(bit, j);
      assert Fill(bit, j) / 2 == Fill(bit, j - 1) && (Fill(bit, j) % 2 == 1 <==> bit);
    }
  }

  lemma OnesByShift(j: nat)
    requires j <= 8
    ensures ShiftRight(0xFF, 8 - j) == Fill(true, j)
  {
    assert Fill(true, 4) == 15 && Fill(true, 8) == 255;
    assert ShiftRight(0xFF, 4) == 15;
    if j > 4 {
      assert ShiftRight(0xFF, 8 - j) == Fill(true, j);
    } else {
      ShiftRightTwice(0xFF, 4, 4 - j);
    }
  }

  lemma {:induction false} ShiftRightTwice(x: nat, a: nat, b: nat)
    ensures ShiftRight(x, a + b) == ShiftRight(ShiftRight(x, a), b)
  {
    if a == 0 {
    } else {
      ShiftRightTwice(x / 2, a - 1, b);
    }
  }

  lemma {:induction false} RepeatConcat(bit: bool, a: nat, b: nat)
    ensures Repeat(bit, a) + Repeat(bit, b) == Repeat(bit, a + b)
  {
    if b == 0 {
    } else {
      RepeatConcat(bit, a, b - 1);
      assert Repeat(bit, a) + Repeat(bit, b) == (Repeat(bit, a) + Repeat(bit, b - 1)) + [bit];
    }
  }

  function FullByte(bit: bool): byte {
    if bit then 0xFF else 0
  }

  lemma NoBytes(bytes: seq<byte>)
    ensures bytes + Repeat<byte>(0, 0) == bytes && bytes + Repeat<byte>(0xFF, 0) == bytes
  {
  }

  lemma {:induction false} FillBytes(bytes: seq<byte>, m: nat, bit: bool)
    ensures ByteBits(bytes + Repeat<byte>(FullByte(bit), m)) == ByteBits(bytes) + Repeat(bit, 8 * m)
  {
    hide ByteBits, Repeat, Msb;
    var fill := FullByte(bit);
    if m == 0 {
      assert bytes + Repeat<byte>(fill, m) == bytes;
      NoRepeat(bit);
    } else {
      var front := bytes + Repeat<byte>(fill, m - 1);
      RepeatLast<byte>(fill, m);
      assert bytes + Repeat<byte>(fill, m) == front + [fill];
      FillBytes(bytes, m - 1, bit);
      ByteBitsPush(front, fill);
      FullByteBits(bit);
      RepeatConcat(bit, 8 * (m - 1), 8);
    }
  }

  lemma NoRepeat(bit: bool)
    ensures Repeat(bit, 0) == []
  {
  }

  lemma FullByteBits(bit: bool)
    ensures Msb(FullByte(bit), 8) == Repeat(bit, 8)
  {
    FillBits(bit, 8);
    assert Fill(true, 4) == 15;
  }

  // The current byte is filled up.
  lemma FillUp(bytes: seq<byte>, acc: nat, k: nat, bit: bool)
    requires ValidAcc(acc, k) && k < 8
    ensures ShiftLeft(acc, 8 - k) + Fill(bit, 8 - k) < 0x1_0000
    ensures ByteBits(bytes + [(ShiftLeft(acc, 8 - k) + Fill(bit, 8 - k)) % 256])
         == ByteBits(bytes) + Msb(acc, k) + Repeat(bit, 8 - k)
  {
    hide ValidAcc, Held, ShiftLeft, Msb, ByteBits, Fill;
    ShiftIn(acc, k, 8 - k, Fill(bit, 8 - k));
    FillBits(bit, 8 - k);
    PushByte(bytes, ShiftLeft(acc, 8 - k) + Fill(bit, 8 - k));
  }

  // From a byte boundary: whole bytes, then the rest into a fresh accumulator.
  lemma FromBoundary(bytes: seq<byte>, n: nat, bit: bool)
    ensures ShiftLeft(ACC_INIT, n % 8) + Fill(bit, n % 8) < 0x1_0000
    ensures var acc := ShiftLeft(ACC_INIT, n % 8) + Fill(bit, n % 8);
            var q := BitBuilder(bytes + Repeat<byte>(FullByte(bit), n / 8), acc);
            Valid(q) && Bits(q) == ByteBits(bytes) + Repeat(bit, n)
  {
    hide ByteBits, Repeat, Msb, ValidAcc, Held, ShiftLeft, Fill;
    var j := n % 8;
    var acc := ShiftLeft(ACC_INIT, j) + Fill(bit, j);
    NoBits();
    ShiftIn(ACC_INIT, 0, j, Fill(bit, j));
    LeadingZerosOfAcc(acc, j);
    AccRange(acc, j);
    FillBits(bit, j);
    var q := BitBuilder(bytes + Repeat<byte>(FullByte(bit), n / 8), acc);
    assert Held(acc) == j && Msb(acc, j) == Repeat(bit, j);
    assert Bits(q) == ByteBits(bytes) + Repeat(bit, n) by {
      FillBytes(bytes, n / 8, bit);
      Split(bit, n);
      assert Bits(q) == ByteBits(q.bytes) + Repeat(bit, j);
      Assoc(ByteBits(bytes), Repeat(bit, 8 * (n / 8)), Repeat(bit, j));
    }
  }

  lemma Split(bit: bool, n: nat)
    ensures Repeat(bit, 8 * (n / 8)) + Repeat(bit, n % 8) == Repeat(bit, n)
  {
    RepeatConcat(bit, 8 * (n / 8), n % 8);
  }

  lemma Assoc(a: seq<bool>, b: seq<bool>, c: seq<bool>)
    ensures a + b + c == a + (b + c)
  {
  }

  // A result with too few or too many bits is no correct one.
  lemma WrongLength(p: BitBuilder, q: BitBuilder, n: nat, bit: bool)
    requires Valid(p) && p != ZERO
    requires (q.bytes == p.bytes && Held(p.accumulator) + n > 8)
          || (|q.bytes| > |p.bytes| && Held(p.accumulator) + n < 8)
    ensures !(Valid(q) && Bits(q) == Bits(p) + Repeat(bit, n))
  {
  }

  method AppendN(p: BitBuilder, bitCount: nat, bit: bool) returns (q: BitBuilder)
    requires Valid(p)
    ensures ExactFit(p, bitCount) <==> (Valid(q) && Bits(q) == Bits(p) + Repeat(bit, bitCount))
  {
    hide ValidAcc, Msb, ByteBits;
    var acc := Ensure(p);
    NoBits();
    if bitCount == 0 {
      assert Bits(p) + Repeat(bit, 0) == Bits(p);
      return p.(accumulator := acc);
    }
    if bit {
      q := AppendN1(p.(accumulator := acc), bitCount);
    } else {
      q := AppendN0(p.(accumulator := acc), bitCount);
    }
  }

  // One bit, then three more at once: not four bits.
  method InexactExample() returns (q: BitBuilder)
    ensures !(Valid(q) && Bits(q) == [true] + Repeat(true, 3))
  {
    var p := Append(ZERO, true);
    EmptyBuilder();
    assert |Bits(p)| == 1;
    q := AppendN(p, 3, true);
  }

  method AppendN0(p: BitBuilder, n: nat) returns (q: BitBuilder)
    requires Valid(p) && p.accumulator != 0 && n > 0
    ensures ExactFit(p, n) <==> (Valid(q) && Bits(q) == Bits(p) + Repeat(false, n))
  {
    hide ValidAcc, Msb, ByteBits, Held, Fill, ShiftLeft, Repeat;
    var bytes, acc: nat, bitCount: int := p.bytes, p.accumulator, n;
    ghost var k := Held(acc);
    NoBits();
    LeadingZerosOfAcc(acc, k);
    FillBits(false, 8 - k);
    if acc != ACC_INIT {
      var alignCount := LeadingZeros8(acc / 256 % 256);
      if alignCount < bitCount {
        q := BitBuilder(bytes, ShiftLeft(acc, bitCount % 256) % 0x1_0000);
        WrongLength(p, q, n, false);
        return;
      }
      FillUp(bytes, acc, k, false);
      bitCount := bitCount - alignCount;
      acc := ShiftLeft(acc, alignCount);
      bytes := bytes + [acc % 256];
      acc := ACC_INIT;
    }
    if bitCount == 0 {
      return BitBuilder(bytes, acc);
    }
    var alignCount := bitCount % 8;   // uint8(bitCount) & 7, also of a negative count
    if bitCount >= 0 { FromBoundary(bytes, bitCount, false); }
    FillBits(false, alignCount);
    bitCount := bitCount / 8;
    NoBytes(bytes);
    if bitCount > 0 {
      bytes := bytes + Repeat<byte>(0, bitCount);
    }
    SmallShifts(alignCount);
    q := BitBuilder(bytes, ShiftLeft(acc, alignCount));
    if k > 0 { WrongLength(p, q, n, false); }
  }

  method AppendN1(p: BitBuilder, n: nat) returns (q: BitBuilder)
    requires Valid(p) && p.accumulator != 0 && n > 0
    ensures ExactFit(p, n) <==> (Valid(q) && Bits(q) == Bits(p) + Repeat(true, n))
  {
    hide ValidAcc, Msb, ByteBits, Held, Fill, ShiftLeft, ShiftRight, Repeat;
    var bytes, acc: nat, bitCount: int := p.bytes, p.accumulator, n;
    ghost var k := Held(acc);
    NoBits();
    LeadingZerosOfAcc(acc, k);
    if acc != ACC_INIT {
      var alignCount := LeadingZeros8(acc / 256 % 256);
      if alignCount < bitCount {
        var ones := ShiftRight(0xFF, (8 - bitCount) % 256);
        q := BitBuilder(bytes, (ShiftLeft(acc, bitCount % 256) + ones) % 0x1_0000);
        WrongLength(p, q, n, true);
        return;
      }
      FillUp(bytes, acc, k, true);
      OnesByShift(alignCount);
      bitCount := bitCount - alignCount;
      acc := ShiftLeft(acc, alignCount) + ShiftRight(0xFF, 8 - alignCount);
      bytes := bytes + [acc % 256];
      acc := ACC_INIT;
    }
    if bitCount == 0 {
      return BitBuilder(bytes, acc);
    }
    var alignCount := bitCount % 8;
    if bitCount >= 0 { FromBoundary(bytes, bitCount, true); }
    bitCount := bitCount / 8;
    NoBytes(bytes);
    if bitCount > 0 {
      bytes := AppendOnes(bytes, bitCount);
    }
    OnesByShift(alignCount);
    SmallShifts(alignCount);
    q := BitBuilder(bytes, ShiftLeft(acc, alignCount) + ShiftRight(0xFF, 8 - alignCount));
    if k > 0 { WrongLength(p, q, n, true); }
  }

  // make([]byte, m) appended and then overwritten in a loop.
  method AppendOnes(bytes0: seq<byte>, m: nat) returns (bytes: seq<byte>)
    ensures bytes == bytes0 + Repeat<byte>(0xFF, m)
  {
    bytes := bytes0 + Repeat<byte>(0, m);
    var i := |bytes0|;
    while i < |bytes|
      invariant |bytes0| <= i <= |bytes| == |bytes0| + m
      invariant bytes[..i] == bytes0 + Repeat<byte>(0xFF, i - |bytes0|)
    {
      assert bytes[i := 0xFF][..i + 1] == bytes[..i] + [0xFF];
      bytes := bytes[i := 0xFF];
      i := i + 1;
    }
  }

  // ----- Taking the bits out again

  method Done(p: BitBuilder) returns (bytes: seq<byte>, n: nat)
    requires Valid(p)
    ensures n == |Bits(p)| && n <= 8 * |bytes| && Unpack(bytes, n) == Bits(p)
    ensures |bytes| == (n + 7) / 8
  {
    hide ValidAcc, Msb;
    bytes := p.bytes;
    if p.accumulator <= ACC_INIT {
      NoBits();
      if p != ZERO { LeadingZerosOfAcc(p.accumulator, Held(p.accumulator)); }
      UnpackWhole(bytes);
      return bytes, 8 * |bytes|;
    }
    ghost var k := Held(p.accumulator);
    LeadingZerosOfAcc(p.accumulator, k);
    bytes := bytes + [p.accumulator % 256];
    n := 8 * |bytes| - LeadingZeros8(p.accumulator / 256 % 256);
    LowPart(p.accumulator, k);
    assert bytes[..|bytes| - 1] == p.bytes;
  }

  // The reader's view: n / 8 full bytes, most significant bit first, and n % 8
  // bits at the right end of the byte after them.
  function Unpack(bytes: seq<byte>, n: nat): seq<bool>
    requires n <= 8 * |bytes|
  {
    if n % 8 == 0 then ByteBits(bytes[..n / 8]) else ByteBits(bytes[..n / 8]) + Msb(bytes[n / 8], n % 8)
  }

  lemma UnpackWhole(bytes: seq<byte>)
    ensures Unpack(bytes, 8 * |bytes|) == ByteBits(bytes)
  {
    assert bytes[..|bytes|] == bytes;
  }

  // The low byte of the accumulator ends in the bits it holds.
  lemma LowPart(acc: nat, k: nat)
    requires k <= 8
    ensures Msb(acc % 256, k) == Msb(acc, k)
  {
    SmallShifts(8 - k);
    SmallShifts(8);
    SmallShifts(k);
    var q := acc / 256;
    ShiftLeftScales(q * ShiftLeft(1, 8 - k), k);
    assert acc == q * 256 + acc % 256;
    assert ShiftLeft(q * ShiftLeft(1, 8 - k), k) == q * 256;
    HighPartIgnored(acc % 256, q * ShiftLeft(1, 8 - k), k);
  }

  // A whole life of a builder: append bit by bit, then take the bytes.
  method BuildAndUnpack(bits: seq<bool>) returns (bytes: seq<byte>, n: nat)
    ensures n == |bits| && n <= 8 * |bytes| && Unpack(bytes, n) == bits
    ensures |bytes| == (|bits| + 7) / 8
  {
    hide Held, ValidAcc, Msb;
    var p := ZERO;
    var i := 0;
    EmptyBuilder();
    while i < |bits|
      invariant 0 <= i <= |bits| && Valid(p)
      invariant Bits(p) == bits[..i]
    {
      p := Append(p, bits[i]);
      i := i + 1;
    }
    bytes, n := Done(p);
  }

  lemma EmptyBuilder()
    ensures Bits(ZERO) == []
  {
  }

  // ----- Where the bits are

  lemma {:induction false} MsbBit(x: nat, n: nat, k: nat)
    requires k < n
    ensures Msb(x, n)[k] <==> x / Pow2(n - 1 - k) % 2 == 1
  {
    if k == n - 1 {
      assert Pow2(0) == 1;
    } else {
      MsbBit(x / 2, n - 1, k);
      Halve(x, Pow2(n - 2 - k));
    }
  }

  lemma {:induction false} ByteBit(bytes: seq<byte>, i: nat)
    requires i < 8 * |bytes|
    ensures ByteBits(bytes)[i] <==> bytes[i / 8] / Pow2(7 - i % 8) % 2 == 1
  {
    hide Msb, Pow2;
    var last := |bytes| - 1;
    if i / 8 == last {
      MsbBit(bytes[last], 8, i % 8);
    } else {
      ByteBit(bytes[..last], i);
    }
  }

  // Full bytes are filled from the top bit down; what a last partial byte holds
  // is right-aligned.
  lemma UnpackedBit(bytes: seq<byte>, n: nat, i: nat)
    requires i < n <= 8 * |bytes|
    ensures Unpack(bytes, n)[i] <==>
              bytes[i / 8] / Pow2(if i / 8 < n / 8 then 7 - i % 8 else n % 8 - 1 - i % 8) % 2 == 1
  {
    hide Msb, Pow2, ByteBits;
    if i / 8 < n / 8 {
      ByteBit(bytes[..n / 8], i);
    } else {
      MsbBit(bytes[n / 8], n % 8, i % 8);
    }
  }
}
