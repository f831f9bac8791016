// Base 128 varints (Protocol Buffers Encoding specification, section "Base 128
// Varints"): the printer encodeVarintNode, its length sovNode, and the parser
// that insolar/node.pb.go repeats in front of every field.
module Varint {
  import opened Words

  datatype Error =
    | IntOverflow        // ErrIntOverflowNode
    | UnexpectedEOF      // io.ErrUnexpectedEOF
    | InvalidLength      // ErrInvalidLengthNode
    | EndGroup           // "wiretype end group for non-group"
    | IllegalTag
    | WrongWireType
    | IllegalWireType
    | ShortReference     // "not enough bytes to unmarshal reference.Global"

  // A parsed number with the count of bytes it took. The value is the plain sum
  // of the 7-bit groups; each caller truncates it to the width of its variable.
  datatype Parsed = Parsed(value: nat, size: nat) | Failed(error: Error)

  const MAX_GROUPS := 10

  // The canonical encoding: low groups first, high bit set on all but the last.
  function Encode(v: nat): (b: seq<byte>)
    ensures |b| >= 1
  {
    if v < 128 then [v] else [v % 128 + 128] + Encode(v / 128)
  }

  // The parser, with k groups (shift == 7 * k) already consumed.
  function ParseFrom(d: seq<byte>, k: nat): (p: Parsed)
    requires k <= MAX_GROUPS
    ensures p.Parsed? ==> 1 <= p.size <= |d| && p.size <= MAX_GROUPS - k
    decreases MAX_GROUPS - k
  {
    if k == MAX_GROUPS then Failed(IntOverflow)
    else if d == [] then Failed(UnexpectedEOF)
    else if d[0] < 128 then Parsed(d[0], 1)
    else match ParseFrom(d[1..], k + 1)
      case Failed(e) => Failed(e)
      case Parsed(v, n) => Parsed(d[0] % 128 + 128 * v, n + 1)
  }

  function Parse(d: seq<byte>): (p: Parsed)
    ensures p.Parsed? ==> 1 <= p.size <= |d| && p.size <= MAX_GROUPS
  {
    ParseFrom(d, 0)
  }

  function Pow128(k: nat): (p: nat)
    ensures p > 0
  {
    if k == 0 then 1 else 128 * Pow128(k - 1)
  }

  // ----- Properties of the two functions

  // Bytes after a complete varint are not looked at.
  lemma {:induction false} ParseFromStable(d: seq<byte>, x: seq<byte>, k: nat)
    requires k <= MAX_GROUPS && ParseFrom(d, k).Parsed?
    ensures ParseFrom(d + x, k) == ParseFrom(d, k)
    decreases MAX_GROUPS - k
  {
    assert (d + x)[0] == d[0];
    assert (d + x)[1..] == d[1..] + x;
    if d[0] >= 128 {
      ParseFromStable(d[1..], x, k + 1);
    }
  }

  lemma ParseStable(d: seq<byte>, x: seq<byte>)
    requires Parse(d).Parsed?
    ensures Parse(d + x) == Parse(d)
  {
    ParseFromStable(d, x, 0);
  }

  lemma {:induction false} RoundTripFrom(v: nat, rest: seq<byte>, k: nat)
    requires k < MAX_GROUPS && v < Pow128(MAX_GROUPS - k)
    ensures ParseFrom(Encode(v) + rest, k) == Parsed(v, |Encode(v)|)
    decreases MAX_GROUPS - k
  {
    var d := Encode(v) + rest;
    if v < 128 {
      assert d[0] == v;
    } else {
      assert d[0] == v % 128 + 128;
      assert d[1..] == Encode(v / 128) + rest;
      if k + 1 == MAX_GROUPS {
        assert false;
      } else {
        RoundTripFrom(v / 128, rest, k + 1);
      }
    }
  }

  // Every 64-bit number survives printing and parsing, whatever follows it.
  lemma RoundTrip(v: uint64, rest: seq<byte>)
    ensures Parse(Encode(v) + rest) == Parsed(v, |Encode(v)|)
    ensures |Encode(v)| <= MAX_GROUPS
  {
    Pow128Ten();
    RoundTripFrom(v, rest, 0);
  }

  lemma Pow128Ten()
    ensures Pow128(MAX_GROUPS) == 0x40_0000_0000_0000_0000
  {
    assert Pow128(2) == 0x4000;
    assert Pow128(4) == 0x1000_0000;
    assert Pow128(6) == 0x400_0000_0000;
    assert Pow128(8) == 0x100_0000_0000_0000;
  }

  // A negative int32 is printed as its 64-bit sign extension: always ten bytes.
  lemma NegativeInt32(p: int32)
    requires p < 0
    ensures |Encode(ToUint64(p))| == 10
  {
    var v := ToUint64(p);
    assert v == TWO_64 + p;
    EncodedLength(v, 9);
    Pow128Nine();
    RoundTrip(v, []);
  }

  lemma Pow128Nine()
    ensures Pow128(9) == 0x8000_0000_0000_0000
  {
    Pow128Ten();
  }

  lemma {:induction false} EncodedLength(v: nat, k: nat)
    ensures v >= Pow128(k) ==> |Encode(v)| > k
  {
    if k > 0 && v >= Pow128(k) {
      EncodedLength(v / 128, k - 1);
    }
  }

  // And the 32-bit truncation of the parsed value gives it back.
  lemma Int32Truncation(p: int32)
    ensures ToInt32(ToUint64(p) % TWO_32) == p
  {
    if p < 0 {
      assert ToUint64(p) == TWO_64 + p;
      assert TWO_64 == TWO_32 * TWO_32;
    }
  }

  // ----- The loops

  method SovNode(x0: uint64) returns (n: nat)
    ensures n == |Encode(x0)|
  {
    var x: int := x0;
    n := 1;
    x := x / 128;
    while x != 0
      invariant 0 <= x
      invariant |Encode(x0)| == if x == 0 then n else n + |Encode(x)|
    {
      n := n + 1;
      x := x / 128;
    }
  }

  method EncodeVarintNode(data: array<byte>, offset0: nat, v0: uint64) returns (offset: nat)
    requires offset0 + |Encode(v0)| <= data.Length
    modifies data
    ensures offset == offset0 + |Encode(v0)|
    ensures data[..] == old(data[..offset0]) + Encode(v0) + old(data[offset..])
  {
    var v: nat := v0;
    offset := offset0;
    ghost var before, written: seq<byte>, after := data[..offset0], [], data[offset0..];
    while v >= 128
      invariant offset == offset0 + |written|
      invariant written + Encode(v) == Encode(v0)
      invariant |Encode(v)| <= |after| && after == old(data[offset..])
      invariant data[..] == before + written + after
    {
      var group := v % 128 + 128;
      assert written + Encode(v) == (written + [group]) + Encode(v / 128);
      PutByte(data, offset, group, before, written, after);
      written, after := written + [group], after[1..];
      v := v / 128;
      offset := offset + 1;
    }
    PutByte(data, offset, v, before, written, after);
    assert written + [v] == Encode(v0);
    offset := offset + 1;
  }

  // data[offset] = b, in a buffer split into untouched, written and free parts.
  method PutByte(data: array<byte>, offset: nat, b: byte, ghost before: seq<byte>, ghost written: seq<byte>,
      ghost after: seq<byte>)
    requires offset == |before| + |written| && after != []
    requires data[..] == before + written + after
    modifies data
    ensures data[..] == before + (written + [b]) + after[1..]
  {
    assert |data[..]| == data.Length;
    data[offset] := b;
    assert data[..] == (before + written + after)[offset := b];
  }

  // What the whole parse amounts to when the first k groups sum up to `sum`.
  function Combine(sum: nat, weight: nat, k: nat, rest: Parsed): Parsed {
    match rest
    case Failed(e) => Failed(e)
    case Parsed(v, n) => Parsed(sum + weight * v, k + n)
  }

  lemma CombineStep(sum: nat, weight: nat, k: nat, d: seq<byte>, shifted: nat)
    requires k < MAX_GROUPS && d != [] && shifted == Shifted(weight, d[0] % 128)
    ensures Combine(sum, weight, k, ParseFrom(d, k)) ==
            if d[0] < 128 then Parsed(sum + shifted, k + 1)
            else Combine(sum + shifted, 128 * weight, k + 1, ParseFrom(d[1..], k + 1))
  {
    var rest := ParseFrom(d[1..], k + 1);
    if d[0] >= 128 && rest.Parsed? {
      Distribute(weight, d[0] % 128, rest.value);
    }
  }

  lemma CombineStart(d: seq<byte>)
    ensures Combine(0, 1, 0, ParseFrom(d, 0)) == Parse(d)
  {
  }

  lemma CombineEnd(sum: nat, weight: nat, k: nat, d: seq<byte>)
    requires k <= MAX_GROUPS && (k == MAX_GROUPS || d == [])
    ensures Combine(sum, weight, k, ParseFrom(d, k)) == Failed(if k == MAX_GROUPS then IntOverflow else UnexpectedEOF)
  {
  }

  // The accumulating loop, for a variable of 32 or 64 bits: the shifted group is
  // or-ed in, and of it what does not fit is lost.
  method DecodeVarint(data: seq<byte>, index0: nat, modulus: nat)
    returns (acc: nat, index: nat, error: bool, kind: Error)
    requires index0 <= |data| && (modulus == TWO_32 || modulus == TWO_64)
    ensures error <==> Parse(data[index0..]).Failed?
    ensures error ==> kind == Parse(data[index0..]).error
    ensures !error ==> acc == Parse(data[index0..]).value % modulus
    ensures !error ==> index == index0 + Parse(data[index0..]).size <= |data|
  {
    hide ParseFrom, Combine, Shifted, Or, Pow2;
    acc, index, error, kind := 0, index0, false, IntOverflow;
    ghost var whole := Parse(data[index0..]);
    ghost var sum: nat := 0;
    var k, weight: nat := 0, 1;   // shift == 7 * k and weight == 1 << shift
    CombineStart(data[index..]);
    PowerZero();
    while true
      invariant k <= MAX_GROUPS
      invariant index == index0 + k <= |data|
      invariant weight == Pow2(7 * k) && sum < weight && acc == sum % modulus
      invariant whole == Combine(sum, weight, k, ParseFrom(data[index..], k))
      decreases MAX_GROUPS - k
    {
      if k >= MAX_GROUPS || index >= |data| {
        CombineEnd(sum, weight, k, data[index..]);
      }
      if k >= MAX_GROUPS {
        return 0, index, true, IntOverflow;
      }
      if index >= |data| {
        return 0, index, true, UnexpectedEOF;
      }
      var b: int := data[index];
      var shifted := Shifted(weight, b % 128);
      ghost var rest := data[index..];
      assert rest[0] == b && rest[1..] == data[index + 1..];
      CombineStep(sum, weight, k, rest, shifted);
      OrAddsGroup(sum, b % 128, 7 * k, modulus);
      index := index + 1;
      acc := Or(acc, shifted % modulus);
      if b < 128 {
        return;
      }
      sum, k, weight := sum + shifted, k + 1, 128 * weight;
    }
  }

  // group << shift
  function Shifted(weight: nat, group: nat): nat {
    weight * group
  }

  lemma Distribute3(m: nat, p: nat, q: nat)
    ensures m * (p + q) == m * p + m * q
  {
  }

  lemma RemainderUnique(n: nat, q: nat, r: nat, m: nat)
    requires m > 0 && r < m && n == m * q + r
    ensures n % m == r
  {
    var q' := n / m;
    assert n == m * q' + n % m;
    if q < q' {
      MulMonotone(m, q + 1, q');
    } else if q' < q {
      MulMonotone(m, q' + 1, q);
    }
  }

  lemma MulMonotone(m: nat, p: nat, q: nat)
    requires p <= q
    ensures m * p <= m * q
  {
  }

  lemma Distribute(w: nat, g: nat, v: nat)
    ensures w * (g + 128 * v) == w * g + (128 * w) * v
  {
  }

  // ----- Why an or is a sum here

  // a | b, bit by bit.
  function Or(a: nat, b: nat): nat
    decreases a + b
  {
    if a == 0 && b == 0 then 0
    else 2 * Or(a / 2, b / 2) + if a % 2 == 1 || b % 2 == 1 then 1 else 0
  }

  lemma PowerZero()
    ensures Pow2(0) == 1
  {
  }

  lemma {:induction false} PowerSum(m: nat, n: nat)
    ensures Pow2(m + n) == Pow2(m) * Pow2(n)
  {
    if m == 0 {
      assert Pow2(m) * Pow2(n) == Pow2(n);
    } else {
      PowerSum(m - 1, n);
      assert Pow2(m + n) == 2 * Pow2(m - 1 + n);
      Regroup2(Pow2(m - 1), Pow2(n));
    }
  }

  lemma Regroup2(x: nat, y: nat)
    ensures 2 * (x * y) == (2 * x) * y
  {
  }

  lemma WordSizes()
    ensures Pow2(32) == TWO_32 && Pow2(64) == TWO_64
  {
    hide Pow2;
    PowerEight();
    PowerSum(8, 8);
    PowerSum(16, 16);
    PowerSum(32, 32);
  }

  lemma PowerEight()
    ensures Pow2(7) == 128 && Pow2(8) == 256
  {
  }

  lemma {:induction false} OrZero(a: nat)
    ensures Or(a, 0) == a && Or(0, a) == a
  {
    if a == 0 {
    } else {
      OrZero(a / 2);
    }
  }

  // Or-ing into bits that are still clear adds.
  lemma {:induction false} OrIsSum(a: nat, g: nat, shift: nat)
    requires a < Pow2(shift)
    ensures Or(a, Pow2(shift) * g) == a + Pow2(shift) * g
  {
    if shift == 0 {
      OrZero(g);
    } else {
      var high := Pow2(shift - 1) * g;
      Regroup2(Pow2(shift - 1), g);
      assert Pow2(shift) * g == 2 * high;
      OrIsSum(a / 2, g, shift - 1);
      OrZero(0);
    }
  }

  // One turn of a decoding loop on a 32-bit or 64-bit variable.
  lemma OrAddsGroup(sum: nat, g: nat, shift: nat, modulus: nat)
    requires sum < Pow2(shift) && g < 128 && (modulus == TWO_32 || modulus == TWO_64)
    ensures Or(sum % modulus, Shifted(Pow2(shift), g) % modulus) == (sum + Shifted(Pow2(shift), g)) % modulus
    ensures sum + Shifted(Pow2(shift), g) < Pow2(shift + 7) == 128 * Pow2(shift)
  {
    hide Or, Pow2;
    WordSizes();
    var bits := if modulus == TWO_32 then 32 else 64;
    SevenMore(shift);
    MulMonotone(Pow2(shift), g, 127);
    if shift >= bits {
      OrBeyond(sum, g, shift, bits);
    } else {
      OrWithin(sum, g, shift, bits);
    }
  }

  lemma SevenMore(shift: nat)
    ensures Pow2(shift + 7) == 128 * Pow2(shift)
  {
    hide Pow2;
    PowerEight();
    PowerSum(shift, 7);
  }

  // The group is shifted out.
  lemma OrBeyond(sum: nat, g: nat, shift: nat, bits: nat)
    requires shift >= bits
    ensures var m := Pow2(bits); Or(sum % m, Pow2(shift) * g % m) == (sum + Pow2(shift) * g) % m
  {
    hide Or, Pow2;
    var m, q := Pow2(bits), Pow2(shift - bits) * g;
    PowerSum(bits, shift - bits);
    Associate(m, Pow2(shift - bits), g);
    assert Pow2(shift) * g == m * q;
    RemainderUnique(m * q, q, 0, m);
    Distribute3(m, sum / m, q);
    RemainderUnique(sum + m * q, sum / m + q, sum % m, m);
    OrZero(sum % m);
  }

  lemma Associate(x: nat, y: nat, z: nat)
    ensures (x * y) * z == x * (y * z)
  {
  }

  // Of the group, the low bits fit.
  lemma OrWithin(sum: nat, g: nat, shift: nat, bits: nat)
    requires shift < bits && sum < Pow2(shift)
    ensures var m := Pow2(bits); Or(sum % m, Pow2(shift) * g % m) == (sum + Pow2(shift) * g) % m
  {
    hide Or, Pow2;
    var w, room := Pow2(shift), Pow2(bits - shift);
    var m, low, q := Pow2(bits), g % room, g / room;
    PowerSum(shift, bits - shift);
    SplitGroup(w, room, g);
    RemainderUnique(w * g, q, w * low, m);
    RemainderUnique(sum + w * g, q, sum + w * low, m);
    RemainderUnique(sum, 0, sum, m);
    OrIsSum(sum, low, shift);
  }

  lemma SplitGroup(w: nat, room: nat, g: nat)
    requires room > 0
    ensures w * g == (w * room) * (g / room) + w * (g % room)
    ensures w * (g % room) + w <= w * room
  {
    var low, q := g % room, g / room;
    assert g == room * q + low;
    Distribute3(w, room * q, low);
    Associate(w, room, q);
    MulMonotone(w, low + 1, room);
    Distribute3(w, low, 1);
  }
}
