// The bytes themselves: what printers and readers of this format write and
// accept, said without them, as the Protocol Buffers Encoding specification does.
module WireFormat {
  import opened Words
  import opened References
  import opened Varint
  import opened Wire
  import opened NodeCodec

  // ----- Base 128 varints

  // Seven bits a byte, low groups first.
  function Value(b: seq<byte>): nat {
    if b == [] then 0 else b[0] % 128 + 128 * Value(b[1..])
  }

  // The high bit is set on all bytes but the last.
  predicate IsVarint(b: seq<byte>) {
    && b != [] && b[|b| - 1] < 128
    && forall i :: 0 <= i < |b| - 1 ==> b[i] >= 128
  }

  // The shortest varint with this value.
  lemma {:induction false} EncodeIsBase128(v: nat)
    ensures IsVarint(Encode(v)) && Value(Encode(v)) == v
    ensures |Encode(v)| > 1 ==> Encode(v)[|Encode(v)| - 1] != 0
  {
    if v < 128 {
      assert Value([v]) == v + 128 * Value([v][1..]);
    } else {
      EncodeIsBase128(v / 128);
      assert Encode(v)[1..] == Encode(v / 128);
    }
  }

  // The number of bytes with the high bit set in front.
  function More(d: seq<byte>): (k: nat)
    ensures k <= |d| && (k < |d| ==> d[k] < 128)
    ensures forall i :: 0 <= i < k ==> d[i] >= 128
  {
    if d == [] || d[0] < 128 then 0 else 1 + More(d[1..])
  }

  lemma {:induction false} ParseFromIsBase128(d: seq<byte>, k: nat)
    requires k <= MAX_GROUPS
    ensures ParseFrom(d, k) ==
            if k + More(d) >= MAX_GROUPS then Failed(IntOverflow)
            else if More(d) == |d| then Failed(UnexpectedEOF)
            else Parsed(Value(d[..More(d) + 1]), More(d) + 1)
    decreases MAX_GROUPS - k
  {
    if k == MAX_GROUPS || d == [] {
    } else if d[0] < 128 {
      assert d[..1] == [d[0]];
    } else {
      ParseFromIsBase128(d[1..], k + 1);
      if k + More(d) < MAX_GROUPS && More(d) < |d| {
        assert d[..More(d) + 1][1..] == d[1..][..More(d[1..]) + 1];
      }
    }
  }

  // The reader takes the first varint of at most ten bytes; ten bytes with the
  // high bit set are too long, and fewer with none behind them are cut off.
  lemma ParseIsBase128(d: seq<byte>)
    ensures Parse(d) ==
            if More(d) >= 10 then Failed(IntOverflow)
            else if More(d) == |d| then Failed(UnexpectedEOF)
            else Parsed(Value(d[..More(d) + 1]), More(d) + 1)
  {
    ParseFromIsBase128(d, 0);
  }

  // ----- The two messages

  function NumberBytes(tag: seq<byte>, v: int): seq<byte> {
    if v == 0 then [] else tag + Encode(ToUint64(v))
  }

  lemma NumberFieldBytes(num: nat, v: int)
    requires num == 16 || num == 21
    ensures EncodeFields(NumberField(num, v)) == NumberBytes(if num == 16 then [0x80, 0x01] else [0xa8, 0x01], v)
  {
    hide Encode;
    TagBytesOf();
    if v != 0 {
      var f := VarintField(num, ToUint64(v));
      assert EncodeFields([f]) == EncodeField(f) + EncodeFields([f][1..]);
      assert EncodeField(f) + [] == EncodeField(f);
    }
  }

  lemma TagBytesOf()
    ensures Tag(16, 0) == [0x80, 0x01] && Tag(20, 2) == [0xa2, 0x01] && Tag(21, 0) == [0xa8, 0x01]
  {
  }

  // Field 16 as a varint unless zero, field 20 as 64 bytes, field 21 as a varint
  // unless zero, in this order.
  lemma NodeBytes(n: NodeValue)
    ensures MarshalNode(n) ==
              NumberBytes([0x80, 0x01], n.polymorph)
              + ([0xa2, 0x01, 64] + n.id.Bytes())
              + NumberBytes([0xa8, 0x01], n.role)
  {
    hide MarshalNode, NumberBytes, EncodeFields, NumberField, Encode;
    MarshalNodeParts(n);
    NumberFieldBytes(16, n.polymorph);
    NumberFieldBytes(21, n.role);
    IdBytes(n.id);
  }

  lemma IdBytes(id: Reference)
    ensures EncodeField(BytesField(20, id.Bytes())) == [0xa2, 0x01, 64] + id.Bytes()
  {
    hide Reference.Bytes;
    TagBytesOf();
    assert Encode(64) == [64];
  }

  // Field 16 as a varint unless zero, then field 20 once for every node, with its
  // length in front.
  lemma ListBytes(l: NodeListValue)
    ensures MarshalList(l) == NumberBytes([0x80, 0x01], l.polymorph) + Elements(l.nodes)
  {
    hide NumberBytes, EncodeFields, NumberField, Encode, ElementFields, Elements;
    EncodeFieldsConcat(NumberField(16, l.polymorph), ElementFields(l.nodes));
    NumberFieldBytes(16, l.polymorph);
    ElementBytes(l.nodes);
  }

  function Elements(ns: seq<NodeValue>): seq<byte> {
    if ns == [] then []
    else [0xa2, 0x01] + Encode(|MarshalNode(ns[0])|) + MarshalNode(ns[0]) + Elements(ns[1..])
  }

  lemma {:induction false} ElementBytes(ns: seq<NodeValue>)
    ensures EncodeFields(ElementFields(ns)) == Elements(ns)
  {
    hide MarshalNode, Encode;
    if ns == [] {
    } else {
      ElementBytes(ns[1..]);
      TagBytesOf();
      var f := BytesField(20, MarshalNode(ns[0]));
      assert ElementFields(ns)[1..] == ElementFields(ns[1..]);
      assert EncodeField(f) == [0xa2, 0x01] + Encode(|MarshalNode(ns[0])|) + MarshalNode(ns[0]);
    }
  }

  // ----- Fields to skip, by wire type

  // The size of what follows the tag, for the wire types without a group.
  lemma SkipSizes(num: nat, v: seq<byte>, rest: seq<byte>)
    requires 1 <= num < 0x2000_0000 && IsVarint(v) && |v| <= 10
    ensures SkipField(Tag(num, 0) + (v + rest)) == Skipped(|Tag(num, 0)| + |v|)
    ensures SkipField(Tag(num, 1) + rest) == Skipped(|Tag(num, 1)| + 8)
    ensures SkipField(Tag(num, 4) + rest) == Skipped(|Tag(num, 4)|)
    ensures SkipField(Tag(num, 5) + rest) == Skipped(|Tag(num, 5)| + 4)
    ensures SkipField(Tag(num, 6) + rest) == SkipField(Tag(num, 7) + rest) == SkipFailed(IllegalWireType)
    ensures SkipField(Tag(num, 2) + (v + rest)) ==
            var length := ToInt64(Value(v));
            if length < 0 || |Tag(num, 2)| + |v| + length > MAX_INT then SkipFailed(InvalidLength)
            else Skipped(|Tag(num, 2)| + |v| + length)
  {
    hide Tag, Parse, Value, WireType;
    TagRoundTrip(num, 0, v + rest);
    TagRoundTrip(num, 1, rest);
    TagRoundTrip(num, 2, v + rest);
    TagRoundTrip(num, 4, rest);
    TagRoundTrip(num, 5, rest);
    TagRoundTrip(num, 6, rest);
    TagRoundTrip(num, 7, rest);
    VarintIsParsed(v, rest);
  }

  lemma VarintIsParsed(v: seq<byte>, rest: seq<byte>)
    requires IsVarint(v) && |v| <= 10
    ensures Parse(v + rest) == Parsed(Value(v), |v|)
  {
    ParseIsBase128(v + rest);
    var k := More(v + rest);
    assert k == |v| - 1 by {
      assert (v + rest)[|v| - 1] == v[|v| - 1] < 128;
      assert forall i :: 0 <= i < |v| - 1 ==> (v + rest)[i] == v[i] >= 128;
    }
    assert (v + rest)[..|v|] == v;
  }

  // ----- What a message does not accept

  // The field in front has the wrong wire type or number: the message is not
  // decoded, whatever follows.
  lemma WrongTags(n: NodeValue, l: NodeListValue, num: nat, wireType: nat, rest: seq<byte>, at: nat)
    requires 1 <= num < 0x2000_0000 && wireType < 8
    ensures wireType == 4 ==>
              DecodeNode(n, Tag(num, 4) + rest, at) == Undecodable(EndGroup)
              && DecodeList(l, Tag(num, 4) + rest, at) == Undecodable(EndGroup)
    ensures wireType != 4 && (num == 16 || num == 21) && wireType != 0 ==>
              DecodeNode(n, Tag(num, wireType) + rest, at) == Undecodable(WrongWireType)
    ensures wireType != 4 && num == 16 && wireType != 0 ==>
              DecodeList(l, Tag(num, wireType) + rest, at) == Undecodable(WrongWireType)
    ensures wireType != 4 && num == 20 && wireType != 2 ==>
              DecodeNode(n, Tag(20, wireType) + rest, at) == Undecodable(WrongWireType)
              && DecodeList(l, Tag(20, wireType) + rest, at) == Undecodable(WrongWireType)
  {
    hide Tag, Parse, SkipField, WireType, FieldNum;
    TagRoundTrip(num, wireType, rest);
    assert Tag(num, wireType) + rest != [];
  }

  // Field number zero is refused, unless the tag ends a group.
  lemma FieldZero(n: NodeValue, l: NodeListValue, wireType: nat, rest: seq<byte>, at: nat)
    requires wireType < 8
    ensures DecodeNode(n, [wireType] + rest, at) == Undecodable(if wireType == 4 then EndGroup else IllegalTag)
    ensures DecodeList(l, [wireType] + rest, at) == Undecodable(if wireType == 4 then EndGroup else IllegalTag)
  {
    hide SkipField;
    var d: seq<byte> := [wireType] + rest;
    assert Parse(d) == Parsed(wireType, 1);
    assert FieldNum(wireType) == 0 && WireType(wireType) == wireType;
  }

  // A block must fit into what is left, and hold a whole reference.
  lemma ShortBlocks(n: NodeValue, block: seq<byte>, missing: nat, rest: seq<byte>)
    requires |block| + missing < 128
    ensures missing > 0 ==>
              DecodeNode(n, [0xa2, 0x01, |block| + missing] + block, 0) == Undecodable(UnexpectedEOF)
    ensures |block| < GLOBAL_SIZE ==>
              DecodeNode(n, [0xa2, 0x01, |block|] + block + rest, 0) == Undecodable(ShortReference)
  {
    hide SkipField, NextToken, Encode;
    TwentyTwo([|block| + missing] + block);
    TwentyTwo([|block|] + block + rest);
    assert [0xa2, 0x01, |block| + missing] + block == [0xa2, 0x01] + ([|block| + missing] + block);
    assert [0xa2, 0x01, |block|] + block + rest == [0xa2, 0x01] + ([|block|] + block + rest);
  }

  // The token behind the tag of field 20 with a length of one byte.
  lemma TwentyTwo(d: seq<byte>)
    requires d != [] && d[0] < 128
    ensures NextToken([0xa2, 0x01] + d, 0, NODE_NUMBERS) ==
            if 3 + d[0] as int > 2 + |d| then Bad(UnexpectedEOF) else Block(20, d[1..1 + d[0]], 3 + d[0] as int)
  {
    hide SkipField, Encode, Parse, Tag, WireType, FieldNum, Value;
    TagBytesOf();
    TagRoundTrip(20, 2, d);
    OneByte(d);
    assert ([0xa2, 0x01] + d)[2..] == d;
  }

  lemma OneByte(d: seq<byte>)
    requires d != [] && d[0] < 128
    ensures Parse(d) == Parsed(d[0], 1) && ToInt64(d[0]) == d[0]
  {
    VarintIsParsed([d[0]], d[1..]);
    assert [d[0]] + d[1..] == d;
  }
}
