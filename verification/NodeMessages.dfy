// Node and NodeList as the objects of insolar/node.pb.go: marshalling into a
// buffer at an advancing index, unmarshalling by a loop that updates the fields.
module NodeMessages {
  import opened Words
  import opened References
  import opened Varint
  import opened Wire
  import opened NodeCodec

  // ----- Writing into a buffer that is written up to |front|

  // copy(data[i:], bytes)
  method Put(data: array<byte>, i: nat, bytes: seq<byte>, ghost front: seq<byte>, ghost back: seq<byte>)
    returns (next: nat)
    requires data[..] == front + back && i == |front| && |bytes| <= |back|
    modifies data
    ensures next == i + |bytes|
    ensures data[..] == front + bytes + back[|bytes|..]
  {
    assert |data[..]| == data.Length;
    var k := 0;
    while k < |bytes|
      invariant 0 <= k <= |bytes|
      invariant data[..] == front + bytes[..k] + back[k..]
    {
      assert data[..][i + k := bytes[k]] == front + bytes[..k + 1] + back[k + 1..];
      data[i + k] := bytes[k];
      k := k + 1;
    }
    next := i + k;
    assert bytes[..k] == bytes;
  }

  method PutVarint(data: array<byte>, i: nat, v: uint64, ghost front: seq<byte>, ghost back: seq<byte>)
    returns (next: nat)
    requires data[..] == front + back && i == |front| && |Encode(v)| <= |back|
    modifies data
    ensures next == i + |Encode(v)|
    ensures data[..] == front + Encode(v) + back[|Encode(v)|..]
  {
    hide Encode;
    assert |data[..]| == data.Length;
    ghost var was := data[..];
    next := EncodeVarintNode(data, i, v);
    assert was[..i] == front && was[next..] == back[|Encode(v)|..];
  }

  // The tags as the literal bytes of the original.
  lemma TagBytes()
    ensures Tag(16, 0) == [0x80, 0x01] && Tag(20, 2) == [0xa2, 0x01] && Tag(21, 0) == [0xa8, 0x01]
  {
  }

  // ----- Reading the field at an index

  // The part of the decoding loops that both messages share word for word: the
  // tag, then the number, the block bounds or the skip, with every check in
  // between. The block itself is handed out, not yet decoded.
  method ReadField(data: seq<byte>, index0: nat, numbers: set<int32>) returns (token: Token)
    requires index0 < |data|
    ensures token == NextToken(data[index0..], index0, numbers)
  {
    hide Parse, SkipField, FieldNum, WireType, ToInt64;
    ghost var d := data[index0..];
    var index := index0;
    var wire, next, failed, why := DecodeVarint(data, index, TWO_64);
    if failed { return Bad(why); }
    index := next;
    ghost var t := next - index0;
    assert d[t..] == data[index..];
    PartsOfWord(Parse(d).value);
    var fieldNum: int32, wireType: nat := ToInt32(wire / 8), wire % 8;
    assert NextToken(d, index0, numbers) == TokenOf(d, index0, numbers, fieldNum, wireType, t);
    if wireType == 4 { return Bad(EndGroup); }
    if fieldNum <= 0 { return Bad(IllegalTag); }
    if fieldNum in numbers {
      if wireType != 0 { return Bad(WrongWireType); }
      token := ReadNumber(data, index, fieldNum, index0);
    } else if fieldNum == BLOCK_FIELD {
      if wireType != 2 { return Bad(WrongWireType); }
      token := ReadBlock(data, index, fieldNum, index0);
    } else {
      var skippy, skipFailed, skipWhy := SkipNode(data[index0..]);
      if skipFailed { return Bad(skipWhy); }
      if index0 + skippy > MAX_INT { return Bad(InvalidLength); }
      if index0 + skippy > |data| { return Bad(UnexpectedEOF); }
      token := Unknown(skippy);
    }
  }

  lemma PartsOfWord(raw: nat)
    ensures WireType(raw) == raw % TWO_64 % 8 && FieldNum(raw) == ToInt32(raw % TWO_64 / 8)
  {
  }

  // The number is accumulated in the 32 bits of its field.
  method ReadNumber(data: seq<byte>, index: nat, num: int32, index0: nat) returns (token: Token)
    requires index0 <= index <= |data|
    ensures token == match Parse(data[index..])
                     case Failed(e) => Bad(e)
                     case Parsed(v, m) => Number(num, v % TWO_32, index - index0 + m)
  {
    hide Parse;
    var value, next, failed, why := DecodeVarint(data, index, TWO_32);
    if failed { return Bad(why); }
    token := Number(num, value, next - index0);
  }

  method ReadBlock(data: seq<byte>, index: nat, num: int32, index0: nat) returns (token: Token)
    requires index0 <= index <= |data|
    ensures token == match Parse(data[index..])
                     case Failed(e) => Bad(e)
                     case Parsed(v, m) =>
                       if ToInt64(v) < 0 || index + m + ToInt64(v) > MAX_INT then Bad(InvalidLength)
                       else if index + m + ToInt64(v) > |data| then Bad(UnexpectedEOF)
                       else Block(num, data[index + m..index + m + ToInt64(v)], index - index0 + m + ToInt64(v))
  {
    hide Parse;
    var length, next, failed, why := DecodeVarint(data, index, TWO_64);
    if failed { return Bad(why); }
    Int64OfWord(Parse(data[index..]).value);
    var signed := ToInt64(length);
    if signed < 0 { return Bad(InvalidLength); }
    var post := next + signed;
    if post > MAX_INT { return Bad(InvalidLength); }
    if post > |data| { return Bad(UnexpectedEOF); }
    token := Block(num, data[next..post], post - index0);
  }

  // The field whose tag bytes are given, as a number or as a block.
  method PutNumberField(data: array<byte>, i0: nat, num: nat, tag: seq<byte>, v: int, ghost front: seq<byte>,
      ghost back: seq<byte>) returns (i: nat)
    requires data[..] == front + back && i0 == |front| && |EncodeFields(NumberField(num, v))| <= |back|
    requires tag == Tag(num, 0)
    modifies data
    ensures i == i0 + |EncodeFields(NumberField(num, v))|
    ensures data[..] == front + EncodeFields(NumberField(num, v)) + back[|EncodeFields(NumberField(num, v))|..]
  {
    hide Encode, EncodeField, Tag;
    ghost var field := EncodeFields(NumberField(num, v));
    i := i0;
    if v != 0 {
      OneNumber(num, v);
      i := Put(data, i, tag, front, back);
      i := PutVarint(data, i, ToUint64(v), front + tag, back[|tag|..]);
      assert front + tag + Encode(ToUint64(v)) == front + field;
      assert back[|tag|..][|Encode(ToUint64(v))|..] == back[|field|..];
    } else {
      assert front + field == front && back[|field|..] == back;
    }
  }

  lemma OneNumber(num: nat, v: int)
    requires v != 0
    ensures EncodeFields(NumberField(num, v)) == Tag(num, 0) + Encode(ToUint64(v))
  {
    hide Encode, Tag;
    var f := VarintField(num, ToUint64(v));
    assert EncodeFields([f]) == EncodeField(f) + EncodeFields([]) == EncodeField(f);
  }

  class Node {
    var polymorph: int32
    var id: Reference
    var role: uint32

    constructor (v: NodeValue)
      ensures Value() == v
    {
      polymorph, id, role := v.polymorph, v.id, v.role;
    }

    function Value(): NodeValue
      reads this
    {
      NodeValue(polymorph, id, role)
    }

    method Size() returns (n: nat)
      ensures n == |MarshalNode(Value())|
    {
      hide Encode, EncodeField, Reference.Bytes, NumberField;
      NumberSize(16, polymorph);
      NumberSize(21, role);
      MarshalNodeParts(Value());
      NodeSize(Value());
      n := 0;
      if polymorph != 0 {
        var s := SovNode(ToUint64(polymorph));
        n := n + 2 + s;
      }
      var l := GLOBAL_SIZE;
      var s := SovNode(l);
      SixtyFour();
      n := n + 2 + l + s;
      if role != 0 {
        var r := SovNode(role);
        n := n + 2 + r;
      }
    }

    // MarshalTo(data[start:]). The original panics when the slice is too short.
    method MarshalTo(data: array<byte>, start: nat) returns (n: nat)
      requires start + |MarshalNode(Value())| <= data.Length
      modifies data
      ensures n == |MarshalNode(Value())|
      ensures data[..] == old(data[..start]) + MarshalNode(Value()) + old(data[start + n..])
    {
      hide Encode, EncodeField, EncodeFields, Reference.Bytes, NumberField, MarshalNode;
      ghost var front, back := data[..start], data[start..];
      ghost var a, b, c := EncodeFields(NumberField(16, polymorph)), EncodeField(BytesField(20, id.Bytes())),
                           EncodeFields(NumberField(21, role));
      MarshalNodeParts(Value());
      TagBytes();
      assert data[..] == front + back;
      var i := PutNumberField(data, start, 16, [0x80, 0x01], polymorph, front, back);
      i := PutBlockField(data, i, id.Bytes(), front + a, back[|a|..]);
      i := PutNumberField(data, i, 21, [0xa8, 0x01], role, front + a + b, back[|a|..][|b|..]);
      n := i - start;
      ThreeParts(front, a, b, c, back);
    }

    method Marshal() returns (data: array<byte>)
      ensures fresh(data) && data[..] == MarshalNode(Value())
    {
      hide MarshalNode;
      var size := Size();
      data := new byte[size];
      var n := MarshalTo(data, 0);
    }

    // After an error the fields hold whatever was decoded before it.
    method Unmarshal(data: seq<byte>) returns (error: bool, kind: Error)
      modifies this
      ensures error <==> DecodeNode(old(Value()), data, 0).Undecodable?
      ensures error ==> kind == DecodeNode(old(Value()), data, 0).error
      ensures !error ==> Value() == DecodeNode(old(Value()), data, 0).message
    {
      hide NextToken, FromBytes;
      var index := 0;
      error, kind := false, UnexpectedEOF;
      assert data[0..] == data;
      while index < |data|
        invariant index <= |data|
        invariant DecodeNode(old(Value()), data, 0) == DecodeNode(Value(), data[index..], index)
      {
        var token := ReadField(data, index, NODE_NUMBERS);
        match token {
          case Bad(e) =>
            return true, e;
          case Number(num, v, _) =>
            if num == 16 {
              polymorph := ToInt32(v);
            } else {
              role := v;
            }
          case Block(_, block, _) =>
            if |block| < GLOBAL_SIZE { return true, ShortReference; }
            id := FromBytes(block);
          case Unknown(_) =>
        }
        assert data[index..][token.size..] == data[index + token.size..];
        index := index + token.size;
      }
    }
  }

  lemma ThreeParts(front: seq<byte>, a: seq<byte>, b: seq<byte>, c: seq<byte>, back: seq<byte>)
    requires |a| + |b| + |c| <= |back|
    ensures front + a + b + c + back[|a|..][|b|..][|c|..] == front + (a + b + c) + back[|a| + |b| + |c|..]
  {
    assert back[|a|..][|b|..][|c|..] == back[|a| + |b| + |c|..];
  }

  lemma SixtyFour()
    ensures Encode(GLOBAL_SIZE) == [64]
  {
  }

  method PutBlockField(data: array<byte>, i0: nat, bytes: seq<byte>, ghost front: seq<byte>,
      ghost back: seq<byte>) returns (i: nat)
    requires data[..] == front + back && i0 == |front| && |bytes| <= MAX_INT
    requires |EncodeField(BytesField(20, bytes))| <= |back|
    modifies data
    ensures i == i0 + |EncodeField(BytesField(20, bytes))|
    ensures data[..] == front + EncodeField(BytesField(20, bytes)) + back[|EncodeField(BytesField(20, bytes))|..]
  {
    hide Encode;
    TagBytes();
    ghost var field := EncodeField(BytesField(20, bytes));
    ghost var len := Encode(|bytes|);
    assert field == [0xa2, 0x01] + (len + bytes);
    i := Put(data, i0, [0xa2, 0x01], front, back);
    i := PutVarint(data, i, |bytes|, front + [0xa2, 0x01], back[2..]);
    i := Put(data, i, bytes, front + [0xa2, 0x01] + len, back[2..][|len|..]);
    assert front + [0xa2, 0x01] + len + bytes == front + field;
    assert back[2..][|len|..][|bytes|..] == back[|field|..];
  }

  class NodeList {
    var polymorph: int32
    var nodes: seq<NodeValue>

    constructor (v: NodeListValue)
      ensures Value() == v
    {
      polymorph, nodes := v.polymorph, v.nodes;
    }

    function Value(): NodeListValue
      reads this
    {
      NodeListValue(polymorph, nodes)
    }

    method Size() returns (n: nat)
      requires |MarshalList(Value())| <= MAX_INT
      ensures n == |MarshalList(Value())|
    {
      hide Encode, EncodeField, MarshalNode, NumberField;
      EncodeFieldsConcat(NumberField(16, polymorph), ElementFields(nodes));
      NumberSize(16, polymorph);
      n := 0;
      if polymorph != 0 {
        var s := SovNode(ToUint64(polymorph));
        n := n + 2 + s;
      }
      var k := 0;
      while k < |nodes|
        invariant 0 <= k <= |nodes|
        invariant |MarshalList(Value())| == n + |EncodeFields(ElementFields(nodes[k..]))|
      {
        var e := new Node(nodes[k]);
        var l := e.Size();
        ElementSize(nodes[k..]);
        NodeSize(nodes[k]);
        var s := SovNode(l);
        assert nodes[k..][1..] == nodes[k + 1..];
        n := n + 2 + l + s;
        k := k + 1;
      }
    }

    method MarshalTo(data: array<byte>, start: nat) returns (n: nat)
      requires |MarshalList(Value())| <= MAX_INT
      requires start + |MarshalList(Value())| <= data.Length
      modifies data
      ensures n == |MarshalList(Value())|
      ensures data[..] == old(data[..start]) + MarshalList(Value()) + old(data[start + n..])
    {
      hide Encode, EncodeField, MarshalNode, NumberField, EncodeFields, ElementFields;
      ghost var front, back := data[..start], data[start..];
      ghost var a, b := EncodeFields(NumberField(16, polymorph)), EncodeFields(ElementFields(nodes));
      EncodeFieldsConcat(NumberField(16, polymorph), ElementFields(nodes));
      TagBytes();
      assert data[..] == front + back;
      var i := PutNumberField(data, start, 16, [0x80, 0x01], polymorph, front, back);
      i := PutElements(data, i, nodes, front + a, back[|a|..]);
      n := i - start;
      NextPart(front, a, b, back);
    }

    method Marshal() returns (data: array<byte>)
      requires |MarshalList(Value())| <= MAX_INT
      ensures fresh(data) && data[..] == MarshalList(Value())
    {
      hide MarshalList;
      var size := Size();
      data := new byte[size];
      var n := MarshalTo(data, 0);
    }

    method Unmarshal(data: seq<byte>) returns (error: bool, kind: Error)
      modifies this
      ensures error <==> DecodeList(old(Value()), data, 0).Undecodable?
      ensures error ==> kind == DecodeList(old(Value()), data, 0).error
      ensures !error ==> Value() == DecodeList(old(Value()), data, 0).message
    {
      hide NextToken, DecodeNode;
      var index := 0;
      error, kind := false, UnexpectedEOF;
      assert data[0..] == data;
      while index < |data|
        invariant index <= |data|
        invariant DecodeList(old(Value()), data, 0) == DecodeList(Value(), data[index..], index)
      {
        var token := ReadField(data, index, LIST_NUMBERS);
        match token {
          case Bad(e) =>
            return true, e;
          case Number(_, v, _) =>
            polymorph := ToInt32(v);
          case Block(_, block, _) =>
            var node := new Node(ZERO_NODE);
            var failed, why := node.Unmarshal(block);
            nodes := nodes + [node.Value()];
            if failed { return true, why; }
          case Unknown(_) =>
        }
        assert data[index..][token.size..] == data[index + token.size..];
        index := index + token.size;
      }
    }
  }

  lemma ElementSize(ns: seq<NodeValue>)
    requires ns != []
    ensures EncodeFields(ElementFields(ns)) ==
              EncodeField(BytesField(20, MarshalNode(ns[0]))) + EncodeFields(ElementFields(ns[1..]))
    ensures |EncodeField(BytesField(20, MarshalNode(ns[0])))| ==
              2 + |Encode(|MarshalNode(ns[0])|)| + |MarshalNode(ns[0])|
  {
    hide Encode, MarshalNode;
    TagBytes();
    assert ElementFields(ns)[1..] == ElementFields(ns[1..]);
  }

  lemma NextPart(front: seq<byte>, done: seq<byte>, e: seq<byte>, back: seq<byte>)
    requires |done| + |e| <= |back|
    ensures front + done + e + back[|done|..][|e|..] == front + (done + e) + back[|done| + |e|..]
    ensures front + done + e == front + (done + e) && back[|done|..][|e|..] == back[|done| + |e|..]
  {
  }

  lemma Append(front: seq<byte>, e: seq<byte>, rest: seq<byte>)
    ensures front + (e + rest) == front + e + rest
  {
  }

  lemma DropTwice(back: seq<byte>, m: nat, n: nat)
    requires m + n <= |back|
    ensures back[m..][n..] == back[m + n..]
  {
  }

  // The loop over the nodes.
  method PutElements(data: array<byte>, i0: nat, nodes: seq<NodeValue>, ghost front: seq<byte>,
      ghost back: seq<byte>) returns (i: nat)
    requires data[..] == front + back && i0 == |front|
    requires |EncodeFields(ElementFields(nodes))| <= |back|
    modifies data
    ensures i == i0 + |EncodeFields(ElementFields(nodes))|
    ensures data[..] == front + EncodeFields(ElementFields(nodes)) + back[|EncodeFields(ElementFields(nodes))|..]
  {
    hide Encode, EncodeField, EncodeFields, ElementFields, MarshalNode;
    ghost var written, room := front, back;
    i := i0;
    var k := 0;
    assert nodes[0..] == nodes;
    while k < |nodes|
      invariant 0 <= k <= |nodes|
      invariant written + EncodeFields(ElementFields(nodes[k..])) == front + EncodeFields(ElementFields(nodes))
      invariant |front| <= |written| == i && |written| - |front| <= |back| && room == back[|written| - |front|..]
      invariant data[..] == written + room
    {
      ghost var e := EncodeField(BytesField(20, MarshalNode(nodes[k])));
      ElementSize(nodes[k..]);
      assert nodes[k..][1..] == nodes[k + 1..];
      Append(written, e, EncodeFields(ElementFields(nodes[k + 1..])));
      i := PutElement(data, i, nodes[k], written, room);
      DropTwice(back, |written| - |front|, |e|);
      written, room := written + e, room[|e|..];
      k := k + 1;
    }
    NoElements(nodes[k..]);
    assert written + [] == written;
  }

  lemma NoElements(ns: seq<NodeValue>)
    requires ns == []
    ensures EncodeFields(ElementFields(ns)) == []
  {
  }

  // One turn of the loop over the nodes: tag, size, and the element itself.
  method PutElement(data: array<byte>, i0: nat, v: NodeValue, ghost front: seq<byte>, ghost back: seq<byte>)
    returns (i: nat)
    requires data[..] == front + back && i0 == |front|
    requires |EncodeField(BytesField(20, MarshalNode(v)))| <= |back|
    modifies data
    ensures i == i0 + |EncodeField(BytesField(20, MarshalNode(v)))|
    ensures data[..] == front + EncodeField(BytesField(20, MarshalNode(v)))
              + back[|EncodeField(BytesField(20, MarshalNode(v)))|..]
  {
    hide Encode, MarshalNode;
    TagBytes();
    NodeSize(v);
    ghost var bytes, len := MarshalNode(v), Encode(|MarshalNode(v)|);
    ElementParts(front, len, bytes, back);
    var msg := new Node(v);
    var size := msg.Size();
    i := Put(data, i0, [0xa2, 0x01], front, back);
    i := PutVarint(data, i, size, front + [0xa2, 0x01], back[2..]);
    ghost var written, room := front + [0xa2, 0x01] + len, back[2..][|len|..];
    Halves(written, room);
    assert |data[..]| == data.Length;
    var n := msg.MarshalTo(data, i);
    i := i + n;
  }

  lemma Halves(a: seq<byte>, b: seq<byte>)
    ensures (a + b)[..|a|] == a && (a + b)[|a|..] == b
  {
  }

  // Tag, size and element in a row are the field.
  lemma ElementParts(front: seq<byte>, len: seq<byte>, bytes: seq<byte>, back: seq<byte>)
    requires len == Encode(|bytes|) && |EncodeField(BytesField(20, bytes))| <= |back|
    ensures var field := EncodeField(BytesField(20, bytes));
            && |field| == 2 + |len| + |bytes|
            && front + [0xa2, 0x01] + len + bytes == front + field
            && back[2..][|len|..][|bytes|..] == back[|field|..]
  {
    hide Encode;
    TagBytes();
    assert EncodeField(BytesField(20, bytes)) == [0xa2, 0x01] + (len + bytes);
  }
}
