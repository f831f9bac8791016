// The Node and NodeList messages (insolar/node.pb.go): what a message means on
// the wire, the marshalling and unmarshalling methods, and why they agree.
module NodeCodec {
  import opened Words
  import opened References
  import opened Varint
  import opened Wire

  datatype NodeValue = NodeValue(polymorph: int32, id: Reference, role: uint32)
  datatype NodeListValue = NodeListValue(polymorph: int32, nodes: seq<NodeValue>)

  const ZERO_NODE := NodeValue(0, EMPTY, 0)
  const ZERO_LIST := NodeListValue(0, [])

  datatype Decoded<T> = Decoded(message: T) | Undecodable(error: Error)

  // ----- Meaning of a message: the fields it is made of

  function NumberField(num: nat, v: int): seq<Field> {
    if v == 0 then [] else [VarintField(num, ToUint64(v))]
  }

  function NodeFields(n: NodeValue): seq<Field> {
    NumberField(16, n.polymorph) + [BytesField(20, n.id.Bytes())] + NumberField(21, n.role)
  }

  function MarshalNode(n: NodeValue): seq<byte> {
    EncodeFields(NodeFields(n))
  }

  function ElementFields(ns: seq<NodeValue>): seq<Field> {
    if ns == [] then [] else [BytesField(20, MarshalNode(ns[0]))] + ElementFields(ns[1..])
  }

  function MarshalList(l: NodeListValue): seq<byte> {
    EncodeFields(NumberField(16, l.polymorph) + ElementFields(l.nodes))
  }

  // ----- Decoding, as a function of the bytes still to read

  const NODE_NUMBERS: set<int32> := {16, 21}
  const LIST_NUMBERS: set<int32> := {16}

  // What one token does to a node. A later field overrides an earlier one.
  function ApplyToNode(n: NodeValue, token: Token): Decoded<NodeValue> {
    match token
    case Bad(e) => Undecodable(e)
    case Unknown(_) => Decoded(n)
    case Number(num, v, _) =>
      if num == 16 then Decoded(n.(polymorph := ToInt32(v))) else Decoded(n.(role := v))
    case Block(_, block, _) =>
      if |block| < GLOBAL_SIZE then Undecodable(ShortReference) else Decoded(n.(id := FromBytes(block)))
  }

  function DecodeNode(n: NodeValue, d: seq<byte>, at: nat): Decoded<NodeValue>
    decreases |d|
  {
    if d == [] then Decoded(n)
    else match ApplyToNode(n, NextToken(d, at, NODE_NUMBERS))
      case Undecodable(e) => Undecodable(e)
      case Decoded(m) =>
        DecodeNode(m, d[NextToken(d, at, NODE_NUMBERS).size..], at + NextToken(d, at, NODE_NUMBERS).size)
  }

  // What one token does to a list: an element is decoded into a fresh node.
  function ApplyToList(l: NodeListValue, token: Token): Decoded<NodeListValue> {
    match token
    case Bad(e) => Undecodable(e)
    case Unknown(_) => Decoded(l)
    case Number(_, v, _) => Decoded(NodeListValue(ToInt32(v), l.nodes))
    case Block(_, block, _) => AddElement(l, DecodeNode(ZERO_NODE, block, 0))
  }

  function AddElement(l: NodeListValue, element: Decoded<NodeValue>): Decoded<NodeListValue> {
    match element
    case Undecodable(e) => Undecodable(e)
    case Decoded(n) => Decoded(l.(nodes := l.nodes + [n]))
  }

  function DecodeList(l: NodeListValue, d: seq<byte>, at: nat): Decoded<NodeListValue>
    decreases |d|
  {
    if d == [] then Decoded(l)
    else match ApplyToList(l, NextToken(d, at, LIST_NUMBERS))
      case Undecodable(e) => Undecodable(e)
      case Decoded(m) =>
        DecodeList(m, d[NextToken(d, at, LIST_NUMBERS).size..], at + NextToken(d, at, LIST_NUMBERS).size)
  }

  // ----- Round trips

  // The token at the front of an encoded known field.
  lemma KnownToken(f: Field, rest: seq<byte>, at: nat, numbers: set<int32>)
    requires WellFormed(f) && at + |EncodeField(f)| <= MAX_INT
    requires (f.VarintField? && f.num in numbers) || (f.BytesField? && f.num == 20 && 20 !in numbers)
    ensures EncodeField(f) != []
    ensures (EncodeField(f) + rest)[|EncodeField(f)|..] == rest
    ensures NextToken(EncodeField(f) + rest, at, numbers) ==
            if f.VarintField? then Number(f.num, f.value % TWO_32, |EncodeField(f)|)
            else Block(f.num, f.bytes, |EncodeField(f)|)
  {
    hide Parse, Encode, SkipField, FieldNum, WireType;
    var d := EncodeField(f) + rest;
    var t := |Tag(f.num, WireTypeOf(f))|;
    assert d == Tag(f.num, WireTypeOf(f)) + (EncodeBody(f) + rest);
    TagRoundTrip(f.num, WireTypeOf(f), EncodeBody(f) + rest);
    if f.VarintField? {
      Varint.RoundTrip(f.value, rest);
    } else {
      assert EncodeBody(f) + rest == Encode(|f.bytes|) + (f.bytes + rest);
      Varint.RoundTrip(|f.bytes|, f.bytes + rest);
      assert (EncodeBody(f) + rest)[|Encode(|f.bytes|)|..|EncodeBody(f)|] == f.bytes;
    }
  }

  // Decoding goes field by field.
  lemma NodeStep(n: NodeValue, f: Field, rest: seq<byte>, at: nat)
    requires WellFormed(f) && at + |EncodeField(f)| <= MAX_INT
    requires (f.VarintField? && f.num in NODE_NUMBERS) || (f.BytesField? && f.num == 20 && |f.bytes| >= GLOBAL_SIZE)
    ensures DecodeNode(n, EncodeField(f) + rest, at) == DecodeNode(
              if f.num == 16 then n.(polymorph := ToInt32(f.value % TWO_32))
              else if f.num == 21 then n.(role := f.value % TWO_32)
              else n.(id := FromBytes(f.bytes)), rest, at + |EncodeField(f)|)
  {
    hide NextToken, EncodeField;
    KnownToken(f, rest, at, NODE_NUMBERS);
  }

  lemma EncodeFieldsConcat(a: seq<Field>, b: seq<Field>)
    ensures EncodeFields(a + b) == EncodeFields(a) + EncodeFields(b)
  {
    hide EncodeField;
    if a == [] {
      assert a + b == b;
    } else {
      assert (a + b)[1..] == a[1..] + b;
      EncodeFieldsConcat(a[1..], b);
    }
  }

  lemma MarshalNodeParts(n: NodeValue)
    ensures MarshalNode(n) == EncodeFields(NumberField(16, n.polymorph))
                            + EncodeField(BytesField(20, n.id.Bytes()))
                            + EncodeFields(NumberField(21, n.role))
  {
    hide EncodeField, NumberField, Reference.Bytes;
    var a, b, c := NumberField(16, n.polymorph), [BytesField(20, n.id.Bytes())], NumberField(21, n.role);
    EncodeFieldsConcat(a + b, c);
    EncodeFieldsConcat(a, b);
    assert EncodeFields(b) == EncodeField(b[0]) + EncodeFields(b[1..]);
  }

  lemma NumberStep(n: NodeValue, num: nat, v: int, rest: seq<byte>, at: nat)
    requires num in NODE_NUMBERS && (if num == 16 then -0x8000_0000 <= v < 0x8000_0000 else 0 <= v < TWO_32)
    requires at + |EncodeFields(NumberField(num, v))| <= MAX_INT
    ensures DecodeNode(n, EncodeFields(NumberField(num, v)) + rest, at) == DecodeNode(
              if v == 0 then n else if num == 16 then n.(polymorph := v) else n.(role := v),
              rest, at + |EncodeFields(NumberField(num, v))|)
  {
    hide EncodeField, DecodeNode, NextToken;
    if v == 0 {
      assert EncodeFields(NumberField(num, v)) + rest == rest;
    } else {
      var f := VarintField(num, ToUint64(v));
      assert EncodeFields([f]) == EncodeField(f) + EncodeFields([]) == EncodeField(f);
      if num == 16 { Int32Truncation(v); }
      NodeStep(n, f, rest, at);
    }
  }

  // Unmarshal after Marshal: the fields that are not zero are taken over, the
  // zero ones are not on the wire and keep what the receiver held.
  function Merge(old_: NodeValue, n: NodeValue): NodeValue {
    NodeValue(if n.polymorph == 0 then old_.polymorph else n.polymorph, n.id,
              if n.role == 0 then old_.role else n.role)
  }

  lemma NodeMerge(receiver: NodeValue, n: NodeValue)
    ensures DecodeNode(receiver, MarshalNode(n), 0) == Decoded(Merge(receiver, n))
  {
    hide EncodeField, NumberField, NextToken, EncodeFields, FromBytes, Reference.Bytes;
    var a, b, c := EncodeFields(NumberField(16, n.polymorph)), EncodeField(BytesField(20, n.id.Bytes())),
                   EncodeFields(NumberField(21, n.role));
    NodeSize(n);
    MarshalNodeParts(n);
    assert MarshalNode(n) == a + (b + c);
    NumberStep(receiver, 16, n.polymorph, b + c, 0);
    var n1 := if n.polymorph == 0 then receiver else receiver.(polymorph := n.polymorph);
    References.RoundTrip(n.id, []);
    assert n.id.Bytes() + [] == n.id.Bytes();
    NodeStep(n1, BytesField(20, n.id.Bytes()), c, |a|);
    assert c + [] == c;
    NumberStep(n1.(id := n.id), 21, n.role, [], |a| + |b|);
  }

  // Round trip of a node.
  lemma NodeRoundTrip(n: NodeValue)
    ensures DecodeNode(ZERO_NODE, MarshalNode(n), 0) == Decoded(n)
  {
    NodeMerge(ZERO_NODE, n);
  }

  // The parts of a node's encoding and their sizes.
  lemma NodeSize(n: NodeValue)
    ensures |EncodeFields(NumberField(16, n.polymorph))| <= 12 && |EncodeFields(NumberField(21, n.role))| <= 12
    ensures |EncodeField(BytesField(20, n.id.Bytes()))| == 67
    ensures 67 <= |MarshalNode(n)| <= 91
  {
    NumberSize(16, n.polymorph);
    NumberSize(21, n.role);
    MarshalNodeParts(n);
    assert Tag(20, 2) == [162, 1];
    assert Encode(64) == [64];
  }

  lemma NumberSize(num: nat, v: int)
    requires num in {16, 21}
    ensures |EncodeFields(NumberField(num, v))| == if v == 0 then 0 else 2 + |Encode(ToUint64(v))|
    ensures |EncodeFields(NumberField(num, v))| <= 12
  {
    if v != 0 {
      var f := VarintField(num, ToUint64(v));
      assert EncodeFields([f]) == EncodeField(f) + EncodeFields([]) == EncodeField(f);
      assert Tag(16, 0) == [128, 1] && Tag(21, 0) == [168, 1];
      Varint.RoundTrip(ToUint64(v), []);
    }
  }

  lemma ElementStep(l: NodeListValue, n: NodeValue, rest: seq<byte>, at: nat)
    requires at + |EncodeField(BytesField(20, MarshalNode(n)))| <= MAX_INT
    ensures DecodeList(l, EncodeField(BytesField(20, MarshalNode(n))) + rest, at)
         == DecodeList(l.(nodes := l.nodes + [n]), rest, at + |EncodeField(BytesField(20, MarshalNode(n)))|)
  {
    hide NextToken, EncodeField, MarshalNode, DecodeNode;
    NodeSize(n);
    KnownToken(BytesField(20, MarshalNode(n)), rest, at, LIST_NUMBERS);
    NodeRoundTrip(n);
  }

  lemma {:induction false} ElementsStep(l: NodeListValue, ns: seq<NodeValue>, at: nat)
    requires at + |EncodeFields(ElementFields(ns))| <= MAX_INT
    ensures DecodeList(l, EncodeFields(ElementFields(ns)), at) == Decoded(l.(nodes := l.nodes + ns))
    decreases |ns|
  {
    hide EncodeField, MarshalNode, NextToken;
    if ns == [] {
      assert l.nodes + ns == l.nodes;
    } else {
      var first := BytesField(20, MarshalNode(ns[0]));
      assert ElementFields(ns)[0] == first && ElementFields(ns)[1..] == ElementFields(ns[1..]);
      ElementStep(l, ns[0], EncodeFields(ElementFields(ns[1..])), at);
      ElementsStep(l.(nodes := l.nodes + [ns[0]]), ns[1..], at + |EncodeField(first)|);
      assert l.nodes + [ns[0]] + ns[1..] == l.nodes + ns;
    }
  }

  // Unmarshalling a marshalled list appends its nodes to those of the receiver.
  // The encoding has to fit a Go slice.
  lemma ListMerge(receiver: NodeListValue, l: NodeListValue)
    requires |MarshalList(l)| <= MAX_INT
    ensures DecodeList(receiver, MarshalList(l), 0) == Decoded(NodeListValue(
              if l.polymorph == 0 then receiver.polymorph else l.polymorph, receiver.nodes + l.nodes))
  {
    hide EncodeField, NextToken, ElementFields, DecodeList;
    var a, b := EncodeFields(NumberField(16, l.polymorph)), EncodeFields(ElementFields(l.nodes));
    EncodeFieldsConcat(NumberField(16, l.polymorph), ElementFields(l.nodes));
    if l.polymorph == 0 {
      assert MarshalList(l) == b;
      ElementsStep(receiver, l.nodes, 0);
    } else {
      var f := VarintField(16, ToUint64(l.polymorph));
      assert a == EncodeField(f) + EncodeFields([]) == EncodeField(f);
      Int32Truncation(l.polymorph);
      ListNumberStep(receiver, f, b);
      ElementsStep(receiver.(polymorph := l.polymorph), l.nodes, |a|);
    }
  }

  lemma ListNumberStep(l: NodeListValue, f: Field, rest: seq<byte>)
    requires f.VarintField? && f.num == 16 && |EncodeField(f)| <= MAX_INT
    ensures DecodeList(l, EncodeField(f) + rest, 0)
         == DecodeList(l.(polymorph := ToInt32(f.value % TWO_32)), rest, |EncodeField(f)|)
  {
    hide NextToken, EncodeField;
    KnownToken(f, rest, 0, LIST_NUMBERS);
  }

  // Round trip of a list.
  lemma ListRoundTrip(l: NodeListValue)
    requires |MarshalList(l)| <= MAX_INT
    ensures DecodeList(ZERO_LIST, MarshalList(l), 0) == Decoded(l)
  {
    ListMerge(ZERO_LIST, l);
    assert [] + l.nodes == l.nodes;
  }

  // ----- Field boundaries and unknown fields

  // Where a decodable prefix ends, decoding goes on with what was decoded.
  lemma {:induction false} NodeConcat(n: NodeValue, a: seq<byte>, x: seq<byte>, at: nat)
    requires DecodeNode(n, a, at).Decoded?
    ensures DecodeNode(n, a + x, at) == DecodeNode(DecodeNode(n, a, at).message, x, at + |a|)
    decreases |a|
  {
    hide NextToken;
    if a == [] {
      assert a + x == x;
    } else {
      var token := NextToken(a, at, NODE_NUMBERS);
      TokenStable(a, x, at, NODE_NUMBERS);
      DropOfSum(a, x, token.size);
      NodeConcat(ApplyToNode(n, token).message, a[token.size..], x, at + token.size);
    }
  }

  lemma {:induction false} ListConcat(l: NodeListValue, a: seq<byte>, x: seq<byte>, at: nat)
    requires DecodeList(l, a, at).Decoded?
    ensures DecodeList(l, a + x, at) == DecodeList(DecodeList(l, a, at).message, x, at + |a|)
    decreases |a|
  {
    hide NextToken, ApplyToList;
    if a == [] {
      assert a + x == x;
    } else {
      var token := NextToken(a, at, LIST_NUMBERS);
      BadIsUndecodable(l, token);
      TokenStable(a, x, at, LIST_NUMBERS);
      DropOfSum(a, x, token.size);
      ListConcat(ApplyToList(l, token).message, a[token.size..], x, at + token.size);
    }
  }

  lemma BadIsUndecodable(l: NodeListValue, token: Token)
    ensures token.Bad? ==> ApplyToList(l, token).Undecodable?
    ensures token.Unknown? ==> ApplyToList(l, token) == Decoded(l)
  {
  }

  // Equal, or errors of possibly different kinds.
  predicate SameOutcome<T(==)>(a: Decoded<T>, b: Decoded<T>) {
    a == b || (a.Undecodable? && b.Undecodable?)
  }

  lemma {:induction false} NodeShift(n: NodeValue, d: seq<byte>, at: nat, at': nat)
    requires at + |d| <= MAX_INT && at' + |d| <= MAX_INT
    ensures SameOutcome(DecodeNode(n, d, at), DecodeNode(n, d, at'))
    decreases |d|
  {
    hide NextToken;
    if d == [] {
    } else {
      TokenShift(d, at, at', NODE_NUMBERS);
      var token := NextToken(d, at, NODE_NUMBERS);
      if !token.Bad? && ApplyToNode(n, token).Decoded? {
        NodeShift(ApplyToNode(n, token).message, d[token.size..], at + token.size, at' + token.size);
      }
    }
  }

  lemma {:induction false} ListShift(l: NodeListValue, d: seq<byte>, at: nat, at': nat)
    requires at + |d| <= MAX_INT && at' + |d| <= MAX_INT
    ensures SameOutcome(DecodeList(l, d, at), DecodeList(l, d, at'))
    decreases |d|
  {
    hide NextToken, ApplyToList;
    if d == [] {
    } else {
      TokenShift(d, at, at', LIST_NUMBERS);
      var token := NextToken(d, at, LIST_NUMBERS);
      BadIsUndecodable(l, token);
      BadIsUndecodable(l, NextToken(d, at', LIST_NUMBERS));
      if !token.Bad? && ApplyToList(l, token).Decoded? {
        ListShift(ApplyToList(l, token).message, d[token.size..], at + token.size, at' + token.size);
      }
    }
  }

  lemma UnknownStep(n: NodeValue, l: NodeListValue, u: seq<byte>, b: seq<byte>, at: nat)
    requires u != []
    ensures NextToken(u + b, at, NODE_NUMBERS) == Unknown(|u|) ==>
              DecodeNode(n, u + b, at) == DecodeNode(n, b, at + |u|)
    ensures NextToken(u + b, at, LIST_NUMBERS) == Unknown(|u|) ==>
              DecodeList(l, u + b, at) == DecodeList(l, b, at + |u|)
  {
    hide NextToken;
    assert (u + b)[|u|..] == b;
  }

  lemma NodeSkipInserted(n: NodeValue, a: seq<byte>, u: seq<byte>, b: seq<byte>)
    requires u != [] && DecodeNode(n, a, 0).Decoded?
    requires NextToken(u + b, |a|, NODE_NUMBERS) == Unknown(|u|)
    ensures DecodeNode(n, a + (u + b), 0) == DecodeNode(DecodeNode(n, a, 0).message, b, |a| + |u|)
  {
    hide NextToken, DecodeNode, DecodeList;
    var m := DecodeNode(n, a, 0).message;
    NodeConcat(n, a, u + b, 0);
    UnknownStep(m, ZERO_LIST, u, b, |a|);
  }

  lemma NodeInsert(n: NodeValue, a: seq<byte>, u: seq<byte>, b: seq<byte>)
    requires u != [] && |a| + |u| + |b| <= MAX_INT && DecodeNode(n, a, 0).Decoded?
    requires NextToken(u + b, |a|, NODE_NUMBERS) == Unknown(|u|)
    ensures SameOutcome(DecodeNode(n, a + (u + b), 0), DecodeNode(n, a + b, 0))
  {
    hide NextToken, DecodeNode, DecodeList, SameOutcome;
    NodeSkipInserted(n, a, u, b);
    NodeConcat(n, a, b, 0);
    NodeShift(DecodeNode(n, a, 0).message, b, |a| + |u|, |a|);
  }

  lemma ListSkipInserted(l: NodeListValue, a: seq<byte>, u: seq<byte>, b: seq<byte>)
    requires u != [] && DecodeList(l, a, 0).Decoded?
    requires NextToken(u + b, |a|, LIST_NUMBERS) == Unknown(|u|)
    ensures DecodeList(l, a + (u + b), 0) == DecodeList(DecodeList(l, a, 0).message, b, |a| + |u|)
  {
    hide NextToken, DecodeNode, DecodeList;
    var m := DecodeList(l, a, 0).message;
    ListConcat(l, a, u + b, 0);
    UnknownStep(ZERO_NODE, m, u, b, |a|);
  }

  lemma ListInsert(l: NodeListValue, a: seq<byte>, u: seq<byte>, b: seq<byte>)
    requires u != [] && |a| + |u| + |b| <= MAX_INT && DecodeList(l, a, 0).Decoded?
    requires NextToken(u + b, |a|, LIST_NUMBERS) == Unknown(|u|)
    ensures SameOutcome(DecodeList(l, a + (u + b), 0), DecodeList(l, a + b, 0))
  {
    hide NextToken, DecodeNode, DecodeList, SameOutcome;
    ListSkipInserted(l, a, u, b);
    ListConcat(l, a, b, 0);
    ListShift(DecodeList(l, a, 0).message, b, |a| + |u|, |a|);
  }

  // Inserting a well-formed field with a foreign number at any field boundary
  // of any byte string, decodable or not after it, changes nothing.
  lemma NodeIgnoresUnknown(n: NodeValue, a: seq<byte>, f: Field, b: seq<byte>)
    requires WellFormed(f) && f.num !in NODE_NUMBERS && f.num != BLOCK_FIELD
    requires DecodeNode(n, a, 0).Decoded? && |a| + |EncodeField(f)| + |b| <= MAX_INT
    ensures SameOutcome(DecodeNode(n, a + (EncodeField(f) + b), 0), DecodeNode(n, a + b, 0))
  {
    hide NextToken, EncodeField, DecodeNode, WellFormed, SameOutcome;
    UnknownToken(f, b, |a|, NODE_NUMBERS);
    NodeInsert(n, a, EncodeField(f), b);
  }

  lemma ListIgnoresUnknown(l: NodeListValue, a: seq<byte>, f: Field, b: seq<byte>)
    requires WellFormed(f) && f.num !in LIST_NUMBERS && f.num != BLOCK_FIELD
    requires DecodeList(l, a, 0).Decoded? && |a| + |EncodeField(f)| + |b| <= MAX_INT
    ensures SameOutcome(DecodeList(l, a + (EncodeField(f) + b), 0), DecodeList(l, a + b, 0))
  {
    hide NextToken, EncodeField, DecodeList, WellFormed, SameOutcome;
    UnknownToken(f, b, |a|, LIST_NUMBERS);
    ListInsert(l, a, EncodeField(f), b);
  }
}
