// Message structure on the wire (Protocol Buffers Encoding specification,
// sections "Message Structure" and "Length-Delimited Records"): tags, the
// skipper for fields nobody knows, and the field a decoder sees next.
module Wire {
  import opened Words
  import opened Varint

  datatype Skipped = Skipped(size: nat) | SkipFailed(error: Error)

  // The two parts of a tag, after its varint was truncated to 64 bits.
  function WireType(raw: nat): (w: nat)
    ensures w < 8
  {
    raw % TWO_64 % 8
  }

  function FieldNum(raw: nat): int32 {
    ToInt32(raw % TWO_64 / 8)
  }

  // skipNode: the length of the field at the front of d. The original panics on
  // an empty slice; all of its calls pass at least one byte. The length it
  // returns may exceed |d|; that is for the caller to check.
  function SkipField(d: seq<byte>): (r: Skipped)
    requires d != []
    ensures r.Skipped? ==> r.size >= 1
    decreases |d|, 0
  {
    match Parse(d)
    case Failed(e) => SkipFailed(e)
    case Parsed(raw, n) => SkipBody(WireType(raw), d[n..], n)
  }

  // The switch over the wire type, with n bytes of tag read and d after them.
  function SkipBody(wireType: nat, d: seq<byte>, n: nat): (r: Skipped)
    requires n >= 1
    ensures r.Skipped? ==> r.size >= 1
    decreases |d|, 2
  {
    match wireType
    case 0 =>
      (match Parse(d)
       case Failed(e) => SkipFailed(e)
       case Parsed(_, m) => Skipped(n + m))
    case 1 => Skipped(n + 8)
    case 2 =>
      (match Parse(d)
       case Failed(e) => SkipFailed(e)
       case Parsed(v, m) =>
         var length := ToInt64(v);
         if length < 0 || n + m + length > MAX_INT then SkipFailed(InvalidLength) else Skipped(n + m + length))
    case 3 =>
      (match SkipGroup(d, n)
       case SkipFailed(e) => SkipFailed(e)
       case Skipped(m) => Skipped(n + m))
    case 4 => Skipped(n)
    case 5 => Skipped(n + 4)
    case _ => SkipFailed(IllegalWireType)
  }

  // The loop of the group case: d is what remains of the slice, `at` the index
  // reached in it. Fields are skipped up to the first end-group tag, whatever
  // field number that tag carries.
  function SkipGroup(d: seq<byte>, at: nat): (r: Skipped)
    ensures r.Skipped? ==> r.size >= 1
    decreases |d|, 1
  {
    match Parse(d)
    case Failed(e) => SkipFailed(e)
    case Parsed(raw, n) =>
      if WireType(raw) == 4 then Skipped(n)
      else match SkipField(d)
        case SkipFailed(e) => SkipFailed(e)
        case Skipped(m) =>
          if at + m > MAX_INT then SkipFailed(InvalidLength)
          else if m > |d| then SkipFailed(UnexpectedEOF)
          else match SkipGroup(d[m..], at + m)
            case SkipFailed(e) => SkipFailed(e)
            case Skipped(k) => Skipped(m + k)
  }

  // ----- Well-formed fields

  datatype Field =
    | VarintField(num: nat, value: uint64)
    | Fixed64Field(num: nat, bytes: seq<byte>)
    | BytesField(num: nat, bytes: seq<byte>)
    | GroupField(num: nat, fields: seq<Field>)
    | Fixed32Field(num: nat, bytes: seq<byte>)

  predicate WellFormed(f: Field) {
    && 1 <= f.num < 0x2000_0000
    && match f
       case VarintField(_, _) => true
       case Fixed64Field(_, b) => |b| == 8
       case BytesField(_, b) => |b| <= MAX_INT
       case GroupField(_, fs) => AllWellFormed(fs)
       case Fixed32Field(_, b) => |b| == 4
  }

  predicate AllWellFormed(fs: seq<Field>) {
    fs == [] || (WellFormed(fs[0]) && AllWellFormed(fs[1..]))
  }

  function Tag(num: nat, wireType: nat): seq<byte> {
    Encode(8 * num + wireType)
  }

  function WireTypeOf(f: Field): nat {
    match f
    case VarintField(_, _) => 0
    case Fixed64Field(_, _) => 1
    case BytesField(_, _) => 2
    case GroupField(_, _) => 3
    case Fixed32Field(_, _) => 5
  }

  function EncodeField(f: Field): seq<byte>
    decreases f, 1
  {
    Tag(f.num, WireTypeOf(f)) + EncodeBody(f)
  }

  function EncodeBody(f: Field): seq<byte>
    decreases f, 0
  {
    match f
    case VarintField(_, v) => Encode(v)
    case Fixed64Field(_, b) => b
    case BytesField(_, b) => Encode(|b|) + b
    case GroupField(num, fs) => EncodeFields(fs) + Tag(num, 4)
    case Fixed32Field(_, b) => b
  }

  function EncodeFields(fs: seq<Field>): seq<byte>
    decreases fs, 2
  {
    if fs == [] then [] else EncodeField(fs[0]) + EncodeFields(fs[1..])
  }

  lemma TagParts(num: nat, wireType: nat)
    requires 1 <= num < 0x2000_0000 && wireType < 8
    ensures WireType(8 * num + wireType) == wireType && FieldNum(8 * num + wireType) == num
  {
    assert (8 * num + wireType) % TWO_64 == 8 * num + wireType;
    assert (8 * num + wireType) / 8 == num;
  }

  // A printed tag is read back as its field number and wire type.
  lemma TagRoundTrip(num: nat, wireType: nat, rest: seq<byte>)
    requires 1 <= num < 0x2000_0000 && wireType < 8
    ensures Parse(Tag(num, wireType) + rest) == Parsed(8 * num + wireType, |Tag(num, wireType)|)
    ensures (Tag(num, wireType) + rest)[|Tag(num, wireType)|..] == rest
    ensures WireType(8 * num + wireType) == wireType && FieldNum(8 * num + wireType) == num
  {
    TagParts(num, wireType);
    Varint.RoundTrip(8 * num + wireType, rest);
  }

  // Skipping a well-formed field, however deep its groups nest, gives exactly
  // its length, whatever bytes follow.
  lemma {:induction false} SkipExact(f: Field, rest: seq<byte>)
    requires WellFormed(f) && |EncodeField(f)| <= MAX_INT
    ensures SkipField(EncodeField(f) + rest) == Skipped(|EncodeField(f)|)
    decreases f, 1
  {
    hide SkipBody, Parse, EncodeBody, Encode;
    var t := Tag(f.num, WireTypeOf(f));
    assert EncodeField(f) + rest == t + (EncodeBody(f) + rest);
    TagRoundTrip(f.num, WireTypeOf(f), EncodeBody(f) + rest);
    SkipBodyExact(f, rest, |t|);
  }

  lemma {:induction false} SkipBodyExact(f: Field, rest: seq<byte>, n: nat)
    requires WellFormed(f) && n >= 1 && n + |EncodeBody(f)| <= MAX_INT
    ensures SkipBody(WireTypeOf(f), EncodeBody(f) + rest, n) == Skipped(n + |EncodeBody(f)|)
    decreases f, 0
  {
    hide Parse, SkipField, SkipGroup, EncodeFields, Encode;
    match f
    case VarintField(_, v) =>
      Varint.RoundTrip(v, rest);
    case Fixed64Field(_, _) =>
    case BytesField(_, b) =>
      assert EncodeBody(f) + rest == Encode(|b|) + (b + rest);
      Varint.RoundTrip(|b|, b + rest);
    case GroupField(num, fs) =>
      SkipGroupExact(fs, num, rest, n);
    case Fixed32Field(_, _) =>
  }

  lemma {:induction false} SkipGroupExact(fs: seq<Field>, num: nat, rest: seq<byte>, at: nat)
    requires AllWellFormed(fs) && 1 <= num < 0x2000_0000
    requires at + |EncodeFields(fs)| + |Tag(num, 4)| <= MAX_INT
    ensures SkipGroup(EncodeFields(fs) + Tag(num, 4) + rest, at) == Skipped(|EncodeFields(fs)| + |Tag(num, 4)|)
    decreases fs, 2
  {
    hide SkipField, SkipBody, Parse, EncodeField;
    var end := Tag(num, 4);
    if fs == [] {
      assert EncodeFields(fs) + end + rest == end + rest;
      TagRoundTrip(num, 4, rest);
    } else {
      var front, tail := EncodeField(fs[0]), EncodeFields(fs[1..]) + end + rest;
      assert EncodeFields(fs) + end + rest == front + tail by { Regroup(front, EncodeFields(fs[1..]), end, rest); }
      FieldFront(fs[0], tail);
      SkipExact(fs[0], tail);
      SkipGroupExact(fs[1..], num, rest, at + |front|);
      SkipGroupStep(front + tail, tail, |front|, at);
    }
  }

  lemma Regroup(a: seq<byte>, b: seq<byte>, c: seq<byte>, d: seq<byte>)
    ensures (a + b) + c + d == a + (b + c + d)
  {
  }

  // The tag at the front of a field is not an end-group tag.
  lemma FieldFront(f: Field, tail: seq<byte>)
    requires WellFormed(f)
    ensures EncodeField(f) != []
    ensures (EncodeField(f) + tail)[|EncodeField(f)|..] == tail
    ensures Parse(EncodeField(f) + tail).Parsed? && WireType(Parse(EncodeField(f) + tail).value) != 4
  {
    hide Parse, Encode, EncodeBody;
    assert EncodeField(f) + tail == Tag(f.num, WireTypeOf(f)) + (EncodeBody(f) + tail);
    TagRoundTrip(f.num, WireTypeOf(f), EncodeBody(f) + tail);
  }

  lemma SkipGroupStep(d: seq<byte>, tail: seq<byte>, m: nat, at: nat)
    requires m <= |d| && d[m..] == tail && at + m <= MAX_INT
    requires Parse(d).Parsed? && WireType(Parse(d).value) != 4 && SkipField(d) == Skipped(m)
    requires SkipGroup(tail, at + m).Skipped?
    ensures SkipGroup(d, at) == Skipped(m + SkipGroup(tail, at + m).size)
  {
    hide SkipField, Parse;
  }

  // A successful skip does not depend on the bytes after the slice.
  lemma {:induction false} SkipStable(d: seq<byte>, x: seq<byte>)
    requires d != [] && SkipField(d).Skipped?
    ensures SkipField(d + x) == SkipField(d)
    decreases |d|, 0
  {
    hide Parse, SkipBody;
    var n := Parse(d).size;
    ParseStable(d, x);
    assert (d + x)[n..] == d[n..] + x;
    SkipBodyStable(WireType(Parse(d).value), d[n..], x, n);
  }

  lemma {:induction false} SkipBodyStable(wireType: nat, d: seq<byte>, x: seq<byte>, n: nat)
    requires n >= 1 && SkipBody(wireType, d, n).Skipped?
    ensures SkipBody(wireType, d + x, n) == SkipBody(wireType, d, n)
    decreases |d|, 2
  {
    hide Parse, SkipGroup;
    if wireType == 0 || wireType == 2 {
      ParseStable(d, x);
    } else if wireType == 3 {
      SkipGroupStable(d, x, n);
    }
  }

  lemma {:induction false} SkipGroupStable(d: seq<byte>, x: seq<byte>, at: nat)
    requires SkipGroup(d, at).Skipped?
    ensures SkipGroup(d + x, at) == SkipGroup(d, at)
    decreases |d|, 1
  {
    hide SkipField, Parse;
    ParseStable(d, x);
    if WireType(Parse(d).value) != 4 {
      var m := SkipField(d).size;
      SkipStable(d, x);
      DropOfSum(d, x, m);
      SkipGroupStable(d[m..], x, at + m);
      SkipGroupStep(d + x, d[m..] + x, m, at);
    }
  }

  lemma DropOfSum(d: seq<byte>, x: seq<byte>, n: nat)
    requires n <= |d|
    ensures (d + x)[n..] == d[n..] + x
  {
  }

  // ----- The next field a decoder sees

  // What the body of a decoding loop finds at the front of d: a number (all the
  // number fields of these messages are 32 bits wide), a length-delimited block,
  // or a field to skip. `at` is the index reached, which only decides which error
  // an overlong length is reported as.
  datatype Token =
    | Number(num: int32, value: uint32, size: nat)
    | Block(num: int32, block: seq<byte>, size: nat)
    | Unknown(size: nat)
    | Bad(error: Error)

  const BLOCK_FIELD: int32 := 20

  function NextToken(d: seq<byte>, at: nat, numbers: set<int32>): (r: Token)
    requires d != []
    ensures !r.Bad? ==> 1 <= r.size <= |d|
    ensures r.Block? ==> |r.block| < |d|
  {
    match Parse(d)
    case Failed(e) => Bad(e)
    case Parsed(raw, t) => TokenOf(d, at, numbers, FieldNum(raw), WireType(raw), t)
  }

  // The same after the tag, which took t bytes.
  function TokenOf(d: seq<byte>, at: nat, numbers: set<int32>, num: int32, wireType: nat, t: nat): (r: Token)
    requires 1 <= t <= |d|
    ensures !r.Bad? ==> 1 <= r.size <= |d|
    ensures r.Block? ==> |r.block| < |d|
  {
    if wireType == 4 then Bad(EndGroup)
    else if num <= 0 then Bad(IllegalTag)
    else if num in numbers then
      if wireType != 0 then Bad(WrongWireType)
      else match Parse(d[t..])
        case Failed(e) => Bad(e)
        case Parsed(v, m) => Number(num, v % TWO_32, t + m)
    else if num == BLOCK_FIELD then
      if wireType != 2 then Bad(WrongWireType)
      else match Parse(d[t..])
        case Failed(e) => Bad(e)
        case Parsed(v, m) =>
          var length := ToInt64(v);
          if length < 0 || at + t + m + length > MAX_INT then Bad(InvalidLength)
          else if t + m + length > |d| then Bad(UnexpectedEOF)
          else Block(num, d[t + m..t + m + length], t + m + length)
    else
      match SkipField(d)
      case SkipFailed(e) => Bad(e)
      case Skipped(k) =>
        if at + k > MAX_INT then Bad(InvalidLength)
        else if k > |d| then Bad(UnexpectedEOF)
        else Unknown(k)
  }

  lemma TokenStable(d: seq<byte>, x: seq<byte>, at: nat, numbers: set<int32>)
    requires d != [] && !NextToken(d, at, numbers).Bad?
    ensures NextToken(d + x, at, numbers) == NextToken(d, at, numbers)
  {
    hide SkipField, Parse;
    ParseStable(d, x);
    var t := Parse(d).size;
    assert (d + x)[t..] == d[t..] + x;
    match NextToken(d, at, numbers)
    case Number(_, _, _) =>
      ParseStable(d[t..], x);
    case Block(_, block, size) =>
      ParseStable(d[t..], x);
      var m := Parse(d[t..]).size;
      assert (d + x)[t + m..size] == d[t + m..size];
    case Unknown(_) =>
      SkipStable(d, x);
  }

  // The index decides nothing but the kind of an error.
  lemma TokenShift(d: seq<byte>, at: nat, at': nat, numbers: set<int32>)
    requires d != [] && at + |d| <= MAX_INT && at' + |d| <= MAX_INT
    ensures NextToken(d, at, numbers) == NextToken(d, at', numbers)
         || (NextToken(d, at, numbers).Bad? && NextToken(d, at', numbers).Bad?)
  {
  }

  // A well-formed field with a foreign number is one Unknown token.
  lemma UnknownToken(f: Field, rest: seq<byte>, at: nat, numbers: set<int32>)
    requires WellFormed(f) && f.num !in numbers && f.num != BLOCK_FIELD
    requires at + |EncodeField(f)| <= MAX_INT
    ensures EncodeField(f) != []
    ensures NextToken(EncodeField(f) + rest, at, numbers) == Unknown(|EncodeField(f)|)
  {
    hide NextToken, SkipField, Parse, Encode, EncodeBody;
    SkipExact(f, rest);
    TagRoundTrip(f.num, WireTypeOf(f), EncodeBody(f) + rest);
    assert EncodeField(f) + rest == Tag(f.num, WireTypeOf(f)) + (EncodeBody(f) + rest);
    UnknownTokenOf(EncodeField(f) + rest, f.num, WireTypeOf(f), |EncodeField(f)|, at, numbers);
  }

  lemma UnknownTokenOf(d: seq<byte>, num: nat, wireType: nat, k: nat, at: nat, numbers: set<int32>)
    requires 1 <= num < 0x2000_0000 && wireType < 8 && wireType != 4
    requires num !in numbers && num != BLOCK_FIELD
    requires d != [] && k <= |d| && at + k <= MAX_INT && SkipField(d) == Skipped(k)
    requires Parse(d).Parsed? && FieldNum(Parse(d).value) == num && WireType(Parse(d).value) == wireType
    ensures NextToken(d, at, numbers) == Unknown(k)
  {
    hide SkipField, Parse;
  }

  // ----- The skipper as the original's loops

  method SkipNode(data: seq<byte>) returns (n: nat, error: bool, kind: Error)
    requires data != []
    ensures error <==> SkipField(data).SkipFailed?
    ensures error ==> kind == SkipField(data).error
    ensures !error ==> n == SkipField(data).size
    decreases |data|, 1
  {
    hide Parse, SkipGroup, WireType, ToInt64;
    var wire, index;
    assert data[0..] == data;
    wire, index, error, kind := DecodeVarint(data, 0, TWO_64);
    if error { return 0, true, kind; }
    var wireType := wire % 8;
    WireTypeOfWord(Parse(data).value);
    match wireType {
      case 0 =>
        var _, next, failed, why := DecodeVarint(data, index, TWO_64);
        return next, failed, why;
      case 1 =>
        return index + 8, false, kind;
      case 2 =>
        var length, next, failed, why := DecodeVarint(data, index, TWO_64);
        if failed { return 0, true, why; }
        var signed := ToInt64(length);
        Int64OfWord(Parse(data[index..]).value);
        if signed < 0 || next + signed > MAX_INT { return 0, true, InvalidLength; }
        return next + signed, false, kind;
      case 3 =>
        n, error, kind := SkipGroupNode(data, index);
      case 4 =>
        return index, false, kind;
      case 5 =>
        return index + 4, false, kind;
      case _ =>
        return 0, true, IllegalWireType;
    }
  }

  // The loop of case 3, started at the index behind the start-group tag.
  method SkipGroupNode(data: seq<byte>, index0: nat) returns (index: nat, error: bool, kind: Error)
    requires 1 <= index0 <= |data|
    ensures error <==> SkipGroup(data[index0..], index0).SkipFailed?
    ensures error ==> kind == SkipGroup(data[index0..], index0).error
    ensures !error ==> index == index0 + SkipGroup(data[index0..], index0).size
    decreases |data|, 0
  {
    hide Parse, SkipField, SkipGroup, WireType;
    ghost var whole := SkipGroup(data[index0..], index0);
    index := index0;
    while true
      invariant index0 <= index
      invariant whole == GroupRest(data, index0, index)
      decreases |data| - index
    {
      var start := index;
      if index > |data| { return 0, true, UnexpectedEOF; }
      var innerWire, next, failed, why := DecodeVarint(data, index, TWO_64);
      if failed { GroupRestFailed(data, index0, start); return 0, true, why; }
      WireTypeOfWord(Parse(data[start..]).value);
      if innerWire % 8 == 4 {
        GroupRestEnd(data, index0, start);
        return next, false, UnexpectedEOF;
      }
      var inner, innerFailed, innerWhy := SkipNode(data[start..]);
      if innerFailed { GroupRestFailed(data, index0, start); return 0, true, innerWhy; }
      index := start + inner;
      if index > MAX_INT { GroupRestFailed(data, index0, start); return 0, true, InvalidLength; }
      GroupRestStep(data, index0, start, inner);
    }
  }

  // The result of the whole loop, seen from a later index.
  function GroupRest(data: seq<byte>, index0: nat, index: nat): Skipped
    requires index0 <= index
  {
    if index > |data| then SkipFailed(UnexpectedEOF)
    else match SkipGroup(data[index..], index)
      case SkipFailed(e) => SkipFailed(e)
      case Skipped(m) => Skipped(index - index0 + m)
  }

  lemma GroupRestStep(data: seq<byte>, index0: nat, start: nat, inner: nat)
    requires index0 <= start < |data| && start + inner <= MAX_INT
    requires Parse(data[start..]).Parsed? && WireType(Parse(data[start..]).value) != 4
    requires SkipField(data[start..]) == Skipped(inner)
    ensures GroupRest(data, index0, start) == GroupRest(data, index0, start + inner)
  {
    hide SkipField, Parse;
    if start + inner <= |data| {
      assert data[start..][inner..] == data[start + inner..];
    }
  }

  lemma GroupRestEnd(data: seq<byte>, index0: nat, start: nat)
    requires index0 <= start <= |data|
    requires Parse(data[start..]).Parsed? && WireType(Parse(data[start..]).value) == 4
    ensures GroupRest(data, index0, start) == Skipped(start - index0 + Parse(data[start..]).size)
  {
    hide SkipField, Parse;
  }

  lemma GroupRestFailed(data: seq<byte>, index0: nat, start: nat)
    requires index0 <= start <= |data|
    ensures Parse(data[start..]).Failed? ==> GroupRest(data, index0, start) == SkipFailed(Parse(data[start..]).error)
    ensures Parse(data[start..]).Parsed? && WireType(Parse(data[start..]).value) != 4 ==>
              match SkipField(data[start..])
              case SkipFailed(e) => GroupRest(data, index0, start) == SkipFailed(e)
              case Skipped(m) => start + m > MAX_INT ==> GroupRest(data, index0, start) == SkipFailed(InvalidLength)
  {
    hide SkipField, Parse;
  }

  lemma WireTypeOfWord(raw: nat)
    ensures WireType(raw) == raw % TWO_64 % 8
  {
  }

  lemma Int64OfWord(raw: nat)
    ensures ToInt64(raw % TWO_64) == ToInt64(raw)
  {
  }
}
