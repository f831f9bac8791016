// Record references (reference/local.go, reference/global.go): a local address
// and a base address, each a 32-bit pulse-and-scope word and a 28-byte hash.
module References {
  import opened Words

  const LOCAL_SIZE := 32
  const GLOBAL_SIZE := 64

  const ZERO_HASH: seq<byte> := [0, 0, 0, 0, 0, 0, 0, 0, 0, 0, 0, 0, 0, 0, 0, 0, 0, 0, 0, 0, 0, 0, 0, 0, 0, 0, 0, 0]

  type Hash = h: seq<byte> | |h| == 28 witness ZERO_HASH

  datatype Local = Local(pulseAndScope: uint32, hash: Hash) {
    predicate IsEmpty() {
      pulseAndScope == 0
    }

    // The scope sits in the two top bits.
    function Scope(): nat {
      pulseAndScope / 0x4000_0000
    }

    function Bytes(): (b: seq<byte>)
      ensures |b| == LOCAL_SIZE
    {
      [pulseAndScope / 0x100_0000, pulseAndScope / 0x1_0000 % 256, pulseAndScope / 256 % 256, pulseAndScope % 256]
      + hash
    }
  }

  datatype Reference = Reference(local: Local, base: Local) {
    predicate IsEmpty() {
      local.IsEmpty() && base.IsEmpty()
    }

    predicate IsRecordScope() {
      base.IsEmpty() && !local.IsEmpty() && local.Scope() == 0
    }

    predicate IsObjectReference() {
      !base.IsEmpty() && !local.IsEmpty() && local.Scope() == 0
    }

    function Bytes(): (b: seq<byte>)
      ensures |b| == GLOBAL_SIZE
    {
      local.Bytes() + base.Bytes()
    }
  }

  const EMPTY_LOCAL := Local(0, ZERO_HASH)
  const EMPTY := Reference(EMPTY_LOCAL, EMPTY_LOCAL)

  // Big-endian, as byteOrder in reference/local.go.
  function LocalFromBytes(b: seq<byte>): Local
    requires |b| >= LOCAL_SIZE
  {
    var b0: int, b1: int, b2: int, b3: int := b[0], b[1], b[2], b[3];
    Local(b0 * 0x100_0000 + b1 * 0x1_0000 + b2 * 256 + b3, b[4..LOCAL_SIZE])
  }

  // The layout: local before base, each a big-endian word before its hash.
  lemma Layout(r: Reference)
    ensures r.Bytes()[..LOCAL_SIZE] == r.local.Bytes() && r.Bytes()[LOCAL_SIZE..] == r.base.Bytes()
    ensures var b := r.local.Bytes();
            var b0: int, b1: int, b2: int, b3: int := b[0], b[1], b[2], b[3];
            ((b0 * 256 + b1) * 256 + b2) * 256 + b3 == r.local.pulseAndScope && b[4..] == r.local.hash
  {
    var b := r.local.Bytes();
    BigEndian(r.local.pulseAndScope);
    assert b[4..] == r.local.hash;
  }

  // Unmarshalling needs 64 bytes and ignores whatever follows them.
  function FromBytes(b: seq<byte>): Reference
    requires |b| >= GLOBAL_SIZE
  {
    Reference(LocalFromBytes(b), LocalFromBytes(b[LOCAL_SIZE..]))
  }

  lemma LocalRoundTrip(l: Local, rest: seq<byte>)
    ensures LocalFromBytes(l.Bytes() + rest) == l
  {
    var b := l.Bytes() + rest;
    assert b[4..LOCAL_SIZE] == l.hash;
    BigEndian(l.pulseAndScope);
  }

  lemma BigEndian(w: uint32)
    ensures w / 0x100_0000 * 0x100_0000 + w / 0x1_0000 % 256 * 0x1_0000 + w / 256 % 256 * 256 + w % 256 == w
  {
    var c, b, a := w / 256, w / 0x1_0000, w / 0x100_0000;
    assert w == 256 * c + w % 256;
    assert b == c / 256 && c == 256 * b + c % 256;
    assert a == b / 256 && b == 256 * a + b % 256;
  }

  lemma RoundTrip(r: Reference, rest: seq<byte>)
    ensures FromBytes(r.Bytes() + rest) == r
  {
    var b := r.Bytes() + rest;
    assert b == r.local.Bytes() + (r.base.Bytes() + rest);
    assert b[LOCAL_SIZE..] == r.base.Bytes() + rest;
    LocalRoundTrip(r.local, r.base.Bytes() + rest);
    LocalRoundTrip(r.base, rest);
  }
}
