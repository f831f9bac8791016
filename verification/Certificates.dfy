// The network part of a certificate as text (certificate/certificate.go): it
// must not depend on the order in which the bootstrap nodes are listed.
module Certificates {
  import opened Words

  // Strings are compared byte by byte, as sort.Strings does.
  predicate Leq(a: string, b: string) {
    a == [] || (b != [] && (a[0] < b[0] || (a[0] == b[0] && Leq(a[1..], b[1..]))))
  }

  lemma {:induction false} LeqTotal(a: string, b: string)
    ensures Leq(a, b) || Leq(b, a)
    ensures Leq(a, b) && Leq(b, a) ==> a == b
  {
    if a != [] && b != [] && a[0] == b[0] {
      LeqTotal(a[1..], b[1..]);
      assert a == [a[0]] + a[1..] && b == [b[0]] + b[1..];
    }
  }

  lemma {:induction false} LeqTransitive(a: string, b: string, c: string)
    requires Leq(a, b) && Leq(b, c)
    ensures Leq(a, c)
  {
    if a != [] && a[0] == b[0] && b[0] == c[0] {
      LeqTransitive(a[1..], b[1..], c[1..]);
    }
  }

  predicate Sorted(s: seq<string>) {
    forall i, j :: 0 <= i < j < |s| ==> Leq(s[i], s[j])
  }

  lemma HeadIsLeast(s: seq<string>, x: string)
    requires Sorted(s) && x in multiset(s)
    ensures s != [] && Leq(s[0], x)
  {
    var i :| 0 <= i < |s| && s[i] == x;
    LeqTotal(s[0], s[0]);
  }

  lemma TailOf<T>(s: seq<T>)
    requires s != []
    ensures multiset(s[1..]) == multiset(s) - multiset{s[0]} && s[0] in multiset(s)
  {
    assert s == [s[0]] + s[1..];
  }

  // A list has one sorted permutation: two sorted lists with the same strings
  // are equal. So it does not matter how sort.Strings works inside.
  lemma {:induction false} SortedUnique(s: seq<string>, t: seq<string>)
    requires Sorted(s) && Sorted(t) && multiset(s) == multiset(t)
    ensures s == t
  {
    hide Leq;
    assert |s| == |multiset(s)| == |multiset(t)| == |t|;
    if s == [] {
    } else {
      TailOf(s);
      TailOf(t);
      HeadIsLeast(s, t[0]);
      HeadIsLeast(t, s[0]);
      LeqTotal(s[0], t[0]);
      SortedUnique(s[1..], t[1..]);
      assert s == [s[0]] + s[1..] && t == [t[0]] + t[1..];
    }
  }

  datatype BootstrapNode = BootstrapNode(publicKey: string, host: string, nodeRef: string, nodeRole: string)

  function NodeText(n: BootstrapNode): string {
    n.publicKey + n.nodeRef + n.host + n.nodeRole
  }

  function Texts(nodes: seq<BootstrapNode>): (t: seq<string>)
    ensures |t| == |nodes|
  {
    seq(|nodes|, i requires 0 <= i < |nodes| => NodeText(nodes[i]))
  }

  function Join(parts: seq<string>): string {
    if parts == [] then "" else parts[0] + Join(parts[1..])
  }

  // strconv.Itoa
  function Itoa(n: int): string {
    if n < 0 then "-" + Digits(-n) else Digits(n)
  }

  function Digits(n: nat): string {
    if n < 10 then ["0123456789"[n]] else Digits(n / 10) + ["0123456789"[n % 10]]
  }

  lemma NodesAreListed(nodes: seq<BootstrapNode>, texts: seq<string>)
    requires multiset(texts) == multiset(Texts(nodes))
    ensures |texts| == |nodes|
    ensures forall n :: n in nodes ==> n.publicKey + n.nodeRef + n.host + n.nodeRole in texts
  {
    assert |multiset(texts)| == |texts| && |multiset(Texts(nodes))| == |Texts(nodes)|;
    forall n | n in nodes ensures n.publicKey + n.nodeRef + n.host + n.nodeRole in texts {
      var i :| 0 <= i < |nodes| && nodes[i] == n;
      assert Texts(nodes)[i] in multiset(texts);
    }
  }

  // ----- What the pieces of the text are

  // The usual dictionary order: a prefix comes first, otherwise the first
  // difference decides.
  lemma {:induction false} LeqIsLexicographic(a: string, b: string)
    ensures Leq(a, b) <==> a <= b || exists k :: 0 <= k < |a| && k < |b| && a[..k] == b[..k] && a[k] < b[k]
  {
    if a == [] || b == [] {
    } else if a[0] != b[0] {
      if a[0] < b[0] { assert a[..0] == b[..0]; }
      assert forall k :: 0 < k < |a| && k < |b| ==> a[..k][0] == a[0] && b[..k][0] == b[0];
    } else {
      LeqIsLexicographic(a[1..], b[1..]);
      PrefixOfTail(a, b);
      DifferenceOfTail(a, b);
    }
  }

  lemma PrefixOfTail(a: string, b: string)
    requires a != [] && b != [] && a[0] == b[0]
    ensures a <= b <==> a[1..] <= b[1..]
  {
    if a[1..] <= b[1..] { assert a == [a[0]] + a[1..] && b == [b[0]] + b[1..]; }
    if a <= b { assert b[..|a|] == a; }
  }

  lemma DifferenceOfTail(a: string, b: string)
    requires a != [] && b != [] && a[0] == b[0]
    ensures (exists k :: 0 <= k < |a| && k < |b| && a[..k] == b[..k] && a[k] < b[k]) <==>
              exists k :: 0 <= k < |a[1..]| && k < |b[1..]| && a[1..][..k] == b[1..][..k] && a[1..][k] < b[1..][k]
  {
    if k :| 0 <= k < |a| && k < |b| && a[..k] == b[..k] && a[k] < b[k] {
      assert a[1..][..k - 1] == a[..k][1..] && b[1..][..k - 1] == b[..k][1..];
      assert a[1..][k - 1] < b[1..][k - 1];
    }
    if k :| 0 <= k < |a[1..]| && k < |b[1..]| && a[1..][..k] == b[1..][..k] && a[1..][k] < b[1..][k] {
      assert a[..k + 1] == [a[0]] + a[1..][..k] && b[..k + 1] == [b[0]] + b[1..][..k];
      assert a[k + 1] < b[k + 1];
    }
  }

  function DigitValue(c: char): int {
    c as int - '0' as int
  }

  // The number a decimal text stands for.
  function Number(s: string): int {
    if s == [] then 0
    else if s[0] == '-' then -Natural(s[1..]) else Natural(s)
  }

  function Natural(s: string): int {
    if s == [] then 0 else 10 * Natural(s[..|s| - 1]) + DigitValue(s[|s| - 1])
  }

  lemma {:induction false} DigitsReadBack(n: nat)
    ensures Natural(Digits(n)) == n && Digits(n) != [] && '0' <= Digits(n)[0] <= '9'
  {
    if n < 10 {
      assert Digits(n)[..0] == [];
    } else {
      DigitsReadBack(n / 10);
      assert Digits(n)[..|Digits(n)| - 1] == Digits(n / 10);
    }
  }

  // The decimal text of a number stands for it.
  lemma ItoaReadsBack(n: int)
    ensures Number(Itoa(n)) == n
  {
    hide Natural, Digits;
    if n < 0 {
      DigitsReadBack(-n);
      assert Itoa(n)[1..] == Digits(-n);
    } else {
      DigitsReadBack(n);
    }
  }

  // The texts follow each other with nothing in between.
  lemma {:induction false} JoinConcatenates(a: seq<string>, x: string, b: seq<string>)
    ensures Join(a + [x] + b) == Join(a) + x + Join(b)
  {
    if a == [] {
      assert [] + [x] + b == [x] + b && ([x] + b)[1..] == b;
    } else {
      JoinConcatenates(a[1..], x, b);
      assert (a + [x] + b)[1..] == a[1..] + [x] + b;
    }
  }

  class Certificate {
    var majorityRule: int64
    var minVirtual: uint64
    var minHeavyMaterial: uint64
    var minLightMaterial: uint64
    var bootstrapNodes: seq<BootstrapNode>

    constructor (rule: int64, virtual: uint64, heavy: uint64, light: uint64, nodes: seq<BootstrapNode>)
      ensures majorityRule == rule && minVirtual == virtual && minHeavyMaterial == heavy && minLightMaterial == light
      ensures bootstrapNodes == nodes
    {
      majorityRule, minVirtual, minHeavyMaterial, minLightMaterial := rule, virtual, heavy, light;
      bootstrapNodes := nodes;
    }

    // int(uint) keeps the 64 bits, so a huge minimum is printed negative.
    function Header(): string
      reads this
    {
      Itoa(majorityRule) + Itoa(ToInt64(minVirtual))
      + Itoa(ToInt64(minHeavyMaterial)) + Itoa(ToInt64(minLightMaterial))
    }

    method SerializeNetworkPart() returns (out: string)
      ensures exists nodes: seq<string> :: Sorted(nodes) && multiset(nodes) == multiset(Texts(bootstrapNodes))
                                        && out == Header() + Join(nodes)
      ensures exists nodes: seq<string> ::
                && Sorted(nodes) && |nodes| == |bootstrapNodes|
                && (forall n :: n in bootstrapNodes ==> n.publicKey + n.nodeRef + n.host + n.nodeRole in nodes)
                && out == Itoa(majorityRule) + Itoa(ToInt64(minVirtual)) + Itoa(ToInt64(minHeavyMaterial))
                          + Itoa(ToInt64(minLightMaterial)) + Join(nodes)
    {
      out := Itoa(majorityRule) + Itoa(ToInt64(minVirtual))
      + Itoa(ToInt64(minHeavyMaterial)) + Itoa(ToInt64(minLightMaterial));
      var nodes := new string[|bootstrapNodes|];
      var i := 0;
      while i < |bootstrapNodes|
        invariant 0 <= i <= |bootstrapNodes|
        invariant forall k :: 0 <= k < i ==> nodes[k] == NodeText(bootstrapNodes[k])
      {
        nodes[i] := NodeText(bootstrapNodes[i]);
        i := i + 1;
      }
      assert nodes[..] == Texts(bootstrapNodes);
      SortStrings(nodes);
      NodesAreListed(bootstrapNodes, nodes[..]);
      out := out + Join(nodes[..]);
    }
  }

  // sort.Strings, as an insertion sort.
  method SortStrings(a: array<string>)
    modifies a
    ensures Sorted(a[..]) && multiset(a[..]) == old(multiset(a[..]))
  {
    var i := 0;
    while i < a.Length
      invariant 0 <= i <= a.Length
      invariant Sorted(a[..i])
      invariant multiset(a[..]) == old(multiset(a[..]))
    {
      InsertAt(a, i);
      i := i + 1;
    }
    assert a[..i] == a[..];
  }

  predicate SortedExcept(s: seq<string>, k: nat) {
    forall i, j :: 0 <= i < j < |s| && i != k && j != k ==> Leq(s[i], s[j])
  }

  method InsertAt(a: array<string>, n: nat)
    requires n < a.Length && Sorted(a[..n])
    modifies a
    ensures Sorted(a[..n + 1]) && multiset(a[..]) == old(multiset(a[..]))
  {
    var j := n;
    while j > 0 && !Leq(a[j - 1], a[j])
      invariant 0 <= j <= n
      invariant SortedExcept(a[..n + 1], j)
      invariant forall k :: j < k <= n ==> Leq(a[j], a[k])
      invariant multiset(a[..]) == old(multiset(a[..]))
    {
      LeqTotal(a[j - 1], a[j]);
      a[j - 1], a[j] := a[j], a[j - 1];
      j := j - 1;
    }
    Settled(a[..n + 1], j);
  }

  lemma Settled(s: seq<string>, k: nat)
    requires k < |s| && SortedExcept(s, k)
    requires k > 0 ==> Leq(s[k - 1], s[k])
    requires forall j :: k < j < |s| ==> Leq(s[k], s[j])
    ensures Sorted(s)
  {
    forall i, j | 0 <= i < j < |s| ensures Leq(s[i], s[j]) {
      if j == k && i < k - 1 {
        LeqTransitive(s[i], s[k - 1], s[k]);
      }
    }
  }

  lemma WithoutIndex<T>(t: seq<T>, i: nat)
    requires i < |t|
    ensures multiset(t[..i] + t[i + 1..]) == multiset(t) - multiset{t[i]}
  {
    assert t == t[..i] + ([t[i]] + t[i + 1..]);
  }

  lemma TextsWithout(t: seq<BootstrapNode>, i: nat)
    requires i < |t|
    ensures multiset(Texts(t)) == multiset(Texts(t[..i] + t[i + 1..])) + multiset{NodeText(t[i])}
  {
    hide NodeText;
    WithoutIndex(Texts(t), i);
    assert Texts(t)[..i] + Texts(t)[i + 1..] == Texts(t[..i] + t[i + 1..]);
    assert Texts(t)[i] in multiset(Texts(t));
  }

  lemma {:induction false} TextsPermuted(s: seq<BootstrapNode>, t: seq<BootstrapNode>)
    requires multiset(s) == multiset(t)
    ensures multiset(Texts(s)) == multiset(Texts(t))
  {
    hide Texts, NodeText;
    assert |s| == |multiset(s)| == |multiset(t)| == |t|;
    if s == [] {
      assert s == t;
    } else {
      assert s[0] in multiset(t);
      var i :| 0 <= i < |t| && t[i] == s[0];
      WithoutIndex(t, i);
      WithoutIndex(s, 0);
      TextsWithout(t, i);
      TextsWithout(s, 0);
      TextsPermuted(s[..0] + s[1..], t[..i] + t[i + 1..]);
    }
  }

  // Two certificates that differ only in the order of their bootstrap nodes
  // serialize to the same text, by whatever runs of the method.
  lemma Canonical(s: seq<BootstrapNode>, t: seq<BootstrapNode>, header: string, a: seq<string>, b: seq<string>)
    requires multiset(s) == multiset(t)
    requires Sorted(a) && multiset(a) == multiset(Texts(s))
    requires Sorted(b) && multiset(b) == multiset(Texts(t))
    ensures header + Join(a) == header + Join(b)
  {
    TextsPermuted(s, t);
    SortedUnique(a, b);
  }

  method SerializeBoth(c: Certificate, d: Certificate) returns (x: string, y: string)
    requires c.Header() == d.Header() && multiset(c.bootstrapNodes) == multiset(d.bootstrapNodes)
    ensures x == y
  {
    x := c.SerializeNetworkPart();
    y := d.SerializeNetworkPart();
    ghost var a: seq<string> :| Sorted(a) && multiset(a) == multiset(Texts(c.bootstrapNodes))
        && x == c.Header() + Join(a);
    ghost var b: seq<string> :| Sorted(b) && multiset(b) == multiset(Texts(d.bootstrapNodes))
        && y == d.Header() + Join(b);
    Canonical(c.bootstrapNodes, d.bootstrapNodes, c.Header(), a, b);
  }
}
