// Counting in sequences and sets, and tables.
module Collections {
  function One(b: bool): nat {
    if b then 1 else 0
  }

  function Occurrences<T(==)>(s: seq<T>, x: T): nat {
    if s == [] then 0 else Occurrences(s[..|s| - 1], x) + One(s[|s| - 1] == x)
  }

  lemma OccurrencesPush<T>(s: seq<T>, y: T, x: T)
    ensures Occurrences(s + [y], x) == Occurrences(s, x) + One(y == x)
  {
    assert (s + [y])[..|s|] == s;
  }

  lemma {:induction false} Occurs<T>(s: seq<T>, x: T)
    requires x in s
    ensures Occurrences(s, x) > 0
  {
    if s[|s| - 1] != x { Occurs(s[..|s| - 1], x); }
  }

  lemma {:induction false} SubsetSize<T>(a: set<T>, b: set<T>)
    requires a <= b
    ensures |a| <= |b| && (|a| == |b| ==> a == b)
  {
    if a == {} {
    } else {
      var x :| x in a;
      SubsetSize(a - {x}, b - {x});
    }
  }

  // The table with an entry for the key; an entry that is there stays.
  function Upserted<K, V>(table: map<K, V>, key: K, value: V): (t: map<K, V>)
    ensures t.Keys == table.Keys + {key} && (key !in table ==> t[key] == value)
    ensures forall k :: k in table ==> t[k] == table[k]
  {
    if key in table then table else table[key := value]
  }
}
