/** The profiler's hash table from code addresses to counter arrays: linear probing, doubling at half load. */
module FunctionTable {
  import opened Bytes
  import opened Bitvect
  import opened OpenAddressing

  const NULL := 0
  const CAPACITY := 16

  /** A slot is free while its key is NULL. */
  datatype Entry = Entry(key: int, value: int)

  /** Shifts and sums on 64-bit words. */
  function HashKey(key: int): nat {
    var n1 := key * 0x4_0000 % TWO64;
    var n2 := n1 * 0x2_0000_0000 % TWO64;
    var n3 := n2 * 8 % TWO64;
    var n4 := n3 * 8 % TWO64;
    var n5 := n4 * 16 % TWO64;
    var n6 := n5 * 4 % TWO64;
    (key - n1 - n2 + n3 - n4 + n5 + n6) % TWO64
  }

  const GOLDEN := 0x9e37fffffffc0001

  lemma SameRemainder(x: int, y: int, k: int)
    requires x == y + TWO64 * k
    ensures x % TWO64 == y % TWO64
  {
  }

  /** The shifts and sums multiply by one odd constant, modulo 2^64. */
  lemma {:induction false} HashMultiplies(key: int)
    ensures HashKey(key) == key * GOLDEN % TWO64
  {
    var n1 := key * 0x4_0000 % TWO64;
    var n2 := n1 * 0x2_0000_0000 % TWO64;
    var n3 := n2 * 8 % TWO64;
    var n4 := n3 * 8 % TWO64;
    var n5 := n4 * 16 % TWO64;
    var n6 := n5 * 4 % TWO64;
    var q1 := key * 0x4_0000 / TWO64;
    var q2 := n1 * 0x2_0000_0000 / TWO64;
    var q3, q4, q5, q6 := n2 * 8 / TWO64, n3 * 8 / TWO64, n4 * 16 / TWO64, n5 * 4 / TWO64;
    var m1 := q1;
    var m2 := 0x2_0000_0000 * m1 + q2;
    var m3 := 8 * m2 + q3;
    var m4 := 8 * m3 + q4;
    var m5 := 16 * m4 + q5;
    var m6 := 4 * m5 + q6;
    Parts(key * 0x4_0000);
    Parts(n1 * 0x2_0000_0000);
    Parts(n2 * 8);
    Parts(n3 * 8);
    Parts(n4 * 16);
    Parts(n5 * 4);
    SameRemainder(key - n1 - n2 + n3 - n4 + n5 + n6, key * GOLDEN, m1 + m2 - m3 + m4 - m5 - m6);
  }

  lemma Parts(x: int)
    ensures x == TWO64 * (x / TWO64) + x % TWO64
  {
  }

  /** So no two keys of 64 bits have the same hash. */
  lemma {:induction false} HashInjective(key: int, other: int)
    requires 0 <= key < TWO64 && 0 <= other < TWO64 && HashKey(key) == HashKey(other)
    ensures key == other
  {
    HashMultiplies(key);
    HashMultiplies(other);
    hide HashKey;
    var d := key - other;
    var m := key * GOLDEN / TWO64 - other * GOLDEN / TWO64;
    assert d * GOLDEN == TWO64 * m by {
      Parts(key * GOLDEN);
      Parts(other * GOLDEN);
    }
    assert d == TWO64 * (m * 0x6208001000040001 - d * 0x3c9661c9e380f0c1);
  }

  predicate PowerOfTwo(n: nat) {
    n == 1 || (n > 1 && n % 2 == 0 && PowerOfTwo(n / 2))
  }

  lemma Halve(x: nat, h: nat)
    requires h > 0
    ensures x % (2 * h) == 2 * (x / 2 % h) + x % 2
  {
    var q, r := x / 2 / h, x / 2 % h;
    assert x / 2 == h * q + r;
    assert x == 2 * h * q + (2 * r + x % 2);
    ModUnique(x, 2 * h, q, 2 * r + x % 2);
  }

  lemma MaskHalve(x: nat, h: nat)
    requires h > 0
    ensures BitAnd(x, 2 * h - 1) == 2 * BitAnd(x / 2, h - 1) + x % 2
  {
  }

  /** Masking with a power of two less one is the remainder. */
  lemma {:induction false} MaskIsRemainder(x: nat, n: nat)
    requires PowerOfTwo(n)
    ensures BitAnd(x, n - 1) == x % n
    decreases n
  {
    if n > 1 {
      hide BitAnd;
      MaskIsRemainder(x / 2, n / 2);
      MaskHalve(x, n / 2);
      Halve(x, n / 2);
    }
  }

  lemma Doubled(n: nat)
    requires PowerOfTwo(n)
    ensures PowerOfTwo(2 * n)
  {
    assert 2 * n / 2 == n;
  }

  /** The hash masked to the capacity. */
  function Index(key: int, capacity: nat): (i: nat)
    requires PowerOfTwo(capacity)
    ensures i < capacity
  {
    MaskIsRemainder(HashKey(key), capacity);
    BitAnd(HashKey(key), capacity - 1)
  }

  ghost function HashFn(capacity: nat): int -> nat
    requires PowerOfTwo(capacity)
  {
    (key: int) => Index(key, capacity)
  }

  function View(entries: seq<Entry>): (t: seq<Slot<int, int>>)
    ensures |t| == |entries|
    ensures forall i :: 0 <= i < |t| ==>
      t[i] == if entries[i].key == NULL then Empty else Full(entries[i].key, entries[i].value)
  {
    seq(|entries|, i requires 0 <= i < |entries| =>
      if entries[i].key == NULL then Empty else Full(entries[i].key, entries[i].value))
  }

  ghost predicate Holds(entries: seq<Entry>, m: map<int, int>) {
    PowerOfTwo(|entries|) && NULL !in m && Represents(HashFn(|entries|), View(entries), m)
  }

  /** Where the walk for a key ends: at the key, or at the free slot where it belongs. */
  method Probe(entries: seq<Entry>, key: int, ghost m: map<int, int>) returns (i: nat)
    requires Holds(entries, m) && |m| < |entries| && key != NULL
    ensures i < |entries|
    ensures key in m ==> entries[i] == Entry(key, m[key])
    ensures key !in m ==> entries[i].key == NULL && FreeFor(HashFn(|entries|), View(entries), key, i)
  {
    ghost var t, hash := View(entries), HashFn(|entries|);
    ghost var e := EmptySlotExists(hash, t, m);
    var start := Index(key, |entries|);
    assert start == hash(key);
    i := start;
    while entries[i].key != NULL
      invariant i < |t|
      invariant forall j :: 0 <= j < |t| && Between(start, j, i) ==> t[j].Full? && t[j].key != key
      decreases Distance(i, e, |t|)
    {
      if entries[i].key == key {
        return;
      }
      ProbeStep(t, start, i, e);
      i := if i + 1 >= |entries| then 0 else i + 1;
    }
    ProbeMisses(hash, t, m, key, i);
  }

  /** Stores a value under its key, new or not. */
  method SetEntry(entries: seq<Entry>, key: int, value: int, ghost m: map<int, int>)
    returns (r: seq<Entry>, added: bool)
    requires Holds(entries, m) && |m| < |entries| && key != NULL
    ensures |r| == |entries| && Holds(r, m[key := value])
    ensures added <==> key !in m
    ensures |m[key := value]| == |m| + if added then 1 else 0
  {
    hide Represents, FreeFor, HashFn;
    var i := Probe(entries, key, m);
    added := entries[i].key == NULL;
    r := entries[i := Entry(key, value)];
    assert View(r) == View(entries)[i := Full(key, value)];
    if added {
      Insert(HashFn(|entries|), View(entries), m, key, value, i);
    } else {
      Overwrite(HashFn(|entries|), View(entries), m, key, value, i);
    }
  }

  lemma FreshHolds(size: nat)
    requires PowerOfTwo(size)
    ensures Holds(seq(size, _ => Entry(NULL, NULL)), map[])
  {
    var entries := seq(size, _ => Entry(NULL, NULL));
    assert InRange(HashFn(size), size);
    EmptyTable(HashFn(size), View(entries));
  }

  /** A map of at most half the capacity of its slots; the capacity is a power of two. */
  class Table {
    var entries: seq<Entry>
    var length: nat
    ghost var contents: map<int, int>

    ghost predicate Valid()
      reads this
    {
      Holds(entries, contents) && length == |contents| && |entries| >= CAPACITY && 2 * length <= |entries|
    }

    constructor ()
      ensures Valid() && contents == map[]
    {
      assert PowerOfTwo(2) && PowerOfTwo(4) && PowerOfTwo(8) && PowerOfTwo(CAPACITY);
      FreshHolds(CAPACITY);
      entries := seq(CAPACITY, _ => Entry(NULL, NULL));
      length, contents := 0, map[];
    }

    method Get(key: int) returns (value: int)
      requires Valid()
      ensures key != NULL && key in contents ==> value == contents[key]
      ensures key == NULL || key !in contents ==> value == NULL
    {
      hide Holds;
      value := NULL;
      if key != NULL {
        var i := Probe(entries, key, contents);
        value := if entries[i].key == key then entries[i].value else NULL;
      }
    }

    method Set(key: int, value: int)
      requires Valid() && key != NULL && value != NULL
      modifies this
      ensures Valid() && contents == old(contents)[key := value]
      ensures length == old(length) + if key in old(contents) then 0 else 1
    {
      hide Holds;
      if length >= |entries| / 2 {
        Expand();
      }
      var added;
      entries, added := SetEntry(entries, key, value, contents);
      if added {
        length := length + 1;
      }
      contents := contents[key := value];
    }

    method Expand()
      requires Valid()
      modifies this`entries
      ensures Valid() && |entries| == 2 * |old(entries)|
    {
      hide Represents, HashFn;
      Doubled(|entries|);
      hide PowerOfTwo;
      FreshHolds(2 * |entries|);
      var larger := seq(2 * |entries|, _ => Entry(NULL, NULL));
      ghost var t, hash := View(entries), HashFn(|entries|);
      ghost var m: map<int, int> := map[];
      for i := 0 to |entries|
        invariant |larger| == 2 * |entries| && entries == old(entries)
        invariant m.Keys == KeysBelow(t, i) && Included(m, contents) && Holds(larger, m)
      {
        var entry := entries[i];
        if entry.key != NULL {
          Unmoved(hash, t, contents, m, i);
          var added;
          larger, added := SetEntry(larger, entry.key, entry.value, m);
          m := m[entry.key := entry.value];
        }
      }
      AllMoved(hash, t, contents, m);
      entries := larger;
    }
  }
}
