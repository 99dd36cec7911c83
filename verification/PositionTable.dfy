/** The marshaller's table of already written objects: a packed presence map, an entry array and in-place growth. */
module PositionTable {
  import opened Bytes
  import opened Bitvect
  import opened OpenAddressing

  /** A block address as an unsigned 64-bit word; `int` keeps the collections free of subset types. */
  type Addr = int

  const HASH_FACTOR := 11400714819323198486
  const INIT_SIZE := 256

  function Shifted(n: nat, shift: nat): (r: nat)
    ensures r == n / Pow2(shift)
    decreases shift, n
  {
    if shift == 0 then n else DivTwice(n, Pow2(shift - 1)); Shifted(n / 2, shift - 1)
  }

  lemma DivTwice(n: nat, p: nat)
    requires p > 0
    ensures n / 2 / p == n / (2 * p)
  {
    var q, r := n / 2 / p, n / 2 % p;
    var low := 2 * r + n % 2;
    assert n == (2 * p) * q + low by {
      assert n / 2 == p * q + r;
    }
    ModUnique(n, 2 * p, q, low);
  }

  /** Multiplicative Fibonacci hashing on 64-bit words. */
  function Hash(v: Addr, shift: nat): nat {
    Shifted(v * HASH_FACTOR % TWO64, shift)
  }

  /** Where the address 8 is in the first table. */
  lemma {:induction false} KnownHash()
    ensures Hash(8, 56) == 0xF1
  {
    SevenBytes();
    assert 8 * HASH_FACTOR % TWO64 == 0xF1BB_CDCB_FA53_E0B0;
  }

  ghost function HashFn(shift: nat): Addr -> nat {
    (v: Addr) => Hash(v, shift)
  }

  lemma HashInRange(v: Addr, shift: nat, size: nat)
    requires size * Pow2(shift) == TWO64
    ensures Hash(v, shift) < size
  {
    var n, p := v * HASH_FACTOR % TWO64, Pow2(shift);
    assert n == p * (n / p) + n % p;
    if n / p >= size {
      MulMonotone(p, size, n / p);
    }
  }

  lemma MulMonotone(m: nat, a: nat, b: nat)
    requires a <= b
    ensures m * a <= m * b
  {
    assert m * b == m * a + m * (b - a);
  }

  datatype Entry = Entry(obj: Addr, pos: int)

  /** One bit of the presence map per entry, in 64-bit words. */
  predicate Shaped(present: seq<nat>, entries: seq<Entry>) {
    |present| == Size(|entries|) && forall i :: 0 <= i < |present| ==> present[i] < TWO64
  }

  function View(present: seq<nat>, entries: seq<Entry>): (t: seq<Slot<Addr, int>>)
    requires Shaped(present, entries)
    ensures |t| == |entries|
    ensures forall i :: 0 <= i < |t| ==> t[i] == SlotAt(present, entries, i)
  {
    seq(|entries|, i requires 0 <= i < |entries| => SlotAt(present, entries, i))
  }

  function SlotAt(present: seq<nat>, entries: seq<Entry>, i: nat): Slot<Addr, int>
    requires Shaped(present, entries) && i < |entries|
  {
    if Present(present, entries, i) then Full(entries[i].obj, entries[i].pos) else Empty
  }

  predicate Present(present: seq<nat>, entries: seq<Entry>, i: nat)
    requires Shaped(present, entries) && i < |entries|
  {
    WordIn(|entries|, i);
    Test(present, i)
  }

  /** The presence map with slot `i` in use. */
  function Using(present: seq<nat>, entries: seq<Entry>, i: nat): (r: seq<nat>)
    requires Shaped(present, entries) && i < |entries|
    ensures Shaped(r, entries)
    ensures forall j :: 0 <= j < |entries| ==> (Present(r, entries, j) <==> i == j || Present(present, entries, j))
  {
    WordIn(|entries|, i);
    SetFits(present, i);
    assert forall j :: 0 <= j < |entries| ==>
      (Present(Set(present, i), entries, j) <==> i == j || Present(present, entries, j)) by {
      forall j | 0 <= j < |entries|
        ensures Present(Set(present, i), entries, j) <==> i == j || Present(present, entries, j)
      {
        WordIn(|entries|, j);
        SetTest(present, i, j);
      }
    }
    Set(present, i)
  }

  /** A presence map just allocated: no slot is in use. */
  function NoneUsed(entries: seq<Entry>): (r: seq<nat>)
    ensures Shaped(r, entries)
    ensures forall i :: 0 <= i < |entries| ==> !Present(r, entries, i)
  {
    var r := seq(Size(|entries|), _ => 0);
    assert forall i :: 0 <= i < |entries| ==> !Present(r, entries, i) by {
      forall i | 0 <= i < |entries|
        ensures !Present(r, entries, i)
      {
        ClearTest(|entries|, i);
      }
    }
    r
  }

  function Blank(size: nat): (r: seq<Entry>)
    ensures |r| == size
  {
    seq(size, _ => Entry(0, 0))
  }

  function Threshold(size: nat): nat {
    size * 2 / 3
  }

  /** size == 1 << (64 - shift) */
  ghost predicate Geometry(size: nat, shift: nat) {
    size >= INIT_SIZE && size * Pow2(shift) == TWO64
  }

  /** The table grows 8 times up to 10^6 slots and twice afterwards. */
  function Grown(size: nat, shift: nat): (r: (nat, nat))
    requires Geometry(size, shift) && Threshold(size) <= 0x1000_0000_0000_0000
    ensures Geometry(r.0, r.1) && r.0 == size * (if size < 1000000 then 8 else 2)
    ensures Threshold(size) < Threshold(r.0) < r.0
  {
    ShiftFits(size, shift);
    if size < 1000000 then (8 * size, shift - 3) else (2 * size, shift - 1)
  }

  lemma ShiftFits(size: nat, shift: nat)
    requires size * Pow2(shift) == TWO64 && Threshold(size) <= 0x1000_0000_0000_0000
    ensures 1 <= shift && 2 * Pow2(shift - 1) == Pow2(shift)
    ensures size < 1000000 ==> 3 <= shift && 8 * Pow2(shift - 3) == Pow2(shift)
  {
    if shift < (if size < 1000000 then 3 else 1) {
      assert Pow2(shift) <= (if size < 1000000 then 4 else 1) by {
        assert shift == 0 || shift == 1 || shift == 2;
      }
      MulMonotone(size, Pow2(shift), if size < 1000000 then 4 else 1);
    }
    if size < 1000000 {
      assert Pow2(shift - 1) == 2 * Pow2(shift - 2) && Pow2(shift - 2) == 2 * Pow2(shift - 3);
    }
  }

  /** The probe loop of the growth step: the first free slot for a key known to be absent. */
  method FirstFree(present: seq<nat>, entries: seq<Entry>, shift: nat, obj: Addr, ghost m: map<Addr, int>)
    returns (h: nat)
    requires Shaped(present, entries)
    requires Represents(HashFn(shift), View(present, entries), m)
    requires |m| < |entries| && obj !in m
    ensures FreeFor(HashFn(shift), View(present, entries), obj, h)
  {
    hide Present, Shaped;
    ghost var t := View(present, entries);
    ghost var e := EmptySlotExists(HashFn(shift), t, m);
    var start := Hash(obj, shift);
    assert start == HashFn(shift)(obj);
    h := start;
    while Present(present, entries, h)
      invariant h < |t|
      invariant forall j :: 0 <= j < |t| && Between(start, j, h) ==> t[j].Full?
      decreases Distance(h, e, |t|)
    {
      ProbeStep(t, start, h, e);
      h := Next(h, |entries|);
    }
  }

  /** The probe loop of the look-up: the key's slot, or the free slot where it belongs. */
  method Probe(present: seq<nat>, entries: seq<Entry>, shift: nat, obj: Addr, ghost m: map<Addr, int>)
    returns (found: bool, h: nat)
    requires Shaped(present, entries)
    requires Represents(HashFn(shift), View(present, entries), m) && |m| < |entries|
    ensures found <==> obj in m
    ensures h < |entries| && (found ==> entries[h].pos == m[obj])
    ensures !found ==> FreeFor(HashFn(shift), View(present, entries), obj, h)
  {
    hide Present, Shaped, AtHome, Distinct;
    ghost var t := View(present, entries);
    ghost var e := EmptySlotExists(HashFn(shift), t, m);
    var start := Hash(obj, shift);
    assert start == HashFn(shift)(obj);
    h := start;
    while Present(present, entries, h)
      invariant h < |t|
      invariant forall j :: 0 <= j < |t| && Between(start, j, h) ==> t[j].Full? && t[j].key != obj
      decreases Distance(h, e, |t|)
    {
      if entries[h].obj == obj {
        assert t[h] == Full(obj, entries[h].pos);
        return true, h;
      }
      ProbeStep(t, start, h, e);
      h := Next(h, |entries|);
    }
    ProbeMisses(HashFn(shift), t, m, obj, h);
    return false, h;
  }

  /** Inserts every entry of the old table in a new one. */
  method Rehash(present: seq<nat>, entries: seq<Entry>, ghost shift: nat, ghost contents: map<Addr, int>,
                newSize: nat, newShift: nat)
    returns (newPresent: seq<nat>, newEntries: seq<Entry>)
    requires Shaped(present, entries) && Geometry(newSize, newShift)
    requires Represents(HashFn(shift), View(present, entries), contents) && |contents| < newSize
    ensures |newEntries| == newSize && Shaped(newPresent, newEntries)
    ensures Represents(HashFn(newShift), View(newPresent, newEntries), contents)
  {
    hide Represents, FreeFor, HashFn, Geometry;
    FreshTable(newSize, newShift);
    newPresent, newEntries := NoneUsed(Blank(newSize)), Blank(newSize);
    ghost var t := View(present, entries);
    ghost var m: map<Addr, int> := map[];
    for i := 0 to |entries|
      invariant |newEntries| == newSize && Shaped(newPresent, newEntries)
      invariant m.Keys == KeysBelow(t, i)
      invariant Included(m, contents)
      invariant Represents(HashFn(newShift), View(newPresent, newEntries), m)
    {
      if Present(present, entries, i) {
        var entry := entries[i];
        Unmoved(HashFn(shift), t, contents, m, i);
        var h := FirstFree(newPresent, newEntries, newShift, entry.obj, m);
        Put(newShift, newPresent, newEntries, h, entry, m);
        newPresent, newEntries := Using(newPresent, newEntries, h), newEntries[h := entry];
        m := m[entry.obj := entry.pos];
      }
    }
    AllMoved(HashFn(shift), t, contents, m);
  }

  lemma FreshTable(size: nat, shift: nat)
    requires Geometry(size, shift)
    ensures Represents(HashFn(shift), View(NoneUsed(Blank(size)), Blank(size)), map[])
  {
    forall k ensures HashFn(shift)(k) < size {
      HashInRange(k, shift, size);
    }
    assert InRange(HashFn(shift), size);
    EmptyTable(HashFn(shift), View(NoneUsed(Blank(size)), Blank(size)));
  }

  lemma Put(shift: nat, present: seq<nat>, entries: seq<Entry>, h: nat, entry: Entry, m: map<Addr, int>)
    requires Shaped(present, entries) && Represents(HashFn(shift), View(present, entries), m)
    requires FreeFor(HashFn(shift), View(present, entries), entry.obj, h)
    ensures h < |entries| && Shaped(Using(present, entries, h), entries[h := entry])
    ensures Represents(HashFn(shift), View(Using(present, entries, h), entries[h := entry]), m[entry.obj := entry.pos])
    ensures entry.obj !in m && |m[entry.obj := entry.pos]| == |m| + 1
  {
    Insert(HashFn(shift), View(present, entries), m, entry.obj, entry.pos, h);
    assert View(Using(present, entries, h), entries[h := entry]) ==
      View(present, entries)[h := Full(entry.obj, entry.pos)];
  }

  class Table {
    var shift: nat
    var size: nat
    var threshold: nat
    var present: seq<nat>
    var entries: seq<Entry>
    ghost var contents: map<Addr, int>

    ghost predicate Valid()
      reads this
    {
      && |entries| == size && Shaped(present, entries)
      && Geometry(size, shift) && threshold == Threshold(size)
      && |contents| < threshold < size
      && Represents(HashFn(shift), View(present, entries), contents)
    }

    ghost predicate Free(obj: Addr, h: nat)
      reads this
      requires Valid()
    {
      FreeFor(HashFn(shift), View(present, entries), obj, h)
    }

    constructor ()
      ensures Valid() && contents == map[]
    {
      SevenBytes();
      FreshTable(INIT_SIZE, 56);
      shift, size, threshold := 56, INIT_SIZE, Threshold(INIT_SIZE);
      present, entries, contents := NoneUsed(Blank(INIT_SIZE)), Blank(INIT_SIZE), map[];
      hide Represents;
    }

    method Lookup(obj: Addr) returns (found: bool, pos: int, h: nat)
      requires Valid()
      ensures found <==> obj in contents
      ensures found ==> pos == contents[obj]
      ensures !found ==> Free(obj, h)
    {
      hide Represents, FreeFor, HashFn, View, Present, Shaped, Geometry, Threshold;
      found, h := Probe(present, entries, shift, obj, contents);
      pos := if found then entries[h].pos else 0;
    }

    method Record(obj: Addr, h: nat, counter: nat)
      requires Valid() && Free(obj, h)
      requires counter == |contents| < 0x1000_0000_0000_0000
      modifies this
      ensures Valid()
      ensures contents == old(contents)[obj := counter] && obj !in old(contents)
      ensures |contents| == counter + 1
    {
      hide Represents, Geometry, FreeFor, HashFn, View, Threshold, Grown;
      Put(shift, present, entries, h, Entry(obj, counter), contents);
      present, entries := Using(present, entries, h), entries[h := Entry(obj, counter)];
      contents := contents[obj := counter];
      if counter + 1 >= threshold {
        Grow();
      }
    }

    method Grow()
      requires |entries| == size && Shaped(present, entries)
      requires Geometry(size, shift) && threshold == Threshold(size)
      requires |contents| == threshold <= 0x1000_0000_0000_0000
      requires Represents(HashFn(shift), View(present, entries), contents)
      modifies `shift, `size, `threshold, `present, `entries
      ensures Valid()
    {
      hide Represents, Geometry, FreeFor, HashFn, View, Threshold, Grown;
      var (newSize, newShift) := Grown(size, shift);
      present, entries := Rehash(present, entries, shift, contents, newSize, newShift);
      size, shift, threshold := newSize, newShift, Threshold(newSize);
    }
  }
}
