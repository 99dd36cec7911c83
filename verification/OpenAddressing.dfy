/**
 Open addressing with linear probing, as a refinement of finite maps. Shared by the marshaller's
 position table and the profiler's function table; they differ in hash, growth and slot layout only.
 */
module OpenAddressing {

  datatype Slot<+K, +V> = Empty | Full(key: K, val: V)

  /** `j` lies on the cyclic walk from `h` up to but not including `i`. */
  predicate Between(h: nat, j: nat, i: nat) {
    if h <= i then h <= j < i else j >= h || j < i
  }

  function Next(h: nat, size: nat): nat
    requires size > 0
  {
    (h + 1) % size
  }

  /** Number of steps of the cyclic walk from `h` to `i`. */
  function Distance(h: nat, i: nat, size: nat): nat
    requires h < size && i < size
  {
    if h <= i then i - h else i + size - h
  }

  /** Slot `i` holds `k` and a walk starting at the hash of `k` meets no empty slot before it. */
  ghost predicate Home<K, V>(hash: K -> nat, t: seq<Slot<K, V>>, k: K, i: nat) {
    && i < |t| && t[i].Full? && t[i].key == k
    && forall j :: 0 <= j < |t| && Between(hash(k), j, i) ==> t[j].Full?
  }

  ghost predicate Sound<K, V>(t: seq<Slot<K, V>>, m: map<K, V>) {
    forall i :: 0 <= i < |t| && t[i].Full? ==> t[i].key in m && m[t[i].key] == t[i].val
  }

  ghost predicate AtHome<K, V>(hash: K -> nat, t: seq<Slot<K, V>>, m: map<K, V>) {
    forall k :: k in m ==> exists i :: Home(hash, t, k, i)
  }

  ghost predicate Distinct<K, V>(t: seq<Slot<K, V>>) {
    forall i, j :: 0 <= i < j < |t| && t[i].Full? && t[j].Full? ==> t[i].key != t[j].key
  }

  ghost predicate InRange<K(!new)>(hash: K -> nat, size: nat) {
    forall k :: hash(k) < size
  }

  ghost predicate Represents<K(!new), V>(hash: K -> nat, t: seq<Slot<K, V>>, m: map<K, V>) {
    InRange(hash, |t|) && Sound(t, m) && AtHome(hash, t, m) && Distinct(t)
  }

  /** Slot `h` is where the probe for an absent `k` ends. */
  ghost predicate FreeFor<K, V>(hash: K -> nat, t: seq<Slot<K, V>>, k: K, h: nat) {
    && h < |t| && t[h].Empty?
    && forall j :: 0 <= j < |t| && Between(hash(k), j, h) ==> t[j].Full? && t[j].key != k
  }

  lemma EmptyTable<K(!new), V>(hash: K -> nat, t: seq<Slot<K, V>>)
    requires (forall i :: 0 <= i < |t| ==> t[i].Empty?) && InRange(hash, |t|)
    ensures Represents(hash, t, map[])
  {
  }

  /** A probe that reaches an empty slot without meeting the key shows the key is absent. */
  lemma ProbeMisses<K(!new), V>(hash: K -> nat, t: seq<Slot<K, V>>, m: map<K, V>, k: K, h: nat)
    requires Represents(hash, t, m) && FreeFor(hash, t, k, h)
    ensures k !in m
  {
  }

  /** Filling a slot, or refilling it under the same key, leaves every key at home. */
  lemma HomesKept<K, V>(hash: K -> nat, t: seq<Slot<K, V>>, t': seq<Slot<K, V>>, m: map<K, V>, h: nat, slot: Slot<K, V>)
    requires AtHome(hash, t, m) && h < |t| && slot.Full? && (t[h].Full? ==> t[h].key == slot.key)
    requires t' == t[h := slot]
    ensures AtHome(hash, t', m)
  {
    forall k | k in m ensures exists i :: Home(hash, t', k, i) {
      var i :| Home(hash, t, k, i);
      assert Home(hash, t', k, i);
    }
  }

  lemma {:induction false} Insert<K(!new), V>(hash: K -> nat, t: seq<Slot<K, V>>, m: map<K, V>, k: K, v: V, h: nat)
    requires Represents(hash, t, m) && FreeFor(hash, t, k, h)
    ensures Represents(hash, t[h := Full(k, v)], m[k := v])
    ensures k !in m && |m[k := v]| == |m| + 1
  {
    var t', m' := t[h := Full(k, v)], m[k := v];
    ProbeMisses(hash, t, m, k, h);
    assert m'.Keys == m.Keys + {k};
    assert Sound(t', m') by { hide AtHome, Distinct; }
    assert Distinct(t') by { hide AtHome; }
    assert AtHome(hash, t', m') by {
      HomesKept(hash, t, t', m, h, Full(k, v));
      assert Home(hash, t', k, h);
    }
  }

  lemma {:induction false} Overwrite<K(!new), V>(hash: K -> nat, t: seq<Slot<K, V>>, m: map<K, V>, k: K, v: V, h: nat)
    requires Represents(hash, t, m) && h < |t| && t[h].Full? && t[h].key == k
    ensures Represents(hash, t[h := Full(k, v)], m[k := v])
    ensures k in m && |m[k := v]| == |m|
  {
    var t', m' := t[h := Full(k, v)], m[k := v];
    assert m'.Keys == m.Keys;
    HomesKept(hash, t, t', m, h, Full(k, v));
    hide AtHome;
  }

  ghost function KeysBelow<K, V>(t: seq<Slot<K, V>>, n: nat): set<K>
    requires n <= |t|
  {
    set i | 0 <= i < n && t[i].Full? :: t[i].key
  }

  lemma {:induction false} FullSlotsHoldDistinctKeys<K(!new), V>(hash: K -> nat, t: seq<Slot<K, V>>, m: map<K, V>,
                                                       n: nat)
    requires Represents(hash, t, m) && n <= |t| && forall i :: 0 <= i < n ==> t[i].Full?
    ensures |KeysBelow(t, n)| == n && KeysBelow(t, n) <= m.Keys
  {
    if n > 0 {
      FullSlotsHoldDistinctKeys(hash, t, m, n - 1);
      assert KeysBelow(t, n) == KeysBelow(t, n - 1) + {t[n - 1].key};
      assert t[n - 1].key !in KeysBelow(t, n - 1);
    }
  }

  ghost predicate Included<K, V>(m: map<K, V>, n: map<K, V>) {
    forall k :: k in m ==> k in n && m[k] == n[k]
  }

  /** Rehashing slot by slot: the next full slot holds a key not moved yet. */
  lemma Unmoved<K(!new), V>(hash: K -> nat, t: seq<Slot<K, V>>, contents: map<K, V>, m: map<K, V>, i: nat)
    requires Represents(hash, t, contents) && i < |t| && t[i].Full? && m.Keys == KeysBelow(t, i)
    requires Included(m, contents)
    ensures t[i].key !in m && |m| <= |contents|
    ensures m[t[i].key := t[i].val].Keys == KeysBelow(t, i + 1)
    ensures Included(m[t[i].key := t[i].val], contents)
  {
    hide AtHome;
    SubsetSize(m.Keys, contents.Keys);
    assert t[i].key !in KeysBelow(t, i);
  }

  lemma AllMoved<K(!new), V>(hash: K -> nat, t: seq<Slot<K, V>>, contents: map<K, V>, m: map<K, V>)
    requires Represents(hash, t, contents) && m.Keys == KeysBelow(t, |t|)
    requires Included(m, contents)
    ensures m == contents
  {
    forall k | k in contents ensures k in m {
      var i: nat :| Home(hash, t, k, i);
      assert t[i].key in KeysBelow(t, |t|);
    }
  }

  lemma SubsetSize<T>(a: set<T>, b: set<T>)
    requires a <= b
    ensures |a| <= |b|
  {
    assert b == a + (b - a);
  }

  /** With fewer keys than slots an empty slot exists, so every probe ends. */
  lemma {:induction false} EmptySlotExists<K(!new), V>(hash: K -> nat, t: seq<Slot<K, V>>, m: map<K, V>)
    returns (e: nat)
    requires Represents(hash, t, m) && |m| < |t|
    ensures e < |t| && t[e].Empty?
  {
    if forall i :: 0 <= i < |t| ==> t[i].Full? {
      FullSlotsHoldDistinctKeys(hash, t, m, |t|);
      SubsetSize(KeysBelow(t, |t|), m.Keys);
      assert false;
    }
    e :| e < |t| && t[e].Empty?;
  }

  /** One probe step over a full slot: the walk grows by that slot and comes closer to the empty slot `e`. */
  lemma {:induction false} ProbeStep<K, V>(t: seq<Slot<K, V>>, start: nat, h: nat, e: nat)
    requires start < |t| && h < |t| && e < |t| && t[h].Full? && t[e].Empty?
    requires forall j :: 0 <= j < |t| && Between(start, j, h) ==> t[j].Full?
    ensures forall j :: 0 <= j < |t| && Between(start, j, Next(h, |t|)) ==> j == h || Between(start, j, h)
    ensures Next(h, |t|) < |t| && Distance(Next(h, |t|), e, |t|) < Distance(h, e, |t|)
  {
    assert Next(h, |t|) == if h + 1 == |t| then 0 else h + 1 by {
      if h + 1 < |t| {
        Small(h + 1, |t|);
      }
    }
    assert !Between(start, e, h);
  }

  lemma Small(n: nat, m: nat)
    requires n < m
    ensures n % m == n
  {
  }
}
