/** The generic hash: a bounded breadth-first walk, and its agreement with structural comparison. */
module PolyHash {
  import opened Bytes
  import opened OcamlValue

  const QUEUE_SIZE := 256
  const MAX_FORWARD_DEREFERENCE := 1000

  // ----- mixing -----

  function Low32(x: int): bv32 {
    (x % 0x1_0000_0000) as bv32
  }

  function RotL15(x: bv32): bv32 { (x << 15) | (x >> 17) }

  function RotL13(x: bv32): bv32 { (x << 13) | (x >> 19) }

  function Times1(a: bv32): bv32 { a * 0xcc9e2d51 }

  function Times2(a: bv32): bv32 { a * 0x1b873593 }

  function Scaled(a: bv32): bv32 { a * 5 + 0xe6546b64 }

  function Masked(a: bv32, b: bv32): bv32 { a ^ b }

  function Times3(a: bv32): bv32 { a * 0x85ebca6b }

  function Times4(a: bv32): bv32 { a * 0xc2b2ae35 }

  function Folded16(a: bv32): bv32 { a ^ (a >> 16) }

  function Folded13(a: bv32): bv32 { a ^ (a >> 13) }

  /** The word mixed in, without the state. */
  function Spread(d: bv32): bv32 {
    Times2(RotL15(Times1(d)))
  }

  function Mix(h: bv32, d: bv32): bv32 {
    Scaled(RotL13(Masked(h, Spread(d))))
  }

  function FinalMix(h: bv32): bv32 {
    Folded16(Times4(Folded13(Times3(Folded16(h)))))
  }

  /** A 64-bit signed integer folded to 32 bits. */
  function Fold(d: int): bv32 {
    Low32(d / 0x1_0000_0000) ^ (if d < 0 then 0xFFFF_FFFF else 0) ^ Low32(d)
  }

  function MixIntnat(h: bv32, d: int): bv32 {
    Mix(h, Fold(d))
  }

  /** 32/64-bit compatibility: a 32-bit integer folds to itself. */
  lemma {:induction false} FoldSmall(d: int)
    requires -0x8000_0000 <= d < 0x8000_0000
    ensures Fold(d) == Low32(d)
  {
    if d < 0 {
      assert d / 0x1_0000_0000 == -1;
      assert Low32(-1) == 0xFFFF_FFFF;
      var x := Low32(d);
      assert 0xFFFF_FFFF ^ 0xFFFF_FFFF ^ x == x;
    } else {
      assert d / 0x1_0000_0000 == 0;
      assert Low32(0) == 0;
      var x := Low32(d);
      assert 0 ^ 0 ^ x == x;
    }
  }

  /** The high and low words hashed for a double: one pattern for all NaNs, one for both zeros. */
  function Normal(bits: int): (int, int) {
    var h, l := bits / 0x1_0000_0000, bits % 0x1_0000_0000;
    if h / 0x10_0000 % 0x800 == 0x7FF && (l != 0 || h % 0x10_0000 != 0) then (0x7FF0_0000, 1)
    else if h == 0x8000_0000 && l == 0 then (0, l)
    else (h, l)
  }

  function MixDouble(hash: bv32, bits: int): bv32 {
    var (h, l) := Normal(bits);
    Mix(Mix(hash, Low32(l)), Low32(h))
  }

  lemma HighWord(b: int)
    requires Bits64(b)
    ensures var h, l := b / 0x1_0000_0000, b % 0x1_0000_0000;
      && b == h * 0x1_0000_0000 + l && 0 <= h < 0x1_0000_0000
      && (IsNaN(b) <==> h / 0x10_0000 % 0x800 == 0x7FF && (l != 0 || h % 0x10_0000 != 0))
  {
    var h, l := b / 0x1_0000_0000, b % 0x1_0000_0000;
    var q, r := h / 0x10_0000, h % 0x10_0000;
    assert b == q * 0x10_0000_0000_0000 + (r * 0x1_0000_0000 + l);
    assert b / 0x10_0000_0000_0000 == q;
    assert b % 0x10_0000_0000_0000 == r * 0x1_0000_0000 + l;
  }

  /** Doubles that compare equal, or are both NaN, are hashed alike; other doubles keep their bits. */
  lemma {:induction false} NormalAgrees(a: int, b: int)
    requires Bits64(a) && Bits64(b)
    ensures CompareDouble(a, b, true) == Equal <==> Normal(a) == Normal(b)
  {
    HighWord(a);
    HighWord(b);
  }

  /** Bytes read as a little-endian word. */
  function Word(s: seq<byte>): int {
    if s == [] then 0 else s[0] as int + 256 * Word(s[1..])
  }

  function MixWords(h: bv32, s: seq<byte>): bv32
    decreases s
  {
    if |s| == 0 then h
    else if |s| < 4 then Mix(h, Low32(Word(s)))
    else MixWords(Mix(h, Low32(Word(s[..4]))), s[4..])
  }

  function MixLength(h: bv32, len: int): bv32 {
    Masked(h, Low32(len))
  }

  method MixString(h0: bv32, s: seq<byte>) returns (h: bv32)
    ensures h == MixLength(MixWords(h0, s), |s|)
  {
    hide Mix, Low32, Word, MixLength;
    h := h0;
    var i := 0;
    while i + 4 <= |s|
      invariant 0 <= i <= |s|
      invariant MixWords(h, s[i..]) == MixWords(h0, s)
    {
      assert s[i..][..4] == s[i..i + 4] && s[i..][4..] == s[i + 4..];
      h := Mix(h, Low32(Word(s[i..i + 4])));
      i := i + 4;
    }
    if i < |s| {
      h := Mix(h, Low32(Word(s[i..])));
    }
    h := MixLength(h, |s|);
  }

  /** Elements of a float array are mixed while `num` lasts. */
  function MixDoubles(h: bv32, num: int, ds: seq<int>): (bv32, int)
    decreases ds
  {
    if ds == [] then (h, num)
    else if num <= 1 then (MixDouble(h, ds[0]), num - 1)
    else MixDoubles(MixDouble(h, ds[0]), num - 1, ds[1..])
  }

  method MixFloatArray(h0: bv32, num0: int, ds: seq<int>) returns (h: bv32, num: int)
    ensures (h, num) == MixDoubles(h0, num0, ds)
  {
    hide MixDouble;
    h, num := h0, num0;
    for i := 0 to |ds|
      invariant MixDoubles(h, num, ds[i..]) == MixDoubles(h0, num0, ds)
    {
      assert ds[i..][1..] == ds[i + 1..];
      h := MixDouble(h, ds[i]);
      num := num - 1;
      if num <= 0 {
        return;
      }
    }
  }

  // ----- the walk -----

  function Strip(v: Value): (r: Value)
    ensures !r.Forward? && (!v.Forward? ==> r == v && Links(v) == 0)
  {
    if v.Forward? then Strip(v.target) else v
  }

  function Links(v: Value): nat {
    if v.Forward? then 1 + Links(v.target) else 0
  }

  /** Follows at most a thousand Forward links. */
  method Dereference(v0: Value) returns (found: bool, v: Value)
    requires v0.Forward?
    ensures found <==> Links(v0) <= MAX_FORWARD_DEREFERENCE
    ensures found ==> v == Strip(v0) && !v.Forward?
  {
    v := v0;
    for i := MAX_FORWARD_DEREFERENCE downto 0
      invariant v.Forward? && Strip(v) == Strip(v0) && Links(v) + (MAX_FORWARD_DEREFERENCE - i) == Links(v0)
    {
      v := v.target;
      if !v.Forward? {
        return true, v;
      }
    }
    return false, v;
  }

  /** The header of a block with its colour cleared. */
  function Header(tag: int, size: int): int {
    size * 1024 + tag
  }

  /** The hash of a value that is not a plain block, and the allowance left. */
  function MixLeaf(h: bv32, num: int, v: Value): (bv32, int)
    requires !v.Forward? && !v.Block?
  {
    match v
    case Long(n) => (MixIntnat(h, 2 * n + 1), num - 1)
    case Str(_, s) => (MixLength(MixWords(h, s), |s|), num - 1)
    case Dbl(_, bits) => (MixDouble(h, bits), num - 1)
    case Dbls(_, ds) => MixDoubles(h, num, ds)
    case Object(_, oid) => (MixIntnat(h, oid), num - 1)
  }

  /** The part of `fs` that fits. */
  function Fitting(fs: seq<Value>, room: nat): (r: seq<Value>)
    ensures |r| <= room
  {
    if |fs| <= room then fs else fs[..room]
  }

  /** The walk over a queue with `room` more places and an allowance of `num` values. */
  function HashFrom(queue: seq<Value>, room: nat, num: int, h: bv32): bv32
    decreases |queue| + room
  {
    if queue == [] || num <= 0 then h
    else
      var v := Strip(queue[0]);
      if Links(queue[0]) > MAX_FORWARD_DEREFERENCE then HashFrom(queue[1..], room, num, h)
      else if v.Block? then
        var more := Fitting(v.fs, room);
        HashFrom(queue[1..] + more, room - |more|, num, Mix(h, Low32(Header(v.tag, |v.fs|))))
      else
        var (h1, num1) := MixLeaf(h, num, v);
        HashFrom(queue[1..], room, num1, h1)
  }

  /** Places in the queue: out-of-range limits mean all of it. */
  function QueueRoom(limit: int): int {
    if limit < 0 || limit > QUEUE_SIZE then QUEUE_SIZE else limit
  }

  function Room(limit: int, wr: int): nat {
    if QueueRoom(limit) <= wr then 0 else QueueRoom(limit) - wr
  }

  function Hash(count: int, limit: int, seed: int, v: Value): (r: bv32) {
    FinalMix(HashFrom([v], Room(limit, 1), count, Low32(seed))) & 0x3FFF_FFFF
  }

  // ----- the loop over a fixed queue -----

  method CamlHash(count: int, limit: int, seed: int, obj: Value) returns (r: bv32)
    ensures r == Hash(count, limit, seed, obj) && r < 0x4000_0000
  {
    hide Mix, FinalMix, Low32, MixWords, MixDouble, MixDoubles, MixIntnat, MixLength, Links, Strip;
    var queue := new Value[QUEUE_SIZE];
    var sz := QueueRoom(limit);
    var num, h := count, Low32(seed);
    queue[0] := obj;
    var rd, wr := 0, 1;
    assert queue[0..1] == [obj];
    while rd < wr && num > 0
      invariant 0 <= rd <= wr <= QUEUE_SIZE
      invariant HashFrom(queue[rd..wr], Room(limit, wr), num, h) == HashFrom([obj], Room(limit, 1), count, Low32(seed))
      decreases QUEUE_SIZE - rd
    {
      var v := queue[rd];
      assert queue[rd..wr][1..] == queue[rd + 1..wr];
      rd := rd + 1;
      var found := true;
      if v.Forward? {
        found, v := Dereference(v);
      }
      if found {
      match v
      case Long(n) =>
        h, num := MixIntnat(h, 2 * n + 1), num - 1;
      case Str(_, s) =>
        h := MixString(h, s);
        num := num - 1;
      case Dbl(_, bits) =>
        h, num := MixDouble(h, bits), num - 1;
      case Dbls(_, ds) =>
        h, num := MixFloatArray(h, num, ds);
      case Object(_, oid) =>
        h, num := MixIntnat(h, oid), num - 1;
      case Block(_, tag, fs) =>
        h := Mix(h, Low32(Header(tag, |fs|)));
        wr := Enqueue(queue, rd, wr, sz, fs);
      }
    }
    r := FinalMix(h) & 0x3FFF_FFFF;
  }

  /** Copies fields to the end of the queue, as many as fit. */
  method Enqueue(queue: array<Value>, rd: nat, wr0: nat, sz: int, fs: seq<Value>) returns (wr: nat)
    requires queue.Length == QUEUE_SIZE && rd <= wr0 <= QUEUE_SIZE && 0 <= sz <= QUEUE_SIZE
    modifies queue
    ensures wr0 <= wr <= QUEUE_SIZE
    ensures var more := Fitting(fs, if sz <= wr0 then 0 else sz - wr0);
      queue[rd..wr] == old(queue[rd..wr0]) + more && wr == wr0 + |more|
  {
    wr := wr0;
    for i := 0 to |fs|
      invariant wr == wr0 + i <= QUEUE_SIZE && (i > 0 ==> wr <= sz)
      invariant queue[rd..wr] == old(queue[rd..wr0]) + fs[..i]
    {
      if wr >= sz {
        return;
      }
      queue[wr] := fs[i];
      wr := wr + 1;
      assert queue[rd..wr] == queue[rd..wr - 1] + [fs[i]];
      assert fs[..i + 1] == fs[..i] + [fs[i]];
    }
  }

  // ----- agreement with comparison -----

  /** No chain of Forward links in the value is longer than the hash follows. */
  ghost predicate ShortChains(v: Value) {
    && Links(v) <= MAX_FORWARD_DEREFERENCE
    && match v
       case Forward(_, t) => ShortChains(t)
       case Block(_, _, fs) => forall i :: 0 <= i < |fs| ==> ShortChains(fs[i])
       case _ => true
  }

  lemma StripOk(v: Value)
    requires WellFormed(v) && ShortChains(v)
    ensures WellFormed(Strip(v)) && ShortChains(Strip(v))
  {
  }

  lemma {:induction false} CompareStripped(v: Value, w: Value)
    ensures Compare(v, w, true) == Compare(Strip(v), Strip(w), true)
    decreases v, w
  {
    if v.Forward? {
      CompareStripped(v.target, w);
    } else if w.Forward? {
      CompareStripped(v, w.target);
    }
  }

  lemma {:induction false} EqualFields(fs: seq<Value>, gs: seq<Value>, i: int)
    requires |fs| == |gs| && CompareAll(fs, gs, true) == Equal && 0 <= i < |fs|
    ensures Compare(fs[i], gs[i], true) == Equal
  {
    if i > 0 {
      EqualFields(fs[1..], gs[1..], i - 1);
    }
  }

  lemma {:induction false} EqualBytes(s: seq<byte>, t: seq<byte>)
    requires CompareBytes(s, t) == Equal
    ensures s == t
  {
    if s != [] && t != [] {
      EqualBytes(s[1..], t[1..]);
      assert s == [s[0]] + s[1..] && t == [t[0]] + t[1..];
    }
  }

  lemma {:induction false} EqualDoubles(s: seq<int>, t: seq<int>, h: bv32, num: int)
    requires |s| == |t| && CompareDoubles(s, t, true) == Equal
    requires forall i :: 0 <= i < |s| ==> Bits64(s[i]) && Bits64(t[i])
    ensures MixDoubles(h, num, s) == MixDoubles(h, num, t)
    decreases s
  {
    hide Mix, Normal, CompareDouble, Low32;
    if s != [] {
      NormalAgrees(s[0], t[0]);
      EqualDoubles(s[1..], t[1..], MixDouble(h, s[0]), num - 1);
    }
  }

  lemma EqualLeaves(v: Value, w: Value, h: bv32, num: int)
    requires WellFormed(v) && WellFormed(w) && Compare(v, w, true) == Equal
    requires !v.Forward? && !w.Forward? && !v.Block?
    ensures !w.Block? && MixLeaf(h, num, v) == MixLeaf(h, num, w)
  {
    hide Mix, Normal, CompareDouble, Low32, MixWords, MixLength, MixDoubles, MixIntnat;
    match v
    case Str(_, s) => EqualBytes(s, w.s);
    case Dbl(_, b) => NormalAgrees(b, w.bits);
    case Dbls(_, ds) => EqualDoubles(ds, w.ds, h, num);
    case _ =>
  }

  /** Queues that compare equal place by place. */
  ghost predicate Alike(q: seq<Value>, r: seq<Value>) {
    && |q| == |r|
    && forall i :: 0 <= i < |q| ==> Matches(q[i], r[i])
  }

  ghost predicate Matches(v: Value, w: Value) {
    && WellFormed(v) && WellFormed(w) && ShortChains(v) && ShortChains(w)
    && Compare(v, w, true) == Equal
  }

  lemma MatchingBlocks(v: Value, w: Value)
    requires Matches(v, w) && v.Block? && !w.Forward?
    ensures w.Block? && v.tag == w.tag && Alike(v.fs, w.fs)
  {
    hide IsNaN, Key;
    forall i | 0 <= i < |v.fs|
      ensures Matches(v.fs[i], w.fs[i])
    {
      EqualFields(v.fs, w.fs, i);
    }
  }

  lemma MatchesStripped(v: Value, w: Value)
    requires Matches(v, w)
    ensures Matches(Strip(v), Strip(w))
    ensures Links(v) <= MAX_FORWARD_DEREFERENCE && Links(w) <= MAX_FORWARD_DEREFERENCE
  {
    StripOk(v);
    StripOk(w);
    CompareStripped(v, w);
  }

  /** The two bounded walks run in lockstep. */
  lemma {:induction false} Lockstep(q: seq<Value>, r: seq<Value>, room: nat, num: int, h: bv32)
    requires Alike(q, r)
    ensures HashFrom(q, room, num, h) == HashFrom(r, room, num, h)
    decreases |q| + room
  {
    hide Mix, Low32, MixLeaf, Matches, Links, Strip;
    if q != [] && num > 0 {
      MatchesStripped(q[0], r[0]);
      var v, w := Strip(q[0]), Strip(r[0]);
      if v.Block? {
        MatchingBlocks(v, w);
        var more, most := Fitting(v.fs, room), Fitting(w.fs, room);
        Lockstep(q[1..] + more, r[1..] + most, room - |more|, num, Mix(h, Low32(Header(v.tag, |v.fs|))));
      } else {
        assert WellFormed(v) && WellFormed(w) && Compare(v, w, true) == Equal by {
          MatchesFacts(v, w);
        }
        EqualLeaves(v, w, h, num);
        var (h1, num1) := MixLeaf(h, num, v);
        Lockstep(q[1..], r[1..], room, num1, h1);
      }
    }
  }

  lemma MatchesFacts(v: Value, w: Value)
    requires Matches(v, w)
    ensures WellFormed(v) && WellFormed(w) && Compare(v, w, true) == Equal
  {
  }

  /** Values that compare equal hash alike, for every count, limit and seed. */
  lemma {:induction false} EqualValuesHashAlike(v: Value, w: Value, count: int, limit: int, seed: int)
    requires WellFormed(v) && WellFormed(w) && ShortChains(v) && ShortChains(w)
    requires Compare(v, w, true) == Equal
    ensures Hash(count, limit, seed, v) == Hash(count, limit, seed, w)
  {
    hide FinalMix, Low32, HashFrom, Compare, WellFormed, ShortChains;
    Lockstep([v], [w], Room(limit, 1), count, Low32(seed));
  }

  function Forwards(n: nat, v: Value): (r: Value)
    ensures !v.Forward? ==> Links(r) == n && Strip(r) == v
    ensures WellFormed(v) ==> WellFormed(r)
    ensures forall w :: Compare(r, w, true) == Compare(v, w, true)
  {
    if n == 0 then v else Forward(n, Forwards(n - 1, v))
  }

  lemma MixOfOne()
    ensures Mix(0, 1) == 0x26cf0576
  {
    assert RotL15(0xcc9e2d51) == 0x16a8e64f;
    assert 0x16a8e64f as bv32 * 0x1b873593 == 0xc3539a5d;
    assert RotL13(0xc3539a5d) == 0x734bb86a;
    assert 0 as bv32 ^ 0xc3539a5d == 0xc3539a5d;
  }

  lemma FinalMixes()
    ensures FinalMix(0x26cf0576) & 0x3FFF_FFFF != 0 && FinalMix(0) & 0x3FFF_FFFF == 0
  {
    assert (0x26cf0576 as bv32 ^ (0x26cf0576 as bv32 >> 16)) * 0x85ebca6b == 0x9296e853;
    assert (0x9296e853 as bv32 ^ (0x9296e853 as bv32 >> 13)) * 0xc2b2ae35 == 0x87bed334;
  }

  lemma HashOfOne()
    ensures Fold(1) == 1 && Low32(0) == 0
    ensures FinalMix(Mix(0, 1)) & 0x3FFF_FFFF != 0 && FinalMix(0) & 0x3FFF_FFFF == 0
  {
    hide Mix, FinalMix;
    FoldSmall(1);
    MixOfOne();
    FinalMixes();
  }

  /** Behind more links than the hash follows, every value hashes as nothing at all. */
  lemma {:induction false} GivesUp(v: Value, count: int, limit: int, seed: int)
    requires Links(v) > MAX_FORWARD_DEREFERENCE
    ensures Hash(count, limit, seed, v) == FinalMix(Low32(seed)) & 0x3FFF_FFFF
  {
    hide FinalMix, Low32, Mix, MixLeaf, Links, Strip;
    var h := Low32(seed);
    assert HashFrom([], Room(limit, 1), count, h) == h;
    assert [v][1..] == [];
  }

  /** A chain of links to a value hashes as the value while it is short enough, and as nothing at all when it is not. */
  lemma {:induction false} ChainHash(n: nat, v: Value, count: int, limit: int, seed: int)
    requires !v.Forward?
    ensures Compare(Forwards(n, v), v, true) == Compare(v, v, true)
    ensures Hash(count, limit, seed, Forwards(n, v)) ==
      if n <= MAX_FORWARD_DEREFERENCE then Hash(count, limit, seed, v) else FinalMix(Low32(seed)) & 0x3FFF_FFFF
  {
    hide Hash, FinalMix, Low32, Mix, MixLeaf, Compare;
    if n > MAX_FORWARD_DEREFERENCE {
      GivesUp(Forwards(n, v), count, limit, seed);
    } else {
      SameHash(Forwards(n, v), v, count, limit, seed);
    }
  }

  /** Only what is behind the links of a value counts, if they are followed to the end. */
  lemma SameHash(v: Value, w: Value, count: int, limit: int, seed: int)
    requires Strip(v) == w && Links(v) <= MAX_FORWARD_DEREFERENCE
    ensures Hash(count, limit, seed, v) == Hash(count, limit, seed, w)
  {
    hide FinalMix, Low32, Mix, MixLeaf, Fitting, Links, Header;
    assert Strip(w) == w && Links(w) == 0;
    assert [v][1..] == [] && [w][1..] == [];
  }

  /** The two hashes do differ: those of zero and of a chain to it, for one count, limit and seed. */
  lemma {:induction false} ChainHashIff(n: nat)
    ensures var v := Forwards(n, Long(0));
      && WellFormed(v) && Compare(v, Long(0), true) == Equal
      && (Hash(1, 1, 0, v) == Hash(1, 1, 0, Long(0)) <==> n <= MAX_FORWARD_DEREFERENCE)
  {
    hide Hash, ShortChains, Forwards, Links, Strip;
    if n <= MAX_FORWARD_DEREFERENCE {
      ShortForwards(n);
      EqualValuesHashAlike(Forwards(n, Long(0)), Long(0), 1, 1, 0);
    } else {
      LongForwards(n);
    }
  }

  lemma LongForwards(n: nat)
    requires n > MAX_FORWARD_DEREFERENCE
    ensures Hash(1, 1, 0, Forwards(n, Long(0))) != Hash(1, 1, 0, Long(0))
  {
    hide Mix, FinalMix, Fold, Low32, Forwards, Links, Strip, Compare, WellFormed;
    HashOfOne();
    GivesUp(Forwards(n, Long(0)), 1, 1, 0);
    assert HashFrom([Long(0)], 0, 1, 0) == MixIntnat(0, 1);
  }

  lemma {:induction false} ShortForwards(n: nat)
    requires n <= MAX_FORWARD_DEREFERENCE
    ensures ShortChains(Forwards(n, Long(0))) && ShortChains(Long(0))
  {
    hide Compare, WellFormed, Strip;
    ForwardsLinks(n);
    if n > 0 {
      ShortForwards(n - 1);
      assert Forwards(n, Long(0)).target == Forwards(n - 1, Long(0));
    }
  }

  lemma ForwardsLinks(n: nat)
    ensures Links(Forwards(n, Long(0))) == n && Links(Long(0)) == 0
  {
    hide Compare, WellFormed, Strip;
  }
}
