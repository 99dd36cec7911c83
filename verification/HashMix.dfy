/** The mixing steps of the generic hash lose nothing of what they mix in; and what some values hash to. */
module HashMix {
  import opened Bytes
  import Bitvect
  import opened OcamlValue
  import opened PolyHash

  // ----- mixing can be undone -----

  function Rotated17(a: bv32): bv32 { (a << 17) | (a >> 15) }

  function Rotated19(a: bv32): bv32 { (a << 19) | (a >> 13) }

  function Divided1(a: bv32): bv32 { a * 0xdee13bb1 }

  function Divided2(a: bv32): bv32 { a * 0x56ed309b }

  function Unscaled(a: bv32): bv32 { (a - 0xe6546b64) * 0xcccccccd }

  lemma Inverse1(a: bv32)
    ensures Divided1(a * 0xcc9e2d51) == a
  {
  }

  lemma Undone1(a: bv32)
    ensures Divided1(Times1(a)) == a
  {
    hide Divided1;
    Inverse1(a);
  }

  lemma Inverse2(a: bv32)
    ensures Divided2(a * 0x1b873593) == a
  {
  }

  lemma Undone2(a: bv32)
    ensures Divided2(Times2(a)) == a
  {
    hide Divided2;
    Inverse2(a);
  }

  lemma UndoneScale(a: bv32)
    ensures Unscaled(Scaled(a)) == a
  {
  }

  lemma InverseRotations(a: bv32)
    ensures Rotated17((a << 15) | (a >> 17)) == a && Rotated19((a << 13) | (a >> 19)) == a
  {
  }

  lemma UndoneRotations(a: bv32)
    ensures Rotated17(RotL15(a)) == a && Rotated19(RotL13(a)) == a
  {
    hide Rotated17, Rotated19;
    InverseRotations(a);
  }

  lemma UndoneMask(a: bv32, b: bv32)
    ensures Masked(a, Masked(a, b)) == b && Masked(Masked(a, b), b) == a
  {
  }

  function Unspread(e: bv32): bv32 {
    Divided1(Rotated17(Divided2(e)))
  }

  /** What was masked with the word, from the state after. */
  function Unstirred(r: bv32): bv32 {
    Rotated19(Unscaled(r))
  }

  /** From the state after and either argument the other one comes back. */
  lemma {:induction false} MixBack(h: bv32, d: bv32)
    ensures Unspread(Masked(h, Unstirred(Mix(h, d)))) == d
    ensures Masked(Unstirred(Mix(h, d)), Spread(d)) == h
  {
    hide RotL15, RotL13, Rotated17, Rotated19, Times1, Times2, Scaled, Divided1, Divided2, Unscaled, Masked;
    Undone1(d);
    UndoneRotations(Times1(d));
    Undone2(RotL15(Times1(d)));
    UndoneMask(h, Spread(d));
    UndoneRotations(Masked(h, Spread(d)));
    UndoneScale(RotL13(Masked(h, Spread(d))));
  }

  /** Mixing is injective in the word, for any state, and in the state, for any word. */
  lemma {:induction false} MixInjective(h: bv32, d: bv32, h': bv32, d': bv32)
    requires Mix(h, d) == Mix(h', d')
    ensures h == h' <==> d == d'
  {
    hide Mix, Unspread, Unstirred, Spread, Masked;
    MixBack(h, d);
    MixBack(h', d');
  }

  function Divided3(a: bv32): bv32 { a * 0xa5cb9243 }

  function Divided4(a: bv32): bv32 { a * 0x7ed1b41d }

  function Unfolded16(a: bv32): bv32 { a ^ (a >> 16) }

  function Unfolded13(a: bv32): bv32 { a ^ (a >> 13) ^ (a >> 26) }

  lemma Inverse3(a: bv32)
    ensures Divided3(a * 0x85ebca6b) == a
  {
  }

  lemma Undone3(a: bv32)
    ensures Divided3(Times3(a)) == a
  {
    hide Divided3;
    Inverse3(a);
  }

  lemma Inverse4(a: bv32)
    ensures Divided4(a * 0xc2b2ae35) == a
  {
  }

  lemma Undone4(a: bv32)
    ensures Divided4(Times4(a)) == a
  {
    hide Divided4;
    Inverse4(a);
  }

  lemma UndoneFolds(a: bv32)
    ensures Unfolded16(Folded16(a)) == a && Unfolded13(Folded13(a)) == a
  {
    hide Unfolded16, Unfolded13;
    InverseFolds(a);
  }

  lemma InverseFolds(a: bv32)
    ensures Unfolded16(a ^ (a >> 16)) == a && Unfolded13(a ^ (a >> 13)) == a
  {
  }

  function Unfinal(r: bv32): bv32 {
    Unfolded16(Divided3(Unfolded13(Divided4(Unfolded16(r)))))
  }

  /** The final mixing is injective. */
  lemma {:induction false} FinalBack(h: bv32)
    ensures Unfinal(FinalMix(h)) == h
  {
    hide Times3, Times4, Divided3, Divided4, Folded16, Folded13, Unfolded16, Unfolded13;
    var a := Folded16(h);
    var b := Folded13(Times3(a));
    UndoneFolds(h);
    Undone3(a);
    UndoneFolds(Times3(a));
    Undone4(b);
    UndoneFolds(Times4(b));
  }

  // ----- words as bit vectors -----

  function AsInt(b: bv32): int { b as int }

  function Shifted0(b: bv32): bv32 { b << 1 }

  function Shifted1(b: bv32): bv32 { (b << 1) | 1 }

  lemma BelowHalf(b: bv32)
    requires b as int < 0x8000_0000
    ensures b < 0x8000_0000
  {
  }

  lemma ShiftDoubles(b: bv32)
    requires b < 0x8000_0000
    ensures (b << 1) as int == 2 * (b as int)
  {
  }

  lemma ShiftDoublesMore(b: bv32)
    requires b < 0x8000_0000
    ensures ((b << 1) | 1) as int == 2 * (b as int) + 1
  {
  }

  lemma Doubling(b: bv32)
    requires AsInt(b) < 0x8000_0000
    ensures AsInt(Shifted0(b)) == 2 * AsInt(b) && AsInt(Shifted1(b)) == 2 * AsInt(b) + 1
  {
    BelowHalf(b);
    ShiftDoubles(b);
    ShiftDoublesMore(b);
  }

  lemma ZeroAsInt()
    ensures AsInt(0) == 0
  {
  }

  lemma HalfSize()
    ensures Pow2(31) == 0x8000_0000 && Pow2(32) == TWO32
  {
    Bitvect.EightMore(0);
    Bitvect.EightMore(8);
    Bitvect.EightMore(16);
    Bitvect.EightMore(24);
  }

  lemma {:induction false} PowerMonotone(a: nat, b: nat)
    requires a <= b
    ensures Pow2(a) <= Pow2(b)
    decreases b
  {
    if a < b {
      PowerMonotone(a, b - 1);
    }
  }

  /** Every number of at most 32 bits is one of a word, bit by bit. */
  lemma {:induction false} Built(x: nat, n: nat) returns (b: bv32)
    requires x < Pow2(n) && n <= 32
    ensures AsInt(b) == x
  {
    hide AsInt, Shifted0, Shifted1;
    if n == 0 {
      b := 0;
      ZeroAsInt();
    } else {
      b := Built(x / 2, n - 1);
      PowerMonotone(n - 1, 31);
      HalfSize();
      Doubling(b);
      b := if x % 2 == 0 then Shifted0(b) else Shifted1(b);
    }
  }

  lemma BackAndForth(b: bv32)
    ensures (b as int) as bv32 == b
  {
  }

  lemma ForthAndBack(x: int)
    requires 0 <= x < TWO32
    ensures (x as bv32) as int == x
  {
    HalfSize();
    hide Pow2;
    var b := Built(x, 32);
    assert b as int == x;
    BackAndForth(b);
    assert x as bv32 == b;
  }

  // ----- integers and doubles -----

  lemma Low32Injective(x: int, y: int)
    requires 0 <= x < TWO32 && 0 <= y < TWO32 && Low32(x) == Low32(y)
    ensures x == y
  {
    SmallRemainder(x);
    SmallRemainder(y);
    ForthAndBack(x);
    ForthAndBack(y);
  }

  lemma SmallRemainder(x: int)
    requires 0 <= x < TWO32
    ensures x % TWO32 == x
  {
  }

  /** Integers of 32 bits that differ are mixed in differently. */
  lemma {:induction false} IntsDiffer(h: bv32, m: int, n: int)
    requires -0x8000_0000 <= m < 0x8000_0000 && -0x8000_0000 <= n < 0x8000_0000
    requires MixIntnat(h, m) == MixIntnat(h, n)
    ensures m == n
  {
    hide Mix, Fold, Low32;
    MixInjective(h, Fold(m), h, Fold(n));
    FoldSmall(m);
    FoldSmall(n);
    SignedLow(m);
    SignedLow(n);
    Low32Injective(m % TWO32, n % TWO32);
  }

  lemma SignedLow(m: int)
    ensures Low32(m) == Low32(m % TWO32)
  {
    assert m % TWO32 % TWO32 == m % TWO32;
  }

  /** Two doubles that differ in one of their words, as they are hashed, are mixed in differently. */
  lemma {:induction false} DoublesDiffer(h: bv32, a: int, b: int)
    requires Bits64(a) && Bits64(b) && Normal(a) != Normal(b)
    requires Normal(a).0 == Normal(b).0 || Normal(a).1 == Normal(b).1
    ensures MixDouble(h, a) != MixDouble(h, b)
  {
    hide Mix, Low32;
    var (p, l) := Normal(a);
    var (q, k) := Normal(b);
    HighWord(a);
    HighWord(b);
    if MixDouble(h, a) == MixDouble(h, b) {
      MixInjective(Mix(h, Low32(l)), Low32(p), Mix(h, Low32(k)), Low32(q));
      if p == q {
        MixInjective(h, Low32(l), h, Low32(k));
        Low32Injective(l, k);
      } else {
        Low32Injective(p, q);
      }
    }
  }

  // ----- strings -----

  function Zeros(k: nat): seq<byte> {
    seq(k, _ => 0)
  }

  lemma {:induction false} WordOfZeros(s: seq<byte>, k: nat)
    ensures Word(s + Zeros(k)) == Word(s)
    decreases |s| + k
  {
    if s == [] {
      assert s + Zeros(k) == Zeros(k);
      if k > 0 {
        assert Zeros(k)[1..] == Zeros(k - 1);
        assert [] + Zeros(k - 1) == Zeros(k - 1);
        WordOfZeros([], k - 1);
      }
    } else {
      assert (s + Zeros(k))[1..] == s[1..] + Zeros(k);
      WordOfZeros(s[1..], k);
    }
  }

  /** An incomplete last word counts as one filled up with zero bytes. */
  lemma {:induction false} ZerosFill(h: bv32, s: seq<byte>, k: nat)
    requires k < 4 && (|s| + k) % 4 == 0
    ensures MixWords(h, s + Zeros(k)) == MixWords(h, s)
    decreases |s|
  {
    hide Mix, Low32, Word;
    if |s| >= 4 {
      var t := s + Zeros(k);
      assert t[..4] == s[..4] && t[4..] == s[4..] + Zeros(k);
      ZerosFill(Mix(h, Low32(Word(s[..4]))), s[4..], k);
    } else if |s| > 0 {
      var t := s + Zeros(k);
      assert |t| == 4 && t[..4] == t && t[4..] == [];
      WordOfZeros(s, k);
    } else {
      assert s + Zeros(k) == s;
    }
  }

  lemma {:induction false} WordInjective(s: seq<byte>, t: seq<byte>)
    requires |s| == |t| && Word(s) == Word(t)
    ensures s == t
  {
    if s != [] {
      assert s[0] == t[0] && Word(s[1..]) == Word(t[1..]);
      WordInjective(s[1..], t[1..]);
      assert s == [s[0]] + s[1..] && t == [t[0]] + t[1..];
    }
  }

  lemma WordFits(s: seq<byte>)
    requires |s| <= 4
    ensures 0 <= Word(s) < TWO32
  {
    if |s| > 0 && |s| > 1 && |s| > 2 && |s| > 3 {
      assert Word(s[1..][1..][1..][1..]) == 0;
    }
  }

  /** Equal texts mixed into different states leave different states. */
  lemma {:induction false} StateStays(h: bv32, h': bv32, s: seq<byte>)
    requires h != h'
    ensures MixWords(h, s) != MixWords(h', s)
    decreases |s|
  {
    hide Mix, Low32, Word;
    if 0 < |s| < 4 {
      if Mix(h, Low32(Word(s))) == Mix(h', Low32(Word(s))) {
        MixInjective(h, Low32(Word(s)), h', Low32(Word(s)));
      }
    } else if |s| >= 4 {
      var d := Low32(Word(s[..4]));
      if Mix(h, d) == Mix(h', d) {
        MixInjective(h, d, h', d);
      }
      StateStays(Mix(h, d), Mix(h', d), s[4..]);
    }
  }

  lemma GroupsDiffer(h: bv32, g: seq<byte>, g': seq<byte>)
    requires |g| == |g'| <= 4 && g != g'
    ensures Mix(h, Low32(Word(g))) != Mix(h, Low32(Word(g')))
  {
    hide Mix, Low32;
    if Mix(h, Low32(Word(g))) == Mix(h, Low32(Word(g'))) {
      MixInjective(h, Low32(Word(g)), h, Low32(Word(g')));
      WordFits(g);
      WordFits(g');
      Low32Injective(Word(g), Word(g'));
      WordInjective(g, g');
    }
  }

  /** The bytes from `i` up to four of them, fewer at the end. */
  function Group(s: seq<byte>, i: nat): seq<byte>
    requires i <= |s|
  {
    if i + 4 <= |s| then s[i..i + 4] else s[i..]
  }

  function AfterGroup(s: seq<byte>, i: nat): seq<byte>
    requires i <= |s|
  {
    if i + 4 <= |s| then s[i + 4..] else []
  }

  lemma PastFirst(s: seq<byte>, i: nat)
    requires 4 <= i <= |s|
    ensures s[..4] == s[..i][..4] && s[4..][..i - 4] == s[..i][4..]
    ensures Group(s[4..], i - 4) == Group(s, i) && AfterGroup(s[4..], i - 4) == AfterGroup(s, i)
  {
  }

  /** Strings of one length that differ in one group of four bytes only, the last incomplete one included, are mixed in
      differently. */
  lemma {:induction false} StringsDiffer(h: bv32, s: seq<byte>, t: seq<byte>, i: nat)
    requires |s| == |t| && i <= |s| && i % 4 == 0
    requires s[..i] == t[..i] && Group(s, i) != Group(t, i) && AfterGroup(s, i) == AfterGroup(t, i)
    ensures MixWords(h, s) != MixWords(h, t)
    ensures MixLength(MixWords(h, s), |s|) != MixLength(MixWords(h, t), |t|)
    decreases i
  {
    hide Mix, Low32, Word;
    if i == 0 {
      if |s| < 4 {
        assert s[0..] == s && t[0..] == t;
        GroupsDiffer(h, s, t);
      } else {
        GroupsDiffer(h, s[..4], t[..4]);
        StateStays(Mix(h, Low32(Word(s[..4]))), Mix(h, Low32(Word(t[..4]))), s[4..]);
      }
    } else {
      PastFirst(s, i);
      PastFirst(t, i);
      StringsDiffer(Mix(h, Low32(Word(s[..4]))), s[4..], t[4..], i - 4);
    }
    LengthKeeps(MixWords(h, s), MixWords(h, t), |s|);
  }

  lemma LengthKeeps(h: bv32, h': bv32, n: int)
    ensures MixLength(h, n) == MixLength(h', n) ==> h == h'
  {
    hide Low32, Masked;
    UndoneMask(h, Low32(n));
    UndoneMask(h', Low32(n));
  }

  // ----- what some values hash to -----

  lemma TakesLeaf(v: Value, rest: seq<Value>, room: nat, num: int, h: bv32)
    requires !v.Forward? && !v.Block? && num > 0
    ensures HashFrom([v] + rest, room, num, h) == HashFrom(rest, room, MixLeaf(h, num, v).1, MixLeaf(h, num, v).0)
  {
    hide MixLeaf;
    assert ([v] + rest)[1..] == rest;
  }

  lemma TakesBlock(v: Value, rest: seq<Value>, room: nat, num: int, h: bv32)
    requires v.Block? && num > 0
    ensures var more := Fitting(v.fs, room);
      HashFrom([v] + rest, room, num, h) ==
      HashFrom(rest + more, room - |more|, num, Mix(h, Low32(Header(v.tag, |v.fs|))))
  {
    hide Mix, Low32, Header, Fitting;
    assert ([v] + rest)[1..] == rest;
  }

  lemma WalkEnds(room: nat, num: int, h: bv32)
    ensures HashFrom([], room, num, h) == h
  {
  }

  lemma AllowanceEnds(queue: seq<Value>, room: nat, num: int, h: bv32)
    requires num <= 0
    ensures HashFrom(queue, room, num, h) == h
  {
  }

  /** One mixing step by its intermediate words. */
  lemma MixIs(h: bv32, d: bv32, a: bv32, b: bv32, r: bv32)
    requires Times1(d) == a && Times2(RotL15(a)) == b && Scaled(RotL13(Masked(h, b))) == r
    ensures Mix(h, d) == r
  {
    hide Times1, Times2, RotL15, RotL13, Scaled, Masked;
  }

  lemma FinalIs(h: bv32, a: bv32, b: bv32, r: bv32)
    requires Times3(Folded16(h)) == a && Times4(Folded13(a)) == b && Folded16(b) & 0x3FFF_FFFF == r
    ensures FinalMix(h) & 0x3FFF_FFFF == r
  {
    hide Times3, Times4, Folded16, Folded13;
  }

  lemma IntWord(n: int, w: int)
    requires -0x8000_0000 <= 2 * n + 1 < 0x8000_0000 && w == (2 * n + 1) % TWO32
    ensures Fold(2 * n + 1) == w as bv32
  {
    hide Fold;
    FoldSmall(2 * n + 1);
  }

  lemma Zero()
    ensures Low32(0) == 0
  {
  }

  lemma WordIs(n: int, w: bv32)
    requires 0 <= n < TWO32 && w as int == n
    ensures Low32(n) == w
  {
    SmallRemainder(n);
    BackAndForth(w);
  }

  /** A value that is not a block is mixed in alone. */
  lemma {:induction false} LeafHash(v: Value, count: int, limit: int, seed: int)
    requires !v.Forward? && !v.Block? && count > 0
    ensures Hash(count, limit, seed, v) == FinalMix(MixLeaf(Low32(seed), count, v).0) & 0x3FFF_FFFF
  {
    hide MixLeaf, FinalMix, Low32, HashFrom;
    TakesLeaf(v, [], Room(limit, 1), count, Low32(seed));
    assert [v] + [] == [v];
    WalkEnds(Room(limit, 1), MixLeaf(Low32(seed), count, v).1, MixLeaf(Low32(seed), count, v).0);
  }

  function MixInts(h: bv32, ns: seq<int>): bv32
    decreases |ns|
  {
    if ns == [] then h else MixInts(MixIntnat(h, 2 * ns[0] + 1), ns[1..])
  }

  function Ints(ns: seq<int>): seq<Value> {
    seq(|ns|, i requires 0 <= i < |ns| => Long(ns[i]))
  }

  lemma {:induction false} IntsInTurn(ns: seq<int>, room: nat, num: nat, h: bv32)
    ensures HashFrom(Ints(ns), room, num, h) == MixInts(h, if num <= |ns| then ns[..num] else ns)
    decreases ns
  {
    hide MixIntnat, HashFrom;
    if ns == [] {
      WalkEnds(room, num, h);
    } else if num == 0 {
      AllowanceEnds(Ints(ns), room, num, h);
    } else {
      assert Ints(ns) == [Long(ns[0])] + Ints(ns[1..]);
      TakesLeaf(Long(ns[0]), Ints(ns[1..]), room, num, h);
      IntsInTurn(ns[1..], room, num - 1, MixIntnat(h, 2 * ns[0] + 1));
      if num <= |ns| {
        assert ns[..num][1..] == ns[1..][..num - 1];
      }
    }
  }

  /** A block of integers: its header, then as many of its fields, in order, as count and limit allow. */
  lemma {:induction false} BlockOfInts(id: int, tag: int, ns: seq<int>, count: nat, limit: int, seed: int)
    requires count > 0
    ensures var fits := if |ns| <= Room(limit, 1) then ns else ns[..Room(limit, 1)];
      var mixed := if count <= |fits| then fits[..count] else fits;
      Hash(count, limit, seed, Block(id, tag, Ints(ns))) ==
      FinalMix(MixInts(Mix(Low32(seed), Low32(Header(tag, |ns|))), mixed)) & 0x3FFF_FFFF
  {
    hide HashFrom, Mix, MixInts, FinalMix, Low32, Header, Room;
    var v, room := Block(id, tag, Ints(ns)), Room(limit, 1);
    var fits := if |ns| <= room then ns else ns[..room];
    TakesBlock(v, [], room, count, Low32(seed));
    assert [v] + [] == [v];
    assert Fitting(v.fs, room) == Ints(fits);
    assert [] + Ints(fits) == Ints(fits);
    IntsInTurn(fits, room - |fits|, count, Mix(Low32(seed), Low32(Header(tag, |ns|))));
  }

  /** The integer 42. */

  lemma FoldOf42()
    ensures Fold(85) == 0x55
  {
    IntWord(42, 0x55);
  }

  lemma FoldOfMinus1()
    ensures Fold(-1) == 0xffffffff
  {
    IntWord(-1, 0xffffffff);
  }

  lemma Low1819043176()
    ensures Low32(0x6c6c6568) == 0x6c6c6568
  {
    WordIs(0x6c6c6568, 0x6c6c6568);
  }

  lemma Low111()
    ensures Low32(0x6f) == 0x6f
  {
    WordIs(0x6f, 0x6f);
  }

  lemma Low1072693248()
    ensures Low32(0x3FF0_0000) == 0x3ff00000
  {
    WordIs(0x3FF0_0000, 0x3ff00000);
  }

  lemma Low2048()
    ensures Low32(0x800) == 0x800
  {
    WordIs(0x800, 0x800);
  }

  lemma FoldOf1()
    ensures Fold(3) == 3
  {
    IntWord(1, 3);
  }

  lemma FoldOf2()
    ensures Fold(5) == 5
  {
    IntWord(2, 5);
  }

  lemma FoldOf0()
    ensures Fold(1) == 1
  {
    IntWord(0, 1);
  }

  lemma FortyTwo1()
    ensures Mix(0, 0x55) == 0x09443ad7
  {
    MixIs(0, 0x55, 0xf0850be5, 0x18b837e6, 0x09443ad7);
  }

  lemma FortyTwoEnd()
    ensures FinalMix(0x09443ad7) & 0x3FFF_FFFF == 0x1792870b
  {
    FinalIs(0x09443ad7, 0x67248c71, 0xd7925099, 0x1792870b);
  }

  lemma {:induction false} HashOfFortyTwo()
    ensures Hash(10, 100, 0, Long(42)) == 395478795
  {
    hide Mix, Spread, Scaled, RotL15, RotL13, Times1, Times2, Times3, Times4, Folded16, Folded13, Masked, FinalMix,
         Fold, Hash, Low32;
    LeafHash(Long(42), 10, 100, 0);
    Zero();
    FoldOf42();
    FortyTwo1();
    FortyTwoEnd();
  }

  lemma MinusOne1()
    ensures Mix(0, 0xffffffff) == 0x145ee0d5
  {
    MixIs(0, 0xffffffff, 0x3361d2af, 0xbbeeb010, 0x145ee0d5);
  }

  lemma MinusOneEnd()
    ensures FinalMix(0x145ee0d5) & 0x3FFF_FFFF == 0x3653e015
  {
    FinalIs(0x145ee0d5, 0x233ee419, 0xb6535646, 0x3653e015);
  }

  lemma {:induction false} HashOfMinusOne()
    ensures Hash(10, 100, 0, Long(-1)) == 911466517
  {
    hide Mix, Spread, Scaled, RotL15, RotL13, Times1, Times2, Times3, Times4, Folded16, Folded13, Masked, FinalMix,
         Fold, Hash, Low32;
    LeafHash(Long(-1), 10, 100, 0);
    Zero();
    FoldOfMinus1();
    MinusOne1();
    MinusOneEnd();
  }

  lemma LargeWord()
    ensures Fold(0x200_0000_0001) == 0x201
  {
    assert 0x200_0000_0001 / TWO32 == 0x200 && 0x200_0000_0001 % TWO32 == 1;
  }

  /** An integer of more than 32 bits: both halves count. */
  lemma Large1()
    ensures Mix(0, 0x201) == 0x7dd523fe
  {
    MixIs(0, 0x201, 0x08f8cf51, 0x5a95bf34, 0x7dd523fe);
  }

  lemma LargeEnd()
    ensures FinalMix(0x7dd523fe) & 0x3FFF_FFFF == 0x10065129
  {
    FinalIs(0x7dd523fe, 0xbcf549f9, 0xd006812f, 0x10065129);
  }

  lemma {:induction false} HashOfLarge()
    ensures Hash(10, 100, 0, Long(0x100_0000_0000)) == 268849449
  {
    hide Mix, Spread, Scaled, RotL15, RotL13, Times1, Times2, Times3, Times4, Folded16, Folded13, Masked, FinalMix,
         Fold, Hash, Low32;
    LeafHash(Long(0x100_0000_0000), 10, 100, 0);
    Zero();
    LargeWord();
    Large1();
    LargeEnd();
  }

  function Hello(): seq<byte> {
    [0x68, 0x65, 0x6c, 0x6c, 0x6f]
  }

  lemma WordsOfHello()
    ensures Word(Hello()[..4]) == 0x6c6c6568 && Word(Hello()[4..]) == 0x6f
  {
    var s := Hello()[..4];
    assert s == [0x68, 0x65, 0x6c, 0x6c];
    assert s[1..] == [0x65, 0x6c, 0x6c] && s[1..][1..] == [0x6c, 0x6c] && s[1..][1..][1..] == [0x6c];
    assert Word([0x6c]) == 0x6c;
    assert Word([0x6c, 0x6c]) == 0x6c6c;
    assert Word([0x65, 0x6c, 0x6c]) == 0x6c6c65;
    assert Hello()[4..] == [0x6f];
  }

  /** The string "hello": a whole word, an incomplete one, and the length. */
  lemma Hello1()
    ensures Mix(0, 0x6c6c6568) == 0xef13efcd
  {
    MixIs(0, 0x6c6c6568, 0xd24f5de8, 0xa0ae7465, 0xef13efcd);
  }

  lemma Hello2()
    ensures Mix(0xef13efcd, 0x6f) == 0x6e24ad4d
  {
    MixIs(0xef13efcd, 0x6f, 0xb895a61f, 0x73bcd07e, 0x6e24ad4d);
  }

  lemma HelloEnd()
    ensures FinalMix(0x6e24ad48) & 0x3FFF_FFFF == 0x321f6e00
  {
    FinalIs(0x6e24ad48, 0x8bb4e624, 0xb21fdc1f, 0x321f6e00);
  }

  lemma {:induction false} HashOfHello()
    ensures Hash(10, 100, 0, Str(1, Hello())) == 840920576
  {
    hide Mix, Spread, Scaled, RotL15, RotL13, Times1, Times2, Times3, Times4, Folded16, Folded13, Masked, FinalMix,
         Hash, Low32, Word, Hello, MixWords, MixLength;
    LeafHash(Str(1, Hello()), 10, 100, 0);
    Zero();
    WordsOfHello();
    Low1819043176();
    Low111();
    Hello1();
    Hello2();
    HelloMixed();
    HelloEnd();
  }

  lemma HelloMixed()
    requires Mix(0, Low32(Word(Hello()[..4]))) == 0xef13efcd
    requires Mix(0xef13efcd, Low32(Word(Hello()[4..]))) == 0x6e24ad4d
    ensures |Hello()| == 5 && MixLength(MixWords(0, Hello()), 5) == 0x6e24ad48
  {
    hide Mix, Word;
    assert |Hello()[4..]| == 1 && Low32(5) == 5;
  }

  lemma OneDouble()
    ensures Normal(0x3FF0_0000_0000_0000) == (0x3FF0_0000, 0)
  {
  }

  /** The double 1.0: low word, then high word. */
  lemma Double1()
    ensures Mix(0, 0) == 0xe6546b64
  {
    MixIs(0, 0, 0, 0, 0xe6546b64);
  }

  lemma Double2()
    ensures Mix(0xe6546b64, 0x3ff00000) == 0xf2abed5d
  {
    MixIs(0xe6546b64, 0x3ff00000, 0x6af00000, 0xe5788be8, 0xf2abed5d);
  }

  lemma DoubleEnd()
    ensures FinalMix(0xf2abed5d) & 0x3FFF_FFFF == 0x036d56a8
  {
    FinalIs(0xf2abed5d, 0x999077d2, 0x836dd5c5, 0x036d56a8);
  }

  lemma {:induction false} HashOfDouble()
    ensures Hash(10, 100, 0, Dbl(1, 0x3FF0_0000_0000_0000)) == 57497256
  {
    hide Mix, Spread, Scaled, RotL15, RotL13, Times1, Times2, Times3, Times4, Folded16, Folded13, Masked, FinalMix,
         Hash, Low32, Normal;
    LeafHash(Dbl(1, 0x3FF0_0000_0000_0000), 10, 100, 0);
    OneDouble();
    Zero();
    Low1072693248();
    Double1();
    Double2();
    DoubleEnd();
  }

  /** The pair of 1 and 2. */
  lemma Pair1()
    ensures Mix(0, 0x800) == 0x83ea59b2
  {
    MixIs(0, 0x800, 0xf16a8800, 0xe3b5c8ef, 0x83ea59b2);
  }

  lemma Pair2()
    ensures Mix(0x83ea59b2, 3) == 0x647bea19
  {
    MixIs(0x83ea59b2, 3, 0x65da87f3, 0x1467cf17, 0x647bea19);
  }

  lemma Pair3()
    ensures Mix(0x647bea19, 5) == 0xe871aa07
  {
    MixIs(0x647bea19, 5, 0xff16e295, 0x4583d1, 0xe871aa07);
  }

  lemma PairEnd()
    ensures FinalMix(0xe871aa07) & 0x3FFF_FFFF == 0x3c7bb9fa
  {
    FinalIs(0xe871aa07, 0xd619e352, 0xbc7b0581, 0x3c7bb9fa);
  }

  lemma {:induction false} HashOfPair()
    ensures Hash(10, 100, 0, Block(1, 0, Ints([1, 2]))) == 1014741498
  {
    hide Mix, Spread, Scaled, RotL15, RotL13, Times1, Times2, Times3, Times4, Folded16, Folded13, Masked, FinalMix,
         Hash, Low32, Fold;
    BlockOfInts(1, 0, [1, 2], 10, 100, 0);
    Zero();
    Low2048();
    FoldOf1();
    FoldOf2();
    Pair1();
    Pair2();
    Pair3();
    assert [1, 2][1..] == [2] && [2][1..] == [];
    assert MixInts(0x83ea59b2, [1, 2]) == 0xe871aa07;
    PairEnd();
  }

  /** The pair of 1 and the pair of 2 and 0: the outer fields come before the inner ones. */
  lemma Nested1()
    ensures Mix(0, 0x800) == 0x83ea59b2
  {
    MixIs(0, 0x800, 0xf16a8800, 0xe3b5c8ef, 0x83ea59b2);
  }

  lemma Nested2()
    ensures Mix(0x83ea59b2, 3) == 0x647bea19
  {
    MixIs(0x83ea59b2, 3, 0x65da87f3, 0x1467cf17, 0x647bea19);
  }

  lemma Nested3()
    ensures Mix(0x647bea19, 0x800) == 0xbc2e8041
  {
    MixIs(0x647bea19, 0x800, 0xf16a8800, 0xe3b5c8ef, 0xbc2e8041);
  }

  lemma Nested4()
    ensures Mix(0xbc2e8041, 5) == 0xc88ee125
  {
    MixIs(0xbc2e8041, 5, 0xff16e295, 0x4583d1, 0xc88ee125);
  }

  lemma Nested5()
    ensures Mix(0xc88ee125, 1) == 0x537f72cb
  {
    MixIs(0xc88ee125, 1, 0xcc9e2d51, 0xc3539a5d, 0x537f72cb);
  }

  lemma NestedEnd()
    ensures FinalMix(0x537f72cb) & 0x3FFF_FFFF == 0x37e8c7bc
  {
    FinalIs(0x537f72cb, 0xaaf71e3c, 0x37e8f054, 0x37e8c7bc);
  }

  lemma {:induction false} HashOfNested()
    ensures Hash(10, 100, 0, Block(1, 0, [Long(1), Block(2, 0, [Long(2), Long(0)])])) == 938002364
  {
    hide Mix, Spread, Scaled, RotL15, RotL13, Times1, Times2, Times3, Times4, Folded16, Folded13, Masked, FinalMix,
         HashFrom, Low32, Fold;
    var inner := Block(2, 0, [Long(2), Long(0)]);
    var v := Block(1, 0, [Long(1), inner]);
    Zero();
    Low2048();
    Nested1();
    TakesBlock(v, [], 99, 10, 0);
    assert [v] + [] == [v] && [] + v.fs == v.fs == [Long(1)] + [inner];
    FoldOf1();
    Nested2();
    TakesLeaf(Long(1), [inner], 97, 10, 0x83ea59b2);
    Nested3();
    TakesBlock(inner, [], 97, 9, 0x647bea19);
    assert [inner] + [] == [inner] && [] + inner.fs == inner.fs == [Long(2)] + [Long(0)];
    FoldOf2();
    Nested4();
    TakesLeaf(Long(2), [Long(0)], 95, 9, 0xbc2e8041);
    FoldOf0();
    Nested5();
    TakesLeaf(Long(0), [], 95, 8, 0xc88ee125);
    assert [Long(0)] + [] == [Long(0)];
    WalkEnds(95, 7, 0x537f72cb);
    NestedEnd();
  }

  /** A float array counts element by element: with one element it hashes as the element. */
  lemma {:induction false} HashOfFloats(id: int, bits: int, count: int, limit: int, seed: int)
    requires count > 0
    ensures Hash(count, limit, seed, Dbls(id, [bits])) == Hash(count, limit, seed, Dbl(id, bits))
  {
    hide Hash, FinalMix, Low32, MixDouble;
    LeafHash(Dbls(id, [bits]), count, limit, seed);
    LeafHash(Dbl(id, bits), count, limit, seed);
    var s := Low32(seed);
    assert [bits][1..] == [];
    assert MixDoubles(s, count, [bits]).0 == MixDouble(s, bits);
  }

  /** Float arrays: the elements in order, as many as `num` allows, at least one. */
  lemma {:induction false} FloatsInTurn(h: bv32, num: int, ds: seq<int>, d: int)
    ensures num > |ds| ==>
      MixDoubles(h, num, ds + [d]) == (MixDouble(MixDoubles(h, num, ds).0, d), num - |ds| - 1)
    ensures ds != [] && num <= |ds| ==> MixDoubles(h, num, ds + [d]) == MixDoubles(h, num, ds)
    decreases ds
  {
    hide MixDouble;
    if ds != [] {
      assert (ds + [d])[1..] == ds[1..] + [d] && (ds + [d])[0] == ds[0];
      FloatsInTurn(MixDouble(h, ds[0]), num - 1, ds[1..], d);
    } else {
      assert ds + [d] == [d] && [d][1..] == [];
    }
  }

  /** An object hashes as the integer of its identity, without a tag bit. */
  lemma {:induction false} HashOfObject(id: int, oid: int, count: int, limit: int, seed: int)
    requires count > 0
    ensures Hash(count, limit, seed, Object(id, oid)) == FinalMix(MixIntnat(Low32(seed), oid)) & 0x3FFF_FFFF
  {
    hide Hash, FinalMix, Low32, MixIntnat;
    LeafHash(Object(id, oid), count, limit, seed);
  }

  // ----- count and limit -----

  /** A limit from 1 to 256 is the number of values in the queue, the first included; 0 is as 1, and any other means
      256. */
  lemma {:induction false} LimitMeans(limit: int)
    ensures 1 <= limit <= 256 ==> Room(limit, 1) == limit - 1
    ensures limit == 0 ==> Room(limit, 1) == 0
    ensures limit < 0 || limit > 256 ==> Room(limit, 1) == 255
  {
  }

  /** With no values allowed the hash is that of the seed. */
  lemma {:induction false} NothingAllowed(count: int, limit: int, seed: int, v: Value)
    requires count <= 0
    ensures Hash(count, limit, seed, v) == FinalMix(Low32(seed)) & 0x3FFF_FFFF
  {
    hide FinalMix, Low32, Room;
  }

  /** A block's header does not count, other values count one each, and a float array one for each element. */
  lemma {:induction false} AllowanceUsed(h: bv32, num: int, v: Value)
    requires !v.Forward? && !v.Block? && num > 0
    ensures !v.Dbls? ==> MixLeaf(h, num, v).1 == num - 1
    ensures v.Dbls? ==> MixLeaf(h, num, v).1 == num - if |v.ds| < num then |v.ds| else num
  {
    hide MixDouble, MixWords, MixIntnat;
    if v.Dbls? {
      FloatsUsed(h, num, v.ds);
    }
  }

  lemma {:induction false} FloatsUsed(h: bv32, num: int, ds: seq<int>)
    requires num > 0
    ensures MixDoubles(h, num, ds).1 == num - if |ds| < num then |ds| else num
    decreases ds
  {
    hide MixDouble;
    if ds != [] && num > 1 {
      FloatsUsed(MixDouble(h, ds[0]), num - 1, ds[1..]);
    }
  }

  /** Blocks of another tag or size are told apart. */
  lemma {:induction false} HeadersDiffer(h: bv32, tag: int, size: int, tag': int, size': int)
    requires 0 <= tag < 256 && 0 <= tag' < 256 && 0 <= size < 0x40_0000 && 0 <= size' < 0x40_0000
    requires Mix(h, Low32(Header(tag, size))) == Mix(h, Low32(Header(tag', size')))
    ensures tag == tag' && size == size'
  {
    hide Mix, Low32;
    MixInjective(h, Low32(Header(tag, size)), h, Low32(Header(tag', size')));
    Low32Injective(Header(tag, size), Header(tag', size'));
  }
}
