/** What the sizes in a message's header count, what its bytes are, and what COMPAT_32 refuses. */
module MarshalSizes {
  import opened Bytes
  import opened MarshalFormat
  import opened MarshalHeap
  import opened MarshalRoundTrip
  import opened MarshalMessage

  // ----- the blocks written -----

  /** The blocks whose contents are written for the pending values, in order; without sharing a block can come again. */
  ghost function Written(h: Heap, flags: Flags, pend: seq<Value>, order: seq<int>, toks: seq<Token>): (r: seq<int>)
    requires Writes(h, flags, pend, order, toks)
    ensures forall i :: 0 <= i < |r| ==> r[i] in h && WellFormedBlock(h, h[r[i]])
    decreases |toks|
  {
    if pend == [] then []
    else
      var v := pend[0];
      (if v.Ptr? && !Seen(flags, order, v) then [v.a] else []) +
      Written(h, flags, Children(h, flags, order, v) + pend[1..], Recorded(flags, order, v), toks[1..])
  }

  /** With sharing they are the blocks recorded, each one once. */
  lemma {:induction false} WrittenOnce(h: Heap, flags: Flags, pend: seq<Value>, order: seq<int>, toks: seq<Token>)
    requires Writes(h, flags, pend, order, toks) && !flags.noSharing
    ensures RecordedAll(h, flags, pend, order, toks) == order + Written(h, flags, pend, order, toks)
    decreases |toks|
  {
    hide Writable, Emit;
    if pend != [] {
      var v := pend[0];
      WrittenOnce(h, flags, Children(h, flags, order, v) + pend[1..], Recorded(flags, order, v), toks[1..]);
    }
  }

  /** `w` is the number of words of `unit` bytes for the contents of a block: a word for a field, eight bytes for a
      double, and for a string more bytes than it has, by one word at most. */
  predicate Holds(b: Block, unit: nat, w: nat) {
    match b
    case Fields(_, fs) => w == |fs|
    case Str(s) => |s| < unit * w <= |s| + unit
    case Dbl(_) => unit * w == 8
    case Dbls(ds) => unit * w == 8 * |ds|
    case Abstract => false
  }

  function Sum(ws: seq<nat>): nat {
    if ws == [] then 0 else ws[0] + Sum(ws[1..])
  }

  /** One header word and the contents, for every block in the list. */
  ghost predicate Sizes(h: Heap, blocks: seq<int>, unit: nat, total: nat) {
    exists ws: seq<nat> :: SizesAre(h, blocks, unit, ws) && total == |blocks| + Sum(ws)
  }

  ghost predicate SizesAre(h: Heap, blocks: seq<int>, unit: nat, ws: seq<nat>) {
    |ws| == |blocks| && forall i :: 0 <= i < |blocks| ==> blocks[i] in h && Holds(h[blocks[i]], unit, ws[i])
  }

  function Contents(b: Block, unit: nat): nat
    requires unit == 4 || unit == 8
  {
    match b
    case Fields(_, fs) => |fs|
    case Str(s) => (|s| + unit) / unit
    case Dbl(_) => 8 / unit
    case Dbls(ds) => 8 / unit * |ds|
    case Abstract => 0
  }

  lemma ContentsHold(b: Block, unit: nat)
    requires (unit == 4 || unit == 8) && !b.Abstract?
    ensures Holds(b, unit, Contents(b, unit))
    ensures forall w :: Holds(b, unit, w) ==> w == Contents(b, unit)
  {
    if unit == 4 {
      assert forall w :: 4 * w == 8 ==> w == 2;
    }
  }

  lemma TokenSizes(h: Heap, flags: Flags, v: Value)
    requires Writable(h, flags, v) && v.Ptr?
    ensures v.a in h
    ensures var t, b := TokenOf(h, v).value, h[v.a];
      !b.Abstract? && Words32(t) == 1 + Contents(b, 4) && Words(t) == 1 + Contents(b, 8)
  {
  }

  lemma SizesCons(h: Heap, a: int, blocks: seq<int>, unit: nat, ws: seq<nat>)
    requires (unit == 4 || unit == 8) && a in h && !h[a].Abstract? && SizesAre(h, blocks, unit, ws)
    ensures var w := Contents(h[a], unit);
      SizesAre(h, [a] + blocks, unit, [w] + ws) && Sum([w] + ws) == w + Sum(ws)
  {
    hide Contents, Holds;
    ContentsHold(h[a], unit);
    assert ([Contents(h[a], unit)] + ws)[1..] == ws;
  }

  lemma NoSizes(h: Heap, unit: nat)
    ensures SizesAre(h, [], unit, []) && Sum([]) == 0
  {
  }

  lemma {:induction false} Totals(h: Heap, flags: Flags, pend: seq<Value>, order: seq<int>, toks: seq<Token>)
    returns (ws4: seq<nat>, ws8: seq<nat>)
    requires Writes(h, flags, pend, order, toks)
    ensures var blocks := Written(h, flags, pend, order, toks);
      && SizesAre(h, blocks, 4, ws4) && TotalWords32(toks) == |blocks| + Sum(ws4)
      && SizesAre(h, blocks, 8, ws8) && TotalWords(toks) == |blocks| + Sum(ws8)
    decreases |toks|
  {
    hide Writable, Contents, Words, Words32, SizesAre, Sum, Emit, Seen, Children, Recorded;
    if pend == [] {
      ws4, ws8 := [], [];
      NoSizes(h, 4);
      NoSizes(h, 8);
    } else {
      var v := pend[0];
      ws4, ws8 := Totals(h, flags, Children(h, flags, order, v) + pend[1..], Recorded(flags, order, v), toks[1..]);
      var rest := Written(h, flags, Children(h, flags, order, v) + pend[1..], Recorded(flags, order, v), toks[1..]);
      if v.Ptr? && !Seen(flags, order, v) {
        EmitIsToken(h, flags, order, v);
        TokenSizes(h, flags, v);
        SizesCons(h, v.a, rest, 4, ws4);
        SizesCons(h, v.a, rest, 8, ws8);
        ws4, ws8 := [Contents(h[v.a], 4)] + ws4, [Contents(h[v.a], 8)] + ws8;
      } else {
        NoBlock(h, flags, order, v);
        assert Written(h, flags, pend, order, toks) == [] + rest == rest;
      }
    }
  }

  lemma EmitIsToken(h: Heap, flags: Flags, order: seq<int>, v: Value)
    requires !Seen(flags, order, v) && Writable(h, flags, v)
    ensures Emit(h, flags, order, v) == TokenOf(h, v).value
  {
  }

  lemma NoBlock(h: Heap, flags: Flags, order: seq<int>, v: Value)
    requires Seen(flags, order, v) || (Writable(h, flags, v) && !v.Ptr?)
    ensures Words32(Emit(h, flags, order, v)) == 0 && Words(Emit(h, flags, order, v)) == 0
  {
  }

  /** The sizes in the header of any message: over the blocks written, in 4-byte words for 32-bit readers and in 8-byte
      words. The small header has both. */
  lemma {:induction false} HeaderSizes(s: Session, toks: seq<Token>, msg: seq<byte>)
    requires Ready(s) && Message(s, toks, msg)
    requires |EncodeAll(s.writer, toks)| < TWO64 && TotalWords(toks) < TWO64
    ensures ParseHeader(msg).Some?
    ensures var hd, blocks := ParseHeader(msg).value, Written(s.h, s.flags, [s.root], [], toks);
      && Sizes(s.h, blocks, 8, hd.words)
      && hd.dataLen == |msg| - hd.length
      && (!s.flags.noSharing ==> hd.objects == |blocks|) && (s.flags.noSharing ==> hd.objects == 0)
      && (hd.words32.Some? ==> Sizes(s.h, blocks, 4, hd.words32.value) && hd.length == 20)
      && (hd.words32.None? <==> hd.dataLen >= TWO32 || hd.words >= TWO32 || TotalWords32(toks) >= TWO32)
  {
    hide Writes, EncodeAll, ParseHeader, Written, RecordedAll, SizesAre;
    var data := EncodeAll(s.writer, toks);
    var order := RecordedAll(s.h, s.flags, [s.root], [], toks);
    ObjectsBounded(s.h, s.flags, [s.root], [], toks);
    ParseHeaderFor(s.flags, |data|, |order|, TotalWords32(toks), TotalWords(toks), data);
    var ws4, ws8 := Totals(s.h, s.flags, [s.root], [], toks);
    if !s.flags.noSharing {
      WrittenOnce(s.h, s.flags, [s.root], [], toks);
      assert order == [] + Written(s.h, s.flags, [s.root], [], toks);
    }
  }

  /** The sizes are determined. */
  lemma {:induction false} SizesUnique(h: Heap, blocks: seq<int>, unit: nat, m: nat, n: nat)
    requires (unit == 4 || unit == 8) && Sizes(h, blocks, unit, m) && Sizes(h, blocks, unit, n)
    ensures m == n
  {
    var us: seq<nat> :| SizesAre(h, blocks, unit, us) && m == |blocks| + Sum(us);
    var ws: seq<nat> :| SizesAre(h, blocks, unit, ws) && n == |blocks| + Sum(ws);
    forall i | 0 <= i < |blocks|
      ensures us[i] == ws[i]
    {
      ContentsHold(h[blocks[i]], unit);
    }
    assert us == ws;
  }

  // ----- what 32-bit compatibility refuses -----

  /** Words a block may have on a 32-bit host, header included. */
  const MAX_WORDS32 := 0x40_0000

  /** Refused is exactly what a 32-bit host cannot hold: an integer of more than 31 bits, or too large a block. */
  lemma {:induction false} CompatIff(t: Token)
    ensures Accepted(Flags(false, true), t) <==>
      (t.TInt? ==> -0x4000_0000 <= t.n < 0x4000_0000) && Words32(t) <= MAX_WORDS32
  {
  }

  /** And a message as a whole when its length or a size does not fit 32 bits. */
  lemma {:induction false} HeaderRefusedIff(flags: Flags, dataLen: nat, objects: nat, words32: nat, words64: nat)
    ensures HeaderFor(flags, dataLen, objects, words32, words64).None? <==>
      flags.compat32 && !(dataLen < TWO32 && words32 < TWO32 && words64 < TWO32)
  {
  }

  // ----- bytes -----

  /** Words are stored most significant byte first. */
  lemma {:induction false} BigEndianAt(n: int, w: nat, k: nat)
    requires k < w
    ensures BigEndian(n, w)[k] == n / Pow256(w - 1 - k) % 256
    decreases w
  {
    if k < w - 1 {
      BigEndianAt(n / 256, w - 1, k);
      DivThrice(n, Pow256(w - 2 - k));
    }
  }

  lemma DivThrice(n: int, p: nat)
    requires p > 0
    ensures n / 256 / p == n / (256 * p)
  {
    var q, r := n / 256 / p, n / 256 % p;
    var low := 256 * r + n % 256;
    assert n == (256 * p) * q + low by {
      assert n / 256 == p * q + r;
    }
    ModUnique(n, 256 * p, q, low);
  }

  /** How long the code of an integer is. */
  lemma {:induction false} IntLength(n: int)
    ensures |EncodeInt(n)| == 1 <==> 0 <= n < 64
    ensures |EncodeInt(n)| <= 2 <==> -128 <= n < 128
    ensures |EncodeInt(n)| <= 3 <==> -0x8000 <= n < 0x8000
    ensures |EncodeInt(n)| <= 5 <==> -0x4000_0000 <= n < 0x4000_0000
    ensures |EncodeInt(n)| <= 9
  {
  }

  lemma LastByte(n: int, q: int, d: byte, w: nat)
    requires n == 256 * q + d
    ensures BigEndian(n, w + 1) == BigEndian(q, w) + [d]
  {
  }

  lemma Four(n: int, q: int, a: byte, b: byte, c: byte, d: byte)
    requires n == ((q * 256 + b) * 256 + c) * 256 + d && (q == a || q + 256 == a)
    ensures BigEndian(n, 4) == [a, b, c, d]
  {
    hide BigEndian;
    LastByte(n, (q * 256 + b) * 256 + c, d, 3);
    LastByte((q * 256 + b) * 256 + c, q * 256 + b, c, 2);
    LastByte(q * 256 + b, q, b, 1);
    Single(q, a);
  }

  lemma Two(n: int, c: byte, d: byte)
    requires n == c * 256 + d
    ensures BigEndian(n, 2) == [c, d]
  {
    hide BigEndian;
    LastByte(n, c, d, 1);
    Single(c, c);
  }

  lemma Single(n: int, d: byte)
    requires n == d || n + 256 == d
    ensures BigEndian(n, 1) == [d]
  {
    assert BigEndian(n / 256, 0) == [];
  }

  /** Codes and arguments of some tokens. */
  lemma {:induction false} KnownInts()
    ensures EncodeInt(1) == [0x41] && EncodeInt(-1) == [0, 0xFF] && EncodeInt(1000) == [1, 3, 0xE8]
    ensures EncodeInt(-200000) == [2, 0xFF, 0xFC, 0xF2, 0xC0] && EncodeInt(0x4000_0000)[0] == 3
  {
    hide BigEndian;
    Single(-1, 0xFF);
    Two(1000, 3, 0xE8);
    Four(-200000, -1, 0xFF, 0xFC, 0xF2, 0xC0);
  }

  lemma {:induction false} KnownHeaders()
    ensures EncodeHeader(3, 0) == [0xB0] && EncodeHeader(0, 2) == [0x82] && EncodeHeader(8, 1) == [8, 0, 0, 0x23, 1]
    ensures EncodeHeader(0x40_0000, 1)[0] == 0x13
  {
    hide BigEndian;
    Four(8961, 0, 0, 0, 0x23, 1);
  }

  lemma {:induction false} KnownReferences()
    ensures EncodeShared(2) == [4, 2] && EncodeShared(258) == [5, 1, 2] && EncodeShared(0x10203) == [6, 0, 1, 2, 3]
    ensures EncodeShared(TWO32)[0] == 0x14
  {
    hide BigEndian;
    Single(2, 2);
    Two(258, 1, 2);
    Four(0x10203, 0, 0, 1, 2, 3);
  }

  lemma {:induction false} KnownStrings(s: seq<byte>)
    ensures EncodeString([0x61, 0x62]) == [0x22, 0x61, 0x62]
    ensures |s| == 0x20 ==> EncodeString(s) == [9, 0x20] + s
    ensures |s| == 0x102 ==> EncodeString(s) == [0xA, 0, 0, 1, 2] + s
    ensures |s| == TWO32 ==> EncodeString(s)[0] == 0x15
  {
    hide BigEndian;
    Single(0x20, 0x20);
    Four(0x102, 0, 0, 0, 1, 2);
    EmptyWord(2);
  }

  lemma {:induction false} KnownDoubles(ds: seq<Double>)
    ensures Encode(BigEndianHost, TDouble([0x3F, 0xF0, 0, 0, 0, 0, 0, 1])) == [0xB, 0x3F, 0xF0, 0, 0, 0, 0, 0, 1]
    ensures Encode(LittleEndianHost, TDouble([0x3F, 0xF0, 0, 0, 0, 0, 0, 1])) == [0xC, 1, 0, 0, 0, 0, 0, 0xF0, 0x3F]
    ensures Encode(BigEndianHost, TDoubleArray(ds))[0] ==
      if |ds| < 0x100 then 0xD else if |ds| < TWO32 then 0xF else 0x16
    ensures Encode(LittleEndianHost, TDoubleArray(ds))[0] ==
      if |ds| < 0x100 then 0xE else if |ds| < TWO32 then 7 else 0x17
  {
    hide BigEndian, MemoryAll;
    assert Reversed([0x3F, 0xF0, 0, 0, 0, 0, 0, 1]) == [1, 0, 0, 0, 0, 0, 0xF0, 0x3F];
  }

  lemma EmptyWord(n: int)
    ensures BigEndian(n, 0) == []
  {
  }

  function Triple(): Session {
    Session(map[8 := Fields(0, [Long(1), Ptr(16), Long(-1)]), 16 := Str([0x61, 0x62])], Ptr(8), Flags(false, false),
            LittleEndianHost, LittleEndianHost)
  }

  function TripleTokens(): seq<Token> {
    [THeader(3, 0), TInt(1), TString([0x61, 0x62]), TInt(-1)]
  }

  lemma TripleWrites()
    ensures var s := Triple();
      Writes(s.h, s.flags, [s.root], [], TripleTokens()) &&
      RecordedAll(s.h, s.flags, [s.root], [], TripleTokens()) == [8, 16]
  {
    var s, toks := Triple(), TripleTokens();
    var fs := [Long(1), Ptr(16), Long(-1)];
    assert Children(s.h, s.flags, [], s.root) + [s.root][1..] == fs;
    assert toks[1..] == [TInt(1), TString([0x61, 0x62]), TInt(-1)];
    assert Children(s.h, s.flags, [8], fs[0]) + fs[1..] == [Ptr(16), Long(-1)];
    assert toks[1..][1..] == [TString([0x61, 0x62]), TInt(-1)];
    assert Children(s.h, s.flags, [8], Ptr(16)) + [Ptr(16), Long(-1)][1..] == [Long(-1)];
    assert toks[1..][1..][1..] == [TInt(-1)];
    assert Children(s.h, s.flags, [8, 16], Long(-1)) + [Long(-1)][1..] == [];
    assert toks[1..][1..][1..][1..] == [];
    assert Writes(s.h, s.flags, [], [8, 16], []);
    assert Writes(s.h, s.flags, [Long(-1)], [8, 16], [TInt(-1)]);
    assert Writes(s.h, s.flags, [Ptr(16), Long(-1)], [8], [TString([0x61, 0x62]), TInt(-1)]);
    assert Writes(s.h, s.flags, fs, [8], toks[1..]);
  }

  /** The message of the triple of 1, "ab" and -1, byte by byte. */
  lemma {:induction false} KnownMessage()
    ensures Message(Triple(), TripleTokens(),
      [0x84, 0x95, 0xA6, 0xBE, 0, 0, 0, 7, 0, 0, 0, 2, 0, 0, 0, 6, 0, 0, 0, 6, 0xB0, 0x41, 0x22, 0x61, 0x62, 0, 0xFF])
  {
    hide BigEndian, Writes, RecordedAll, EncodeAll, TotalWords, TotalWords32, TripleTokens;
    TripleWrites();
    TripleData();
    Four(0x8495A6BE, 0x84, 0x84, 0x95, 0xA6, 0xBE);
    Four(7, 0, 0, 0, 0, 7);
    Four(2, 0, 0, 0, 0, 2);
    Four(6, 0, 0, 0, 0, 6);
  }

  lemma TripleData()
    ensures EncodeAll(LittleEndianHost, TripleTokens()) == [0xB0, 0x41, 0x22, 0x61, 0x62, 0, 0xFF]
    ensures TotalWords32(TripleTokens()) == 6 && TotalWords(TripleTokens()) == 6
  {
    hide BigEndian;
    KnownInts();
    KnownHeaders();
    KnownStrings([]);
    var toks := TripleTokens();
    assert toks[1..] == [TInt(1), TString([0x61, 0x62]), TInt(-1)];
    assert toks[1..][1..] == [TString([0x61, 0x62]), TInt(-1)];
    assert toks[1..][1..][1..] == [TInt(-1)];
    assert toks[1..][1..][1..][1..] == [];
    assert EncodeAll(LittleEndianHost, [TInt(-1)]) == [0, 0xFF];
    assert EncodeAll(LittleEndianHost, [TString([0x61, 0x62]), TInt(-1)]) == [0x22, 0x61, 0x62, 0, 0xFF];
  }

  // ----- messages cut short -----

  /** A field read from the beginning of some bytes is read alike from all of them. */
  lemma ReadMore(src: seq<byte>, w: nat, more: seq<byte>)
    requires Read(src, w).Some?
    ensures Read(src + more, w) == Some((Read(src, w).value.0, Read(src, w).value.1 + more))
  {
    assert (src + more)[..w] == src[..w] && (src + more)[w..] == src[w..] + more;
  }

  lemma HeaderMore(src: seq<byte>, more: seq<byte>)
    requires ParseHeader(src).Some?
    ensures ParseHeader(src + more) == ParseHeader(src)
  {
    hide Read;
    var (magic, s1) := Read(src, 4).value;
    ReadMore(src, 4, more);
    if magic == MAGIC_SMALL {
      FourFields(s1, more, 4, 4, 4, 4);
    } else {
      FourFields(s1, more, 4, 8, 8, 8);
    }
  }

  lemma FourFields(s1: seq<byte>, more: seq<byte>, a: nat, b: nat, c: nat, d: nat)
    requires Read(s1, a).Some? && Read(Read(s1, a).value.1, b).Some?
    requires Read(Read(Read(s1, a).value.1, b).value.1, c).Some?
    requires Read(Read(Read(Read(s1, a).value.1, b).value.1, c).value.1, d).Some?
    ensures var (x, s2) := Read(s1, a).value;
      var (y, s3) := Read(s2, b).value;
      var (z, s4) := Read(s3, c).value;
      var (w, s5) := Read(s4, d).value;
      && Read(s1 + more, a) == Some((x, s2 + more)) && Read(s2 + more, b) == Some((y, s3 + more))
      && Read(s3 + more, c) == Some((z, s4 + more)) && Read(s4 + more, d) == Some((w, s5 + more))
  {
    hide Read;
    ReadMore(s1, a, more);
    ReadMore(Read(s1, a).value.1, b, more);
    ReadMore(Read(Read(s1, a).value.1, b).value.1, c, more);
    ReadMore(Read(Read(Read(s1, a).value.1, b).value.1, c).value.1, d, more);
  }

  /** A message cut short anywhere is refused. */
  lemma {:induction false} TruncatedIsRefused(s: Session, toks: seq<Token>, msg: seq<byte>, k: nat)
    requires Ready(s) && Message(s, toks, msg) && k < |msg|
    requires |EncodeAll(s.writer, toks)| < TWO64 && TotalWords(toks) < TWO64
    ensures Unmarshal(s.reader, msg[..k]).None?
  {
    hide ParseHeader, ReadAll, Message, Sizes;
    HeaderSizes(s, toks, msg);
    if ParseHeader(msg[..k]).Some? {
      HeaderMore(msg[..k], msg[k..]);
      assert msg == msg[..k] + msg[k..];
    }
  }
}
