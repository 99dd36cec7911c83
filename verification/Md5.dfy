/** MD5 in pieces: buffering and padding around a block transform, against the one-shot definition of RFC 1321. */
module Md5 {
  import opened Bytes

  type word = n: int | 0 <= n < 0x1_0000_0000

  datatype Digest = Digest(a: word, b: word, c: word, d: word)

  const INITIAL := Digest(0x67452301, 0xefcdab89, 0x98badcfe, 0x10325476)

  // ----- the message in one piece -----

  /** The blocks of `data`, in turn. */
  function Absorb(transform: (Digest, seq<byte>) -> Digest, h: Digest, data: seq<byte>): Digest
    requires |data| % 64 == 0
    decreases |data|
  {
    if data == [] then h else Absorb(transform, transform(h, data[..64]), data[64..])
  }

  function Zeros(n: nat): (r: seq<byte>)
    ensures |r| == n && forall i :: 0 <= i < n ==> r[i] == 0
  {
    seq(n, _ => 0)
  }

  function LittleEndian(n: word): (r: seq<byte>)
    ensures |r| == 4
  {
    [n % 256, n / 0x100 % 256, n / 0x1_0000 % 256, n / 0x100_0000]
  }

  /** The two words of the length in bits modulo 2^64 of `n` bytes. */
  function Low(n: nat): word {
    8 * n % 0x1_0000_0000
  }

  function High(n: nat): word {
    8 * n / 0x1_0000_0000 % 0x1_0000_0000
  }

  /** Section 3.2 of RFC 1321: the length in bits modulo 2^64, low-order word first. */
  function LengthBytes(n: nat): (r: seq<byte>)
    ensures |r| == 8
  {
    LittleEndian(Low(n)) + LittleEndian(High(n))
  }

  /** The length in bits modulo 2^64, least significant byte first. */
  lemma {:induction false} LengthByteAt(n: nat, k: nat)
    requires k < 8
    ensures LengthBytes(n)[k] == 8 * n / Pow256(k) % 256
  {
    hide LittleEndian;
    SmallPowers();
    if k < 4 {
      WordByteAt(Low(n), k);
      LowByte(8 * n, Pow256(k), Pow256(3 - k));
    } else {
      WordByteAt(High(n), k - 4);
      LowByte(8 * n / 0x1_0000_0000, Pow256(k - 4), Pow256(7 - k));
      HighQuotient(n, k - 4);
    }
  }

  lemma WordByteAt(w: word, k: nat)
    requires k < 4
    ensures LittleEndian(w)[k] == w / Pow256(k) % 256
  {
    SmallPowers();
  }

  lemma LowByte(x: nat, c: nat, e: nat)
    requires c > 0 && c * (256 * e) == 0x1_0000_0000
    ensures x % 0x1_0000_0000 / c % 256 == x / c % 256
  {
    var m, l := x / 0x1_0000_0000, x % 0x1_0000_0000;
    var q, r := l / c, l % c;
    assert x == c * (256 * e * m + q) + r by {
      assert x == c * (256 * e) * m + (c * q + r);
      Distribute(c, 256 * e, m, q);
    }
    ModUnique(x, c, 256 * e * m + q, r);
    assert 256 * e * m + q == 256 * (e * m + q / 256) + q % 256 by {
      Distribute(256, e, m, q / 256);
    }
    ModUnique(256 * e * m + q, 256, e * m + q / 256, q % 256);
  }

  lemma Distribute(c: nat, d: nat, m: nat, q: nat)
    ensures c * d * m + c * q == c * (d * m + q)
  {
    assert c * d * m == c * (d * m);
  }

  lemma SmallPowers()
    ensures Pow256(0) == 1 && Pow256(1) == 0x100 && Pow256(2) == 0x1_0000 && Pow256(3) == 0x100_0000
    ensures Pow256(4) == 0x1_0000_0000 && Pow256(5) == 0x100_0000_0000 && Pow256(6) == 0x1_0000_0000_0000
    ensures Pow256(7) == 0x100_0000_0000_0000
  {
    PowerValues();
    assert Pow256(3) == 256 * Pow256(2) && Pow256(5) == 256 * Pow256(4) && Pow256(6) == 256 * Pow256(5);
  }

  lemma HighQuotient(n: nat, j: nat)
    requires j < 4
    ensures 8 * n / Pow256(j + 4) == 8 * n / 0x1_0000_0000 / Pow256(j)
  {
    SmallPowers();
  }

  /** The chaining words of section 3.3 of RFC 1321, low-order bytes first. */
  lemma {:induction false} InitialBytes()
    ensures LittleEndian(INITIAL.a) == [0x01, 0x23, 0x45, 0x67] && LittleEndian(INITIAL.b) == [0x89, 0xab, 0xcd, 0xef]
    ensures LittleEndian(INITIAL.c) == [0xfe, 0xdc, 0xba, 0x98] && LittleEndian(INITIAL.d) == [0x76, 0x54, 0x32, 0x10]
  {
  }

  /** Section 3.1 of RFC 1321: zeros after the bit 1, to 56 bytes modulo 64. */
  function PadZeros(n: nat): (k: nat)
    ensures k < 64 && (n + 1 + k) % 64 == 56
  {
    (55 - n % 64) % 64
  }

  lemma PaddedLength(n: nat, k: nat)
    requires (n + 1 + k) % 64 == 56
    ensures (n + 1 + k + 8) % 64 == 0
  {
  }

  function Padded(msg: seq<byte>): (r: seq<byte>)
    ensures |r| % 64 == 0
  {
    var zeros := PadZeros(|msg|);
    PaddedLength(|msg|, zeros);
    msg + [0x80] + Zeros(zeros) + LengthBytes(|msg|)
  }

  function Md5Of(transform: (Digest, seq<byte>) -> Digest, msg: seq<byte>): Digest {
    Absorb(transform, INITIAL, Padded(msg))
  }

  lemma {:induction false} AbsorbSnoc(transform: (Digest, seq<byte>) -> Digest, h: Digest, data: seq<byte>,
                                      block: seq<byte>)
    requires |data| % 64 == 0 && |block| == 64
    ensures Absorb(transform, h, data + block) == transform(Absorb(transform, h, data), block)
    decreases |data|
  {
    if data == [] {
      assert data + block == block;
      assert block[..64] == block && block[64..] == [];
      assert Absorb(transform, h, []) == h;
    } else {
      assert (data + block)[..64] == data[..64];
      assert (data + block)[64..] == data[64..] + block;
      AbsorbSnoc(transform, transform(h, data[..64]), data[64..], block);
    }
  }

  // ----- the context -----

  class Context {
    const transform: (Digest, seq<byte>) -> Digest
    var buf: Digest
    var bits0: word
    var bits1: word
    const block: array<byte>
    ghost var msg: seq<byte>
    ghost var fed: seq<byte>

    /** `msg` is what has been given so far: its whole blocks are digested, the rest waits in the buffer, and the two
        counters hold its length in bits modulo 2^64. */
    ghost predicate Valid()
      reads this, block
    {
      && block.Length == 64
      && |fed| % 64 == 0 && |fed| <= |msg| < |fed| + 64
      && msg == fed + block[..|msg| - |fed|]
      && buf == Absorb(transform, INITIAL, fed)
      && bits0 == Low(|msg|) && bits1 == High(|msg|)
    }

    constructor (transform: (Digest, seq<byte>) -> Digest)
      ensures Valid() && msg == [] && this.transform == transform && fresh(block)
    {
      this.transform := transform;
      buf := INITIAL;
      bits0, bits1 := 0, 0;
      block := new byte[64](_ => 0);
      msg, fed := [], [];
    }

    /** Copies bytes into the buffer. */
    method Store(at: nat, data: seq<byte>)
      requires at + |data| <= block.Length
      modifies block
      ensures block[..at] == old(block[..at]) && block[at..at + |data|] == data
      ensures block[..at + |data|] == old(block[..at]) + data
    {
      for i := 0 to |data|
        invariant block[..at] == old(block[..at]) && block[at..at + i] == data[..i]
      {
        block[at + i] := data[i];
      }
      assert block[..at + |data|] == block[..at] + block[at..at + |data|];
    }

    method Update(data: seq<byte>)
      requires Valid()
      modifies this, block
      ensures Valid() && msg == old(msg) + data
    {
      hide Low, High;
      var t := bits0;
      AddCount(|data|);
      t := t / 8 % 64;
      BufferedBytes(|msg|, |fed|);
      msg := msg + data;
      Absorbing(t, data);
    }

    /** Two counters with a carry. */
    method AddCount(len: nat)
      requires bits0 == Low(|msg|) && bits1 == High(|msg|)
      modifies this`bits0, this`bits1
      ensures bits0 == Low(|msg| + len) && bits1 == High(|msg| + len)
    {
      hide Low, High;
      var t := bits0;
      bits0 := (t + len % 0x1_0000_0000 * 8 % 0x1_0000_0000) % 0x1_0000_0000;
      CountersAdd(|msg|, len, t, bits1, bits0);
      if bits0 < t {
        bits1 := (bits1 + 1) % 0x1_0000_0000;
      }
      bits1 := (bits1 + len / 0x2000_0000) % 0x1_0000_0000;
    }

    /** Fills the buffer up with the first bytes of `data`, then takes the others block by block. */
    method Absorbing(t: nat, data: seq<byte>)
      requires block.Length == 64 && |fed| % 64 == 0 && t < 64 && msg == fed + block[..t] + data
      requires buf == Absorb(transform, INITIAL, fed)
      modifies this`buf, this`fed, block
      ensures |fed| % 64 == 0 && |fed| <= |msg| < |fed| + 64 && msg == fed + block[..|msg| - |fed|]
      ensures buf == Absorb(transform, INITIAL, fed)
    {
      hide Absorb;
      if t == 0 {
        assert fed + block[..0] + data == fed + data;
        TakeBlocks(data);
      } else if |data| < 64 - t {
        Store(t, data);
        assert fed + old(block[..t]) + data == fed + block[..t + |data|];
      } else {
        Store(t, data[..64 - t]);
        assert fed + old(block[..t]) + data == fed + block[..64] + data[64 - t..];
        Feed();
        TakeBlocks(data[64 - t..]);
      }
    }

    method TakeBlocks(data: seq<byte>)
      requires block.Length == 64 && |fed| % 64 == 0 && msg == fed + data && buf == Absorb(transform, INITIAL, fed)
      modifies this`buf, this`fed, block
      ensures |fed| % 64 == 0 && |fed| <= |msg| < |fed| + 64 && msg == fed + block[..|msg| - |fed|]
      ensures buf == Absorb(transform, INITIAL, fed)
    {
      hide Absorb;
      var rest := data;
      while |rest| >= 64
        invariant |fed| % 64 == 0 && msg == fed + rest && buf == Absorb(transform, INITIAL, fed)
      {
        Store(0, rest[..64]);
        assert fed + rest == fed + block[..64] + rest[64..];
        Feed();
        rest := rest[64..];
      }
      Store(0, rest);
    }

    /** One full buffer through the transform. */
    method Feed()
      requires block.Length == 64 && |fed| % 64 == 0 && buf == Absorb(transform, INITIAL, fed)
      modifies this`buf, this`fed
      ensures fed == old(fed) + block[..64] && |fed| % 64 == 0 && buf == Absorb(transform, INITIAL, fed)
    {
      AbsorbSnoc(transform, INITIAL, fed, block[..64]);
      buf := transform(buf, block[..64]);
      fed := fed + block[..64];
    }

    /** Pads the last block, in two lots when the length does not fit, and gives the digest. */
    method Final() returns (digest: Digest)
      requires Valid()
      modifies this, block
      ensures digest == Md5Of(transform, old(msg))
    {
      hide Low, High, Absorb, Md5Of;
      BufferedBytes(|msg|, |fed|);
      var count := bits0 / 8 % 64;
      ghost var rest := msg[|fed|..];
      assert msg == fed + rest;
      Store(count, [0x80]);
      assert block[..count + 1] == Marked(rest);
      if 63 - count < 8 {
        TwoLots(transform, msg, fed, rest);
        Store(count + 1, Zeros(63 - count));
        buf := transform(buf, block[..64]);
        Store(0, Zeros(56));
      } else {
        OneLot(transform, msg, fed, rest);
        Store(count + 1, Zeros(55 - count));
      }
      ghost var front := block[..56];
      Store(56, LittleEndian(bits0));
      Store(60, LittleEndian(bits1));
      assert block[..64] == front + LengthBytes(|msg|);
      digest := transform(buf, block[..64]);
    }
  }

  lemma Assoc(a: seq<byte>, b: seq<byte>, c: seq<byte>, d: seq<byte>)
    ensures a + b + c + d == a + (b + c + d)
  {
  }

  /** The padding of a message of which `rest` is not in whole blocks. */
  lemma PaddedFrom(msg: seq<byte>, fed: seq<byte>, rest: seq<byte>, k: nat)
    requires msg == fed + rest && |fed| % 64 == 0 && k < 64 && (|rest| + 1 + k == 56 || |rest| + 1 + k == 120)
    ensures Padded(msg) == fed + (Marked(rest) + Zeros(k) + LengthBytes(|msg|))
  {
    hide LengthBytes, Zeros, PadZeros;
    PadUnique(|fed|, |rest|, k);
    assert msg + [0x80] == fed + Marked(rest);
    Assoc(fed, Marked(rest), Zeros(k), LengthBytes(|msg|));
  }

  function Marked(rest: seq<byte>): (r: seq<byte>)
    ensures |r| == |rest| + 1
  {
    rest + [0x80]
  }

  lemma AbsorbOne(transform: (Digest, seq<byte>) -> Digest, msg: seq<byte>, fed: seq<byte>, last: seq<byte>)
    requires |fed| % 64 == 0 && |last| == 64 && Padded(msg) == fed + last
    ensures Md5Of(transform, msg) == transform(Absorb(transform, INITIAL, fed), last)
  {
    hide Absorb, Padded;
    AbsorbSnoc(transform, INITIAL, fed, last);
  }

  lemma AbsorbTwo(transform: (Digest, seq<byte>) -> Digest, msg: seq<byte>, fed: seq<byte>, x: seq<byte>, y: seq<byte>)
    requires |fed| % 64 == 0 && |x| == 64 && |y| == 64 && Padded(msg) == fed + (x + y)
    ensures Md5Of(transform, msg) == transform(transform(Absorb(transform, INITIAL, fed), x), y)
  {
    hide Absorb, Padded;
    assert fed + (x + y) == (fed + x) + y;
    AbsorbSnoc(transform, INITIAL, fed, x);
    AbsorbSnoc(transform, INITIAL, fed + x, y);
  }

  lemma OneLot(transform: (Digest, seq<byte>) -> Digest, msg: seq<byte>, fed: seq<byte>, rest: seq<byte>)
    requires msg == fed + rest && |fed| % 64 == 0 && |rest| <= 55
    ensures Md5Of(transform, msg) ==
      transform(Absorb(transform, INITIAL, fed), Marked(rest) + Zeros(55 - |rest|) + LengthBytes(|msg|))
  {
    hide Absorb, LengthBytes, Zeros, Padded, Marked, Md5Of;
    PaddedFrom(msg, fed, rest, 55 - |rest|);
    AbsorbOne(transform, msg, fed, Marked(rest) + Zeros(55 - |rest|) + LengthBytes(|msg|));
  }

  lemma TwoLots(transform: (Digest, seq<byte>) -> Digest, msg: seq<byte>, fed: seq<byte>, rest: seq<byte>)
    requires msg == fed + rest && |fed| % 64 == 0 && 55 < |rest| < 64
    ensures Md5Of(transform, msg) ==
      transform(transform(Absorb(transform, INITIAL, fed), Marked(rest) + Zeros(63 - |rest|)),
                Zeros(56) + LengthBytes(|msg|))
  {
    hide Absorb, LengthBytes, Padded, Marked, Md5Of;
    PaddedFrom(msg, fed, rest, 119 - |rest|);
    ZerosAdd(63 - |rest|, 56);
    hide Zeros;
    var x, y, z, l := Marked(rest), Zeros(63 - |rest|), Zeros(56), LengthBytes(|msg|);
    assert x + (y + z) + l == (x + y) + (z + l);
    AbsorbTwo(transform, msg, fed, x + y, z + l);
  }

  lemma ZerosAdd(m: nat, n: nat)
    ensures Zeros(m) + Zeros(n) == Zeros(m + n)
  {
  }

  lemma PadUnique(whole: nat, rest: nat, k: nat)
    requires whole % 64 == 0 && k < 64 && (rest + 1 + k == 56 || rest + 1 + k == 120)
    ensures PadZeros(whole + rest) == k
  {
  }

  // ----- any cutting -----

  function Flat(chunks: seq<seq<byte>>): seq<byte> {
    if chunks == [] then [] else Flat(chunks[..|chunks| - 1]) + chunks[|chunks| - 1]
  }

  /** However a message is cut into updates, the digest is that of the whole message. */
  method DigestOfChunks(transform: (Digest, seq<byte>) -> Digest, chunks: seq<seq<byte>>) returns (digest: Digest)
    ensures digest == Md5Of(transform, Flat(chunks))
  {
    var ctx := new Context(transform);
    for i := 0 to |chunks|
      invariant ctx.Valid() && fresh(ctx) && fresh(ctx.block) && ctx.transform == transform
      invariant ctx.msg == Flat(chunks[..i])
    {
      assert chunks[..i + 1][..i] == chunks[..i];
      ctx.Update(chunks[i]);
    }
    assert chunks[..|chunks|] == chunks;
    digest := ctx.Final();
  }

  /** The byte count modulo 64 is read off the low counter. */
  lemma BufferedBytes(n: nat, whole: nat)
    requires whole % 64 == 0 && whole <= n < whole + 64
    ensures Low(n) / 8 % 64 == n - whole
  {
    var k, r := n / 0x2000_0000, n % 0x2000_0000;
    assert n == 0x2000_0000 * k + r;
    ModUnique(8 * n, 0x1_0000_0000, k, 8 * r);
    var w := whole / 64;
    ModUnique(r, 64, w - 0x80_0000 * k, n - whole);
  }

  lemma SplitSum(x: nat, y: nat, low: nat)
    requires low == (x % 0x1_0000_0000 + y % 0x1_0000_0000) % 0x1_0000_0000
    ensures low == (x + y) % 0x1_0000_0000
    ensures (x + y) / 0x1_0000_0000 == x / 0x1_0000_0000 + y / 0x1_0000_0000 + if low < x % 0x1_0000_0000 then 1 else 0
  {
    var p, q := x / 0x1_0000_0000, y / 0x1_0000_0000;
    var a, b := x % 0x1_0000_0000, y % 0x1_0000_0000;
    assert x == 0x1_0000_0000 * p + a && y == 0x1_0000_0000 * q + b;
    if a + b < 0x1_0000_0000 {
      ModUnique(a + b, 0x1_0000_0000, 0, a + b);
      ModUnique(x + y, 0x1_0000_0000, p + q, low);
    } else {
      ModUnique(a + b, 0x1_0000_0000, 1, a + b - 0x1_0000_0000);
      ModUnique(x + y, 0x1_0000_0000, p + q + 1, low);
    }
  }

  lemma ModSum(x: nat, y: nat)
    ensures (x % 0x1_0000_0000 + y) % 0x1_0000_0000 == (x + y) % 0x1_0000_0000
  {
    var p, a := x / 0x1_0000_0000, x % 0x1_0000_0000;
    var q, r := (a + y) / 0x1_0000_0000, (a + y) % 0x1_0000_0000;
    assert x == 0x1_0000_0000 * p + a && a + y == 0x1_0000_0000 * q + r;
    ModUnique(x + y, 0x1_0000_0000, p + q, r);
  }

  lemma EightTimes(len: nat)
    ensures len % 0x1_0000_0000 * 8 % 0x1_0000_0000 == 8 * len % 0x1_0000_0000
    ensures len / 0x2000_0000 == 8 * len / 0x1_0000_0000
  {
    var k, m := len / 0x1_0000_0000, len % 0x1_0000_0000;
    var q, r := m * 8 / 0x1_0000_0000, m * 8 % 0x1_0000_0000;
    assert len == 0x1_0000_0000 * k + m && m * 8 == 0x1_0000_0000 * q + r;
    ModUnique(8 * len, 0x1_0000_0000, 8 * k + q, r);
    var h, l := len / 0x2000_0000, len % 0x2000_0000;
    assert len == 0x2000_0000 * h + l;
    ModUnique(8 * len, 0x1_0000_0000, h, 8 * l);
  }

  /** The two counters with carry add as one 64-bit counter. */
  lemma {:induction false} CountersAdd(n: nat, len: nat, bits0: nat, bits1: nat, low: nat)
    requires bits0 == Low(n) && bits1 == High(n)
    requires low == (bits0 + len % 0x1_0000_0000 * 8 % 0x1_0000_0000) % 0x1_0000_0000
    ensures low == Low(n + len)
    ensures ((if low < bits0 then (bits1 + 1) % 0x1_0000_0000 else bits1) + len / 0x2000_0000) % 0x1_0000_0000 ==
      High(n + len)
  {
    EightTimes(len);
    SplitSum(8 * n, 8 * len, low);
    assert 8 * n + 8 * len == 8 * (n + len);
    var high, carry := 8 * n / 0x1_0000_0000, if low < bits0 then 1 else 0;
    ModSum(high, carry);
    ModSum(high, len / 0x2000_0000);
    ModSum(high + carry, len / 0x2000_0000);
  }
}
