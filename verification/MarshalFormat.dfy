/**
 The compact marshalling format: one token per value met by the writer, its byte codes
 (extern_int, extern_header, extern_string, ...) and the reader's decoding of one code.
 The host's float byte order is a parameter, so writer and reader may run on different hosts.
 */
module MarshalFormat {
  import opened Bytes

  const PREFIX_SMALL_BLOCK := 0x80
  const PREFIX_SMALL_INT := 0x40
  const PREFIX_SMALL_STRING := 0x20
  const CODE_INT8 := 0x0
  const CODE_INT16 := 0x1
  const CODE_INT32 := 0x2
  const CODE_INT64 := 0x3
  const CODE_SHARED8 := 0x4
  const CODE_SHARED16 := 0x5
  const CODE_SHARED32 := 0x6
  const CODE_DOUBLE_ARRAY32_LITTLE := 0x7
  const CODE_BLOCK32 := 0x8
  const CODE_STRING8 := 0x9
  const CODE_STRING32 := 0xA
  const CODE_DOUBLE_BIG := 0xB
  const CODE_DOUBLE_LITTLE := 0xC
  const CODE_DOUBLE_ARRAY8_BIG := 0xD
  const CODE_DOUBLE_ARRAY8_LITTLE := 0xE
  const CODE_DOUBLE_ARRAY32_BIG := 0xF
  const CODE_BLOCK64 := 0x13
  const CODE_SHARED64 := 0x14
  const CODE_STRING64 := 0x15
  const CODE_DOUBLE_ARRAY64_BIG := 0x16
  const CODE_DOUBLE_ARRAY64_LITTLE := 0x17

  /** The colour written in the header of a marshalled block. */
  const NOT_MARKABLE := 3 * 256

  datatype Host = BigEndianHost | LittleEndianHost

  datatype Flags = Flags(noSharing: bool, compat32: bool)

  /** The eight bytes of a double, most significant first. */
  type Double = s: seq<byte> | |s| == 8 witness [0, 0, 0, 0, 0, 0, 0, 0]

  datatype Token =
    | TInt(n: int)
    | THeader(size: nat, tag: nat)
    | TShared(dist: nat)
    | TString(s: seq<byte>)
    | TDouble(d: Double)
    | TDoubleArray(ds: seq<Double>)

  /** The range of each token on a 64-bit build. */
  predicate Representable(t: Token) {
    match t
    case TInt(n) => -0x4000_0000_0000_0000 <= n < 0x4000_0000_0000_0000
    case THeader(size, tag) => size < 0x40_0000_0000_0000 && tag < 256
    case TShared(dist) => dist < TWO64
    case TString(s) => |s| < TWO64
    case TDouble(_) => true
    case TDoubleArray(ds) => |ds| < TWO64
  }

  /** The "cannot be read back on 32-bit platform" checks. */
  predicate Accepted(flags: Flags, t: Token) {
    flags.compat32 ==>
      match t
      case TInt(n) => -0x4000_0000 <= n < 0x4000_0000
      case THeader(size, _) => size <= 0x3F_FFFF
      case TShared(_) => true
      case TString(s) => |s| <= 0xFF_FFFB
      case TDouble(_) => true
      case TDoubleArray(ds) => |ds| <= 0x1F_FFFF
  }

  // ----- writing -----

  function Memory(host: Host, d: Double): Double {
    if host.BigEndianHost? then d else Reversed(d)
  }

  function MemoryAll(host: Host, ds: seq<Double>): (s: seq<byte>)
    ensures |s| == 8 * |ds|
    ensures forall j :: 0 <= j < 8 * |ds| ==> s[j] == Memory(host, ds[j / 8])[j % 8]
  {
    seq(8 * |ds|, j requires 0 <= j < 8 * |ds| => Memory(host, ds[j / 8])[j % 8])
  }

  function EncodeInt(n: int): seq<byte>
  {
    if 0 <= n < 0x40 then [PREFIX_SMALL_INT + n]
    else if -0x80 <= n < 0x80 then [CODE_INT8] + BigEndian(n, 1)
    else if -0x8000 <= n < 0x8000 then [CODE_INT16] + BigEndian(n, 2)
    else if n < -0x4000_0000 || n >= 0x4000_0000 then [CODE_INT64] + BigEndian(n, 8)
    else [CODE_INT32] + BigEndian(n, 4)
  }

  function EncodeShared(d: nat): seq<byte> {
    if d < 0x100 then [CODE_SHARED8] + BigEndian(d, 1)
    else if d < 0x1_0000 then [CODE_SHARED16] + BigEndian(d, 2)
    else if d >= TWO32 then [CODE_SHARED64] + BigEndian(d, 8)
    else [CODE_SHARED32] + BigEndian(d, 4)
  }

  function EncodeHeader(size: nat, tag: nat): seq<byte> {
    if tag < 16 && size < 8 then [PREFIX_SMALL_BLOCK + tag + 16 * size]
    else
      var hd := 1024 * size + NOT_MARKABLE + tag;
      if hd < TWO32 then [CODE_BLOCK32] + BigEndian(hd, 4) else [CODE_BLOCK64] + BigEndian(hd, 8)
  }

  function StringWidth(n: nat): nat {
    if n < 0x20 then 0 else if n < 0x100 then 1 else if n < TWO32 then 4 else 8
  }

  function StringCode(n: nat): byte {
    if n < 0x20 then PREFIX_SMALL_STRING + n
    else if n < 0x100 then CODE_STRING8 else if n < TWO32 then CODE_STRING32 else CODE_STRING64
  }

  function EncodeString(s: seq<byte>): seq<byte> {
    [StringCode(|s|)] + BigEndian(|s|, StringWidth(|s|)) + s
  }

  function DoubleCode(host: Host): byte {
    if host.BigEndianHost? then CODE_DOUBLE_BIG else CODE_DOUBLE_LITTLE
  }

  function ArrayCode(host: Host, n: nat): (code: byte)
    ensures !Swaps(host, code) <==> n < TWO32
  {
    var big := host.BigEndianHost?;
    if n < 0x100 then if big then CODE_DOUBLE_ARRAY8_BIG else CODE_DOUBLE_ARRAY8_LITTLE
    else if n < TWO32 then if big then CODE_DOUBLE_ARRAY32_BIG else CODE_DOUBLE_ARRAY32_LITTLE
    else if big then CODE_DOUBLE_ARRAY64_BIG else CODE_DOUBLE_ARRAY64_LITTLE
  }

  function ArrayWidth(n: nat): nat {
    if n < 0x100 then 1 else if n < TWO32 then 4 else 8
  }

  function EncodeDoubleArray(host: Host, ds: seq<Double>): seq<byte> {
    [ArrayCode(host, |ds|)] + BigEndian(|ds|, ArrayWidth(|ds|)) + MemoryAll(host, ds)
  }

  function Encode(host: Host, t: Token): seq<byte> {
    match t
    case TInt(n) => EncodeInt(n)
    case THeader(size, tag) => EncodeHeader(size, tag)
    case TShared(d) => EncodeShared(d)
    case TString(s) => EncodeString(s)
    case TDouble(d) => [DoubleCode(host)] + Memory(host, d)
    case TDoubleArray(ds) => EncodeDoubleArray(host, ds)
  }

  function EncodeAll(host: Host, ts: seq<Token>): seq<byte> {
    if ts == [] then [] else Encode(host, ts[0]) + EncodeAll(host, ts[1..])
  }

  lemma {:induction false} EncodeSnoc(host: Host, ts: seq<Token>, t: Token)
    ensures EncodeAll(host, ts + [t]) == EncodeAll(host, ts) + Encode(host, t)
  {
    hide Encode;
    if ts == [] {
      assert EncodeAll(host, [t]) == Encode(host, t) + EncodeAll(host, []);
    } else {
      EncodeSnoc(host, ts[1..], t);
      assert (ts + [t])[1..] == ts[1..] + [t];
    }
  }

  // ----- reading -----

  /** A decoded token and the number of bytes it took. */
  type Decoded = Option<(Token, nat)>

  function Argument(src: seq<byte>, w: nat): Option<nat> {
    if |src| < 1 + w then None else Some(FromBigEndian(src[1..1 + w]))
  }

  function DecodeSigned(src: seq<byte>, w: nat, m: nat): Decoded {
    match Argument(src, w)
    case None => None
    case Some(u) => Some((TInt(Signed(u, m)), 1 + w))
  }

  function DecodeShared(src: seq<byte>, w: nat): Decoded {
    match Argument(src, w)
    case None => None
    case Some(u) => Some((TShared(u), 1 + w))
  }

  function DecodeHeader(src: seq<byte>, w: nat): Decoded {
    match Argument(src, w)
    case None => None
    case Some(hd) => Some((THeader(hd / 1024, hd % 256), 1 + w))
  }

  function StringAt(src: seq<byte>, k: nat, len: nat): Decoded {
    if |src| < k + len then None else Some((TString(src[k..k + len]), k + len))
  }

  function DecodeString(src: seq<byte>, w: nat): Decoded {
    match Argument(src, w)
    case None => None
    case Some(len) => StringAt(src, 1 + w, len)
  }

  /** A double as the reading host sees it after the endianness fix-up. */
  function FixUp(host: Host, reverse: bool, raw: Double): Double {
    var fixed := if reverse then Reversed(raw) else raw;
    Memory(host, fixed)
  }

  function DoublesAt(host: Host, swap: bool, src: seq<byte>, k: nat, len: nat): (ds: seq<Double>)
    requires k + 8 * len <= |src|
    ensures |ds| == len
    ensures forall i :: 0 <= i < len ==> ds[i] == FixUp(host, swap, src[k + 8 * i..k + 8 * i + 8])
  {
    seq(len, i requires 0 <= i < len => FixUp(host, swap, src[k + 8 * i..k + 8 * i + 8]))
  }

  /** Whether readfloats swaps bytes: the native 8- and 32-bit codes are exempt, the 64-bit code is not. */
  predicate Swaps(host: Host, code: byte) {
    if host.BigEndianHost? then
      code != CODE_DOUBLE_ARRAY8_BIG && code != CODE_DOUBLE_ARRAY32_BIG
    else
      code != CODE_DOUBLE_ARRAY8_LITTLE && code != CODE_DOUBLE_ARRAY32_LITTLE
  }

  function DecodeDoubleArray(host: Host, code: byte, src: seq<byte>, w: nat): Decoded {
    match Argument(src, w)
    case None => None
    case Some(len) =>
      if |src| < 1 + w + 8 * len then None
      else Some((TDoubleArray(DoublesAt(host, Swaps(host, code), src, 1 + w, len)), 1 + w + 8 * len))
  }

  function Decode(host: Host, src: seq<byte>): (r: Decoded)
    ensures r.Some? ==> 1 <= r.value.1 <= |src|
  {
    if src == [] then None
    else
      var code := src[0];
      if code >= PREFIX_SMALL_BLOCK then Some((THeader(code / 16 % 8, code % 16), 1))
      else if code >= PREFIX_SMALL_INT then Some((TInt(code % 0x40), 1))
      else if code >= PREFIX_SMALL_STRING then StringAt(src, 1, code % 0x20)
      else if code == CODE_INT8 then DecodeSigned(src, 1, 0x100)
      else if code == CODE_INT16 then DecodeSigned(src, 2, 0x1_0000)
      else if code == CODE_INT32 then DecodeSigned(src, 4, TWO32)
      else if code == CODE_INT64 then DecodeSigned(src, 8, TWO64)
      else if code == CODE_SHARED8 then DecodeShared(src, 1)
      else if code == CODE_SHARED16 then DecodeShared(src, 2)
      else if code == CODE_SHARED32 then DecodeShared(src, 4)
      else if code == CODE_SHARED64 then DecodeShared(src, 8)
      else if code == CODE_BLOCK32 then DecodeHeader(src, 4)
      else if code == CODE_BLOCK64 then DecodeHeader(src, 8)
      else if code == CODE_STRING8 then DecodeString(src, 1)
      else if code == CODE_STRING32 then DecodeString(src, 4)
      else if code == CODE_STRING64 then DecodeString(src, 8)
      else if code == CODE_DOUBLE_BIG || code == CODE_DOUBLE_LITTLE then
        if |src| < 9 then None
        else Some((TDouble(FixUp(host, code != DoubleCode(host), src[1..9])), 9))
      else if code == CODE_DOUBLE_ARRAY8_BIG || code == CODE_DOUBLE_ARRAY8_LITTLE then
        DecodeDoubleArray(host, code, src, 1)
      else if code == CODE_DOUBLE_ARRAY32_BIG || code == CODE_DOUBLE_ARRAY32_LITTLE then
        DecodeDoubleArray(host, code, src, 4)
      else if code == CODE_DOUBLE_ARRAY64_BIG || code == CODE_DOUBLE_ARRAY64_LITTLE then
        DecodeDoubleArray(host, code, src, 8)
      else None // ill-formed message
  }

  // ----- the codec round trip -----

  function ReversedAll(ds: seq<Double>): (r: seq<Double>)
    ensures |r| == |ds|
    ensures forall i :: 0 <= i < |ds| ==> r[i] == Reversed(ds[i])
  {
    if ds == [] then [] else [Reversed(ds[0])] + ReversedAll(ds[1..])
  }

  /** What the reader gets for a token: the 64-bit float array code is byte-swapped between equal hosts. */
  function Received(writer: Host, reader: Host, t: Token): (r: Token)
    ensures !t.TDoubleArray? ==> r == t
  {
    if t.TDoubleArray? && |t.ds| >= TWO32 && writer == reader then TDoubleArray(ReversedAll(t.ds)) else t
  }

  lemma SignedCode(src: seq<byte>, n: int, w: nat)
    requires 0 <= 2 * n + Pow256(w) && 2 * n < Pow256(w)
    requires 1 + w <= |src| && src[1..1 + w] == BigEndian(n, w)
    ensures DecodeSigned(src, w, Pow256(w)) == Some((TInt(n), 1 + w))
  {
    SignedWord(n, w);
  }

  lemma UnsignedCode(src: seq<byte>, n: nat, w: nat)
    requires n < Pow256(w)
    requires 1 + w <= |src| && src[1..1 + w] == BigEndian(n, w)
    ensures Argument(src, w) == Some(n)
  {
    UnsignedWord(n, w);
  }

  lemma {:induction false} DecodeEncodeInt(host: Host, n: int, rest: seq<byte>)
    requires Representable(TInt(n))
    ensures Decode(host, EncodeInt(n) + rest) == Some((TInt(n), |EncodeInt(n)|))
  {
    hide BigEndian, FromBigEndian;
    PowerValues();
    if !(0 <= n < 0x40) {
      var code, w :=
        if -0x80 <= n < 0x80 then CODE_INT8 else if -0x8000 <= n < 0x8000 then CODE_INT16
        else if n < -0x4000_0000 || n >= 0x4000_0000 then CODE_INT64 else CODE_INT32,
        if -0x80 <= n < 0x80 then 1 else if -0x8000 <= n < 0x8000 then 2
        else if n < -0x4000_0000 || n >= 0x4000_0000 then 8 else 4;
      Parts2(code, BigEndian(n, w), rest);
      SignedCode(EncodeInt(n) + rest, n, w);
    }
  }

  lemma DecodeEncodeShared(host: Host, d: nat, rest: seq<byte>)
    requires d < TWO64
    ensures Decode(host, EncodeShared(d) + rest) == Some((TShared(d), |EncodeShared(d)|))
  {
    hide BigEndian, FromBigEndian;
    PowerValues();
    var w := |EncodeShared(d)| - 1;
    Parts2(EncodeShared(d)[0], BigEndian(d, w), rest);
    UnsignedCode(EncodeShared(d) + rest, d, w);
  }

  lemma HeaderFields(size: nat, tag: nat)
    requires tag < 256
    ensures (1024 * size + NOT_MARKABLE + tag) / 1024 == size
    ensures (1024 * size + NOT_MARKABLE + tag) % 256 == tag
  {
  }

  lemma {:induction false} DecodeEncodeHeader(host: Host, size: nat, tag: nat, rest: seq<byte>)
    requires Representable(THeader(size, tag))
    ensures Decode(host, EncodeHeader(size, tag) + rest)
         == Some((THeader(size, tag), |EncodeHeader(size, tag)|))
  {
    hide BigEndian, FromBigEndian;
    PowerValues();
    if !(tag < 16 && size < 8) {
      var hd, w := 1024 * size + NOT_MARKABLE + tag, |EncodeHeader(size, tag)| - 1;
      HeaderFields(size, tag);
      Parts2(EncodeHeader(size, tag)[0], BigEndian(hd, w), rest);
      UnsignedCode(EncodeHeader(size, tag) + rest, hd, w);
    }
  }

  lemma StringDispatch(host: Host, n: nat, src: seq<byte>)
    requires n < TWO64 && 1 + StringWidth(n) + n <= |src| && src[0] == StringCode(n)
    requires src[1..1 + StringWidth(n)] == BigEndian(n, StringWidth(n))
    ensures Decode(host, src) == StringAt(src, 1 + StringWidth(n), n)
  {
    hide BigEndian, FromBigEndian;
    PowerValues();
    if n >= 0x20 {
      UnsignedCode(src, n, StringWidth(n));
    }
  }

  lemma {:induction false} DecodeEncodeString(host: Host, s: seq<byte>, rest: seq<byte>)
    requires |s| < TWO64
    ensures Decode(host, EncodeString(s) + rest) == Some((TString(s), |EncodeString(s)|))
  {
    hide BigEndian, FromBigEndian, Decode;
    Parts3(StringCode(|s|), BigEndian(|s|, StringWidth(|s|)), s, rest);
    StringDispatch(host, |s|, EncodeString(s) + rest);
  }

  lemma FixUpMemory(writer: Host, reader: Host, d: Double)
    ensures FixUp(reader, writer != reader, Memory(writer, d)) == d
    ensures FixUp(reader, true, Memory(writer, d)) == if writer == reader then Reversed(d) else d
  {
    assert Reversed(Reversed(d)) == d;
    assert Reversed(Reversed(Reversed(d))) == Reversed(d);
  }

  lemma MemoryAt(host: Host, ds: seq<Double>, src: seq<byte>, k: nat, i: nat)
    requires k + 8 * |ds| <= |src| && src[k..k + 8 * |ds|] == MemoryAll(host, ds) && i < |ds|
    ensures src[k + 8 * i..k + 8 * i + 8] == Memory(host, ds[i])
  {
    hide Memory;
    var got, all := src[k + 8 * i..k + 8 * i + 8], MemoryAll(host, ds);
    forall b | 0 <= b < 8 ensures got[b] == Memory(host, ds[i])[b] {
      Octet(i, b);
      assert got[b] == src[k..k + 8 * |ds|][8 * i + b];
    }
  }

  lemma Octet(i: nat, b: nat)
    requires b < 8
    ensures (8 * i + b) / 8 == i && (8 * i + b) % 8 == b
  {
  }

  lemma DoublesRead(writer: Host, reader: Host, ds: seq<Double>, src: seq<byte>, k: nat, swap: bool)
    requires swap || writer == reader
    requires k + 8 * |ds| <= |src| && src[k..k + 8 * |ds|] == MemoryAll(writer, ds)
    ensures DoublesAt(reader, swap, src, k, |ds|)
         == if swap && writer == reader then ReversedAll(ds) else ds
  {
    hide MemoryAll, Memory, FixUp;
    var read := DoublesAt(reader, swap, src, k, |ds|);
    forall i | 0 <= i < |ds|
      ensures read[i] == if swap && writer == reader then Reversed(ds[i]) else ds[i]
    {
      MemoryAt(writer, ds, src, k, i);
      FixUpMemory(writer, reader, ds[i]);
    }
  }

  lemma ArrayDispatch(writer: Host, reader: Host, n: nat, src: seq<byte>)
    requires src != [] && src[0] == ArrayCode(writer, n)
    ensures Decode(reader, src) == DecodeDoubleArray(reader, src[0], src, ArrayWidth(n))
  {
  }

  lemma {:induction false} DecodeEncodeDoubleArray(writer: Host, reader: Host, ds: seq<Double>, rest: seq<byte>)
    requires |ds| < TWO64
    ensures Decode(reader, EncodeDoubleArray(writer, ds) + rest)
         == Some((Received(writer, reader, TDoubleArray(ds)), |EncodeDoubleArray(writer, ds)|))
  {
    hide BigEndian, FromBigEndian, MemoryAll, DoublesAt, Decode;
    PowerValues();
    var src, code, w := EncodeDoubleArray(writer, ds) + rest, ArrayCode(writer, |ds|), ArrayWidth(|ds|);
    Parts3(code, BigEndian(|ds|, w), MemoryAll(writer, ds), rest);
    ArrayDispatch(writer, reader, |ds|, src);
    UnsignedCode(src, |ds|, w);
    DoublesRead(writer, reader, ds, src, 1 + w, Swaps(reader, code));
  }

  lemma DecodeEncodeDouble(writer: Host, reader: Host, d: Double, rest: seq<byte>)
    ensures Decode(reader, [DoubleCode(writer)] + Memory(writer, d) + rest) == Some((TDouble(d), 9))
  {
    hide Memory, FixUp;
    Parts2(DoubleCode(writer), Memory(writer, d), rest);
    FixUpMemory(writer, reader, d);
  }

  /** Decoding an encoded token gives the received token and consumes exactly its bytes. */
  lemma {:induction false} DecodeEncode(writer: Host, reader: Host, t: Token, rest: seq<byte>)
    requires Representable(t)
    ensures Decode(reader, Encode(writer, t) + rest)
         == Some((Received(writer, reader, t), |Encode(writer, t)|))
  {
    hide Decode, EncodeInt, EncodeHeader, EncodeShared, EncodeString, EncodeDoubleArray, Memory;
    match t
    case TInt(n) => DecodeEncodeInt(reader, n, rest);
    case THeader(size, tag) => DecodeEncodeHeader(reader, size, tag, rest);
    case TShared(d) => DecodeEncodeShared(reader, d, rest);
    case TString(s) => DecodeEncodeString(reader, s, rest);
    case TDouble(d) => DecodeEncodeDouble(writer, reader, d, rest);
    case TDoubleArray(ds) => DecodeEncodeDoubleArray(writer, reader, ds, rest);
  }
}
