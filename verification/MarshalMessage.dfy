/** Complete messages: the 20- or 32-byte header in front of the data, and the end-to-end round trip. */
module MarshalMessage {
  import opened Bytes
  import opened MarshalFormat
  import opened MarshalHeap
  import opened MarshalRoundTrip

  const MAGIC_SMALL := 0x8495A6BE
  const MAGIC_BIG := 0x8495A6BF

  /** `words32`, for 32-bit readers, is in the small header only. */
  datatype Header = Header(length: nat, dataLen: nat, objects: nat, words: nat, words32: Option<nat>)

  /** None when COMPAT_32 forbids the big format. Sizes at or above 2^32 need the big format. */
  function HeaderFor(flags: Flags, dataLen: nat, objects: nat, words32: nat, words64: nat): Option<seq<byte>> {
    if dataLen >= TWO32 || words32 >= TWO32 || words64 >= TWO32 then
      if flags.compat32 then None
      else
        Some(BigEndian(MAGIC_BIG, 4) + (BigEndian(0, 4) +
             (BigEndian(dataLen, 8) + (BigEndian(objects, 8) + BigEndian(words64, 8)))))
    else
      Some(BigEndian(MAGIC_SMALL, 4) + (BigEndian(dataLen, 4) +
           (BigEndian(objects, 4) + (BigEndian(words32, 4) + BigEndian(words64, 4)))))
  }

  function ParseHeader(src: seq<byte>): Option<Header> {
    var (magic, s1) :- Read(src, 4);
    if magic == MAGIC_SMALL then
      var (dataLen, s2) :- Read(s1, 4);
      var (objects, s3) :- Read(s2, 4);
      var (words32, s4) :- Read(s3, 4);
      var (words, _) :- Read(s4, 4);
      Some(Header(20, dataLen, objects, words, Some(words32)))
    else if magic == MAGIC_BIG then
      var (_, s2) :- Read(s1, 4);
      var (dataLen, s3) :- Read(s2, 8);
      var (objects, s4) :- Read(s3, 8);
      var (words, _) :- Read(s4, 8);
      Some(Header(32, dataLen, objects, words, None))
    else None // bad object
  }

  lemma {:induction false} ParseHeaderFor(flags: Flags, dataLen: nat, objects: nat, words32: nat, words64: nat,
                                          data: seq<byte>)
    requires dataLen < TWO64 && words64 < TWO64 && objects <= words64
    requires HeaderFor(flags, dataLen, objects, words32, words64).Some?
    ensures var hd := HeaderFor(flags, dataLen, objects, words32, words64).value;
      && |hd| == (if dataLen >= TWO32 || words32 >= TWO32 || words64 >= TWO32 then 32 else 20)
      && ParseHeader(hd + data) ==
           Some(Header(|hd|, dataLen, objects, words64, if |hd| == 20 then Some(words32) else None))
  {
    hide BigEndian, Read;
    PowerValues();
    if dataLen >= TWO32 || words32 >= TWO32 || words64 >= TWO32 {
      var t5 := BigEndian(words64, 8) + data;
      var t4 := BigEndian(objects, 8) + t5;
      var t3 := BigEndian(dataLen, 8) + t4;
      var t2 := BigEndian(0, 4) + t3;
      assert HeaderFor(flags, dataLen, objects, words32, words64).value + data == BigEndian(MAGIC_BIG, 4) + t2;
      ReadField(MAGIC_BIG, 4, t2);
      ReadField(0, 4, t3);
      ReadField(dataLen, 8, t4);
      ReadField(objects, 8, t5);
      ReadField(words64, 8, data);
    } else {
      var t5 := BigEndian(words64, 4) + data;
      var t4 := BigEndian(words32, 4) + t5;
      var t3 := BigEndian(objects, 4) + t4;
      var t2 := BigEndian(dataLen, 4) + t3;
      assert HeaderFor(flags, dataLen, objects, words32, words64).value + data == BigEndian(MAGIC_SMALL, 4) + t2;
      ReadField(MAGIC_SMALL, 4, t2);
      ReadField(dataLen, 4, t3);
      ReadField(objects, 4, t4);
      ReadField(words32, 4, t5);
      ReadField(words64, 4, data);
    }
  }

  /** Words counted for a 32-bit reader. */
  function Words32(t: Token): nat {
    match t
    case THeader(size, _) => if size == 0 then 0 else 1 + size
    case TString(s) => 1 + (|s| + 4) / 4
    case TDouble(_) => 3
    case TDoubleArray(ds) => 1 + 2 * |ds|
    case _ => 0
  }

  function TotalWords32(toks: seq<Token>): nat {
    if toks == [] then 0 else Words32(toks[0]) + TotalWords32(toks[1..])
  }

  /** `msg` is the message extern_value builds for the session's root. */
  ghost predicate Message(s: Session, toks: seq<Token>, msg: seq<byte>) {
    && Writes(s.h, s.flags, [s.root], [], toks)
    && var data := EncodeAll(s.writer, toks);
       var objects := |RecordedAll(s.h, s.flags, [s.root], [], toks)|;
       var hd := HeaderFor(s.flags, |data|, objects, TotalWords32(toks), TotalWords(toks));
       hd.Some? && msg == hd.value + data
  }

  /** Parsing the header, allocating the object table if objects are announced, and reading the data. */
  function Unmarshal(host: Host, msg: seq<byte>): Option<Reader> {
    var hd :- ParseHeader(msg);
    if |msg| < hd.length + hd.dataLen then None // bad length
    else
      var (r, _) :- ReadAll(host, Initial(), hd.words > 0 && hd.objects > 0, msg[hd.length..]);
      Some(r)
  }

  /** Every recorded block costs at least two words, so the object count always fits its header field. */
  lemma {:induction false} ObjectsBounded(h: Heap, flags: Flags, pend: seq<Value>, order: seq<int>, toks: seq<Token>)
    requires WellFormed(h) && Writes(h, flags, pend, order, toks)
    ensures |order| <= |RecordedAll(h, flags, pend, order, toks)| <= |order| + TotalWords(toks)
    ensures flags.noSharing ==> RecordedAll(h, flags, pend, order, toks) == order
    decreases |toks|
  {
    if pend != [] {
      var v := pend[0];
      ObjectsBounded(h, flags, Children(h, flags, order, v) + pend[1..], Recorded(flags, order, v), toks[1..]);
    }
  }

  /** A message without objects carries an immediate value or an atom, read alike with or without a table. */
  lemma NoObjects(s: Session, toks: seq<Token>, rest: seq<byte>)
    requires Ready(s) && !s.flags.noSharing && Writes(s.h, s.flags, [s.root], [], toks)
    requires RecordedAll(s.h, s.flags, [s.root], [], toks) == []
    ensures ReadAll(s.reader, Initial(), false, EncodeAll(s.writer, toks) + rest)
         == ReadAll(s.reader, Initial(), true, EncodeAll(s.writer, toks) + rest)
  {
    var v, src := s.root, EncodeAll(s.writer, toks) + rest;
    if v.Ptr? {
      ObjectsBounded(s.h, s.flags, Children(s.h, s.flags, [], v) + [s.root][1..], Recorded(s.flags, [], v), toks[1..]);
    } else {
      var t := toks[0];
      var more := EncodeAll(s.writer, toks[1..]) + rest;
      assert src == Encode(s.writer, t) + more;
      DecodeEncode(s.writer, s.reader, t, more);
      assert Fill(Initial(), v).pend == [];
    }
  }

  /**
   Unmarshalling a marshalled message succeeds. The copy has the same graph along every access path;
   it has exactly the same sharing in sharing mode and is the tree unfolding under NO_SHARING.
   The words and objects consumed are those the header announces.
   */
  lemma {:induction false} RoundTrip(s: Session, toks: seq<Token>, msg: seq<byte>)
    returns (r: Reader)
    requires Ready(s) && Message(s, toks, msg)
    requires |EncodeAll(s.writer, toks)| < TWO64 && TotalWords(toks) < TWO64
    ensures Unmarshal(s.reader, msg) == Some(r)
    ensures SameGraph(s.writer, s.reader, s.h, s.root, r.heap, r.root)
    ensures !s.flags.noSharing ==> SameSharing(s.h, s.root, r.heap, r.root)
    ensures s.flags.noSharing ==> IsTree(r.heap, r.root)
    ensures ParseHeader(msg).Some? && r.dest == ParseHeader(msg).value.words
    ensures !s.flags.noSharing && ParseHeader(msg).value.objects > 0 ==> |r.table| == ParseHeader(msg).value.objects
  {
    hide Writes, EncodeAll, ParseHeader, ReadAll, Sim, SameGraph, SameSharing, IsTree;
    var data := EncodeAll(s.writer, toks);
    var order := RecordedAll(s.h, s.flags, [s.root], [], toks);
    var hd := HeaderFor(s.flags, |data|, |order|, TotalWords32(toks), TotalWords(toks)).value;
    ObjectsBounded(s.h, s.flags, [s.root], [], toks);
    ParseHeaderFor(s.flags, |data|, |order|, TotalWords32(toks), TotalWords(toks), data);
    assert msg[|hd|..] == data && data + [] == data;
    InitialSim(s);
    var g, order';
    r, g, order' := Simulate(s, Initial(), Ghosts(map[], map[]), [s.root], [], toks, []);
    if !s.flags.noSharing && order == [] {
      NoObjects(s, toks, []);
    }
    GraphAgrees(s, r, g, order');
    TableSize(s, r, g, order');
  }

  lemma TableSize(s: Session, r: Reader, g: Ghosts, order: seq<int>)
    requires Sim(s, r, g, [], order)
    ensures !s.flags.noSharing ==> |r.table| == |order|
  {
  }

  // ----- when the copy is exact -----

  /** Float arrays come back bit for bit. */
  ghost predicate ExactFloats(h: Heap, v: Value, h': Heap, v': Value) {
    forall p :: ReachesBlock(h, v, p) && ReachesBlock(h', v', p) &&
                Follow(h, v, p).value.a in h && Follow(h', v', p).value.a in h' &&
                h[Follow(h, v, p).value.a].Dbls? ==>
      h'[Follow(h', v', p).value.a] == h[Follow(h, v, p).value.a]
  }

  /** No float array of 2^32 elements or more is reachable, unless each element reads the same backwards. */
  ghost predicate FloatArraysSurvive(s: Session) {
    s.writer == s.reader ==>
      forall p :: ReachesBlock(s.h, s.root, p) && Follow(s.h, s.root, p).value.a in s.h &&
                  s.h[Follow(s.h, s.root, p).value.a].Dbls? &&
                  |s.h[Follow(s.h, s.root, p).value.a].ds| >= TWO32 ==>
        Palindromes(s.h[Follow(s.h, s.root, p).value.a].ds)
  }

  ghost predicate Palindromes(ds: seq<Double>) {
    forall i :: 0 <= i < |ds| ==> Reversed(ds[i]) == ds[i]
  }

  lemma ReversedAllFixed(ds: seq<Double>)
    ensures ReversedAll(ds) == ds <==> Palindromes(ds)
  {
    if Palindromes(ds) {
      assert ReversedAll(ds) == ds;
    } else {
      var i :| 0 <= i < |ds| && Reversed(ds[i]) != ds[i];
      assert ReversedAll(ds)[i] != ds[i];
    }
  }

  /** The reader swaps bytes of 64-bit-length float arrays from an equal host: exactly then the copy differs. */
  lemma {:induction false} ExactIff(s: Session, r: Reader)
    requires SameGraph(s.writer, s.reader, s.h, s.root, r.heap, r.root)
    ensures ExactFloats(s.h, s.root, r.heap, r.root) <==> FloatArraysSurvive(s)
  {
    forall p | ReachesBlock(s.h, s.root, p)
      ensures ReachesBlock(r.heap, r.root, p)
      ensures SameHere(s.writer, s.reader, s.h, Follow(s.h, s.root, p).value, r.heap, Follow(r.heap, r.root, p).value)
    {
      assert Follow(s.h, s.root, p).Some?;
    }
    hide Follow;
    forall p | ReachesBlock(s.h, s.root, p) && s.h[Follow(s.h, s.root, p).value.a].Dbls?
      ensures r.heap[Follow(r.heap, r.root, p).value.a] == s.h[Follow(s.h, s.root, p).value.a] <==>
              (s.writer == s.reader && |s.h[Follow(s.h, s.root, p).value.a].ds| >= TWO32 ==>
                 Palindromes(s.h[Follow(s.h, s.root, p).value.a].ds))
    {
      ReversedAllFixed(s.h[Follow(s.h, s.root, p).value.a].ds);
    }
    if s.writer == s.reader && !FloatArraysSurvive(s) {
      var p :| ReachesBlock(s.h, s.root, p) && Follow(s.h, s.root, p).value.a in s.h &&
               s.h[Follow(s.h, s.root, p).value.a].Dbls? &&
               |s.h[Follow(s.h, s.root, p).value.a].ds| >= TWO32 &&
               !Palindromes(s.h[Follow(s.h, s.root, p).value.a].ds);
      assert !ExactFloats(s.h, s.root, r.heap, r.root);
    }
  }

  /** 2^32 copies of one double. */
  function LargeArray(): seq<Double> {
    seq(TWO32, _ => [1, 0, 0, 0, 0, 0, 0, 0])
  }

  function LargeSession(host: Host): Session {
    Session(map[8 := Dbls(LargeArray())], Ptr(8), Flags(false, false), host, host)
  }

  lemma LargeMessage(host: Host) returns (toks: seq<Token>, msg: seq<byte>)
    ensures var s := LargeSession(host);
      Ready(s) && Message(s, toks, msg) && |EncodeAll(host, toks)| < TWO64 && TotalWords(toks) < TWO64
  {
    var s := LargeSession(host);
    assert s.h.Keys == {8};
    toks := [TDoubleArray(LargeArray())];
    assert toks[1..] == [];
    var v := s.root;
    assert Children(s.h, s.flags, [], v) + [v][1..] == [];
    assert Writes(s.h, s.flags, [], Recorded(s.flags, [], v), []);
    assert Writes(s.h, s.flags, [s.root], [], toks);
    LargeSize(host);
    var data := EncodeAll(host, toks);
    var hd := HeaderFor(s.flags, |data|, |RecordedAll(s.h, s.flags, [s.root], [], toks)|, TotalWords32(toks),
                        TotalWords(toks));
    msg := hd.value + data;
  }

  lemma LargeSize(host: Host)
    ensures |EncodeAll(host, [TDoubleArray(LargeArray())])| < TWO64 && TotalWords([TDoubleArray(LargeArray())]) < TWO64
  {
    var t := TDoubleArray(LargeArray());
    assert [t][1..] == [];
    assert EncodeAll(host, [t]) == Encode(host, t) + EncodeAll(host, []);
    assert TotalWords([]) == 0;
  }

  /** A concrete loss: the array written, and its message read on the same host. */
  lemma {:induction false} LargeArrayGarbled(host: Host) returns (toks: seq<Token>, msg: seq<byte>, r: Reader)
    ensures var s := LargeSession(host);
      Message(s, toks, msg) && Unmarshal(host, msg) == Some(r) && !ExactFloats(s.h, s.root, r.heap, r.root)
  {
    hide Message, Unmarshal, ParseHeader, IsTree, SameSharing, Ready;
    var s := LargeSession(host);
    toks, msg := LargeMessage(host);
    r := RoundTrip(s, toks, msg);
    ExactIff(s, r);
    LargeDies(host);
  }

  lemma LargeDies(host: Host)
    ensures !FloatArraysSurvive(LargeSession(host))
  {
    var s, ds := LargeSession(host), LargeArray();
    assert ReachesBlock(s.h, s.root, []);
    assert ds[0] == [1, 0, 0, 0, 0, 0, 0, 0] && Reversed(ds[0])[0] == 0;
  }
}
