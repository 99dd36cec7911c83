/**
 Heap graphs and what marshalling means on them: the token stream the writer emits for a value
 (depth first, one token per value met) and the reader's reconstruction, both as worklists.
 */
module MarshalHeap {
  import opened Bytes
  import opened MarshalFormat

  datatype Value = Long(n: int) | Atom(tag: int) | Ptr(a: int)

  datatype Block =
    | Fields(tag: int, fs: seq<Value>)
    | Str(s: seq<byte>)
    | Dbl(d: Double)
    | Dbls(ds: seq<Double>)
    | Abstract

  type Heap = map<int, Block>

  /** Tags of blocks that carry fields and need no special treatment (below Closure_tag). */
  const CLOSURE_TAG := 247
  const OBJECT_TAG := 248

  predicate WellFormedValue(h: Heap, v: Value) {
    match v
    case Long(n) => -0x4000_0000_0000_0000 <= n < 0x4000_0000_0000_0000
    case Atom(tag) => 0 <= tag < 256
    case Ptr(a) => a in h
  }

  predicate WellFormedBlock(h: Heap, b: Block) {
    match b
    case Fields(tag, fs) =>
      && 0 <= tag < CLOSURE_TAG && 1 <= |fs| < 0x40_0000_0000_0000
      && forall i :: 0 <= i < |fs| ==> WellFormedValue(h, fs[i])
    case Str(s) => (|s| + 8) / 8 < 0x40_0000_0000_0000
    case Dbls(ds) => 1 <= |ds| < 0x40_0000_0000_0000
    case _ => true
  }

  /** Pointers stay inside the heap, sizes fit a header word, and 16-byte blocks fit a 64-bit space. */
  ghost predicate WellFormed(h: Heap) {
    && |h| < 0x1000_0000_0000_0000
    && forall a :: a in h ==> WellFormedBlock(h, h[a])
  }

  // ----- the writer -----

  /** The token for the contents of a value; abstract blocks have none. */
  function TokenOf(h: Heap, v: Value): Option<Token>
    requires WellFormedValue(h, v) && (v.Ptr? ==> WellFormedBlock(h, h[v.a]))
  {
    match v
    case Long(n) => Some(TInt(n))
    case Atom(tag) => Some(THeader(0, tag))
    case Ptr(a) =>
      match h[a]
      case Fields(tag, fs) => Some(THeader(|fs|, tag))
      case Str(s) => Some(TString(s))
      case Dbl(d) => Some(TDouble(d))
      case Dbls(ds) => Some(TDoubleArray(ds))
      case Abstract => None
  }

  /** The value itself can be written: no abstract block, no 32-bit overflow under COMPAT_32. */
  predicate Writable(h: Heap, flags: Flags, v: Value) {
    && WellFormedValue(h, v) && (v.Ptr? ==> WellFormedBlock(h, h[v.a]))
    && TokenOf(h, v).Some? && Accepted(flags, TokenOf(h, v).value)
  }

  /** A block already written, in sharing mode. `order` lists the blocks recorded so far. */
  predicate Seen(flags: Flags, order: seq<int>, v: Value) {
    v.Ptr? && !flags.noSharing && v.a in order
  }

  function IndexOf(order: seq<int>, a: int): (i: nat)
    requires a in order
    ensures i < |order| && order[i] == a
    ensures forall j :: 0 <= j < i ==> order[j] != a
  {
    if order[0] == a then 0 else 1 + IndexOf(order[1..], a)
  }

  function Emit(h: Heap, flags: Flags, order: seq<int>, v: Value): Token
    requires Seen(flags, order, v) || Writable(h, flags, v)
  {
    if Seen(flags, order, v) then TShared(|order| - IndexOf(order, v.a)) else TokenOf(h, v).value
  }

  /** The values that follow once `v` is written: its fields first if it is a fresh block with fields. */
  function Children(h: Heap, flags: Flags, order: seq<int>, v: Value): seq<Value> {
    if v.Ptr? && !Seen(flags, order, v) && v.a in h && h[v.a].Fields? then h[v.a].fs else []
  }

  function Recorded(flags: Flags, order: seq<int>, v: Value): seq<int> {
    if v.Ptr? && !flags.noSharing && v.a !in order then order + [v.a] else order
  }

  /** `toks` is the writer's complete output for the pending values. */
  ghost predicate Writes(h: Heap, flags: Flags, pend: seq<Value>, order: seq<int>, toks: seq<Token>)
    decreases |toks|
  {
    if pend == [] then toks == []
    else
      var v := pend[0];
      && toks != []
      && (Seen(flags, order, v) || Writable(h, flags, v))
      && toks[0] == Emit(h, flags, order, v)
      && Writes(h, flags, Children(h, flags, order, v) + pend[1..], Recorded(flags, order, v), toks[1..])
  }

  /** The blocks recorded once the pending values are written, in order; their number is obj_counter. */
  ghost function RecordedAll(h: Heap, flags: Flags, pend: seq<Value>, order: seq<int>, toks: seq<Token>): seq<int>
    requires Writes(h, flags, pend, order, toks)
    decreases |toks|
  {
    if pend == [] then order
    else
      RecordedAll(h, flags, Children(h, flags, order, pend[0]) + pend[1..],
                  Recorded(flags, order, pend[0]), toks[1..])
  }

  /** Words a token makes the reader allocate, header included. */
  function Words(t: Token): nat {
    match t
    case THeader(size, _) => if size == 0 then 0 else 1 + size
    case TString(s) => 1 + (|s| + 8) / 8
    case TDouble(_) => 2
    case TDoubleArray(ds) => 1 + |ds|
    case _ => 0
  }

  function TotalWords(toks: seq<Token>): nat {
    if toks == [] then 0 else Words(toks[0]) + TotalWords(toks[1..])
  }

  // ----- the reader -----

  /** Where the next value read is stored: the result, or a field of a block read earlier. */
  datatype Dest = Root | Slot(a: int, i: int)

  datatype Reader = Reader(pend: seq<Dest>, heap: Heap, root: Value, table: seq<int>, dest: int)

  function Initial(): Reader {
    Reader([Root], map[], Long(0), [], 0)
  }

  function Wosize(b: Block): nat {
    match b
    case Fields(_, fs) => |fs|
    case Str(s) => (|s| + 8) / 8
    case Dbl(_) => 1
    case Dbls(ds) => |ds|
    case Abstract => 1
  }

  function Slots(n: int, b: Block): (s: seq<Dest>)
    ensures b.Fields? ==> |s| == |b.fs| && forall i :: 0 <= i < |s| ==> s[i] == Slot(n, i)
    ensures !b.Fields? ==> s == []
  {
    if b.Fields? then seq(|b.fs|, i => Slot(n, i)) else []
  }

  /** Allocates `b` at the writing pointer and asks for its fields after the value being read. */
  function Allocate(r: Reader, recording: bool, b: Block): Reader
    requires r.pend != []
  {
    var n := r.dest + 1;
    r.(pend := [r.pend[0]] + Slots(n, b) + r.pend[1..],
       heap := r.heap[n := b],
       table := if recording then r.table + [n] else r.table,
       dest := r.dest + 1 + Wosize(b))
  }

  /** Stores the value just read at the first pending destination. */
  function Fill(r: Reader, v: Value): Reader
    requires r.pend != []
  {
    var r' := r.(pend := r.pend[1..]);
    match r.pend[0]
    case Root => r'.(root := v)
    case Slot(a, i) =>
      if a in r.heap && r.heap[a].Fields? && 0 <= i < |r.heap[a].fs| then
        r'.(heap := r.heap[a := Fields(r.heap[a].tag, r.heap[a].fs[i := v])])
      else r'
  }

  function FillNew(r: Reader, recording: bool, b: Block): Reader
    requires r.pend != []
  {
    Fill(Allocate(r, recording, b), Ptr(r.dest + 1))
  }

  /** One iteration of the reading loop on a decoded token. */
  function Apply(r: Reader, recording: bool, t: Token): Option<Reader>
    requires r.pend != []
  {
    match t
    case TInt(n) => Some(Fill(r, Long(n)))
    case THeader(size, tag) =>
      if size == 0 then Some(Fill(r, Atom(tag)))
      else if tag == OBJECT_TAG then None // fresh object identifiers are outside the model
      else Some(FillNew(r, recording, Fields(tag, seq(size, _ => Long(0)))))
    case TShared(d) =>
      if recording && 1 <= d <= |r.table| then Some(Fill(r, Ptr(r.table[|r.table| - d]))) else None
    case TString(s) => Some(FillNew(r, recording, Str(s)))
    case TDouble(d) => Some(FillNew(r, recording, Dbl(d)))
    case TDoubleArray(ds) => Some(FillNew(r, recording, Dbls(ds)))
  }

  /** The whole reading loop: the final state and the unread input, or None on an ill-formed message. */
  function ReadAll(host: Host, r: Reader, recording: bool, src: seq<byte>): Option<(Reader, seq<byte>)>
    decreases |src|
  {
    if r.pend == [] then Some((r, src))
    else
      match Decode(host, src)
      case None => None
      case Some((t, k)) =>
        match Apply(r, recording, t)
        case None => None
        case Some(r') => ReadAll(host, r', recording, src[k..])
  }

  // ----- what a reader of the graph can observe -----

  /** The value at the end of an access path of field numbers. */
  function Follow(h: Heap, v: Value, p: seq<int>): Option<Value> {
    if p == [] then Some(v)
    else
      var i := p[|p| - 1];
      match Follow(h, v, p[..|p| - 1])
      case Some(Ptr(a)) =>
        if a in h && h[a].Fields? && 0 <= i < |h[a].fs| then Some(h[a].fs[i]) else None
      case _ => None
  }

  /** A block as the reader gets it: the fields' contents are compared through paths, not here. */
  predicate SameBlock(writer: Host, reader: Host, b: Block, b': Block) {
    match b
    case Fields(tag, fs) => b'.Fields? && b'.tag == tag && |b'.fs| == |fs|
    case Dbls(ds) =>
      b' == Dbls(if |ds| >= TWO32 && writer == reader then ReversedAll(ds) else ds)
    case _ => b' == b
  }

  predicate SameHere(writer: Host, reader: Host, h: Heap, v: Value, h': Heap, v': Value) {
    match v
    case Ptr(a) => v'.Ptr? && a in h && v'.a in h' && SameBlock(writer, reader, h[a], h'[v'.a])
    case _ => v' == v
  }

  /** The same access paths exist on both sides and end in the same data. */
  ghost predicate SameGraph(writer: Host, reader: Host, h: Heap, v: Value, h': Heap, v': Value) {
    forall p: seq<int> ::
      && (Follow(h, v, p).Some? <==> Follow(h', v', p).Some?)
      && (Follow(h, v, p).Some? ==>
            SameHere(writer, reader, h, Follow(h, v, p).value, h', Follow(h', v', p).value))
  }

  ghost predicate Aliased(h: Heap, v: Value, p: seq<int>, q: seq<int>) {
    Follow(h, v, p) == Follow(h, v, q)
  }

  ghost predicate ReachesBlock(h: Heap, v: Value, p: seq<int>) {
    Follow(h, v, p).Some? && Follow(h, v, p).value.Ptr?
  }

  /** Two paths meet in the copy exactly when they meet in the original. */
  ghost predicate SameSharing(h: Heap, v: Value, h': Heap, v': Value) {
    forall p, q :: ReachesBlock(h, v, p) && ReachesBlock(h, v, q) ==>
      (Aliased(h, v, p, q) <==> Aliased(h', v', p, q))
  }

  /** No block of the graph is reached by two paths. */
  ghost predicate IsTree(h: Heap, v: Value) {
    forall p, q :: ReachesBlock(h, v, p) && ReachesBlock(h, v, q) && Aliased(h, v, p, q) ==> p == q
  }
}
