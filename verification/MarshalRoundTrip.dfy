/**
 The writer and the reader agree: lockstep simulation of the two worklists, and the round-trip
 theorems over all access paths, in sharing mode and under NO_SHARING.
 */
module MarshalRoundTrip {
  import opened Bytes
  import opened Lists
  import opened MarshalFormat
  import opened MarshalHeap

  /** One marshalling session: the source graph, the flags and the two hosts. */
  datatype Session = Session(h: Heap, root: Value, flags: Flags, writer: Host, reader: Host)

  ghost predicate Ready(s: Session) {
    WellFormed(s.h) && WellFormedValue(s.h, s.root)
  }

  /** Each block built by the reader remembers the block it copies and the path it was read at. */
  datatype Ghosts = Ghosts(origin: map<int, int>, path: map<int, seq<int>>)

  /** Read value `w` stands for source value `v` met at path `p`. */
  ghost predicate Rel(s: Session, g: Ghosts, v: Value, w: Value, p: seq<int>) {
    match v
    case Ptr(a) =>
      && w.Ptr? && w.a in g.origin && g.origin[w.a] == a
      && (s.flags.noSharing ==> w.a in g.path && g.path[w.a] == p)
    case _ => w == v && Writable(s.h, s.flags, v)
  }

  ghost predicate Copy(s: Session, r: Reader, a: int, b: Block, n: int) {
    && a in s.h && Writable(s.h, s.flags, Ptr(a))
    && SameBlock(s.writer, s.reader, s.h[a], b)
    && n + Wosize(b) <= r.dest
  }

  ghost predicate Known(s: Session, r: Reader, g: Ghosts) {
    && g.origin.Keys == r.heap.Keys && g.path.Keys == r.heap.Keys
    && forall n :: n in r.heap ==> Copy(s, r, g.origin[n], r.heap[n], n)
  }

  /** The source value a destination is waiting for. */
  ghost function Source(s: Session, g: Ghosts, d: Dest): Option<Value> {
    match d
    case Root => Some(s.root)
    case Slot(n, i) =>
      if n in g.origin && g.origin[n] in s.h && s.h[g.origin[n]].Fields? && 0 <= i < |s.h[g.origin[n]].fs|
      then Some(s.h[g.origin[n]].fs[i]) else None
  }

  ghost function DestPath(g: Ghosts, d: Dest): seq<int> {
    match d
    case Root => []
    case Slot(n, i) => if n in g.path then g.path[n] + [i] else []
  }

  /** The two worklists are in step. */
  ghost predicate InStep(s: Session, r: Reader, g: Ghosts, pend: seq<Value>) {
    && |pend| == |r.pend|
    && forall k :: 0 <= k < |pend| ==> Source(s, g, r.pend[k]) == Some(pend[k])
  }

  ghost predicate SlotDone(s: Session, r: Reader, g: Ghosts, n: int, i: int)
    requires n in r.heap && r.heap[n].Fields? && 0 <= i < |r.heap[n].fs|
  {
    Slot(n, i) in r.pend ||
    (Source(s, g, Slot(n, i)).Some? &&
     Rel(s, g, Source(s, g, Slot(n, i)).value, r.heap[n].fs[i], DestPath(g, Slot(n, i))))
  }

  /** Everything not pending has been filled with the right value. */
  ghost predicate Settled(s: Session, r: Reader, g: Ghosts) {
    && (Root in r.pend || Rel(s, g, s.root, r.root, []))
    && forall n, i :: n in r.heap && r.heap[n].Fields? && 0 <= i < |r.heap[n].fs| ==> SlotDone(s, r, g, n, i)
  }

  /** The reader's object table lists the copies of the writer's recorded blocks, in the same order. */
  ghost predicate Numbered(s: Session, r: Reader, g: Ghosts, order: seq<int>) {
    !s.flags.noSharing ==>
      && |r.table| == |order|
      && (forall i :: 0 <= i < |order| ==> r.table[i] in g.origin && g.origin[r.table[i]] == order[i])
      && (forall n :: n in g.origin ==> n in r.table)
      && (forall i, j :: 0 <= i < j < |order| ==> order[i] != order[j])
  }

  ghost predicate Sim(s: Session, r: Reader, g: Ghosts, pend: seq<Value>, order: seq<int>) {
    Known(s, r, g) && InStep(s, r, g, pend) && Settled(s, r, g) && Numbered(s, r, g, order)
  }

  // ----- storing a value -----

  lemma FillKnown(s: Session, r: Reader, g: Ghosts, w: Value)
    requires r.pend != [] && Known(s, r, g)
    ensures Known(s, Fill(r, w), g)
  {
  }

  lemma FillSettled(s: Session, r: Reader, g: Ghosts, pend: seq<Value>, w: Value)
    requires r.pend != [] && Known(s, r, g) && InStep(s, r, g, pend) && Settled(s, r, g)
    requires Rel(s, g, pend[0], w, DestPath(g, r.pend[0]))
    ensures Settled(s, Fill(r, w), g)
  {
    hide Rel, Copy;
    var r' := Fill(r, w);
    assert r.pend == [r.pend[0]] + r.pend[1..];
    forall n, i | n in r'.heap && r'.heap[n].Fields? && 0 <= i < |r'.heap[n].fs|
      ensures SlotDone(s, r', g, n, i)
    {
      assert n in r.heap && SlotDone(s, r, g, n, i);
    }
  }

  lemma FillSim(s: Session, r: Reader, g: Ghosts, pend: seq<Value>, order: seq<int>, w: Value)
    requires Sim(s, r, g, pend, order) && pend != []
    requires Rel(s, g, pend[0], w, DestPath(g, r.pend[0]))
    ensures Sim(s, Fill(r, w), g, pend[1..], order)
  {
    FillKnown(s, r, g, w);
    FillSettled(s, r, g, pend, w);
    hide Known, Settled, Rel, Source;
  }

  // ----- allocating a block -----

  ghost function Extended(r: Reader, g: Ghosts, a: int): Ghosts
    requires r.pend != []
  {
    Ghosts(g.origin[r.dest + 1 := a], g.path[r.dest + 1 := DestPath(g, r.pend[0])])
  }

  lemma Fresh(s: Session, r: Reader, g: Ghosts)
    requires Known(s, r, g)
    ensures r.dest + 1 !in r.heap
  {
  }

  lemma AllocateKnown(s: Session, r: Reader, g: Ghosts, a: int, b: Block)
    requires r.pend != [] && Known(s, r, g)
    requires a in s.h && Writable(s.h, s.flags, Ptr(a)) && SameBlock(s.writer, s.reader, s.h[a], b)
    ensures Known(s, Allocate(r, !s.flags.noSharing, b), Extended(r, g, a))
  {
    hide Writable, SameBlock;
    Fresh(s, r, g);
  }

  lemma SourceKept(s: Session, r: Reader, g: Ghosts, a: int, d: Dest)
    requires r.pend != [] && Known(s, r, g) && Source(s, g, d).Some?
    ensures Source(s, Extended(r, g, a), d) == Source(s, g, d)
    ensures DestPath(Extended(r, g, a), d) == DestPath(g, d)
  {
    hide Copy;
    Fresh(s, r, g);
  }

  lemma RelKept(s: Session, r: Reader, g: Ghosts, a: int, v: Value, w: Value, p: seq<int>)
    requires r.pend != [] && Known(s, r, g) && Rel(s, g, v, w, p)
    ensures Rel(s, Extended(r, g, a), v, w, p)
  {
    hide Copy;
    Fresh(s, r, g);
  }

  lemma AllocateInStep(s: Session, r: Reader, g: Ghosts, pend: seq<Value>, a: int, b: Block)
    requires Known(s, r, g) && InStep(s, r, g, pend) && pend != [] && a in s.h
    requires SameBlock(s.writer, s.reader, s.h[a], b)
    ensures InStep(s, Allocate(r, !s.flags.noSharing, b), Extended(r, g, a),
                   [pend[0]] + (if s.h[a].Fields? then s.h[a].fs else []) + pend[1..])
  {
    hide Known;
    var r', g' := Allocate(r, !s.flags.noSharing, b), Extended(r, g, a);
    var kids := if s.h[a].Fields? then s.h[a].fs else [];
    var pend' := [pend[0]] + kids + pend[1..];
    forall k | 0 <= k < |pend'| ensures Source(s, g', r'.pend[k]) == Some(pend'[k]) {
      if k == 0 {
        SourceKept(s, r, g, a, r.pend[0]);
      } else if k <= |kids| {
        assert r'.pend[k] == Slot(r.dest + 1, k - 1);
      } else {
        assert r'.pend[k] == r.pend[k - |kids|] && pend'[k] == pend[k - |kids|];
        SourceKept(s, r, g, a, r.pend[k - |kids|]);
      }
    }
  }

  lemma AllocateSettled(s: Session, r: Reader, g: Ghosts, a: int, b: Block)
    requires r.pend != [] && Known(s, r, g) && Settled(s, r, g) && a in s.h
    requires SameBlock(s.writer, s.reader, s.h[a], b)
    ensures Settled(s, Allocate(r, !s.flags.noSharing, b), Extended(r, g, a))
  {
    hide Copy, Rel, SameBlock;
    var r', g' := Allocate(r, !s.flags.noSharing, b), Extended(r, g, a);
    Fresh(s, r, g);
    assert forall d :: d in r.pend ==> d in r'.pend by {
      assert r.pend == [r.pend[0]] + r.pend[1..];
    }
    if Root !in r.pend {
      RelKept(s, r, g, a, s.root, r.root, []);
    }
    forall n, i | n in r'.heap && r'.heap[n].Fields? && 0 <= i < |r'.heap[n].fs|
      ensures SlotDone(s, r', g', n, i)
    {
      if n == r.dest + 1 {
        assert Slots(n, b)[i] == Slot(n, i);
        assert r'.pend[1 + i] == Slot(n, i);
      } else {
        assert SlotDone(s, r, g, n, i);
        if Slot(n, i) !in r.pend {
          SourceKept(s, r, g, a, Slot(n, i));
          RelKept(s, r, g, a, Source(s, g, Slot(n, i)).value, r.heap[n].fs[i], DestPath(g, Slot(n, i)));
        }
      }
    }
  }

  lemma AllocateNumbered(s: Session, r: Reader, g: Ghosts, order: seq<int>, a: int, b: Block)
    requires r.pend != [] && Known(s, r, g) && Numbered(s, r, g, order)
    requires !s.flags.noSharing ==> a !in order
    ensures Numbered(s, Allocate(r, !s.flags.noSharing, b), Extended(r, g, a), Recorded(s.flags, order, Ptr(a)))
  {
    hide Copy, DestPath;
    Fresh(s, r, g);
    hide Known;
    if !s.flags.noSharing {
      var r', g', order' := Allocate(r, true, b), Extended(r, g, a), order + [a];
      var n := r.dest + 1;
      assert r'.table == r.table + [n];
      forall i | 0 <= i < |order'| ensures r'.table[i] in g'.origin && g'.origin[r'.table[i]] == order'[i] {
        if i < |order| {
          assert r'.table[i] == r.table[i] && r.table[i] in g.origin;
        }
      }
      forall x | x in g'.origin ensures x in r'.table {
        assert x in r.table || x == n;
      }
    }
  }

  /** Reading the token of a fresh block keeps the simulation, with the block's fields pending on both sides. */
  lemma NewBlockSim(s: Session, r: Reader, g: Ghosts, pend: seq<Value>, order: seq<int>, b: Block)
    requires Sim(s, r, g, pend, order) && pend != [] && pend[0].Ptr? && pend[0].a in s.h
    requires Writable(s.h, s.flags, pend[0]) && !Seen(s.flags, order, pend[0])
    requires SameBlock(s.writer, s.reader, s.h[pend[0].a], b)
    ensures Sim(s, FillNew(r, !s.flags.noSharing, b), Extended(r, g, pend[0].a),
                Children(s.h, s.flags, order, pend[0]) + pend[1..], Recorded(s.flags, order, pend[0]))
  {
    hide Known, InStep, Settled, Numbered, Writable, SameBlock;
    FirstSource(s, r, g, pend);
    var a := pend[0].a;
    var r1, g1 := Allocate(r, !s.flags.noSharing, b), Extended(r, g, a);
    var kids := Children(s.h, s.flags, order, pend[0]);
    var pend1 := [pend[0]] + kids + pend[1..];
    AllocateKnown(s, r, g, a, b);
    AllocateInStep(s, r, g, pend, a, b);
    AllocateSettled(s, r, g, a, b);
    AllocateNumbered(s, r, g, order, a, b);
    SourceKept(s, r, g, a, r.pend[0]);
    FillSim(s, r1, g1, pend1, Recorded(s.flags, order, pend[0]), Ptr(r.dest + 1));
    assert pend1[1..] == kids + pend[1..];
  }

  lemma FirstSource(s: Session, r: Reader, g: Ghosts, pend: seq<Value>)
    requires InStep(s, r, g, pend) && pend != []
    ensures r.pend != [] && Source(s, g, r.pend[0]) == Some(pend[0])
  {
  }

  // ----- one step, then the whole run -----

  lemma {:induction false} SharedSim(s: Session, r: Reader, g: Ghosts, pend: seq<Value>, order: seq<int>)
    requires Sim(s, r, g, pend, order) && pend != [] && Seen(s.flags, order, pend[0])
    ensures r.pend != [] && |r.table| == |order|
    ensures Apply(r, true, Emit(s.h, s.flags, order, pend[0]))
         == Some(Fill(r, Ptr(r.table[IndexOf(order, pend[0].a)])))
    ensures Sim(s, Fill(r, Ptr(r.table[IndexOf(order, pend[0].a)])), g, pend[1..], order)
  {
    hide Known, Settled, InStep;
    FirstSource(s, r, g, pend);
    FillSim(s, r, g, pend, order, Ptr(r.table[IndexOf(order, pend[0].a)]));
  }

  /** The block the reader builds for a token. */
  ghost function BuiltFrom(t: Token): Block {
    match t
    case THeader(size, tag) => Fields(tag, seq(size, _ => Long(0)))
    case TString(bytes) => Str(bytes)
    case TDouble(d) => Dbl(d)
    case TDoubleArray(ds) => Dbls(ds)
    case _ => Abstract
  }

  lemma BuiltSame(s: Session, v: Value)
    requires v.Ptr? && Writable(s.h, s.flags, v)
    ensures SameBlock(s.writer, s.reader, s.h[v.a], BuiltFrom(Received(s.writer, s.reader, TokenOf(s.h, v).value)))
    ensures Wosize(BuiltFrom(Received(s.writer, s.reader, TokenOf(s.h, v).value))) + 1 == Words(TokenOf(s.h, v).value)
    ensures forall r: Reader, recording: bool | r.pend != [] ::
      Apply(r, recording, Received(s.writer, s.reader, TokenOf(s.h, v).value))
        == Some(FillNew(r, recording, BuiltFrom(Received(s.writer, s.reader, TokenOf(s.h, v).value))))
  {
    hide FillNew, ReversedAll;
  }

  /** One token written and read keeps the two sides in step and allocates the words the writer counted. */
  lemma {:induction false} StepSim(s: Session, r: Reader, g: Ghosts, pend: seq<Value>, order: seq<int>)
    returns (r': Reader, g': Ghosts)
    requires Sim(s, r, g, pend, order) && pend != []
    requires Seen(s.flags, order, pend[0]) || Writable(s.h, s.flags, pend[0])
    ensures r.pend != []
    ensures Apply(r, !s.flags.noSharing, Received(s.writer, s.reader, Emit(s.h, s.flags, order, pend[0]))) == Some(r')
    ensures Sim(s, r', g', Children(s.h, s.flags, order, pend[0]) + pend[1..], Recorded(s.flags, order, pend[0]))
    ensures r'.dest == r.dest + Words(Emit(s.h, s.flags, order, pend[0]))
  {
    hide Known, Settled, InStep, Numbered;
    FirstSource(s, r, g, pend);
    var v := pend[0];
    if Seen(s.flags, order, v) {
      SharedSim(s, r, g, pend, order);
      r', g' := Fill(r, Ptr(r.table[IndexOf(order, v.a)])), g;
      assert Children(s.h, s.flags, order, v) + pend[1..] == pend[1..];
    } else if v.Ptr? {
      BuiltSame(s, v);
      var b := BuiltFrom(Received(s.writer, s.reader, TokenOf(s.h, v).value));
      NewBlockSim(s, r, g, pend, order, b);
      r', g' := FillNew(r, !s.flags.noSharing, b), Extended(r, g, v.a);
    } else {
      FillSim(s, r, g, pend, order, v);
      r', g' := Fill(r, v), g;
      assert Children(s.h, s.flags, order, v) + pend[1..] == pend[1..];
    }
  }

  lemma EmitRepresentable(s: Session, r: Reader, g: Ghosts, pend: seq<Value>, order: seq<int>)
    requires Ready(s) && Sim(s, r, g, pend, order) && pend != []
    requires Seen(s.flags, order, pend[0]) || Writable(s.h, s.flags, pend[0])
    ensures Representable(Emit(s.h, s.flags, order, pend[0]))
  {
    hide Settled, InStep;
    if Seen(s.flags, order, pend[0]) {
      forall i | 0 <= i < |order| ensures order[i] in s.h {
        assert Copy(s, r, g.origin[r.table[i]], r.heap[r.table[i]], r.table[i]);
      }
      FitsIn(order, s.h.Keys);
    }
  }

  /** The reader, fed the writer's bytes, consumes exactly them and ends with nothing pending. */
  lemma {:induction false} Simulate(s: Session, r: Reader, g: Ghosts, pend: seq<Value>, order: seq<int>,
                                    toks: seq<Token>, rest: seq<byte>)
    returns (r': Reader, g': Ghosts, order': seq<int>)
    requires Ready(s) && Sim(s, r, g, pend, order) && Writes(s.h, s.flags, pend, order, toks)
    ensures ReadAll(s.reader, r, !s.flags.noSharing, EncodeAll(s.writer, toks) + rest) == Some((r', rest))
    ensures Sim(s, r', g', [], order')
    ensures r'.dest == r.dest + TotalWords(toks)
    ensures order' == RecordedAll(s.h, s.flags, pend, order, toks)
    decreases |toks|
  {
    hide Known, Settled, Numbered, Encode, Decode, Emit, Writable, Apply, Representable, Seen;
    if pend == [] {
      assert r.pend == [];
      assert EncodeAll(s.writer, toks) + rest == rest;
      return r, g, order;
    }
    var t, tail := toks[0], toks[1..];
    EmitRepresentable(s, r, g, pend, order);
    var r1, g1 := StepSim(s, r, g, pend, order);
    var src := EncodeAll(s.writer, toks) + rest;
    var more := EncodeAll(s.writer, tail) + rest;
    assert src == Encode(s.writer, t) + more;
    DecodeEncode(s.writer, s.reader, t, more);
    assert src[|Encode(s.writer, t)|..] == more;
    r', g', order' := Simulate(s, r1, g1, Children(s.h, s.flags, order, pend[0]) + pend[1..],
                               Recorded(s.flags, order, pend[0]), tail, rest);
  }

  lemma InitialSim(s: Session)
    ensures Sim(s, Initial(), Ghosts(map[], map[]), [s.root], [])
  {
  }

  // ----- reading the final states through access paths -----

  /** Path `p` exists on both sides or on neither, and ends in corresponding values. */
  ghost predicate PathAgrees(s: Session, r: Reader, g: Ghosts, p: seq<int>) {
    && (Follow(s.h, s.root, p).Some? <==> Follow(r.heap, r.root, p).Some?)
    && (Follow(s.h, s.root, p).Some? ==>
          && Rel(s, g, Follow(s.h, s.root, p).value, Follow(r.heap, r.root, p).value, p)
          && SameHere(s.writer, s.reader, s.h, Follow(s.h, s.root, p).value, r.heap, Follow(r.heap, r.root, p).value))
  }

  lemma RelSameHere(s: Session, r: Reader, g: Ghosts, v: Value, w: Value, p: seq<int>)
    requires Known(s, r, g) && Rel(s, g, v, w, p)
    ensures SameHere(s.writer, s.reader, s.h, v, r.heap, w)
  {
    hide SameBlock, Writable;
    if v.Ptr? {
      assert Copy(s, r, g.origin[w.a], r.heap[w.a], w.a);
    }
  }

  /** A filled field of corresponding blocks holds corresponding values. */
  lemma FieldAgrees(s: Session, r: Reader, g: Ghosts, order: seq<int>, v: Value, w: Value, p: seq<int>, i: int)
    requires Sim(s, r, g, [], order) && v.Ptr? && Rel(s, g, v, w, p)
    requires SameHere(s.writer, s.reader, s.h, v, r.heap, w) && s.h[v.a].Fields? && 0 <= i < |s.h[v.a].fs|
    ensures Rel(s, g, s.h[v.a].fs[i], r.heap[w.a].fs[i], p + [i])
  {
    hide Known, Numbered;
    assert SlotDone(s, r, g, w.a, i);
  }

  lemma {:induction false} PathsAgree(s: Session, r: Reader, g: Ghosts, order: seq<int>, p: seq<int>)
    requires Ready(s) && Sim(s, r, g, [], order)
    ensures PathAgrees(s, r, g, p)
    decreases |p|
  {
    hide Known, Numbered, InStep, Rel, SlotDone, Ready;
    if p == [] {
      assert r.pend == [] by { NothingPending(s, r, g, order); }
      RelSameHere(s, r, g, s.root, r.root, []);
      return;
    }
    hide Settled;
    var front, i := p[..|p| - 1], p[|p| - 1];
    assert front + [i] == p;
    PathsAgree(s, r, g, order, front);
    var x, y := Follow(s.h, s.root, front), Follow(r.heap, r.root, front);
    if x.Some? && x.value.Ptr? && s.h[x.value.a].Fields? && 0 <= i < |s.h[x.value.a].fs| {
      FieldAgrees(s, r, g, order, x.value, y.value, front, i);
      RelSameHere(s, r, g, s.h[x.value.a].fs[i], r.heap[y.value.a].fs[i], p);
    } else if x.Some? && !x.value.Ptr? {
      assert y.value == x.value;
    }
  }

  lemma NothingPending(s: Session, r: Reader, g: Ghosts, order: seq<int>)
    requires Sim(s, r, g, [], order)
    ensures r.pend == []
  {
  }

  lemma WritableAgrees(s: Session, r: Reader, g: Ghosts, order: seq<int>, p: seq<int>)
    requires Ready(s) && Sim(s, r, g, [], order) && Follow(s.h, s.root, p).Some?
    ensures Writable(s.h, s.flags, Follow(s.h, s.root, p).value)
  {
    hide Follow, Writable, InStep, Settled, Numbered, SameHere;
    PathsAgree(s, r, g, order, p);
    var v, w := Follow(s.h, s.root, p).value, Follow(r.heap, r.root, p).value;
    if v.Ptr? {
      assert Copy(s, r, g.origin[w.a], r.heap[w.a], w.a);
    }
  }

  lemma SharingAgrees(s: Session, r: Reader, g: Ghosts, order: seq<int>, p: seq<int>, q: seq<int>)
    requires Ready(s) && Sim(s, r, g, [], order)
    requires ReachesBlock(s.h, s.root, p) && ReachesBlock(s.h, s.root, q)
    ensures !s.flags.noSharing ==> (Aliased(s.h, s.root, p, q) <==> Aliased(r.heap, r.root, p, q))
  {
    hide Follow, InStep, Settled, Known, SameHere, Ready;
    PathsAgree(s, r, g, order, p);
    PathsAgree(s, r, g, order, q);
  }

  lemma TreeAgrees(s: Session, r: Reader, g: Ghosts, order: seq<int>, p: seq<int>, q: seq<int>)
    requires Ready(s) && Sim(s, r, g, [], order) && s.flags.noSharing
    requires ReachesBlock(r.heap, r.root, p) && ReachesBlock(r.heap, r.root, q) && Aliased(r.heap, r.root, p, q)
    ensures p == q
  {
    hide Follow, InStep, Settled, Known, Numbered, SameHere, Ready, Writable;
    PathsAgree(s, r, g, order, p);
    PathsAgree(s, r, g, order, q);
  }

  lemma {:induction false} GraphAgrees(s: Session, r: Reader, g: Ghosts, order: seq<int>)
    requires Ready(s) && Sim(s, r, g, [], order)
    ensures SameGraph(s.writer, s.reader, s.h, s.root, r.heap, r.root)
    ensures !s.flags.noSharing ==> SameSharing(s.h, s.root, r.heap, r.root)
    ensures s.flags.noSharing ==> IsTree(r.heap, r.root)
    ensures forall p :: Follow(s.h, s.root, p).Some? ==> Writable(s.h, s.flags, Follow(s.h, s.root, p).value)
  {
    hide Follow, SameHere, Writable, Sim, Rel, Aliased, ReachesBlock;
    forall p: seq<int>
      ensures Follow(s.h, s.root, p).Some? <==> Follow(r.heap, r.root, p).Some?
      ensures Follow(s.h, s.root, p).Some? ==>
        SameHere(s.writer, s.reader, s.h, Follow(s.h, s.root, p).value, r.heap, Follow(r.heap, r.root, p).value)
    {
      PathsAgree(s, r, g, order, p);
    }
    forall p | Follow(s.h, s.root, p).Some?
      ensures Writable(s.h, s.flags, Follow(s.h, s.root, p).value)
    {
      WritableAgrees(s, r, g, order, p);
    }
    forall p, q | ReachesBlock(s.h, s.root, p) && ReachesBlock(s.h, s.root, q)
      ensures !s.flags.noSharing ==> (Aliased(s.h, s.root, p, q) <==> Aliased(r.heap, r.root, p, q))
    {
      SharingAgrees(s, r, g, order, p, q);
    }
    if s.flags.noSharing {
      forall p, q | ReachesBlock(r.heap, r.root, p) && ReachesBlock(r.heap, r.root, q) && Aliased(r.heap, r.root, p, q)
        ensures p == q
      {
        TreeAgrees(s, r, g, order, p, q);
      }
    }
  }
}
