/**
 The writer's loop (extern_rec) with its explicit stack and position table, proved to emit exactly
 the token stream of the specification, to count what it should, and to end on every input.
 */
module MarshalWriter {
  import opened Bytes
  import opened Lists
  import opened MarshalFormat
  import opened MarshalHeap
  import opened MarshalRoundTrip
  import opened MarshalMessage
  import opened PositionTable

  // ----- runs of the specification, step by step -----

  predicate Steps(h: Heap, flags: Flags, pend: seq<Value>, order: seq<int>) {
    pend != [] && (Seen(flags, order, pend[0]) || Writable(h, flags, pend[0]))
  }

  /** Writing `toks` takes the worklist from (pend, order) to (pend', order'). */
  ghost predicate Ran(h: Heap, flags: Flags, pend: seq<Value>, order: seq<int>, toks: seq<Token>,
                      pend': seq<Value>, order': seq<int>)
    decreases |toks|
  {
    if toks == [] then pend == pend' && order == order'
    else
      && Steps(h, flags, pend, order) && toks[0] == Emit(h, flags, order, pend[0])
      && Ran(h, flags, Children(h, flags, order, pend[0]) + pend[1..], Recorded(flags, order, pend[0]),
             toks[1..], pend', order')
  }

  lemma {:induction false} RanSnoc(h: Heap, flags: Flags, pend: seq<Value>, order: seq<int>, toks: seq<Token>,
                                   pend': seq<Value>, order': seq<int>)
    requires Ran(h, flags, pend, order, toks, pend', order') && Steps(h, flags, pend', order')
    ensures Ran(h, flags, pend, order, toks + [Emit(h, flags, order', pend'[0])],
                Children(h, flags, order', pend'[0]) + pend'[1..], Recorded(flags, order', pend'[0]))
    decreases |toks|
  {
    hide Seen, Writable, Emit, Children, Recorded;
    var t := Emit(h, flags, order', pend'[0]);
    if toks == [] {
      assert ([] + [t])[1..] == [];
    } else {
      RanSnoc(h, flags, Children(h, flags, order, pend[0]) + pend[1..], Recorded(flags, order, pend[0]),
              toks[1..], pend', order');
      assert (toks + [t])[1..] == toks[1..] + [t];
    }
  }

  lemma {:induction false} RanToEnd(h: Heap, flags: Flags, pend: seq<Value>, order: seq<int>, toks: seq<Token>,
                                    order': seq<int>)
    requires Ran(h, flags, pend, order, toks, [], order')
    ensures Writes(h, flags, pend, order, toks) && RecordedAll(h, flags, pend, order, toks) == order'
    decreases |toks|
  {
    hide Emit, Writable;
    if toks != [] {
      RanToEnd(h, flags, Children(h, flags, order, pend[0]) + pend[1..], Recorded(flags, order, pend[0]), toks[1..],
               order');
    }
  }

  // ----- success exactly on writable graphs -----

  ghost predicate Reachable(h: Heap, root: Value, v: Value) {
    exists p: seq<int> :: Follow(h, root, p) == Some(v)
  }

  ghost predicate AllReachable(h: Heap, root: Value, vs: seq<Value>) {
    forall k :: 0 <= k < |vs| ==> Reachable(h, root, vs[k])
  }

  lemma ChildrenReachable(h: Heap, root: Value, v: Value)
    requires Reachable(h, root, v) && v.Ptr? && v.a in h && h[v.a].Fields?
    ensures AllReachable(h, root, h[v.a].fs)
  {
    var p: seq<int> :| Follow(h, root, p) == Some(v);
    forall k | 0 <= k < |h[v.a].fs| ensures Reachable(h, root, h[v.a].fs[k]) {
      assert (p + [k])[..|p|] == p;
      assert Follow(h, root, p + [k]) == Some(h[v.a].fs[k]);
    }
  }

  lemma {:induction false} RanReachable(h: Heap, root: Value, flags: Flags, pend: seq<Value>, order: seq<int>,
                                        toks: seq<Token>, pend': seq<Value>, order': seq<int>)
    requires Ran(h, flags, pend, order, toks, pend', order') && AllReachable(h, root, pend)
    ensures AllReachable(h, root, pend')
    decreases |toks|
  {
    hide Seen, Writable, Emit, Reachable, Recorded;
    if toks != [] {
      var v := pend[0];
      if Children(h, flags, order, v) != [] {
        ChildrenReachable(h, root, v);
      }
      RanReachable(h, root, flags, Children(h, flags, order, v) + pend[1..], Recorded(flags, order, v), toks[1..],
                   pend', order');
    }
  }

  /** Every value of the graph can be written under the flags. */
  ghost predicate GraphWritable(s: Session) {
    forall v :: Reachable(s.h, s.root, v) ==> Writable(s.h, s.flags, v)
  }

  /** A complete run exists only if every reachable value is writable. */
  lemma {:induction false} CompleteRunIsWritable(s: Session, toks: seq<Token>)
    requires Ready(s) && Writes(s.h, s.flags, [s.root], [], toks)
    ensures GraphWritable(s)
  {
    hide Writes, Sim, Writable, SameGraph, SameSharing, IsTree, ReadAll;
    InitialSim(s);
    var r, g, order := Simulate(s, Initial(), Ghosts(map[], map[]), [s.root], [], toks, []);
    GraphAgrees(s, r, g, order);
  }

  /** A run that stops at an unwritable value has found one that is reachable. */
  lemma {:induction false} StuckRunIsNot(s: Session, toks: seq<Token>, pend: seq<Value>, order: seq<int>)
    requires Ran(s.h, s.flags, [s.root], [], toks, pend, order)
    requires pend != [] && !Writable(s.h, s.flags, pend[0])
    ensures !GraphWritable(s)
  {
    hide Ran, Writable;
    assert Follow(s.h, s.root, []) == Some(s.root);
    RanReachable(s.h, s.root, s.flags, [s.root], [], toks, pend, order);
  }

  // ----- termination under NO_SHARING -----

  /** Ranks decrease along fields: the graph has no cycle. */
  ghost predicate Acyclic(h: Heap, rank: map<int, nat>) {
    && rank.Keys == h.Keys
    && forall a :: a in h && h[a].Fields? ==> Below(h, rank, h[a].fs, rank[a])
  }

  ghost predicate Below(h: Heap, rank: map<int, nat>, vs: seq<Value>, bound: nat) {
    forall k :: 0 <= k < |vs| && vs[k].Ptr? ==> vs[k].a in h && vs[k].a in rank && rank[vs[k].a] < bound
  }

  /** Number of values in the tree unfolding of the worklist. */
  ghost function Weight(h: Heap, rank: map<int, nat>, vs: seq<Value>, bound: nat): nat
    requires Acyclic(h, rank) && Below(h, rank, vs, bound)
    decreases bound, |vs|
  {
    if vs == [] then 0
    else
      1 + (if vs[0].Ptr? && h[vs[0].a].Fields? then Weight(h, rank, h[vs[0].a].fs, rank[vs[0].a]) else 0)
        + Weight(h, rank, vs[1..], bound)
  }

  lemma {:induction false} WeightAppend(h: Heap, rank: map<int, nat>, vs: seq<Value>, ws: seq<Value>, b: nat,
                                        bound: nat)
    requires Acyclic(h, rank) && Below(h, rank, vs, b) && Below(h, rank, ws, bound) && b <= bound
    ensures Below(h, rank, vs + ws, bound)
    ensures Weight(h, rank, vs + ws, bound) == Weight(h, rank, vs, b) + Weight(h, rank, ws, bound)
    decreases |vs|
  {
    if vs == [] {
      assert vs + ws == ws;
    } else {
      WeightAppend(h, rank, vs[1..], ws, b, bound);
      assert (vs + ws)[1..] == vs[1..] + ws;
    }
  }

  lemma {:induction false} WeightDecreases(h: Heap, rank: map<int, nat>, flags: Flags, pend: seq<Value>,
                                           order: seq<int>, bound: nat)
    requires Acyclic(h, rank) && Below(h, rank, pend, bound) && pend != [] && flags.noSharing
    ensures Below(h, rank, Children(h, flags, order, pend[0]) + pend[1..], bound)
    ensures Weight(h, rank, Children(h, flags, order, pend[0]) + pend[1..], bound) < Weight(h, rank, pend, bound)
  {
    var v := pend[0];
    if v.Ptr? && h[v.a].Fields? {
      WeightAppend(h, rank, h[v.a].fs, pend[1..], rank[v.a], bound);
    } else {
      assert Children(h, flags, order, v) + pend[1..] == pend[1..];
    }
  }

  // ----- the loop -----

  /** Fields `next .. next + count` of block `a` are still to be written. */
  datatype Item = Item(a: int, next: int, count: int)

  predicate ItemOk(h: Heap, it: Item) {
    && it.a in h && h[it.a].Fields?
    && 1 <= it.next && 1 <= it.count && it.next + it.count == |h[it.a].fs|
  }

  ghost predicate StackOk(h: Heap, stack: seq<Item>) {
    forall i :: 0 <= i < |stack| ==> ItemOk(h, stack[i])
  }

  /** The pending values of the stack, top first. */
  ghost function Flat(h: Heap, stack: seq<Item>): seq<Value>
    requires StackOk(h, stack)
  {
    if stack == [] then []
    else
      var it := stack[|stack| - 1];
      assert ItemOk(h, it);
      h[it.a].fs[it.next..] + Flat(h, stack[..|stack| - 1])
  }

  function Pushed(stack: seq<Item>, a: int, size: int): seq<Item> {
    if size > 1 then stack + [Item(a, 1, size - 1)] else stack
  }

  function Popped(stack: seq<Item>): seq<Item>
    requires stack != []
  {
    var rest, it := stack[..|stack| - 1], stack[|stack| - 1];
    if it.count == 1 then rest else rest + [Item(it.a, it.next + 1, it.count - 1)]
  }

  lemma FlatSnoc(h: Heap, stack: seq<Item>, it: Item)
    requires StackOk(h, stack) && ItemOk(h, it)
    ensures StackOk(h, stack + [it])
    ensures Flat(h, stack + [it]) == h[it.a].fs[it.next..] + Flat(h, stack)
  {
    assert (stack + [it])[..|stack|] == stack;
  }

  lemma FlatPushed(h: Heap, stack: seq<Item>, a: int)
    requires StackOk(h, stack) && a in h && h[a].Fields? && |h[a].fs| >= 1
    ensures StackOk(h, Pushed(stack, a, |h[a].fs|))
    ensures h[a].fs + Flat(h, stack) == [h[a].fs[0]] + Flat(h, Pushed(stack, a, |h[a].fs|))
  {
    hide Flat, StackOk;
    var fs := h[a].fs;
    assert fs == [fs[0]] + fs[1..];
    if |fs| > 1 {
      FlatSnoc(h, stack, Item(a, 1, |fs| - 1));
    }
  }

  lemma FlatTop(h: Heap, stack: seq<Item>)
    requires StackOk(h, stack) && stack != []
    ensures ItemOk(h, stack[|stack| - 1]) && StackOk(h, stack[..|stack| - 1])
    ensures Flat(h, stack) == h[stack[|stack| - 1].a].fs[stack[|stack| - 1].next..] + Flat(h, stack[..|stack| - 1])
  {
  }

  lemma FlatPopped(h: Heap, stack: seq<Item>)
    requires StackOk(h, stack) && stack != []
    ensures StackOk(h, Popped(stack)) && ItemOk(h, stack[|stack| - 1])
    ensures Flat(h, stack)
         == [h[stack[|stack| - 1].a].fs[stack[|stack| - 1].next]] + Flat(h, Popped(stack))
  {
    hide Flat, StackOk;
    var rest, it := stack[..|stack| - 1], stack[|stack| - 1];
    FlatTop(h, stack);
    var fs := h[it.a].fs;
    assert fs[it.next..] == [fs[it.next]] + fs[it.next + 1..];
    if it.count > 1 {
      FlatSnoc(h, rest, Item(it.a, it.next + 1, it.count - 1));
    }
  }

  /** The position table maps each recorded block to its rank in `order`. */
  ghost predicate Positions(order: seq<int>, m: map<int, int>) {
    && (forall i :: 0 <= i < |order| ==> order[i] in m && m[order[i]] == i)
    && (forall a :: a in m ==> a in order)
    && |m| == |order|
  }

  lemma PositionsExtend(order: seq<int>, m: map<int, int>, a: int)
    requires Positions(order, m) && a !in m
    ensures Positions(order + [a], m[a := |order|])
  {
    assert m[a := |order|].Keys == m.Keys + {a};
    forall x | x in m[a := |order|] ensures x in order + [a] {
      if x != a {
        assert x in order;
      }
    }
  }

  lemma PositionsSubset(h: Heap, order: seq<int>, m: map<int, int>)
    requires Positions(order, m) && forall i :: 0 <= i < |order| ==> order[i] in h
    ensures |order| <= |h|
  {
    FitsIn(order, h.Keys);
  }

  class Extern {
    var flags: Flags
    var objCounter: nat
    var size32: nat
    var size64: nat
    var stack: seq<Item>
    var out: seq<byte>
    const table: Table
    ghost var toks: seq<Token>
    ghost var order: seq<int>

    constructor (flags: Flags)
      ensures this.flags == flags && objCounter == 0 && size32 == 0 && size64 == 0
      ensures stack == [] && out == [] && toks == [] && order == []
      ensures table.Valid() && table.contents == map[] && fresh(table)
    {
      this.flags, objCounter, size32, size64, stack, out := flags, 0, 0, 0, [], [];
      table := new Table();
      toks, order := [], [];
    }

    /** The counters and the output describe the tokens written so far. */
    ghost predicate Accounts(host: Host)
      reads this
    {
      && out == EncodeAll(host, toks)
      && size64 == TotalWords(toks) && size32 == TotalWords32(toks)
      && objCounter == |order|
    }

    ghost predicate TableOk()
      reads this, table
    {
      table.Valid() && (if flags.noSharing then order == [] else Positions(order, table.contents))
    }

    /** extern_int, extern_header, extern_string, ...: refuse what COMPAT_32 forbids, else write and count. */
    method Write(host: Host, t: Token) returns (ok: bool)
      requires Accounts(host)
      modifies `out, `size32, `size64, `toks
      ensures ok == Accepted(flags, t)
      ensures toks == if ok then old(toks) + [t] else old(toks)
      ensures Accounts(host)
    {
      ok := Accepted(flags, t);
      if ok {
        hide Encode, Words, Words32, Accepted;
        EncodeSnoc(host, toks, t);
        WordsSnoc(toks, t);
        out := out + Encode(host, t);
        size32, size64 := size32 + Words32(t), size64 + Words(t);
        toks := toks + [t];
      }
    }

    /** extern_record_location */
    method RecordLocation(h: Heap, a: int, slot: nat)
      requires TableOk() && objCounter == |order| && a in h
      requires forall i :: 0 <= i < |order| ==> order[i] in h
      requires !flags.noSharing ==> a !in table.contents && table.Free(a, slot) && |h| < 0x1000_0000_0000_0000
      modifies `objCounter, `order, table
      ensures TableOk() && objCounter == |order|
      ensures order == Recorded(flags, old(order), Ptr(a))
    {
      hide Positions, Table.Valid, Table.Free;
      if flags.noSharing {
        return;
      }
      PositionsExtend(order, table.contents, a);
      PositionsSubset(h, order, table.contents);
      NotRecorded(order, table.contents, a);
      table.Record(a, slot, objCounter);
      objCounter := objCounter + 1;
      order := order + [a];
    }

    /** The state between two iterations: accounts, table and stack are consistent with the heap. */
    ghost predicate Working(h: Heap, host: Host)
      reads this, table
    {
      && StackOk(h, stack) && Accounts(host) && TableOk()
      && (forall i :: 0 <= i < |order| ==> order[i] in h)
    }

    lemma Start(h: Heap, host: Host, root: Value)
      requires stack == [] && toks == [] && order == [] && Accounts(host)
      requires table.Valid() && table.contents == map[]
      ensures Working(h, host) && |order| <= |h| && StackOk(h, stack)
      ensures Ran(h, flags, [root], [], toks, [root] + Flat(h, stack), order) && [root] + Flat(h, stack) == [root]
    {
      hide Table.Valid;
      assert Positions([], map[]);
    }

    lemma OrderBounded(h: Heap, host: Host)
      requires Working(h, host)
      ensures |order| <= |h| && StackOk(h, stack) && Accounts(host)
    {
      if !flags.noSharing {
        PositionsSubset(h, order, table.contents);
      }
    }

    /** Writes one value: a shared reference, an immediate, an atom or the contents of a new block. */
    method Visit(h: Heap, host: Host, v: Value) returns (ok: bool, descend: bool)
      requires WellFormed(h) && WellFormedValue(h, v)
      requires Working(h, host)
      modifies `out, `size32, `size64, `toks, `objCounter, `order, table
      ensures Working(h, host)
      ensures !ok ==> !Writable(h, flags, v) && !Seen(flags, old(order), v)
      ensures !ok ==> toks == old(toks) && order == old(order)
      ensures ok ==> Steps(h, flags, [v], old(order))
      ensures ok ==> toks == old(toks) + [Emit(h, flags, old(order), v)]
      ensures ok ==> order == Recorded(flags, old(order), v)
      ensures ok ==> (descend <==> Children(h, flags, old(order), v) != [])
    {
      hide EncodeAll, Positions, TotalWords, TotalWords32, Table.Valid, Table.Free;
      descend := false;
      if !v.Ptr? {
        ok := Write(host, TokenOf(h, v).value);
        return;
      }
      var slot := 0;
      if !flags.noSharing {
        NotRecorded(order, table.contents, v.a);
        var found, pos;
        found, pos, slot := table.Lookup(v.a);
        if found {
          ok := Write(host, TShared(objCounter - pos));
          return;
        }
      }
      if h[v.a].Abstract? {
        return false, false; // extern_invalid_argument
      }
      ok := Write(host, TokenOf(h, v).value);
      if ok {
        RecordLocation(h, v.a, slot);
        descend := h[v.a].Fields?;
      }
    }

    /** Pushes the fields after the first, or pops the next pending field; `done` when nothing is left. */
    method Advance(h: Heap, ghost host: Host, v: Value, descend: bool) returns (done: bool, next: Value)
      requires WellFormed(h) && Working(h, host)
      requires descend ==> v.Ptr? && v.a in h && h[v.a].Fields?
      modifies `stack
      ensures Working(h, host)
      ensures var pend := (if descend then h[v.a].fs else []) + old(Flat(h, stack));
        if done then pend == [] else pend == [next] + Flat(h, stack) && WellFormedValue(h, next)
    {
      hide Flat, Pushed, Popped, EncodeAll, TotalWords, TotalWords32, Positions, Table.Valid;
      if descend {
        assert WellFormedBlock(h, h[v.a]);
        FlatPushed(h, stack, v.a);
        stack := Pushed(stack, v.a, |h[v.a].fs|);
        return false, h[v.a].fs[0];
      }
      if stack == [] {
        assert Flat(h, stack) == [] by { FlatEmpty(h); }
        return true, v;
      }
      FlatPopped(h, stack);
      var it := stack[|stack| - 1];
      assert WellFormedBlock(h, h[it.a]);
      stack := Popped(stack);
      return false, h[it.a].fs[it.next];
    }

    /** extern_rec: the whole traversal. Fails exactly when some reachable value cannot be written. */
    method ExternRec(h: Heap, host: Host, root: Value, ghost reader: Host, ghost rank: map<int, nat>)
      returns (ok: bool)
      requires WellFormed(h) && WellFormedValue(h, root)
      requires stack == [] && toks == [] && order == [] && Accounts(host)
      requires table.Valid() && table.contents == map[]
      requires flags.noSharing ==> Acyclic(h, rank)
      modifies `stack, `out, `size32, `size64, `toks, `objCounter, `order, table
      ensures Accounts(host)
      ensures ok ==> Writes(h, flags, [root], [], toks) && order == RecordedAll(h, flags, [root], [], toks)
      ensures ok <==> GraphWritable(Session(h, root, flags, host, reader))
    {
      hide Writes, RecordedAll, EncodeAll, Emit, Writable, Positions, Weight, TotalWords, TotalWords32;
      hide Table.Valid, GraphWritable, Flat, Acyclic, StackOk, Working, Accounts, Ran;
      Start(h, host, root);
      ghost var s := Session(h, root, flags, host, reader);
      ghost var bound: nat := if flags.noSharing && root.Ptr? then RankOf(h, rank, root.a) + 1 else 0;
      var v, done := root, false;
      while !done
        invariant Working(h, host) && StackOk(h, stack) && |order| <= |h|
        invariant !done ==> WellFormedValue(h, v) && Ran(h, flags, [root], [], toks, [v] + Flat(h, stack), order)
        invariant !done && flags.noSharing ==> Below(h, rank, [v] + Flat(h, stack), bound)
        invariant done ==> Ran(h, flags, [root], [], toks, [], order)
        decreases !done,
                  if flags.noSharing then 0 else |h| - |order|,
                  if done then 0
                  else if flags.noSharing then Weight(h, rank, [v] + Flat(h, stack), bound) else |Flat(h, stack)|
      {
        ghost var pend, order0, toks0 := [v] + Flat(h, stack), order, toks;
        var descend;
        ok, descend := Visit(h, host, v);
        if !ok {
          StuckRunIsNot(s, toks, pend, order);
          OrderBounded(h, host);
          return;
        }
        assert pend[0] == v && pend[1..] == Flat(h, stack);
        RanSnoc(h, flags, [root], [], toks0, pend, order0);
        if flags.noSharing {
          WeightDecreases(h, rank, flags, pend, order0, bound);
        }
        done, v := Advance(h, host, v, descend);
        OrderBounded(h, host);
      }
      RanToEnd(h, flags, [root], [], toks, order);
      CompleteRunIsWritable(s, toks);
      OrderBounded(h, host);
      ok := true;
    }
  }

  lemma FlatEmpty(h: Heap)
    ensures Flat(h, []) == []
  {
  }

  ghost function RankOf(h: Heap, rank: map<int, nat>, a: int): (r: nat)
    requires Acyclic(h, rank) && a in h
    ensures a in rank && r == rank[a]
  {
    rank[a]
  }

  lemma NotRecorded(order: seq<int>, m: map<int, int>, a: int)
    requires Positions(order, m)
    ensures a in m <==> a in order
    ensures a in m ==> m[a] == IndexOf(order, a)
    ensures |m| == |order|
  {
  }

  lemma {:induction false} WordsSnoc(toks: seq<Token>, t: Token)
    ensures TotalWords(toks + [t]) == TotalWords(toks) + Words(t)
    ensures TotalWords32(toks + [t]) == TotalWords32(toks) + Words32(t)
  {
    hide Words, Words32;
    if toks == [] {
      assert ([] + [t])[1..] == [];
    } else {
      WordsSnoc(toks[1..], t);
      assert (toks + [t])[1..] == toks[1..] + [t];
    }
  }

  /**
   extern_value: the complete message. There is none exactly when a reachable value cannot be
   written or COMPAT_32 forbids the large header.
   */
  method ExternValue(h: Heap, root: Value, flags: Flags, host: Host, ghost reader: Host, ghost rank: map<int, nat>)
    returns (msg: Option<seq<byte>>, ghost toks: seq<Token>)
    requires WellFormed(h) && WellFormedValue(h, root)
    requires flags.noSharing ==> Acyclic(h, rank)
    ensures msg.Some? ==> Message(Session(h, root, flags, host, reader), toks, msg.value)
    ensures msg.None? ==>
      || !GraphWritable(Session(h, root, flags, host, reader))
      || (Writes(h, flags, [root], [], toks) && flags.compat32 &&
          HeaderFor(flags, |EncodeAll(host, toks)|, |RecordedAll(h, flags, [root], [], toks)|,
                    TotalWords32(toks), TotalWords(toks)).None?)
    ensures msg.Some? ==> GraphWritable(Session(h, root, flags, host, reader))
  {
    hide Writes, RecordedAll, GraphWritable, WellFormed, HeaderFor;
    var s := new Extern(flags);
    var ok := s.ExternRec(h, host, root, reader, rank);
    toks := s.toks;
    if !ok {
      return None, toks;
    }
    var hd := HeaderFor(flags, |s.out|, s.objCounter, s.size32, s.size64);
    if hd.None? {
      HeaderRefused(flags, |s.out|, s.objCounter, s.size32, s.size64);
      return None, toks;
    }
    return Some(hd.value + s.out), toks;
  }

  lemma HeaderRefused(flags: Flags, len: nat, objects: nat, words32: nat, words64: nat)
    requires HeaderFor(flags, len, objects, words32, words64).None?
    ensures flags.compat32
  {
  }
}
