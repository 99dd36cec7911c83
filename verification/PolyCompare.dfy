/** Structural comparison as the runtime runs it: one loop, an explicit stack that grows, physical-equality short
    cuts. */
module PolyCompare {
  import opened Bytes
  import opened OcamlValue

  const UNORDERED := -0x8000_0000_0000_0000
  const STACK_INIT_SIZE := 8
  const STACK_MIN_ALLOC_SIZE := 32
  const STACK_MAX_SIZE := 1024 * 1024

  /** The slots of the largest stack there is. */
  const STACK_LIMIT := STACK_MAX_SIZE / 2

  datatype Result = Ordered(n: int) | OutOfMemory

  /** The fields of two blocks still to be compared. */
  datatype Item = Item(vs: seq<Value>, ws: seq<Value>)

  /** How the machine integer returned encodes an order: no difference overflows or collides with UNORDERED. */
  ghost predicate Means(n: int, o: Order) {
    && UNORDERED <= n < 0x8000_0000_0000_0000
    && o == (if n == UNORDERED then Unordered else OfInt(n))
  }

  /** Equal addresses hold equal values: every block of `v` is the one `heap` has at its address. */
  ghost predicate InHeap(v: Value, heap: map<int, Value>) {
    v.Long? ||
    (v.id in heap && heap[v.id] == v &&
     match v
     case Forward(_, t) => InHeap(t, heap)
     case Block(_, _, fs) => forall i :: 0 <= i < |fs| ==> InHeap(fs[i], heap)
     case _ => true)
  }

  predicate PhysicallyEqual(v: Value, w: Value) {
    if v.Long? || w.Long? then v == w else v.id == w.id
  }

  // ----- measures -----

  /** Stack slots the loop needs below `v`: a field waits for its predecessors in a slot, the last field gives its slot
      up. */
  function StackNeed(v: Value): nat
    decreases v, 1
  {
    match v
    case Forward(_, t) => StackNeed(t)
    case Block(_, _, fs) => StackNeedAll(fs)
    case _ => 0
  }

  function StackNeedAll(fs: seq<Value>): nat
    decreases fs, 0
  {
    if fs == [] then 0
    else if |fs| == 1 then StackNeed(fs[0])
    else
      var first, rest := 1 + StackNeed(fs[0]), StackNeedAll(fs[1..]);
      if first > rest then first else rest
  }

  function Max(a: nat, b: nat): nat {
    if a < b then b else a
  }

  /** The comparison takes two values for equal without looking inside. */
  predicate ShortCut(v: Value, w: Value, total: bool) {
    PhysicallyEqual(v, w) && (total || v.Long?)
  }

  /** The slots in use at most while two values are compared: until they differ, and none for what is short cut. */
  function Peak(v: Value, w: Value, total: bool): nat
    decreases v, w, 1
  {
    if ShortCut(v, w, total) then 0
    else if v.Forward? then Peak(v.target, if w.Forward? then w.target else w, total)
    else if w.Forward? then Peak(v, w.target, total)
    else if v.Block? && w.Block? && v.tag == w.tag && |v.fs| == |w.fs| then PeakAll(v.fs, w.fs, total)
    else 0
  }

  function PeakAll(fs: seq<Value>, gs: seq<Value>, total: bool): nat
    requires |fs| == |gs|
    decreases fs, gs, 0
  {
    if fs == [] then 0
    else if |fs| == 1 then Peak(fs[0], gs[0], total)
    else if Compare(fs[0], gs[0], total) != Equal then 1 + Peak(fs[0], gs[0], total)
    else Max(1 + Peak(fs[0], gs[0], total), PeakAll(fs[1..], gs[1..], total))
  }

  /** Number of values still to be visited. */
  ghost function Weight(v: Value): nat
    decreases v, 1
  {
    match v
    case Forward(_, t) => 1 + Weight(t)
    case Block(_, _, fs) => 1 + WeightAll(fs)
    case _ => 1
  }

  ghost function WeightAll(fs: seq<Value>): nat
    decreases fs, 0
  {
    if fs == [] then 0 else Weight(fs[0]) + WeightAll(fs[1..])
  }

  ghost function StackWeight(stack: seq<Item>): nat {
    if stack == [] then 0
    else
      WeightAll(stack[|stack| - 1].vs) + WeightAll(stack[|stack| - 1].ws) + StackWeight(stack[..|stack| - 1])
  }

  // ----- the meaning of the stack -----

  ghost predicate ValueOk(v: Value, heap: map<int, Value>) {
    WellFormed(v) && InHeap(v, heap)
  }

  ghost predicate ItemOk(it: Item, heap: map<int, Value>) {
    && |it.vs| == |it.ws| >= 1
    && (forall i :: 0 <= i < |it.vs| ==> ValueOk(it.vs[i], heap))
    && (forall i :: 0 <= i < |it.ws| ==> ValueOk(it.ws[i], heap))
  }

  ghost predicate StackOk(stack: seq<Item>, heap: map<int, Value>) {
    forall k :: 0 <= k < |stack| ==> ItemOk(stack[k], heap)
  }

  ghost function StackOrder(stack: seq<Item>, total: bool): Order
    requires forall k :: 0 <= k < |stack| ==> |stack[k].vs| == |stack[k].ws|
  {
    if stack == [] then Equal
    else
      Then(CompareAll(stack[|stack| - 1].vs, stack[|stack| - 1].ws, total), StackOrder(stack[..|stack| - 1], total))
  }

  /** The slots that the items of a stack will take at most, their own included. */
  ghost function StackPeak(stack: seq<Item>, total: bool): nat
    requires forall k :: 0 <= k < |stack| ==> |stack[k].vs| == |stack[k].ws|
  {
    if stack == [] then 0
    else
      var lower, top := stack[..|stack| - 1], stack[|stack| - 1];
      var peak := |lower| + PeakAll(top.vs, top.ws, total);
      if CompareAll(top.vs, top.ws, total) != Equal then peak else Max(peak, StackPeak(lower, total))
  }

  lemma PhysicalMeansEqual(v: Value, w: Value, heap: map<int, Value>)
    requires ValueOk(v, heap) && ValueOk(w, heap) && PhysicallyEqual(v, w)
    ensures Compare(v, w, true) == Equal
  {
    assert v == w;
    CompareReflexive(v);
  }

  // ----- leaves -----

  method CompareStrings(s: seq<byte>, t: seq<byte>) returns (n: int)
    requires |s| < 0x200_0000_0000_0000 && |t| < 0x200_0000_0000_0000
    ensures Means(n, CompareBytes(s, t))
  {
    // memcmp on the common length, then the lengths
    var i := 0;
    while i < |s| && i < |t|
      invariant 0 <= i <= |s| && i <= |t|
      invariant CompareBytes(s, t) == CompareBytes(s[i..], t[i..])
    {
      if s[i] as int < t[i] as int {
        return -1;
      } else if s[i] as int > t[i] as int {
        return 1;
      }
      assert s[i..][1..] == s[i + 1..] && t[i..][1..] == t[i + 1..];
      i := i + 1;
    }
    assert s[i..] == [] || t[i..] == [];
    return |s| - |t|;
  }

  method CompareFloats(a: int, b: int, total: bool) returns (n: int)
    ensures Means(n, CompareDouble(a, b, total))
    ensures n == 0 || n == -1 || n == 1 || n == UNORDERED
  {
    if !IsNaN(a) && !IsNaN(b) {
      return if Key(a) < Key(b) then -1 else if Key(a) > Key(b) then 1 else 0;
    }
    if !total {
      return UNORDERED;
    }
    if !IsNaN(a) {
      return 1;
    }
    return if !IsNaN(b) then -1 else 0;
  }

  method CompareFloatArrays(s: seq<int>, t: seq<int>, total: bool) returns (n: int)
    requires |s| == |t|
    ensures Means(n, CompareDoubles(s, t, total))
  {
    for i := 0 to |s|
      invariant CompareDoubles(s, t, total) == CompareDoubles(s[i..], t[i..], total)
    {
      var c := CompareFloats(s[i], t[i], total);
      if c != 0 {
        return c;
      }
      assert s[i..][1..] == s[i + 1..] && t[i..][1..] == t[i + 1..];
    }
    return 0;
  }

  /** Blocks without fields to descend into. */
  predicate Leaf(v: Value) {
    v.Str? || v.Dbl? || v.Dbls? || v.Object?
  }

  method CompareLeaves(v: Value, w: Value, total: bool, ghost heap: map<int, Value>) returns (n: int)
    requires ValueOk(v, heap) && ValueOk(w, heap) && Leaf(v) && Leaf(w) && Tag(v) == Tag(w)
    ensures Means(n, Compare(v, w, total))
  {
    match v
    case Str(id, s) =>
      if id == w.id {
        PhysicalMeansEqual(v, w, heap);
        n := 0;
      } else {
        n := CompareStrings(s, w.s);
      }
    case Dbl(_, a) => n := CompareFloats(a, w.bits, total);
    case Dbls(_, s) =>
      if |s| != |w.ds| {
        n := |s| - |w.ds|;
      } else {
        n := CompareFloatArrays(s, w.ds, total);
      }
    case Object(_, oid) => n := oid - w.oid;
  }

  // ----- the explicit stack -----

  /** The sizes a stack goes through. */
  predicate StackSize(n: int) {
    n in {STACK_INIT_SIZE, 32, 64, 128, 256, 512, 1024, 2048, 4096, 8192, 16384, 32768, 65536, 131072, 262144, 524288}
  }

  lemma NextSize(n: int)
    requires StackSize(n)
    ensures STACK_INIT_SIZE <= n <= STACK_LIMIT
    ensures n == STACK_INIT_SIZE ==> StackSize(STACK_MIN_ALLOC_SIZE)
    ensures n != STACK_INIT_SIZE ==> if n == STACK_LIMIT then 2 * n == STACK_MAX_SIZE else StackSize(2 * n)
    ensures n < STACK_LIMIT ==> 2 * n < STACK_MAX_SIZE
  {
  }

  /** Slot 0 is never used: `sp` is the top slot and 0 when the stack is empty. */
  class CompareStack {
    var items: array<Item>
    var sp: nat

    ghost predicate Valid()
      reads this
    {
      StackSize(items.Length) && sp < items.Length
    }

    ghost function Contents(): seq<Item>
      requires Valid()
      reads this, items
    {
      items[1..sp + 1]
    }

    constructor ()
      ensures Valid() && fresh(items) && Contents() == []
    {
      items := new Item[STACK_INIT_SIZE];
      sp := 0;
    }

    /** Pushes, moving the items to a larger array when the present one is full. */
    method Push(it: Item) returns (ok: bool)
      requires Valid()
      modifies this, items
      ensures Valid() && (items == old(items) || fresh(items))
      ensures ok <==> old(sp) + 1 < STACK_LIMIT
      ensures ok ==> Contents() == old(Contents()) + [it]
    {
      hide StackSize;
      NextSize(items.Length);
      if sp + 1 >= items.Length {
        var size := if items.Length == STACK_INIT_SIZE then STACK_MIN_ALLOC_SIZE else 2 * items.Length;
        if size >= STACK_MAX_SIZE {
          return false;
        }
        var bigger := new Item[size];
        for i := 0 to items.Length
          invariant bigger[..i] == items[..i]
          invariant items == old(items) && items[..] == old(items[..])
          modifies bigger
        {
          bigger[i] := items[i];
        }
        assert forall k :: 0 <= k < items.Length ==> bigger[k] == bigger[..items.Length][k];
        items := bigger;
      }
      sp := sp + 1;
      items[sp] := it;
      return true;
    }

    /** Takes the next two fields from the top item, and drops the item with its last field. */
    method Pop() returns (v: Value, w: Value)
      requires Valid() && sp > 0 && |items[sp].vs| == |items[sp].ws| >= 1
      modifies this, items
      ensures Valid() && items == old(items)
      ensures var top := old(items[sp]);
        && v == top.vs[0] && w == top.ws[0]
        && Contents() == Popped(old(items[1..sp]), top)
    {
      var top := items[sp];
      v, w := top.vs[0], top.ws[0];
      if |top.vs| == 1 {
        sp := sp - 1;
      } else {
        items[sp] := Item(top.vs[1..], top.ws[1..]);
      }
    }
  }

  // ----- the loop -----

  /** What is left to decide: the two current values, then the stack, top item first. */
  ghost function Remaining(v: Value, w: Value, stack: seq<Item>, total: bool): Order
    requires forall k :: 0 <= k < |stack| ==> |stack[k].vs| == |stack[k].ws|
  {
    Then(Compare(v, w, total), StackOrder(stack, total))
  }

  lemma SingleField(fs: seq<Value>, gs: seq<Value>, total: bool)
    requires |fs| == |gs| == 1
    ensures CompareAll(fs, gs, total) == Compare(fs[0], gs[0], total)
    ensures WeightAll(fs) == Weight(fs[0]) && WeightAll(gs) == Weight(gs[0])
  {
    hide Compare, Weight;
    assert CompareAll(fs[1..], gs[1..], total) == Equal;
  }

  /** The slots in use at most from here on. */
  ghost function RestPeak(v: Value, w: Value, stack: seq<Item>, total: bool): nat
    requires forall k :: 0 <= k < |stack| ==> |stack[k].vs| == |stack[k].ws|
  {
    var peak := |stack| + Peak(v, w, total);
    if Compare(v, w, total) != Equal then peak else Max(peak, StackPeak(stack, total))
  }

  /** What the loop keeps: the answer is what remains, and the stack will be too small if it was to be at the start. */
  ghost predicate Inv(v: Value, w: Value, stack: seq<Item>, heap: map<int, Value>, total: bool, answer: Order,
                      over: bool) {
    && ValueOk(v, heap) && ValueOk(w, heap)
    && StackOk(stack, heap)
    && |stack| < STACK_LIMIT
    && answer == Remaining(v, w, stack, total)
    && (over <==> RestPeak(v, w, stack, total) >= STACK_LIMIT)
  }

  lemma StartInv(v: Value, w: Value, heap: map<int, Value>, total: bool)
    requires ValueOk(v, heap) && ValueOk(w, heap)
    ensures Inv(v, w, [], heap, total, Compare(v, w, total), Peak(v, w, total) >= STACK_LIMIT)
  {
  }

  lemma WeightPositive(v: Value)
    ensures Weight(v) > 0
  {
  }

  ghost function Work(v: Value, w: Value, stack: seq<Item>): nat {
    Weight(v) + Weight(w) + StackWeight(stack)
  }

  /** Stepping inside two blocks: their fields decide. */
  ghost predicate Into(v: Value, w: Value, fs: seq<Value>, gs: seq<Value>, total: bool, heap: map<int, Value>) {
    && |fs| == |gs| >= 2
    && (forall i :: 0 <= i < |fs| ==> ValueOk(fs[i], heap) && ValueOk(gs[i], heap))
    && Compare(v, w, total) == CompareAll(fs, gs, total)
    && WeightAll(fs) + WeightAll(gs) < Weight(v) + Weight(w)
    && Peak(v, w, total) == PeakAll(fs, gs, total)
  }

  /** Stepping to one pair of values that compare alike. */
  ghost predicate Onto(v: Value, w: Value, v1: Value, w1: Value, total: bool, heap: map<int, Value>) {
    && ValueOk(v1, heap) && ValueOk(w1, heap)
    && Compare(v1, w1, total) == Compare(v, w, total)
    && Weight(v1) + Weight(w1) < Weight(v) + Weight(w)
    && Peak(v1, w1, total) == Peak(v, w, total)
  }

  /** A push changes nothing about the answer and the slots it takes; without room there are too few slots. */
  lemma PushKeeps(v: Value, w: Value, fs: seq<Value>, gs: seq<Value>, stack: seq<Item>, heap: map<int, Value>,
                  total: bool, answer: Order, over: bool)
    requires Inv(v, w, stack, heap, total, answer, over) && Into(v, w, fs, gs, total, heap)
    ensures var pushed := stack + [Item(fs[1..], gs[1..])];
      if |pushed| < STACK_LIMIT
      then Inv(fs[0], gs[0], pushed, heap, total, answer, over) && Work(fs[0], gs[0], pushed) < Work(v, w, stack)
      else over
  {
    hide Compare, ValueOk, Weight, Peak;
    var pushed := stack + [Item(fs[1..], gs[1..])];
    assert pushed[..|pushed| - 1] == stack;
    assert RestPeak(fs[0], gs[0], pushed, total) == RestPeak(v, w, stack, total);
  }

  /** The stack after its top item has given one pair of fields. */
  ghost function Popped(lower: seq<Item>, top: Item): seq<Item>
    requires |top.vs| == |top.ws| >= 1
  {
    if |top.vs| == 1 then lower else lower + [Item(top.vs[1..], top.ws[1..])]
  }

  lemma PoppedMeaning(lower: seq<Item>, top: Item, heap: map<int, Value>, total: bool)
    requires StackOk(lower, heap) && ItemOk(top, heap)
    ensures var rest := Popped(lower, top);
      && StackOk(rest, heap) && |rest| <= |lower| + 1
      && Remaining(top.vs[0], top.ws[0], rest, total) == StackOrder(lower + [top], total)
      && RestPeak(top.vs[0], top.ws[0], rest, total) == StackPeak(lower + [top], total)
      && Work(top.vs[0], top.ws[0], rest) == StackWeight(lower + [top])
  {
    hide Compare, ValueOk, Weight, Peak;
    assert (lower + [top])[..|lower|] == lower;
    if |top.vs| == 1 {
      SingleField(top.vs, top.ws, total);
    } else {
      var rest := lower + [Item(top.vs[1..], top.ws[1..])];
      assert rest[..|rest| - 1] == lower;
    }
  }

  lemma PopKeeps(v: Value, w: Value, stack: seq<Item>, heap: map<int, Value>, total: bool, answer: Order, over: bool)
    requires Inv(v, w, stack, heap, total, answer, over) && |stack| > 0
    requires Means(0, Compare(v, w, total)) && Peak(v, w, total) == 0
    ensures var top := stack[|stack| - 1];
      && |top.vs| == |top.ws| >= 1
      && var rest := Popped(stack[..|stack| - 1], top);
      Inv(top.vs[0], top.ws[0], rest, heap, total, answer, over) && Work(top.vs[0], top.ws[0], rest) < Work(v, w, stack)
  {
    hide Compare, ValueOk, Weight, StackPeak, StackOrder, StackWeight, CompareAll, WeightAll, PeakAll, Popped;
    WeightPositive(v);
    var lower, top := stack[..|stack| - 1], stack[|stack| - 1];
    assert stack == lower + [top];
    assert ItemOk(top, heap);
    PoppedMeaning(lower, top, heap, total);
  }

  lemma OntoKeeps(v: Value, w: Value, v1: Value, w1: Value, stack: seq<Item>, heap: map<int, Value>, total: bool,
                  answer: Order, over: bool)
    requires Inv(v, w, stack, heap, total, answer, over) && Onto(v, w, v1, w1, total, heap)
    ensures Inv(v1, w1, stack, heap, total, answer, over) && Work(v1, w1, stack) < Work(v, w, stack)
  {
    hide ValueOk, Compare, Weight, Peak, StackPeak, StackOrder, StackWeight;
  }

  lemma InvOk(v: Value, w: Value, stack: seq<Item>, heap: map<int, Value>, total: bool, answer: Order, over: bool)
    requires Inv(v, w, stack, heap, total, answer, over)
    ensures ValueOk(v, heap) && ValueOk(w, heap)
  {
  }

  /** A decided pair decides the whole; an equal one does once the stack is empty. The slots have sufficed. */
  lemma AnswerIs(v: Value, w: Value, stack: seq<Item>, heap: map<int, Value>, total: bool, answer: Order, over: bool,
                 n: int)
    requires Inv(v, w, stack, heap, total, answer, over)
    requires Means(n, Compare(v, w, total)) && Peak(v, w, total) == 0 && (n != 0 || stack == [])
    ensures Means(n, answer) && !over
  {
  }

  /** What one look at the two current values decides. */
  datatype Outcome =
    | Decided(n: int)
    | Same
    | Descend(v: Value, w: Value)
    | Fields(fs: seq<Value>, gs: seq<Value>)

  method Look(v: Value, w: Value, total: bool, ghost heap: map<int, Value>) returns (out: Outcome)
    requires ValueOk(v, heap) && ValueOk(w, heap)
    ensures out.Decided? ==> out.n != 0 && Means(out.n, Compare(v, w, total)) && Peak(v, w, total) == 0
    ensures out.Same? ==> Means(0, Compare(v, w, total)) && Peak(v, w, total) == 0
    ensures out.Descend? ==> Onto(v, w, out.v, out.w, total, heap)
    ensures out.Fields? ==> Into(v, w, out.fs, out.gs, total, heap)
  {
    if ShortCut(v, w, total) {
      PhysicalMeansEqual(v, w, heap);
      return Same;
    } else if v.Long? && w.Long? {
      return Decided(v.n - w.n);
    } else if v.Forward? && w.Forward? {
      UnwrapRight(v.target, w, total);
      return Descend(v.target, w.target);
    } else if v.Forward? {
      return Descend(v.target, w);
    } else if w.Forward? {
      return Descend(v, w.target);
    } else if v.Long? {
      return Decided(-1);
    } else if w.Long? {
      return Decided(1);
    } else if Tag(v) != Tag(w) {
      return Decided(Tag(v) - Tag(w));
    } else if Leaf(v) {
      var c := CompareLeaves(v, w, total, heap);
      return if c != 0 then Decided(c) else Same;
    }
    out := LookInside(v, w, total, heap);
  }

  method LookInside(v: Value, w: Value, total: bool, ghost heap: map<int, Value>) returns (out: Outcome)
    requires ValueOk(v, heap) && ValueOk(w, heap) && v.Block? && w.Block? && v.tag == w.tag
    requires !ShortCut(v, w, total)
    ensures out.Decided? ==> out.n != 0 && Means(out.n, Compare(v, w, total)) && Peak(v, w, total) == 0
    ensures out.Same? ==> Means(0, Compare(v, w, total)) && Peak(v, w, total) == 0
    ensures out.Descend? ==> Onto(v, w, out.v, out.w, total, heap)
    ensures out.Fields? ==> out == Fields(v.fs, w.fs) && |v.fs| == |w.fs| >= 2
  {
    if |v.fs| != |w.fs| {
      return Decided(|v.fs| - |w.fs|);
    } else if |v.fs| == 0 {
      return Same;
    } else if |v.fs| == 1 {
      SingleField(v.fs, w.fs, total);
      return Descend(v.fs[0], w.fs[0]);
    }
    return Fields(v.fs, w.fs);
  }

  /** The loop's answer is the recursive order, whatever resizes occur; it raises exactly when the slots are too few. */
  method CompareVal(v0: Value, w0: Value, total: bool, ghost heap: map<int, Value>) returns (r: Result)
    requires ValueOk(v0, heap) && ValueOk(w0, heap)
    ensures r.Ordered? ==> Means(r.n, Compare(v0, w0, total))
    ensures r.OutOfMemory? <==> Peak(v0, w0, total) >= STACK_LIMIT
  {
    hide ValueOk, Compare, Weight, Peak, Inv, Work, Onto, Into, Means, Popped, StackSize;
    var v, w := v0, w0;
    ghost var answer, over := Compare(v0, w0, total), Peak(v0, w0, total) >= STACK_LIMIT;
    var stk := new CompareStack();
    StartInv(v0, w0, heap, total);
    while true
      invariant stk.Valid() && fresh(stk) && fresh(stk.items)
      invariant Inv(v, w, stk.Contents(), heap, total, answer, over)
      decreases Work(v, w, stk.Contents())
    {
      assert ValueOk(v, heap) && ValueOk(w, heap) by {
        InvOk(v, w, stk.Contents(), heap, total, answer, over);
      }
      var out := Look(v, w, total, heap);
      match out
      case Decided(n) =>
        AnswerIs(v, w, stk.Contents(), heap, total, answer, over, n);
        return Ordered(n);
      case Descend(v1, w1) =>
        OntoKeeps(v, w, v1, w1, stk.Contents(), heap, total, answer, over);
        v, w := v1, w1;
      case Fields(fs, gs) =>
        PushKeeps(v, w, fs, gs, stk.Contents(), heap, total, answer, over);
        var ok := stk.Push(Item(fs[1..], gs[1..]));
        if !ok {
          return OutOfMemory;
        }
        v, w := fs[0], gs[0];
      case Same =>
        if stk.sp == 0 {
          AnswerIs(v, w, stk.Contents(), heap, total, answer, over, 0);
          return Ordered(0);
        }
        PopKeeps(v, w, stk.Contents(), heap, total, answer, over);
        assert stk.items[1..stk.sp] == stk.Contents()[..stk.sp - 1];
        v, w := stk.Pop();
    }
    return OutOfMemory;
  }

  // ----- the primitives -----

  datatype Answer<T> = Answer(value: T) | Raised

  method CamlCompare(v: Value, w: Value, ghost heap: map<int, Value>) returns (a: Answer<int>)
    requires ValueOk(v, heap) && ValueOk(w, heap)
    ensures a.Answer? ==> a.value in {-1, 0, 1} && OfInt(a.value) == Compare(v, w, true)
    ensures a.Raised? <==> Peak(v, w, true) >= STACK_LIMIT
  {
    hide ValueOk, Compare, Peak;
    var r := CompareVal(v, w, true, heap);
    if r.OutOfMemory? {
      return Raised;
    }
    TotalDecides(v, w);
    return Answer(if r.n < 0 then -1 else if r.n > 0 then 1 else 0);
  }

  method CamlEqual(v: Value, w: Value, ghost heap: map<int, Value>) returns (a: Answer<bool>)
    requires ValueOk(v, heap) && ValueOk(w, heap)
    ensures a.Answer? ==> (a.value <==> Compare(v, w, false) == Equal)
    ensures a.Raised? <==> Peak(v, w, false) >= STACK_LIMIT
  {
    hide ValueOk, Compare, Peak;
    var r := CompareVal(v, w, false, heap);
    return if r.OutOfMemory? then Raised else Answer(r.n == 0);
  }

  method CamlNotEqual(v: Value, w: Value, ghost heap: map<int, Value>) returns (a: Answer<bool>)
    requires ValueOk(v, heap) && ValueOk(w, heap)
    ensures a.Answer? ==> (a.value <==> Compare(v, w, false) != Equal)
    ensures a.Raised? <==> Peak(v, w, false) >= STACK_LIMIT
  {
    hide ValueOk, Compare, Peak;
    var r := CompareVal(v, w, false, heap);
    return if r.OutOfMemory? then Raised else Answer(r.n != 0);
  }

  method CamlLessThan(v: Value, w: Value, ghost heap: map<int, Value>) returns (a: Answer<bool>)
    requires ValueOk(v, heap) && ValueOk(w, heap)
    ensures a.Answer? ==> (a.value <==> Compare(v, w, false) == Less)
    ensures a.Raised? <==> Peak(v, w, false) >= STACK_LIMIT
  {
    hide ValueOk, Compare, Peak;
    var r := CompareVal(v, w, false, heap);
    return if r.OutOfMemory? then Raised else Answer(r.n < 0 && r.n != UNORDERED);
  }

  method CamlLessEqual(v: Value, w: Value, ghost heap: map<int, Value>) returns (a: Answer<bool>)
    requires ValueOk(v, heap) && ValueOk(w, heap)
    ensures a.Answer? ==> (a.value <==> Compare(v, w, false) in {Less, Equal})
    ensures a.Raised? <==> Peak(v, w, false) >= STACK_LIMIT
  {
    hide ValueOk, Compare, Peak;
    var r := CompareVal(v, w, false, heap);
    return if r.OutOfMemory? then Raised else Answer(r.n <= 0 && r.n != UNORDERED);
  }

  method CamlGreaterThan(v: Value, w: Value, ghost heap: map<int, Value>) returns (a: Answer<bool>)
    requires ValueOk(v, heap) && ValueOk(w, heap)
    ensures a.Answer? ==> (a.value <==> Compare(v, w, false) == Greater)
    ensures a.Raised? <==> Peak(v, w, false) >= STACK_LIMIT
  {
    hide ValueOk, Compare, Peak;
    var r := CompareVal(v, w, false, heap);
    return if r.OutOfMemory? then Raised else Answer(r.n > 0);
  }

  method CamlGreaterEqual(v: Value, w: Value, ghost heap: map<int, Value>) returns (a: Answer<bool>)
    requires ValueOk(v, heap) && ValueOk(w, heap)
    ensures a.Answer? ==> (a.value <==> Compare(v, w, false) in {Greater, Equal})
    ensures a.Raised? <==> Peak(v, w, false) >= STACK_LIMIT
  {
    hide ValueOk, Compare, Peak;
    var r := CompareVal(v, w, false, heap);
    return if r.OutOfMemory? then Raised else Answer(r.n >= 0);
  }

  // ----- how many slots -----

  /** No more slots are used than the first value asks for, wherever the comparison ends. */
  lemma {:induction false} PeakFits(v: Value, w: Value, total: bool)
    ensures Peak(v, w, total) <= StackNeed(v)
    decreases v, w, 1
  {
    if ShortCut(v, w, total) {
    } else if v.Forward? {
      PeakFits(v.target, if w.Forward? then w.target else w, total);
    } else if w.Forward? {
      PeakFits(v, w.target, total);
    } else if v.Block? && w.Block? && |v.fs| == |w.fs| {
      PeakAllFits(v.fs, w.fs, total);
    }
  }

  lemma {:induction false} PeakAllFits(fs: seq<Value>, gs: seq<Value>, total: bool)
    requires |fs| == |gs|
    ensures PeakAll(fs, gs, total) <= StackNeedAll(fs)
    decreases fs, gs, 0
  {
    if fs != [] {
      PeakFits(fs[0], gs[0], total);
      PeakAllFits(fs[1..], gs[1..], total);
    }
  }

  /** Two values that are equal in partial mode take all of them: the comparison goes to the end, without short cuts. */
  lemma {:induction false} EqualTakesAll(v: Value, w: Value)
    requires WellFormed(v) && WellFormed(w) && Compare(v, w, false) == Equal
    ensures Peak(v, w, false) == StackNeed(v)
    decreases v, w, 1
  {
    if ShortCut(v, w, false) {
    } else if v.Forward? {
      if w.Forward? {
        UnwrapRight(v.target, w, false);
      }
      EqualTakesAll(v.target, if w.Forward? then w.target else w);
    } else if w.Forward? {
      EqualTakesAll(v, w.target);
    } else if v.Block? && w.Block? && |v.fs| == |w.fs| {
      FieldsTakeAll(v.fs, w.fs);
    }
  }

  lemma {:induction false} FieldsTakeAll(fs: seq<Value>, gs: seq<Value>)
    requires |fs| == |gs| && CompareAll(fs, gs, false) == Equal
    requires forall i :: 0 <= i < |fs| ==> WellFormed(fs[i]) && WellFormed(gs[i])
    ensures PeakAll(fs, gs, false) == StackNeedAll(fs)
    decreases fs, gs, 0
  {
    if fs != [] {
      EqualTakesAll(fs[0], gs[0]);
      FieldsTakeAll(fs[1..], gs[1..]);
    }
  }

  // ----- long lists need no stack -----

  /** A list-like value: only the last field of each block leads to further blocks. */
  ghost predicate Spine(v: Value) {
    match v
    case Block(_, _, fs) =>
      |fs| > 0 ==> Spine(fs[|fs| - 1]) && forall i :: 0 <= i < |fs| - 1 ==> fs[i].Long? || Leaf(fs[i])
    case Forward(_, t) => Spine(t)
    case _ => true
  }

  /** One slot is enough for a list of any length, so comparing it never raises. */
  lemma {:induction false} SpineNeedsOne(v: Value)
    requires Spine(v)
    ensures StackNeed(v) <= 1
    decreases v, 1
  {
    match v
    case Forward(_, t) => SpineNeedsOne(t);
    case Block(_, _, fs) => if fs != [] { SpineNeedsOneFrom(fs); }
    case _ =>
  }

  lemma {:induction false} SpineNeedsOneFrom(fs: seq<Value>)
    requires |fs| > 0 && Spine(fs[|fs| - 1])
    requires forall i :: 0 <= i < |fs| - 1 ==> fs[i].Long? || Leaf(fs[i])
    ensures StackNeedAll(fs) <= 1
    decreases fs, 0
  {
    if |fs| == 1 {
      SpineNeedsOne(fs[0]);
    } else {
      SpineNeedsOneFrom(fs[1..]);
    }
  }
}
