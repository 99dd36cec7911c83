/** The profiling interpreter's counters: a bounded function stack, a table of per-function arrays, and the loop's
    hooks. */
module Profiler {
  import FunctionTable

  const OPCODES := 153
  const MAX_ITEMS := 1024
  const NULL := 0

  // ----- the function stack -----

  class FunctionStack {
    const data: array<int>
    var nr_items: nat
    var top: nat

    ghost predicate Valid()
      reads this
    {
      data.Length == MAX_ITEMS && top == nr_items <= MAX_ITEMS
    }

    ghost function Contents(): seq<int>
      requires Valid()
      reads this, data
    {
      data[..top]
    }

    constructor ()
      ensures Valid() && Contents() == [] && fresh(data)
    {
      data := new int[MAX_ITEMS];
      nr_items, top := 0, 0;
    }

    predicate IsEmpty()
      reads this
    {
      nr_items == 0
    }

    method Peek() returns (pc: int)
      requires Valid()
      ensures pc == if Contents() == [] then NULL else Contents()[top - 1]
    {
      pc := if IsEmpty() then NULL else data[top - 1];
    }

    /** A push on the full stack reports an error and changes nothing. */
    method Push(pc: int) returns (ok: bool)
      requires Valid()
      modifies this, data
      ensures Valid() && (ok <==> |old(Contents())| < MAX_ITEMS)
      ensures Contents() == if ok then old(Contents()) + [pc] else old(Contents())
    {
      ok := top != MAX_ITEMS;
      if ok {
        data[top] := pc;
        top, nr_items := top + 1, nr_items + 1;
      }
    }

    method Pop() returns (pc: int)
      requires Valid()
      modifies this
      ensures Valid()
      ensures var s := old(Contents());
        if s == [] then pc == NULL && Contents() == [] else pc == s[|s| - 1] && Contents() == s[..|s| - 1]
    {
      if IsEmpty() {
        return NULL;
      }
      nr_items, top := nr_items - 1, top - 1;
      pc := data[top];
      assert data[..top] == old(data[..top])[..top];
    }
  }

  // ----- sums -----

  function Sum(s: seq<int>): int {
    if s == [] then 0 else s[0] + Sum(s[1..])
  }

  lemma {:induction false} SumBump(s: seq<int>, i: nat)
    requires i < |s|
    ensures Sum(s[i := s[i] + 1]) == Sum(s) + 1
  {
    var t := s[i := s[i] + 1];
    if i == 0 {
      assert t[1..] == s[1..];
    } else {
      SumBump(s[1..], i - 1);
      assert t[1..] == s[1..][i - 1 := s[i] + 1];
    }
  }

  lemma {:induction false} SumZeros(n: nat)
    ensures Sum(seq(n, _ => 0)) == 0
  {
    if n > 0 {
      SumZeros(n - 1);
      assert seq(n, _ => 0)[1..] == seq(n - 1, _ => 0);
    }
  }

  function SumAll(ss: seq<seq<int>>): int {
    if ss == [] then 0 else SumAll(ss[..|ss| - 1]) + Sum(ss[|ss| - 1])
  }

  lemma {:induction false} SumAllUpdate(ss: seq<seq<int>>, i: nat, s: seq<int>)
    requires i < |ss|
    ensures SumAll(ss[i := s]) == SumAll(ss) - Sum(ss[i]) + Sum(s)
  {
    var n, tt := |ss| - 1, ss[i := s];
    if i == n {
      assert tt[..n] == ss[..n];
    } else {
      SumAllUpdate(ss[..n], i, s);
      assert tt[..n] == ss[..n][i := s];
    }
  }

  // ----- what was executed -----

  /** An instruction counted, and the function on top of the function stack then, NULL when there was none. */
  datatype Executed = Executed(op: int, func: int)

  function CountOp(log: seq<Executed>, op: int): int {
    if log == [] then 0 else CountOp(log[..|log| - 1], op) + if log[|log| - 1].op == op then 1 else 0
  }

  function CountIn(log: seq<Executed>, func: int, op: int): int {
    if log == [] then 0 else CountIn(log[..|log| - 1], func, op) + if log[|log| - 1] == Executed(op, func) then 1 else 0
  }

  /** Instructions executed with a function on the stack. */
  function Attributed(log: seq<Executed>): int {
    if log == [] then 0 else Attributed(log[..|log| - 1]) + if log[|log| - 1].func == NULL then 0 else 1
  }

  lemma LogSnoc(log: seq<Executed>, e: Executed)
    ensures forall op :: CountOp(log + [e], op) == CountOp(log, op) + if e.op == op then 1 else 0
    ensures forall f, op :: CountIn(log + [e], f, op) == CountIn(log, f, op) + if e == Executed(op, f) then 1 else 0
    ensures Attributed(log + [e]) == Attributed(log) + if e.func == NULL then 0 else 1
  {
    assert (log + [e])[..|log|] == log;
  }

  /** The counters are exact: overall, per function, and in their sums. */
  ghost predicate Exact(opCounts: seq<int>, total: int, contents: map<int, int>, arrays: seq<seq<int>>,
                        log: seq<Executed>) {
    && |opCounts| == OPCODES && total == |log| == Sum(opCounts)
    && (forall op :: 0 <= op < OPCODES ==> opCounts[op] == CountOp(log, op))
    && Stored(contents, arrays)
    && SumAll(arrays) == Attributed(log)
    && (forall f, op :: f in contents && 0 <= op < OPCODES ==> arrays[contents[f] - 1][op] == CountIn(log, f, op))
    && (forall i :: 0 <= i < |log| ==> log[i].func == NULL || log[i].func in contents)
  }

  /** Array number `contents[f]` belongs to `f` alone. */
  ghost predicate Stored(contents: map<int, int>, arrays: seq<seq<int>>) {
    && NULL !in contents
    && (forall f :: f in contents ==> 1 <= contents[f] <= |arrays|)
    && (forall f, g :: f in contents && g in contents && contents[f] == contents[g] ==> f == g)
    && (forall i :: 0 <= i < |arrays| ==> |arrays[i]| == OPCODES)
  }

  lemma {:induction false} CountedExactly(opCounts: seq<int>, total: int, contents: map<int, int>,
                                          arrays: seq<seq<int>>, log: seq<Executed>, op: int, func: int)
    requires Exact(opCounts, total, contents, arrays, log) && 0 <= op < OPCODES && (func == NULL || func in contents)
    ensures var bumped := if func == NULL then arrays
        else arrays[contents[func] - 1 := arrays[contents[func] - 1][op := arrays[contents[func] - 1][op] + 1]];
      Exact(opCounts[op := opCounts[op] + 1], total + 1, contents, bumped, log + [Executed(op, func)])
  {
    hide Sum, SumAll, CountOp, CountIn, Attributed;
    SumBump(opCounts, op);
    LogSnoc(log, Executed(op, func));
    if func != NULL {
      var i := contents[func] - 1;
      var a := arrays[i];
      SumBump(a, op);
      SumAllUpdate(arrays, i, a[op := a[op] + 1]);
    }
  }

  lemma {:induction false} NeverRan(log: seq<Executed>, contents: map<int, int>, f: int, op: int)
    requires f != NULL && f !in contents
    requires forall i :: 0 <= i < |log| ==> log[i].func == NULL || log[i].func in contents
    ensures CountIn(log, f, op) == 0
  {
    if log != [] {
      NeverRan(log[..|log| - 1], contents, f, op);
    }
  }

  lemma {:induction false} AllocatedExactly(opCounts: seq<int>, total: int, contents: map<int, int>,
                                            arrays: seq<seq<int>>, log: seq<Executed>, f: int)
    requires Exact(opCounts, total, contents, arrays, log) && f != NULL && f !in contents
    ensures Exact(opCounts, total, contents[f := |arrays| + 1], arrays + [seq(OPCODES, _ => 0)], log)
  {
    hide Sum, CountOp, CountIn, Attributed;
    var zeros := seq(OPCODES, _ => 0);
    SumZeros(OPCODES);
    assert (arrays + [zeros])[..|arrays|] == arrays;
    forall op | 0 <= op < OPCODES
      ensures CountIn(log, f, op) == 0
    {
      NeverRan(log, contents, f, op);
    }
  }

  // ----- the hooks -----

  class Counters {
    var op_counts: seq<int>
    var total: int
    var arrays: seq<seq<int>>
    const stack: FunctionStack
    const table: FunctionTable.Table
    ghost var log: seq<Executed>

    ghost predicate Valid()
      reads this, stack, stack.data, table
    {
      && stack.Valid() && table.Valid()
      && Exact(op_counts, total, table.contents, arrays, log)
      && Listed(stack.Contents(), table.contents)
    }

    constructor ()
      ensures Valid() && fresh(stack) && fresh(stack.data) && fresh(table) && log == [] && stack.Contents() == []
    {
      op_counts, total, arrays, log := seq(OPCODES, _ => 0), 0, [], [];
      stack := new FunctionStack();
      table := new FunctionTable.Table();
      SumZeros(OPCODES);
    }

    /** Before each instruction. No assertion about the current function or its array can fail. */
    method CountInstruction(op: nat)
      requires Valid()
      modifies this`op_counts, this`total, this`arrays, this`log
      ensures Valid() && table.contents == old(table.contents) && stack.Contents() == old(stack.Contents())
      ensures log == if op < OPCODES then old(log) + [Executed(op, Current(stack.Contents()))] else old(log)
    {
      hide Exact, Listed, FunctionTable.Table.Valid;
      if op >= OPCODES {
        return;
      }
      var func := stack.Peek();
      CurrentListed(stack.Contents(), table.contents);
      CountedExactly(op_counts, total, table.contents, arrays, log, op, func);
      StoredFits(op_counts, total, table.contents, arrays, log, func);
      op_counts := op_counts[op := op_counts[op] + 1];
      total := total + 1;
      if !stack.IsEmpty() {
        var i := table.Get(func);
        assert func != NULL && i != NULL;
        arrays := arrays[i - 1 := arrays[i - 1][op := arrays[i - 1][op] + 1]];
      }
      log := log + [Executed(op, func)];
    }

    /** APPLY and APPLY1-3: the function entered goes on the stack, and has an array. */
    method EnterFunction(pc: int)
      requires Valid() && pc != NULL
      modifies this`arrays, stack, stack.data, table
      ensures Valid() && log == old(log)
      ensures stack.Contents() ==
        (if |old(stack.Contents())| < MAX_ITEMS then old(stack.Contents()) + [pc] else old(stack.Contents()))
    {
      hide Exact, Listed, FunctionTable.Table.Valid;
      ghost var before, contents := stack.Contents(), table.contents;
      var ok := stack.Push(pc);
      var func := stack.Peek();
      assert func == if ok then pc else before[MAX_ITEMS - 1];
      ListedPush(before, contents, pc, |arrays| + 1);
      var found := table.Get(func);
      if found == NULL {
        assert func !in contents by {
          ArrayNumbers(op_counts, total, contents, arrays, log, func);
        }
        AllocatedExactly(op_counts, total, contents, arrays, log, func);
        arrays := arrays + [seq(OPCODES, _ => 0)];
        table.Set(func, |arrays|);
      } else {
        assert func in contents;
      }
    }

    /** RETURN takes a function off, whether or not its own push succeeded. */
    method LeaveFunction()
      requires Valid()
      modifies stack
      ensures Valid() && log == old(log)
      ensures var s := old(stack.Contents()); stack.Contents() == if s == [] then [] else s[..|s| - 1]
    {
      hide Exact, FunctionTable.Table.Valid;
      var _ := stack.Pop();
    }

    /** Any run of the loop's hooks logs what the hooks say, with the functions of the bounded stack, and keeps every
        counter exact. */
    method Run(hooks: seq<Hook>)
      requires Valid() && forall i :: 0 <= i < |hooks| && hooks[i].Enter? ==> hooks[i].pc != NULL
      modifies this, stack, stack.data, table
      ensures Valid() && log == old(log) + Trace(old(stack.Contents()), hooks)
      ensures stack.Contents() == Held(old(stack.Contents()), hooks)
    {
      hide Valid, Current;
      StackFits();
      ghost var start := stack.Contents();
      for i := 0 to |hooks|
        invariant Valid() && stack.Valid() && stack.Contents() == Held(start, hooks[..i])
        invariant log == old(log) + Trace(start, hooks[..i])
      {
        assert hooks[..i + 1][..i] == hooks[..i];
        ghost var before := log;
        match hooks[i] {
          case Instruction(op) => CountInstruction(op);
          case Enter(pc) => EnterFunction(pc);
          case Leave => LeaveFunction();
        }
        StackFits();
        assert log == before + (if hooks[i].Instruction? && hooks[i].op < OPCODES
          then [Executed(hooks[i].op, Current(Held(start, hooks[..i])))] else []);
      }
      assert hooks[..|hooks|] == hooks;
    }

    lemma StackFits()
      requires Valid()
      ensures stack.Valid()
    {
    }
  }

  datatype Hook = Instruction(op: nat) | Enter(pc: int) | Leave

  /** The function stack after some hooks: a push on the full stack is lost, and every RETURN pops. What this has to do
      with the calls in progress is the matter of `Attribution`. */
  function Held(stack: seq<int>, hooks: seq<Hook>): seq<int>
    decreases |hooks|
  {
    if hooks == [] then stack
    else
      var before := Held(stack, hooks[..|hooks| - 1]);
      match hooks[|hooks| - 1]
      case Instruction(_) => before
      case Enter(pc) => if |before| < MAX_ITEMS then before + [pc] else before
      case Leave => if before == [] then [] else before[..|before| - 1]
  }

  /** The instructions counted, each with the function on top of the stack. */
  function Trace(stack: seq<int>, hooks: seq<Hook>): seq<Executed>
    decreases |hooks|
  {
    if hooks == [] then []
    else
      var n := |hooks| - 1;
      Trace(stack, hooks[..n]) +
      if hooks[n].Instruction? && hooks[n].op < OPCODES then [Executed(hooks[n].op, Current(Held(stack, hooks[..n])))]
        else []
  }

  function Current(stack: seq<int>): int {
    if stack == [] then NULL else stack[|stack| - 1]
  }

  /** Every function on the stack has an array. */
  ghost predicate Listed(stack: seq<int>, contents: map<int, int>) {
    forall i :: 0 <= i < |stack| ==> stack[i] in contents && stack[i] != NULL
  }

  lemma ListedPush(stack: seq<int>, contents: map<int, int>, pc: int, id: int)
    requires Listed(stack, contents) && pc != NULL
    ensures Listed(stack + [pc], contents[pc := id])
    ensures pc in contents ==> Listed(stack + [pc], contents)
    ensures stack != [] ==> stack[|stack| - 1] in contents && stack[|stack| - 1] != NULL
  {
  }

  lemma CurrentListed(stack: seq<int>, contents: map<int, int>)
    requires Listed(stack, contents)
    ensures stack != [] ==> Current(stack) in contents && Current(stack) != NULL
  {
  }

  lemma ArrayNumbers(opCounts: seq<int>, total: int, contents: map<int, int>, arrays: seq<seq<int>>,
                     log: seq<Executed>, func: int)
    requires Exact(opCounts, total, contents, arrays, log)
    ensures func in contents ==> contents[func] != NULL
  {
  }

  lemma StoredFits(opCounts: seq<int>, total: int, contents: map<int, int>, arrays: seq<seq<int>>, log: seq<Executed>,
                   func: int)
    requires Exact(opCounts, total, contents, arrays, log)
    ensures |opCounts| == OPCODES
    ensures func in contents ==> 1 <= contents[func] <= |arrays| && |arrays[contents[func] - 1]| == OPCODES
  {
  }

  /** Conservation: all counters sum to the instructions executed, the per-function ones to those executed in a
      function. */
  lemma {:induction false} Conservation(c: Counters)
    requires c.Valid()
    ensures Sum(c.op_counts) == c.total == |c.log|
    ensures SumAll(c.arrays) == Attributed(c.log) <= c.total
    ensures forall f :: f in c.stack.Contents() ==> f in c.table.contents
  {
    AttributedBound(c.log);
  }

  lemma {:induction false} AttributedBound(log: seq<Executed>)
    ensures Attributed(log) <= |log|
  {
    if log != [] {
      AttributedBound(log[..|log| - 1]);
    }
  }
}
