/** For which function the profiler counts an instruction, and which function runs it. */
module Attribution {
  import opened Lists
  import opened Profiler

  /** The functions in progress, innermost last, each by the address it was entered at; and for each trap in force how
      many were in progress at its PUSHTRAP. */
  datatype Running = Running(calls: seq<int>, traps: seq<nat>)

  /** What an instruction does to the calls in progress. `OverReturn` is a RETURN with arguments left, which enters the
      function it returns; `PartialReturn` a GRAB with too few; `Switch` goes to the calls of other stacks, as effects
      and exceptions without a trap do, and as a RETURN that ends a stack does, which alone pops. */
  datatype Control =
    | Stay
    | Call(pc: int)
    | TailCall(pc: int)
    | Return
    | OverReturn(pc: int)
    | PartialReturn
    | PushTrap
    | PopTrap
    | Raise
    | Switch(to: Running, pops: bool)

  datatype Event = Event(op: nat, does: Control)

  function Popped<T>(s: seq<T>): seq<T> {
    if s == [] then [] else s[..|s| - 1]
  }

  /** How many calls are left when the innermost trap catches an exception. */
  function Caught(x: Running): nat {
    if x.traps == [] then |x.calls|
    else if x.traps[|x.traps| - 1] <= |x.calls| then x.traps[|x.traps| - 1]
    else |x.calls|
  }

  function After(x: Running, c: Control): Running {
    match c
    case Stay => x
    case Call(pc) => x.(calls := x.calls + [pc])
    case TailCall(pc) => x.(calls := Popped(x.calls) + [pc])
    case Return => x.(calls := Popped(x.calls))
    case OverReturn(pc) => x.(calls := Popped(x.calls) + [pc])
    case PartialReturn => x.(calls := Popped(x.calls))
    case PushTrap => x.(traps := x.traps + [|x.calls|])
    case PopTrap => x.(traps := Popped(x.traps))
    case Raise => Running(x.calls[..Caught(x)], Popped(x.traps))
    case Switch(to, _) => to
  }

  /** The function stack: APPLY and APPLY1-3 push, RETURN pops, nothing else is noticed. */
  function StackAfter(stack: seq<int>, c: Control): seq<int> {
    match c
    case Call(pc) => if |stack| < MAX_ITEMS then stack + [pc] else stack
    case Return => Popped(stack)
    case OverReturn(_) => Popped(stack)
    case Switch(_, pops) => if pops then Popped(stack) else stack
    case _ => stack
  }

  function RunningAfter(es: seq<Event>): Running
    decreases |es|
  {
    if es == [] then Running([], []) else After(RunningAfter(es[..|es| - 1]), es[|es| - 1].does)
  }

  function Kept(es: seq<Event>): seq<int>
    decreases |es|
  {
    if es == [] then [] else StackAfter(Kept(es[..|es| - 1]), es[|es| - 1].does)
  }

  /** Each instruction, before it runs, with the function it is counted for. */
  function Counted(es: seq<Event>): seq<Executed>
    decreases |es|
  {
    if es == [] then []
    else
      var n := |es| - 1;
      Counted(es[..n]) + if es[n].op < OPCODES then [Executed(es[n].op, Current(Kept(es[..n])))] else []
  }

  /** Each instruction with the function that runs it. */
  function Ran(es: seq<Event>): seq<Executed>
    decreases |es|
  {
    if es == [] then []
    else
      var n := |es| - 1;
      Ran(es[..n]) + if es[n].op < OPCODES then [Executed(es[n].op, Current(RunningAfter(es[..n]).calls))] else []
  }

  lemma Start(e: Event)
    ensures RunningAfter([]) == Running([], []) && Kept([]) == [] && Counted([]) == [] && Ran([]) == []
    ensures [] + [e] == [e]
  {
  }

  lemma Snoc(es: seq<Event>, e: Event)
    ensures RunningAfter(es + [e]) == After(RunningAfter(es), e.does)
    ensures Kept(es + [e]) == StackAfter(Kept(es), e.does)
    ensures Counted(es + [e]) == Counted(es) + if e.op < OPCODES then [Executed(e.op, Current(Kept(es)))] else []
    ensures Ran(es + [e]) ==
      Ran(es) + if e.op < OPCODES then [Executed(e.op, Current(RunningAfter(es).calls))] else []
  {
    assert (es + [e])[..|es|] == es;
  }

  // ----- the profiler sees these events as hooks -----

  function HooksOf(e: Event): seq<Hook> {
    [Instruction(e.op)] + Noticed(e.does)
  }

  function Noticed(c: Control): seq<Hook> {
    match c
    case Call(pc) => [Enter(pc)]
    case Return => [Leave]
    case OverReturn(_) => [Leave]
    case Switch(_, pops) => if pops then [Leave] else []
    case _ => []
  }

  function Hooks(es: seq<Event>): seq<Hook>
    decreases |es|
  {
    if es == [] then [] else Hooks(es[..|es| - 1]) + HooksOf(es[|es| - 1])
  }

  lemma HookSnoc(hooks: seq<Hook>, h: Hook)
    ensures var before := Held([], hooks);
      && (h.Instruction? ==> Held([], hooks + [h]) == before)
      && (h.Enter? ==> Held([], hooks + [h]) == StackAfter(before, Call(h.pc)))
      && (h.Leave? ==> Held([], hooks + [h]) == Popped(before))
    ensures Trace([], hooks + [h]) ==
      Trace([], hooks) +
      if h.Instruction? && h.op < OPCODES then [Executed(h.op, Current(Held([], hooks)))] else []
  {
    assert (hooks + [h])[..|hooks|] == hooks;
  }

  /** What the profiler's counters are exact for, over the hooks of any events, is `Counted`. */
  lemma {:induction false} HooksCount(es: seq<Event>)
    ensures Held([], Hooks(es)) == Kept(es) && Trace([], Hooks(es)) == Counted(es)
    decreases |es|
  {
    if es == [] {
      assert Held([], []) == [];
    } else {
      HooksCount(es[..|es| - 1]);
      HookStep(es[..|es| - 1], es[|es| - 1]);
      assert es == es[..|es| - 1] + [es[|es| - 1]];
    }
  }

  lemma HooksSnoc(es: seq<Event>, e: Event)
    ensures Hooks(es + [e]) == Hooks(es) + HooksOf(e)
  {
    assert (es + [e])[..|es|] == es;
  }

  lemma HookStep(es: seq<Event>, e: Event)
    requires Held([], Hooks(es)) == Kept(es) && Trace([], Hooks(es)) == Counted(es)
    ensures Held([], Hooks(es + [e])) == Kept(es + [e]) && Trace([], Hooks(es + [e])) == Counted(es + [e])
  {
    hide Held, Trace, Kept, Counted, Hooks, Current, RunningAfter, Ran, After;
    HooksSnoc(es, e);
    Snoc(es, e);
    var counted := Hooks(es) + [Instruction(e.op)];
    HookSnoc(Hooks(es), Instruction(e.op));
    if Noticed(e.does) != [] {
      HookSnoc(counted, Noticed(e.does)[0]);
      assert Hooks(es) + HooksOf(e) == counted + [Noticed(e.does)[0]];
    } else {
      assert Hooks(es) + HooksOf(e) == counted;
    }
  }

  // ----- when the function stack is the calls in progress -----

  /** What the profiler sees of the instruction is all it does to the calls in progress. */
  predicate Harmless(c: Control, x: Running) {
    match c
    case Call(_) => |x.calls| < MAX_ITEMS
    case TailCall(pc) => x.calls != [] && pc == Current(x.calls)
    case OverReturn(_) => false
    case PartialReturn => x.calls == []
    case Raise => Caught(x) == |x.calls|
    case Switch(to, pops) => to.calls == if pops then Popped(x.calls) else x.calls
    case _ => true
  }

  ghost predicate AllHarmless(es: seq<Event>) {
    forall i :: 0 <= i < |es| ==> Harmless(es[i].does, RunningAfter(es[..i]))
  }

  ghost predicate SameThroughout(es: seq<Event>) {
    forall i :: 0 <= i <= |es| ==> Kept(es[..i]) == RunningAfter(es[..i]).calls
  }

  lemma StepIff(c: Control, x: Running)
    requires |x.calls| <= MAX_ITEMS
    ensures StackAfter(x.calls, c) == After(x, c).calls <==> Harmless(c, x)
  {
    match c
    case TailCall(pc) =>
      if x.calls != [] {
        assert (Popped(x.calls) + [pc])[|x.calls| - 1] == pc;
      }
    case OverReturn(pc) => assert |Popped(x.calls) + [pc]| != |Popped(x.calls)|;
    case _ =>
  }

  lemma {:induction false} KeptBounded(es: seq<Event>)
    ensures |Kept(es)| <= MAX_ITEMS
    decreases |es|
  {
    if es != [] {
      KeptBounded(es[..|es| - 1]);
    }
  }

  lemma {:induction false} HarmlessSame(es: seq<Event>, i: nat)
    requires AllHarmless(es) && i <= |es|
    ensures Kept(es[..i]) == RunningAfter(es[..i]).calls
  {
    if i > 0 {
      HarmlessSame(es, i - 1);
      KeptBounded(es[..i - 1]);
      assert es[..i] == es[..i - 1] + [es[i - 1]];
      Snoc(es[..i - 1], es[i - 1]);
      StepIff(es[i - 1].does, RunningAfter(es[..i - 1]));
    }
  }

  /** The function stack is the calls in progress throughout, if and only if calls never nest deeper than it holds,
      every tail call is one of the function itself, no call has more or fewer arguments than its function takes, no
      exception leaves the function that catches it, and no instruction goes to other calls. */
  lemma {:induction false} StackIff(es: seq<Event>)
    ensures SameThroughout(es) <==> AllHarmless(es)
  {
    if SameThroughout(es) {
      forall i | 0 <= i < |es|
        ensures Harmless(es[i].does, RunningAfter(es[..i]))
      {
        assert Kept(es[..i]) == RunningAfter(es[..i]).calls && Kept(es[..i + 1]) == RunningAfter(es[..i + 1]).calls;
        assert es[..i + 1] == es[..i] + [es[i]];
        Snoc(es[..i], es[i]);
        KeptBounded(es[..i]);
        StepIff(es[i].does, RunningAfter(es[..i]));
      }
    }
    if AllHarmless(es) {
      forall i | 0 <= i <= |es|
        ensures Kept(es[..i]) == RunningAfter(es[..i]).calls
      {
        HarmlessSame(es, i);
      }
    }
  }

  // ----- when instructions are counted for the function that runs them -----

  ghost predicate Rightly(es: seq<Event>) {
    Counted(es) == Ran(es)
  }

  ghost predicate RightAt(es: seq<Event>, i: nat)
    requires i <= |es|
  {
    Current(Kept(es[..i])) == Current(RunningAfter(es[..i]).calls)
  }

  /** The instruction at `i`, if it is one that is counted, is counted rightly. */
  ghost predicate RightlyAt(es: seq<Event>, i: nat)
    requires i < |es|
  {
    es[i].op < OPCODES ==> RightAt(es, i)
  }

  lemma {:induction false} RightlyIff(es: seq<Event>)
    ensures |Counted(es)| == |Ran(es)|
    ensures Rightly(es) <==> forall i :: 0 <= i < |es| ==> RightlyAt(es, i)
    decreases |es|
  {
    hide Kept, RunningAfter, Current, Counted, Ran;
    if es == [] {
      Start(Event(0, Stay));
    } else {
      var n := |es| - 1;
      RightlyIff(es[..n]);
      RightFront(es, n);
      assert Rightly(es[..n]) <==> forall i :: 0 <= i < n ==> RightlyAt(es, i);
      assert es == es[..n] + [es[n]];
      RightlySnoc(es[..n], es[n]);
      assert Rightly(es) <==> Rightly(es[..n]) && RightlyAt(es, n);
    }
  }

  lemma RightlySnoc(es: seq<Event>, e: Event)
    requires |Counted(es)| == |Ran(es)|
    ensures |Counted(es + [e])| == |Ran(es + [e])|
    ensures Rightly(es + [e]) <==>
      Rightly(es) && (e.op < OPCODES ==> Current(Kept(es)) == Current(RunningAfter(es).calls))
  {
    hide Kept, RunningAfter, Current, Counted, Ran, After, StackAfter;
    Snoc(es, e);
    if e.op < OPCODES {
      SnocEqual(Counted(es), Executed(e.op, Current(Kept(es))),
                Ran(es), Executed(e.op, Current(RunningAfter(es).calls)));
    } else {
      assert Counted(es) + [] == Counted(es) && Ran(es) + [] == Ran(es);
    }
  }

  lemma RightFront(es: seq<Event>, n: nat)
    requires n <= |es|
    ensures forall i :: 0 <= i < n ==> (RightlyAt(es[..n], i) <==> RightlyAt(es, i))
  {
    hide Kept, RunningAfter, Current;
    forall i | 0 <= i < n
      ensures RightlyAt(es[..n], i) <==> RightlyAt(es, i)
    {
      assert es[..n][..i] == es[..i];
    }
  }

  lemma SnocEqual(a: seq<Executed>, x: Executed, b: seq<Executed>, y: Executed)
    requires |a| == |b|
    ensures a + [x] == b + [y] <==> a == b && x == y
  {
    assert (a + [x])[..|a|] == a && (b + [y])[..|b|] == b;
    assert (a + [x])[|a|] == x && (b + [y])[|b|] == y;
  }

  /** Addresses are not NULL. */
  predicate Naming(c: Control) {
    match c
    case Call(pc) => pc != NULL
    case TailCall(pc) => pc != NULL
    case OverReturn(pc) => pc != NULL
    case Switch(to, _) => NULL !in to.calls
    case _ => true
  }

  ghost predicate Named(es: seq<Event>) {
    forall i :: 0 <= i < |es| ==> Naming(es[i].does)
  }

  lemma {:induction false} NamedStacks(es: seq<Event>)
    requires Named(es)
    ensures NULL !in Kept(es) && NULL !in RunningAfter(es).calls
    decreases |es|
  {
    if es != [] {
      var n := |es| - 1;
      assert forall i :: 0 <= i < n ==> es[..n][i] == es[i];
      NamedStacks(es[..n]);
    }
  }

  const RETURN := 40

  /** So many RETURNs in a row. */
  function Returns(k: nat): seq<Event> {
    seq(k, _ => Event(RETURN, Return))
  }

  function Dropped(s: seq<int>, k: nat): seq<int> {
    if k < |s| then s[..|s| - k] else []
  }

  lemma {:induction false} Unwound(es: seq<Event>, k: nat)
    ensures Kept(es + Returns(k)) == Dropped(Kept(es), k)
    ensures RunningAfter(es + Returns(k)).calls == Dropped(RunningAfter(es).calls, k)
    decreases k
  {
    hide Kept, RunningAfter, Counted, Ran, Current;
    if k == 0 {
      assert es + Returns(0) == es;
    } else {
      Unwound(es, k - 1);
      assert es + Returns(k) == (es + Returns(k - 1)) + [Event(RETURN, Return)];
      Snoc(es + Returns(k - 1), Event(RETURN, Return));
    }
  }

  /** Two stacks that show the same function however many are taken off are the same. */
  lemma StacksDecided(a: seq<int>, b: seq<int>)
    requires NULL !in a && NULL !in b
    requires forall k: nat :: Current(Dropped(a, k)) == Current(Dropped(b, k))
    ensures a == b
  {
    assert Current(Dropped(a, |b|)) == Current(Dropped(b, |b|));
    assert Current(Dropped(a, |a|)) == Current(Dropped(b, |a|));
    assert |a| == |b|;
    forall i | 0 <= i < |a|
      ensures a[i] == b[i]
    {
      var k := |a| - 1 - i;
      assert Current(Dropped(a, k)) == Current(Dropped(b, k));
    }
  }

  /** Up to `i`, and however many functions return then, every instruction is counted for the function that runs it. */
  ghost predicate ReliableAt(es: seq<Event>, i: nat)
    requires i <= |es|
  {
    forall k: nat :: Rightly(es[..i] + Returns(k))
  }

  ghost predicate Reliable(es: seq<Event>) {
    forall i :: 0 <= i <= |es| ==> ReliableAt(es, i)
  }

  lemma ReliableSame(es: seq<Event>, i: nat)
    requires Named(es) && i <= |es| && ReliableAt(es, i)
    ensures Kept(es[..i]) == RunningAfter(es[..i]).calls
  {
    hide Kept, RunningAfter;
    var front := es[..i];
    NamedStacks(front);
    forall k: nat
      ensures Current(Dropped(Kept(front), k)) == Current(Dropped(RunningAfter(front).calls, k))
    {
      var all := front + Returns(k + 1);
      assert Rightly(all);
      RightlyIff(all);
      assert RightlyAt(all, i + k);
      assert all[..i + k] == front + Returns(k);
      Unwound(front, k);
    }
    StacksDecided(Kept(front), RunningAfter(front).calls);
  }

  lemma HarmlessUnwinds(es: seq<Event>, i: nat, k: nat)
    requires AllHarmless(es) && i <= |es|
    ensures Rightly(es[..i] + Returns(k))
  {
    hide Kept, RunningAfter;
    var all := es[..i] + Returns(k);
    forall j | 0 <= j < |all|
      ensures Harmless(all[j].does, RunningAfter(all[..j]))
    {
      if j < i {
        assert all[..j] == es[..j];
      }
    }
    RightlyIff(all);
    forall j | 0 <= j < |all|
      ensures RightlyAt(all, j)
    {
      HarmlessSame(all, j);
    }
  }

  /** Every instruction of a run, and of every way of returning from any point of it, is counted for the function that
      runs it, if and only if every instruction is harmless. */
  lemma {:induction false} AttributionIff(es: seq<Event>)
    requires Named(es)
    ensures Reliable(es) <==> AllHarmless(es)
  {
    StackIff(es);
    hide Kept, RunningAfter, Harmless, Rightly;
    if Reliable(es) {
      forall i | 0 <= i <= |es|
        ensures Kept(es[..i]) == RunningAfter(es[..i]).calls
      {
        assert ReliableAt(es, i);
        ReliableSame(es, i);
      }
    }
    if AllHarmless(es) {
      forall i, k: nat | 0 <= i <= |es|
        ensures Rightly(es[..i] + Returns(k))
      {
        HarmlessUnwinds(es, i, k);
      }
    }
  }

  /** In a run of harmless instructions every one is counted for the function that runs it. */
  lemma {:induction false} AttributionTrue(es: seq<Event>)
    requires AllHarmless(es)
    ensures Counted(es) == Ran(es) == Trace([], Hooks(es))
  {
    hide Trace, Held, Counted, Ran, Kept, RunningAfter;
    HarmlessUnwinds(es, |es|, 0);
    assert es[..|es|] + Returns(0) == es;
    HooksCount(es);
  }

  // ----- without recursion -----

  /** The instruction enters no function that is in progress, but for a tail call of the function itself. */
  predicate Fresh(c: Control, x: Running) {
    match c
    case Call(pc) => pc !in x.calls
    case TailCall(pc) => pc !in x.calls || pc == Current(x.calls)
    case OverReturn(pc) => pc !in x.calls
    case Switch(to, pops) => Elsewhere(to.calls, if pops then Popped(x.calls) else x.calls)
    case _ => true
  }

  /** Other calls, without recursion, of which another function is the innermost one. */
  predicate Elsewhere(to: seq<int>, from: seq<int>) {
    && (forall i, j :: 0 <= i < j < |to| ==> to[i] != to[j])
    && (to == from || Current(to) != Current(from))
  }

  ghost predicate NoRecursion(es: seq<Event>) {
    forall i :: 0 <= i < |es| ==> Fresh(es[i].does, RunningAfter(es[..i]))
  }

  lemma FreshShows(c: Control, x: Running)
    requires NoDuplicates(x.calls) && NULL !in x.calls && |x.calls| <= MAX_ITEMS && Naming(c) && Fresh(c, x)
    ensures Current(StackAfter(x.calls, c)) == Current(After(x, c).calls) <==> Harmless(c, x)
    ensures NoDuplicates(After(x, c).calls)
  {
    if x.calls != [] {
      assert x.calls[|x.calls| - 1] in x.calls;
    }
    match c
    case Raise =>
      if 0 < Caught(x) < |x.calls| {
        assert x.calls[Caught(x) - 1] != x.calls[|x.calls| - 1];
      }
    case _ =>
  }

  lemma NothingYet(es: seq<Event>)
    ensures Kept(es[..0]) == [] == RunningAfter(es[..0]).calls && NoDuplicates([])
  {
  }

  lemma {:induction false} RightIsHarmless(es: seq<Event>, i: nat)
    requires Named(es) && NoRecursion(es) && i <= |es| && forall j :: 0 <= j <= i ==> RightAt(es, j)
    ensures Kept(es[..i]) == RunningAfter(es[..i]).calls && NoDuplicates(Kept(es[..i]))
    ensures forall j :: 0 <= j < i ==> Harmless(es[j].does, RunningAfter(es[..j]))
  {
    hide Kept, RunningAfter, Current, NoDuplicates, Harmless, Fresh, Naming, Counted, Ran, After, StackAfter;
    if i == 0 {
      NothingYet(es);
    } else {
      RightIsHarmless(es, i - 1);
      assert RightAt(es, i);
      var front, e := es[..i - 1], es[i - 1];
      assert es[..i] == front + [e];
      Snoc(front, e);
      KeptBounded(front);
      assert Named(front);
      NamedStacks(front);
      FreshShows(e.does, RunningAfter(front));
      StepIff(e.does, RunningAfter(front));
    }
  }

  /** In a run that enters no function in progress again, every instruction, the one after the last included, is counted
      for the function that runs it, if and only if every instruction is harmless. */
  lemma {:induction false} NoRecursionIff(es: seq<Event>, last: Event)
    requires Named(es) && NoRecursion(es)
    requires last.op < OPCODES && forall i :: 0 <= i < |es| ==> es[i].op < OPCODES
    ensures Counted(es + [last]) == Ran(es + [last]) <==> AllHarmless(es)
  {
    hide Kept, RunningAfter, Current, Harmless, Fresh, Naming, Counted, Ran;
    var all := es + [last];
    RightlyIff(all);
    assert forall i :: 0 <= i <= |es| ==> all[..i] == es[..i];
    if Rightly(all) {
      forall i | 0 <= i <= |es|
        ensures RightAt(es, i)
      {
        assert RightlyAt(all, i);
      }
      RightIsHarmless(es, |es|);
    }
    if AllHarmless(es) {
      forall i | 0 <= i < |all|
        ensures RightlyAt(all, i)
      {
        HarmlessSame(es, i);
      }
    }
  }

  // ----- runs that are counted wrongly -----

  /** The next instruction is counted for `func` and run by `runs`. */
  ghost predicate CountedFor(es: seq<Event>, func: int, runs: int) {
    Current(Kept(es)) == func && Current(RunningAfter(es).calls) == runs
  }

  /** The profiler has it right so far, and has room. */
  ghost predicate RightWithRoom(es: seq<Event>) {
    Kept(es) == RunningAfter(es).calls && |Kept(es)| + 1 < MAX_ITEMS
  }

  function Caller(es: seq<Event>): int {
    Current(RunningAfter(es).calls)
  }

  /** A tail call at any point of any run: what comes is counted for the function counted for before, and run by the one
      called. */
  lemma {:induction false} TailCallCounted(es: seq<Event>, op: nat, g: int)
    ensures CountedFor(es + [Event(op, TailCall(g))], Current(Kept(es)), g)
  {
    hide Kept, RunningAfter, Counted, Ran;
    Snoc(es, Event(op, TailCall(g)));
  }

  /** A call with too few arguments: the caller goes on, and counts for the function it called. */
  lemma {:induction false} PartialCounted(es: seq<Event>, op: nat, f: int)
    requires RightWithRoom(es)
    ensures CountedFor(es + [Event(op, Call(f))] + [Event(op, PartialReturn)], f, Caller(es))
  {
    hide Kept, RunningAfter, Counted, Ran;
    Snoc(es, Event(op, Call(f)));
    Snoc(es + [Event(op, Call(f))], Event(op, PartialReturn));
  }

  /** A call with too many: the function that takes the others counts for the caller, and when it returns the caller
      counts for its own caller. */
  lemma {:induction false} OverReturnCounted(es: seq<Event>, op: nat, f: int, g: int)
    requires RightWithRoom(es)
    ensures var over := es + [Event(op, Call(f))] + [Event(op, OverReturn(g))];
      && CountedFor(over, Caller(es), g)
      && CountedFor(over + [Event(op, Return)], Current(Popped(RunningAfter(es).calls)), Caller(es))
  {
    hide Kept, RunningAfter, Counted, Ran;
    var over := es + [Event(op, Call(f))] + [Event(op, OverReturn(g))];
    Snoc(es, Event(op, Call(f)));
    Snoc(es + [Event(op, Call(f))], Event(op, OverReturn(g)));
    Snoc(over, Event(op, Return));
  }

  /** An exception of a callee: the handler counts for the function that raised. */
  lemma {:induction false} RaiseCounted(es: seq<Event>, op: nat, f: int)
    requires RightWithRoom(es)
    ensures CountedFor(es + [Event(op, PushTrap)] + [Event(op, Call(f))] + [Event(op, Raise)], f, Caller(es))
  {
    hide Kept, RunningAfter, Counted, Ran;
    var es1 := es + [Event(op, PushTrap)];
    var es2 := es1 + [Event(op, Call(f))];
    Snoc(es, Event(op, PushTrap));
    Snoc(es1, Event(op, Call(f)));
    Snoc(es2, Event(op, Raise));
  }

  /** An effect, a resumption or an exception that goes to another stack: the function there counts for the one left. */
  lemma {:induction false} SwitchCounted(es: seq<Event>, op: nat, to: Running)
    ensures CountedFor(es + [Event(op, Switch(to, false))], Current(Kept(es)), Current(to.calls))
  {
    hide Kept, RunningAfter, Counted, Ran;
    Snoc(es, Event(op, Switch(to, false)));
  }

  /** With recursion a wrong stack can show the right function: here two faults make up for each other. */
  lemma {:induction false} HiddenByRecursion(es: seq<Event>, op: nat, f: int)
    requires RightWithRoom(es) && Caller(es) == f != NULL && Rightly(es)
    ensures var more := es + [Event(op, Call(f))] + [Event(op, PartialReturn)] + [Event(op, OverReturn(f))];
      Rightly(more) && CountedFor(more, f, f) && !AllHarmless(more)
  {
    hide Kept, RunningAfter, Counted, Ran;
    var es1 := es + [Event(op, Call(f))];
    var es2 := es1 + [Event(op, PartialReturn)];
    var es3 := es2 + [Event(op, OverReturn(f))];
    Snoc(es, Event(op, Call(f)));
    Snoc(es1, Event(op, PartialReturn));
    Snoc(es2, Event(op, OverReturn(f)));
    RightlySnoc(es, Event(op, Call(f)));
    RightlySnoc(es1, Event(op, PartialReturn));
    RightlySnoc(es2, Event(op, OverReturn(f)));
    assert es3[..|es| + 2] == es2 && !Harmless(es3[|es| + 2].does, RunningAfter(es3[..|es| + 2]));
  }

  /** Calls of the functions 1, 2, ..., n. */
  function Calling(op: nat, n: nat): seq<Event> {
    seq(n, i requires 0 <= i < n => Event(op, Call(i + 1)))
  }

  lemma {:induction false} Called(op: nat, n: nat)
    ensures RunningAfter(Calling(op, n)).calls == seq(n, i => i + 1)
    ensures var d := if n < MAX_ITEMS then n else MAX_ITEMS; Kept(Calling(op, n)) == seq(d, i => i + 1)
    decreases n
  {
    hide Counted, Ran;
    if n > 0 {
      Called(op, n - 1);
      assert Calling(op, n) == Calling(op, n - 1) + [Event(op, Call(n))];
      Snoc(Calling(op, n - 1), Event(op, Call(n)));
    }
  }

  /** One call too deep: after one return the caller of the function that runs is counted for instead of it. */
  lemma {:induction false} DeepCallsShift(op: nat)
    ensures var es := Calling(op, MAX_ITEMS + 1) + [Event(op, Return)];
      Current(RunningAfter(es).calls) == MAX_ITEMS && Current(Kept(es)) == MAX_ITEMS - 1
  {
    Called(op, MAX_ITEMS + 1);
    Snoc(Calling(op, MAX_ITEMS + 1), Event(op, Return));
  }
}
