/** Whole runs with effects: where stacks are, and what resuming a forwarded effect restores. */
module Effects {
  import opened Lists
  import opened Bytecode
  import opened Fibers
  import opened FiberRuns

  datatype Config = Config(s: State, chains: Chains)

  ghost predicate Ok(x: Config) {
    Inv(x.s, x.chains)
  }

  ghost predicate StepTo(a: Action, x: Config, y: Config) {
    Ok(x) ==> Enabled(a, x.s, x.chains) && y == Config(Do(a, x.s, x.chains), Moved(a, x.s, x.chains))
  }

  ghost predicate Run(cs: seq<Config>, acts: seq<Action>) {
    && |cs| == |acts| + 1 && Ok(cs[0])
    && forall i :: 0 <= i < |acts| ==> StepTo(acts[i], cs[i], cs[i + 1])
  }

  lemma {:induction false} RunOk(cs: seq<Config>, acts: seq<Action>, n: nat)
    requires Run(cs, acts) && n <= |acts|
    ensures Ok(cs[n])
  {
    if n > 0 {
      RunOk(cs, acts, n - 1);
      assert StepTo(acts[n - 1], cs[n - 1], cs[n]);
      StepKeepsInv(acts[n - 1], cs[n - 1].s, cs[n - 1].chains);
    }
  }

  lemma RunStep(cs: seq<Config>, acts: seq<Action>, i: nat)
    requires Run(cs, acts) && i < |acts|
    ensures Ok(cs[i]) && Ok(cs[i + 1]) && Enabled(acts[i], cs[i].s, cs[i].chains)
    ensures cs[i + 1].s == Do(acts[i], cs[i].s, cs[i].chains)
    ensures cs[i + 1].chains == Moved(acts[i], cs[i].s, cs[i].chains)
  {
    hide Inv, Enabled, Do, Moved;
    RunOk(cs, acts, i);
    RunOk(cs, acts, i + 1);
    assert StepTo(acts[i], cs[i], cs[i + 1]);
  }

  lemma RunningOwned(x: Config)
    requires Ok(x)
    ensures Running in x.chains && x.chains[Running] != [] && x.chains[Running][0] == x.s.current
  {
    hide Partition, ChainOk;
    OwnerFacts(x.s, x.chains, Running);
  }

  ghost predicate Place(chains: Chains, p: int, o: Owner, i: int) {
    o in chains && 0 <= i < |chains[o]| && chains[o][i] == p
  }

  /** In every state of every run, every stack has exactly one place: in the running chain, one continuation, in hand,
      or cached. */
  lemma {:induction false} ExactlyOnePlace(cs: seq<Config>, acts: seq<Action>, n: nat, p: int)
    requires Run(cs, acts) && n <= |acts| && p in cs[n].s.fibers
    ensures exists o, i :: Place(cs[n].chains, p, o, i)
    ensures forall o1, i1, o2, i2 :: Place(cs[n].chains, p, o1, i1) && Place(cs[n].chains, p, o2, i2) ==>
      o1 == o2 && i1 == i2
  {
    RunOk(cs, acts, n);
    var chains := cs[n].chains;
    var o :| o in chains && p in chains[o];
    var i :| 0 <= i < |chains[o]| && chains[o][i] == p;
    assert Place(chains, p, o, i);
    forall o1, i1, o2, i2 | Place(chains, p, o1, i1) && Place(chains, p, o2, i2)
      ensures o1 == o2 && i1 == i2
    {
      assert p in chains[o1] && p in chains[o2];
      assert NoDuplicates(chains[o1]);
    }
  }

  /** Following parents from any stack out of the cache ends. */
  method FindTail(fibers: map<int, Fiber>, p: int, ghost s: State, ghost chains: Chains, ghost o: Owner)
    returns (tail: int)
    requires Inv(s, chains) && s.fibers == fibers && o in chains && !o.InCache? && chains[o] != [] && p == chains[o][0]
    ensures tail == Last(chains[o]) && tail in fibers && fibers[tail].parent == NULL
  {
    tail := p;
    ghost var i := 0;
    ghost var chain := chains[o];
    assert ChainOk(fibers, o, chain);
    assert NodeOk(fibers, o, chain, 0);
    while fibers[tail].parent != NULL
      invariant 0 <= i < |chain| && tail == chain[i] && NodeOk(fibers, o, chain, i)
      decreases |chain| - i
    {
      assert i + 1 < |chain| && NodeOk(fibers, o, chain, i + 1);
      tail := fibers[tail].parent;
      i := i + 1;
    }
    assert i + 1 < |chain| ==> NodeOk(fibers, o, chain, i + 1);
  }

  // ----- what an action does to a suspended chain -----

  /** The action takes or extends the chain of `o`. */
  ghost predicate Names(a: Action, s: State, o: Owner) {
    match a
    case Reperform(_) | ReperformTop(_, _, _) => |s.r.words| > 0 && s.r.words[0].Cont? && o == InCont(s.r.words[0].c)
    case Use(c) => o == InCont(c)
    case Resume | ResumeTerm(_) => s.r.accu.Stack? && o == InHand(s.r.accu.p)
    case _ => false
  }

  ghost predicate SameFibers(s: State, t: State, chain: seq<int>) {
    forall p :: p in chain ==> p in s.fibers && p in t.fibers && t.fibers[p] == s.fibers[p]
  }

  /** Suspended stacks stay as they are under every action that does not name their owner. */
  lemma {:induction false} Untouched(a: Action, s: State, chains: Chains, o: Owner)
    requires Inv(s, chains) && Enabled(a, s, chains) && o in chains && (o.InCont? || o.InHand?) && !Names(a, s, o)
    ensures var t, after := Do(a, s, chains), Moved(a, s, chains);
      o in after && after[o] == chains[o] && SameFibers(s, t, chains[o])
  {
    if a.Reperform? || a.ReperformTop? || a.Resume? || a.ResumeTerm? {
      UntouchedBySwitch(a, s, chains, o);
    } else if a.Alloc? {
      UntouchedByAlloc(a, s, chains, o);
    } else if a.Grow? {
      UntouchedByGrow(a, s, chains, o);
    } else {
      hide Partition, ChainOk, NoDuplicates, Parked;
      OwnerFacts(s, chains, o);
      InFibers(s, chains, o);
      RunningOwned(Config(s, chains));
      assert s.current in chains[Running];
      if a.Use? {
        HandHolds(s, chains, s.conts[a.c]);
      }
    }
  }

  lemma UntouchedByAlloc(a: Action, s: State, chains: Chains, o: Owner)
    requires Inv(s, chains) && Enabled(a, s, chains) && o in chains && (o.InCont? || o.InHand?) && a.Alloc?
    ensures var t, after := Do(a, s, chains), Moved(a, s, chains);
      o in after && after[o] == chains[o] && SameFibers(s, t, chains[o])
  {
    hide Partition, ChainOk, NoDuplicates, Parked;
    OwnerFacts(s, chains, o);
    InFibers(s, chains, o);
    CacheHead(s, chains, FIBER_BUCKET);
    HandHolds(s, chains, a.p);
    HandHolds(s, chains, s.buckets[FIBER_BUCKET]);
  }

  lemma UntouchedByGrow(a: Action, s: State, chains: Chains, o: Owner)
    requires Inv(s, chains) && Enabled(a, s, chains) && o in chains && (o.InCont? || o.InHand?) && a.Grow?
    ensures var t, after := Do(a, s, chains), Moved(a, s, chains);
      o in after && after[o] == chains[o] && SameFibers(s, t, chains[o])
  {
    hide Partition, ChainOk, NoDuplicates, Parked;
    OwnerFacts(s, chains, o);
    InFibers(s, chains, o);
    RunningOwned(Config(s, chains));
    assert s.current in chains[Running];
    CachedStack(s, chains, a.b);
    NotCached(s, chains, a.p, a.b, o);
    GrowFibers(s, chains, a.p, a.b);
  }

  /** Actions that change the end of another suspended chain. */
  lemma UntouchedBySwitch(a: Action, s: State, chains: Chains, o: Owner)
    requires Inv(s, chains) && Enabled(a, s, chains) && o in chains && (o.InCont? || o.InHand?) && !Names(a, s, o)
    requires a.Reperform? || a.ReperformTop? || a.Resume? || a.ResumeTerm?
    ensures var t, after := Do(a, s, chains), Moved(a, s, chains);
      o in after && after[o] == chains[o] && SameFibers(s, t, chains[o])
  {
    hide Partition, ChainOk, NoDuplicates, Parked;
    InFibers(s, chains, o);
    OwnerFacts(s, chains, o);
    RunningOwned(Config(s, chains));
    assert s.current in chains[Running];
    var other := if a.Reperform? || a.ReperformTop? then InCont(s.r.words[0].c) else InHand(s.r.accu.p);
    CanJoin(s, chains, other);
    OtherLast(s, chains, o, other);
  }

  lemma InFibers(s: State, chains: Chains, o: Owner)
    requires Inv(s, chains) && o in chains
    ensures forall p :: p in chains[o] ==> p in s.fibers
  {
  }

  lemma OtherLast(s: State, chains: Chains, o: Owner, other: Owner)
    requires Inv(s, chains) && o in chains && other in chains && o != other && chains[other] != []
    ensures Last(chains[other]) !in chains[o]
  {
    assert Last(chains[other]) in chains[other];
  }

  // ----- forwarding -----

  ghost predicate SameWords(s: State, t: State, chain: seq<int>) {
    forall p :: p in chain ==> p in s.fibers && p in t.fibers && t.fibers[p].words == s.fibers[p].words
  }

  /** A handler works on its own stack, which may grow, and passes the effect on. */
  ghost predicate Forwards(a: Action, s: State, c: int) {
    a.Local? || a.Grow? || (a.Reperform? && |s.r.words| > 0 && s.r.words[0] == Cont(c))
  }

  ghost function Renamed(chain: seq<int>, p: int, q: int): seq<int> {
    seq(|chain|, i requires 0 <= i < |chain| => if chain[i] == p then q else chain[i])
  }

  /** The stacks that were running at first, where they are after `m` steps: one that grew has moved. */
  ghost function Tracked(cs: seq<Config>, acts: seq<Action>, m: nat): (r: seq<int>)
    requires |cs| == |acts| + 1 && m <= |acts| && Running in cs[0].chains
    ensures |r| == |cs[0].chains[Running]|
    ensures (forall i :: 0 <= i < m ==> !acts[i].Grow?) ==> r == cs[0].chains[Running]
  {
    if m == 0 then cs[0].chains[Running]
    else if acts[m - 1].Grow? then Renamed(Tracked(cs, acts, m - 1), cs[m - 1].s.current, cs[m].s.current)
    else Tracked(cs, acts, m - 1)
  }

  /** A stack that grows keeps its place. */
  lemma GrowOrder(a: Action, s: State, chains: Chains, c: int)
    requires Inv(s, chains) && Enabled(a, s, chains) && a.Grow? && InCont(c) in chains
    ensures var t, after := Do(a, s, chains), Moved(a, s, chains);
      && Running in chains && InCont(c) in after && Running in after && after[InCont(c)] == chains[InCont(c)]
      && after[InCont(c)] + after[Running] == Renamed(chains[InCont(c)] + chains[Running], s.current, t.current)
  {
    UntouchedByGrow(a, s, chains, InCont(c));
    hide Partition, ChainOk;
    RunningOwned(Config(s, chains));
    OwnerFacts(s, chains, Running);
    OwnerFacts(s, chains, InCont(c));
    CachedStack(s, chains, a.b);
    GrowFibers(s, chains, a.p, a.b);
    var run, held, q := chains[Running], chains[InCont(c)], StackFor(s, a.b, a.p);
    assert s.current in run && Moved(a, s, chains)[Running] == [q] + run[1..];
    assert forall i :: 0 <= i < |held| ==> held[i] in held;
    assert held + ([q] + run[1..]) == Renamed(held + run, s.current, q);
  }

  /** Passing an effect on moves a stack from the running chain to the continuation: the two together stay the same. */
  lemma ForwardKeepsOrder(a: Action, s: State, chains: Chains, c: int)
    requires Inv(s, chains) && Enabled(a, s, chains) && Forwards(a, s, c) && InCont(c) in chains
    ensures var t, after := Do(a, s, chains), Moved(a, s, chains);
      && InCont(c) in after && Running in after
      && Running in chains
      && after[InCont(c)] + after[Running] ==
         (if a.Grow? then Renamed(chains[InCont(c)] + chains[Running], s.current, t.current)
          else chains[InCont(c)] + chains[Running])
      && |after[InCont(c)]| == |chains[InCont(c)]| + (if a.Reperform? then 1 else 0)
      && chains[InCont(c)] != [] && after[InCont(c)][0] == chains[InCont(c)][0]
      && SameWords(s, t, chains[InCont(c)])
  {
    hide Partition, ChainOk, NoDuplicates;
    RunningParent(s, chains);
    OwnerFacts(s, chains, InCont(c));
    InFibers(s, chains, InCont(c));
    if a.Grow? {
      GrowOrder(a, s, chains, c);
      UntouchedByGrow(a, s, chains, InCont(c));
    } else if a.Reperform? {
      SuspendedEnds(s, chains, InCont(c));
      OwnerFacts(s, chains, Running);
      var run := chains[Running];
      assert s.current in run;
      assert run == [run[0]] + run[1..];
      assert chains[InCont(c)] + [run[0]] + run[1..] == chains[InCont(c)] + run;
    }
  }

  ghost function Passed(acts: seq<Action>): nat {
    if acts == [] then 0 else Passed(acts[..|acts| - 1]) + if acts[|acts| - 1].Reperform? then 1 else 0
  }

  /** From the perform on, through any number of handlers that pass the effect on: the continuation holds the performing
      stack and those of the handlers, in their order, and the running chain is the rest; a stack that grew has moved in
      its place. */
  lemma {:induction false} ForwardedChain(cs: seq<Config>, acts: seq<Action>, c: int, m: nat)
    requires Run(cs, acts) && 1 <= m <= |acts| && acts[0] == Perform(c)
    requires forall i :: 1 <= i < m ==> Forwards(acts[i], cs[i].s, c)
    ensures Ok(cs[0]) && Ok(cs[m]) && Running in cs[0].chains && Running in cs[m].chains && InCont(c) in cs[m].chains
    ensures var o := cs[m].chains[InCont(c)];
      && o + cs[m].chains[Running] == Tracked(cs, acts, m) && |o| == 1 + Passed(acts[1..m])
      && o[0] == cs[0].s.current && o[0] in cs[m].s.fibers
      && cs[m].s.fibers[o[0]].words == SavedPerform(cs[0].s.r)
  {
    hide Do, Moved, Enabled, Inv, SavedPerform;
    RunStep(cs, acts, m - 1);
    RunStep(cs, acts, 0);
    RunningOwned(cs[0]);
    var x := cs[m - 1];
    if m == 1 {
      PerformStep(x.s, x.chains, c);
    } else {
      ForwardedChain(cs, acts, c, m - 1);
      ForwardKeepsOrder(acts[m - 1], x.s, x.chains, c);
      assert acts[1..m][..m - 2] == acts[1..m - 1];
      assert x.chains[InCont(c)][0] in x.chains[InCont(c)];
    }
  }

  lemma PerformStep(s: State, chains: Chains, c: int)
    requires Inv(s, chains) && Enabled(Perform(c), s, chains)
    ensures var t, after := Do(Perform(c), s, chains), Moved(Perform(c), s, chains);
      && InCont(c) in after && Running in after && after[InCont(c)] == [s.current]
      && chains[Running] == [s.current] + after[Running]
      && s.current in t.fibers && t.fibers[s.current].words == SavedPerform(s.r)
  {
    hide Partition, ChainOk, SavedPerform;
    RunningParent(s, chains);
    OwnerFacts(s, chains, Running);
    var run := chains[Running];
    assert [run[0]] + run[1..] == run;
  }

  /** Between two points of a run nothing names the owner: its stacks are as they were. */
  lemma {:induction false} Waiting(cs: seq<Config>, acts: seq<Action>, o: Owner, m: nat, n: nat)
    requires Run(cs, acts) && m <= n <= |acts| && (o.InCont? || o.InHand?) && o in cs[m].chains
    requires forall i :: m <= i < n ==> !Names(acts[i], cs[i].s, o)
    ensures Ok(cs[n]) && o in cs[n].chains && cs[n].chains[o] == cs[m].chains[o]
    ensures SameFibers(cs[m].s, cs[n].s, cs[m].chains[o])
  {
    hide Do, Moved, Enabled, Inv;
    RunOk(cs, acts, n);
    if m == n {
      InFibers(cs[m].s, cs[m].chains, o);
    } else {
      Waiting(cs, acts, o, m, n - 1);
      RunStep(cs, acts, n - 1);
      Untouched(acts[n - 1], cs[n - 1].s, cs[n - 1].chains, o);
    }
  }

  /** The machine called on a resumed stack: under the argument, the frame to return to the perform with. */
  ghost predicate BackAtPerform(r: Regs, r0: Regs) {
    && r.trap == r0.trap && r.extra == 0 && |r.words| >= 1
    && r.words[1..] == Frame(r0.pc + 1, r0.env, r0.extra) + r0.words
  }

  /** The machine at the entry of a closure. */
  ghost predicate Calls(r: Regs, fn: Word) {
    r.accu == fn && r.env == fn && r.pc == Entry(fn)
  }

  lemma ResumeStep(a: Action, s: State, chains: Chains, p: int)
    requires Inv(s, chains) && (a.Resume? || a.ResumeTerm?) && Enabled(a, s, chains) && s.r.accu == Stack(p)
    ensures var t, after := Do(a, s, chains), Moved(a, s, chains);
      && |s.r.words| >= 2 && p in s.fibers && InHand(p) in chains && |s.fibers[p].words| > 0
      && s.fibers[p].words[0].Long?
      && after[Running] == chains[InHand(p)] + chains[Running] && t.current == p
      && t.r.trap == s.fibers[p].words[0].n && t.r.extra == 0
      && t.r.words == [s.r.words[1]] + s.fibers[p].words[1..] && Calls(t.r, s.r.words[0])
  {
    hide Partition, ChainOk;
    OwnerFacts(s, chains, InHand(p));
    CanJoin(s, chains, InHand(p));
  }

  /** An effect performed, passed on by any number of handlers, its continuation kept while anything else runs, taken,
      and resumed anywhere: the captured stacks are back in their order on top of the resumer, and the function called
      there returns to the perform with its code address, environment, extra arguments, words and trap. */
  lemma {:induction false} ResumeRestores(cs: seq<Config>, acts: seq<Action>, c: int, m: nat, u: nat, n: nat)
    requires Run(cs, acts) && |acts| == n + 1 && 1 <= m <= u < n
    requires acts[0] == Perform(c) && acts[u] == Use(c)
    requires forall i :: 1 <= i < m ==> Forwards(acts[i], cs[i].s, c)
    requires forall i :: m <= i < u ==> !Names(acts[i], cs[i].s, InCont(c))
    requires forall i :: u < i < n ==> !Names(acts[i], cs[i].s, InHand(cs[0].s.current))
    requires (acts[n].Resume? || acts[n].ResumeTerm?) && cs[n].s.r.accu == Stack(cs[0].s.current)
    ensures Ok(cs[0]) && Ok(cs[n]) && Ok(cs[n + 1])
    ensures Running in cs[0].chains
    ensures var run, k := Tracked(cs, acts, m), 1 + Passed(acts[1..m]);
      && k <= |run| && cs[n + 1].chains[Running] == run[..k] + cs[n].chains[Running]
      && cs[n + 1].s.current == cs[0].s.current && BackAtPerform(cs[n + 1].s.r, cs[0].s.r)
    ensures |cs[n].s.r.words| >= 2 && Calls(cs[n + 1].s.r, cs[n].s.r.words[0])
    ensures cs[n + 1].s.r.words[0] == cs[n].s.r.words[1]
  {
    hide Do, Moved, Enabled, Inv;
    var p := cs[0].s.current;
    ForwardedChain(cs, acts, c, m);
    Waiting(cs, acts, InCont(c), m, u);
    var captured := cs[m].chains[InCont(c)];
    assert captured[0] in captured;
    UseTakes(cs, acts, c, u, p);
    Waiting(cs, acts, InHand(p), u + 1, n);
    RunStep(cs, acts, n);
    RunStep(cs, acts, 0);
    RunningOwned(cs[0]);
    RunningOwned(cs[n + 1]);
    ResumeStep(acts[n], cs[n].s, cs[n].chains, p);
    assert cs[n].s.fibers[p].words == SavedPerform(cs[0].s.r);
    SavedPerformParts(cs[0].s.r);
    assert captured == Tracked(cs, acts, m)[..|captured|];
  }

  lemma SavedPerformParts(r: Regs)
    ensures SavedPerform(r)[0] == Long(r.trap)
    ensures SavedPerform(r)[1..] == Frame(r.pc + 1, r.env, r.extra) + r.words
  {
  }

  lemma UseTakes(cs: seq<Config>, acts: seq<Action>, c: int, u: nat, p: int)
    requires Run(cs, acts) && u < |acts| && acts[u] == Use(c) && InCont(c) in cs[u].chains
    requires cs[u].chains[InCont(c)] != [] && cs[u].chains[InCont(c)][0] == p
    ensures InHand(p) in cs[u + 1].chains && cs[u + 1].chains[InHand(p)] == cs[u].chains[InCont(c)]
    ensures cs[u + 1].s.fibers == cs[u].s.fibers
  {
    RunOk(cs, acts, u);
    assert StepTo(acts[u], cs[u], cs[u + 1]);
    hide Partition, ChainOk;
    OwnerFacts(cs[u].s, cs[u].chains, InCont(c));
  }

  /** When the function called by the resumption returns its argument, the program goes on after the perform. */
  lemma {:induction false} ContinueGoesOn(r: Regs, r0: Regs, result: Word)
    requires BackAtPerform(r, r0)
    ensures PopFrame(r.(accu := result, words := r.words[1..])) == Next(r0.(pc := r0.pc + 1, accu := result))
  {
    assert (Frame(r0.pc + 1, r0.env, r0.extra) + r0.words)[3..] == r0.words;
  }

  /** An effect that every handler passes on: the stack of the perform is whole again, and the exception is raised
      there. */
  lemma {:induction false} UnhandledAtPerform(cs: seq<Config>, acts: seq<Action>, c: int, n: nat)
    requires Run(cs, acts) && |acts| == n + 1 && n >= 1 && acts[0] == Perform(c)
    requires forall i :: 1 <= i < n ==> Forwards(acts[i], cs[i].s, c)
    requires acts[n].ReperformTop? && |cs[n].s.r.words| > 0 && cs[n].s.r.words[0] == Cont(c)
    ensures Ok(cs[0]) && Ok(cs[n + 1])
    ensures Running in cs[0].chains && cs[n + 1].chains[Running] == Tracked(cs, acts, n)
    ensures cs[n + 1].s.current == cs[0].s.current
    ensures BackAtPerform(cs[n + 1].s.r, cs[0].s.r) && cs[n + 1].s.r.words[0] == acts[n].exn
    ensures Calls(cs[n + 1].s.r, acts[n].fn)
  {
    hide Do, Moved, Enabled, Inv, SavedPerform;
    ForwardedChain(cs, acts, c, n);
    RunStep(cs, acts, n);
    RunStep(cs, acts, 0);
    RunningOwned(cs[0]);
    RunningOwned(cs[n + 1]);
    TopStep(acts[n], cs[n].s, cs[n].chains, c);
    SavedPerformParts(cs[0].s.r);
  }

  lemma TopStep(a: Action, s: State, chains: Chains, c: int)
    requires Inv(s, chains) && a.ReperformTop? && Enabled(a, s, chains) && |s.r.words| > 0 && s.r.words[0] == Cont(c)
    requires InCont(c) in chains && chains[InCont(c)] != []
    ensures var t, after, p := Do(a, s, chains), Moved(a, s, chains), chains[InCont(c)][0];
      && p in s.fibers && |s.fibers[p].words| > 0 && s.fibers[p].words[0].Long?
      && Running in chains && Running in after && after[Running] == chains[InCont(c)] + chains[Running]
      && t.current == p
      && t.r.trap == s.fibers[p].words[0].n && t.r.extra == 0
      && t.r.words == [a.exn] + s.fibers[p].words[1..] && Calls(t.r, a.fn)
  {
    hide Partition, ChainOk;
    OwnerFacts(s, chains, InCont(c));
    CanJoin(s, chains, InCont(c));
  }

  /** A continuation is taken at most once: a second attempt finds no stack. */
  lemma {:induction false} TakenStaysTaken(cs: seq<Config>, acts: seq<Action>, c: int, m: nat, n: nat)
    requires Run(cs, acts) && m <= n <= |acts| && c in cs[m].s.conts && cs[m].s.conts[c] == NULL
    ensures c in cs[n].s.conts && cs[n].s.conts[c] == NULL
  {
    hide Do, Moved, Enabled, Inv;
    if m < n {
      TakenStaysTaken(cs, acts, c, m, n - 1);
      RunStep(cs, acts, n - 1);
      StaysTaken(acts[n - 1], cs[n - 1].s, cs[n - 1].chains, c);
    }
  }

  lemma StaysTaken(a: Action, s: State, chains: Chains, c: int)
    requires Inv(s, chains) && Enabled(a, s, chains) && c in s.conts && s.conts[c] == NULL
    ensures var t := Do(a, s, chains); c in t.conts && t.conts[c] == NULL
  {
    hide Partition, ChainOk;
    RunningParent(s, chains);
  }

  // ----- the stack that waits for a child -----

  /** A running stack that is not the current one stays in the chain, and its words stay. */
  lemma ParentWaits(a: Action, s: State, chains: Chains, g: int)
    requires Inv(s, chains) && Enabled(a, s, chains) && Running in chains && g in chains[Running] && g != s.current
    ensures var t, after := Do(a, s, chains), Moved(a, s, chains);
      Running in after && g in after[Running] && g in s.fibers && g in t.fibers &&
      t.fibers[g].words == s.fibers[g].words
  {
    hide Partition, ChainOk, NoDuplicates, Parked;
    RunningParent(s, chains);
    InFibers(s, chains, Running);
    OwnerFacts(s, chains, Running);
    var run := chains[Running];
    assert run == [run[0]] + run[1..];
    if a.Alloc? {
      CacheHead(s, chains, FIBER_BUCKET);
    } else if a.Grow? {
      CachedStack(s, chains, a.b);
      NotCached(s, chains, a.p, a.b, Running);
      GrowFibers(s, chains, a.p, a.b);
    }
  }

  lemma {:induction false} WaitsForChild(cs: seq<Config>, acts: seq<Action>, g: int, m: nat, n: nat)
    requires Run(cs, acts) && m <= n <= |acts| && Ok(cs[m]) && Running in cs[m].chains && g in cs[m].chains[Running]
    requires g in cs[m].s.fibers && forall i :: m <= i < n ==> cs[i].s.current != g
    ensures Ok(cs[n]) && Running in cs[n].chains && g in cs[n].chains[Running]
    ensures g in cs[n].s.fibers && cs[n].s.fibers[g].words == cs[m].s.fibers[g].words
    decreases n
  {
    hide Do, Moved, Enabled, Inv;
    RunOk(cs, acts, n);
    if m < n {
      WaitsForChild(cs, acts, g, m, n - 1);
      RunStep(cs, acts, n - 1);
      ParentWaits(acts[n - 1], cs[n - 1].s, cs[n - 1].chains, g);
    }
  }

  /** What a resumer leaves on its stack under the words that say so: RESUME a frame to return with, RESUMETERM its
      caller's. */
  ghost function Under(a: Action, r: Regs): seq<Word>
    requires |r.words| >= 2 && (a.ResumeTerm? ==> 2 <= a.slots <= |r.words|)
  {
    if a.ResumeTerm? then r.words[a.slots..] else Frame(r.pc + 1, r.env, r.extra) + r.words[2..]
  }

  /** The arguments a handler gets, and the handler. */
  ghost function HandlerCall(a: Action, s: State): (seq<Word>, Word)
    requires s.current in s.fibers && (a.Reperform? ==> |s.r.words| >= 1)
  {
    var f := s.fibers[s.current];
    match a
    case ReturnUp => ([s.r.accu], f.hval)
    case RaiseUp => ([s.r.accu], f.hexn)
    case Perform(c) => ([s.r.accu, Cont(c), Stack(s.current)], f.heff)
    case Reperform(_) => ([s.r.accu, s.r.words[0], Stack(s.current)], f.heff)
    case _ => ([], f.heff)
  }

  ghost predicate Climbs(a: Action) {
    a.ReturnUp? || a.RaiseUp? || a.Perform? || a.Reperform?
  }

  lemma ResumerParks(a: Action, s: State, chains: Chains)
    requires Inv(s, chains) && (a.Resume? || a.ResumeTerm?) && Enabled(a, s, chains)
    ensures |s.r.words| >= 2 && (a.ResumeTerm? ==> 2 <= a.slots <= |s.r.words|)
    ensures var t, after := Do(a, s, chains), Moved(a, s, chains);
      && Running in after && s.current in after[Running] && s.current in t.fibers
      && t.fibers[s.current].words == [Long(s.r.trap), Long(if a.ResumeTerm? then s.r.extra else 0)] + Under(a, s.r)
  {
    hide Partition, ChainOk;
    CanJoin(s, chains, InHand(s.r.accu.p));
    OwnerFacts(s, chains, InHand(s.r.accu.p));
  }

  lemma HandlerRuns(a: Action, s: State, chains: Chains, g: int, trap: int, extra: int, under: seq<Word>)
    requires Inv(s, chains) && Climbs(a) && Enabled(a, s, chains) && Do(a, s, chains).current == g
    requires g in s.fibers && s.fibers[g].words == [Long(trap), Long(extra)] + under
    ensures s.current in s.fibers && (a.Reperform? ==> |s.r.words| >= 1)
    ensures var (args, h) := HandlerCall(a, s);
      Do(a, s, chains).r == Regs(Entry(h), h, h, extra + |args| - 1, trap, args + under)
  {
    hide Partition, ChainOk;
    RunningParent(s, chains);
    assert s.fibers[g].words[2..] == under;
    if a.Reperform? {
      CanJoin(s, chains, InCont(s.r.words[0].c));
    }
  }

  /** However long a child has run, a return, an exception or an effect that reaches the stack that resumed it calls the
      child's handler there, over the resumer's words, with its trap, to return where the resumer would have gone on. */
  lemma {:induction false} HandlerContext(cs: seq<Config>, acts: seq<Action>, n: nat)
    requires Run(cs, acts) && |acts| == n + 1 && n >= 1 && (acts[0].Resume? || acts[0].ResumeTerm?) && Climbs(acts[n])
    requires forall i :: 1 <= i <= n ==> cs[i].s.current != cs[0].s.current
    requires cs[n + 1].s.current == cs[0].s.current
    ensures var r0, s := cs[0].s.r, cs[n].s;
      && |r0.words| >= 2 && (acts[0].ResumeTerm? ==> 2 <= acts[0].slots <= |r0.words|)
      && s.current in s.fibers && (acts[n].Reperform? ==> |s.r.words| >= 1)
      && var (args, h) := HandlerCall(acts[n], s);
         cs[n + 1].s.r ==
           Regs(Entry(h), h, h, (if acts[0].ResumeTerm? then r0.extra else 0) + |args| - 1, r0.trap,
                args + Under(acts[0], r0))
  {
    hide Do, Moved, Enabled, Inv, Under, HandlerCall;
    var g, r0 := cs[0].s.current, cs[0].s.r;
    RunStep(cs, acts, 0);
    RunStep(cs, acts, n);
    ResumerParks(acts[0], cs[0].s, cs[0].chains);
    WaitsForChild(cs, acts, g, 1, n);
    HandlerRuns(acts[n], cs[n].s, cs[n].chains, g, r0.trap, if acts[0].ResumeTerm? then r0.extra else 0,
                Under(acts[0], r0));
  }
}
