/** The handlers a stack is allocated with are the ones called when it ends or performs, wherever it has been meanwhile.
    */
module FiberHandlers {
  import opened Lists
  import opened Bytecode
  import opened Fibers
  import opened FiberRuns
  import opened Effects

  datatype Handlers = Handlers(hval: Word, hexn: Word, heff: Word)

  function HandlersOf(f: Fiber): Handlers {
    Handlers(f.hval, f.hexn, f.heff)
  }

  /** A stack in use: running, in a continuation or in hand. */
  ghost predicate InUse(s: State, chains: Chains, p: int) {
    p in s.fibers && forall b :: InCache(b) in chains ==> p !in chains[InCache(b)]
  }

  ghost predicate Ends(a: Action) {
    a.ReturnUp? || a.RaiseUp?
  }

  /** Where the stack is after an action: a stack that grows moves. */
  ghost function MovedTo(a: Action, s: State, p: int): int {
    if a.Grow? && p == s.current then StackFor(s, a.b, a.p) else p
  }

  lemma CurrentInUse(s: State, chains: Chains)
    requires Inv(s, chains)
    ensures InUse(s, chains, s.current)
  {
    hide ChainOk;
    RunningParent(s, chains);
    OwnerFacts(s, chains, Running);
    assert s.current in chains[Running];
  }

  lemma GrownInUse(a: Action, s: State, chains: Chains)
    requires Inv(s, chains) && a.Grow? && Enabled(a, s, chains)
    ensures InUse(Do(a, s, chains), Moved(a, s, chains), StackFor(s, a.b, a.p)) && s.current in s.fibers
    ensures HandlersOf(Do(a, s, chains).fibers[StackFor(s, a.b, a.p)]) == HandlersOf(s.fibers[s.current])
  {
    StepKeepsInv(a, s, chains);
    GrowFibers(s, chains, a.p, a.b);
    CurrentInUse(Do(a, s, chains), Moved(a, s, chains));
    GrowHandlers(a, s, chains);
  }

  lemma GrowHandlers(a: Action, s: State, chains: Chains)
    requires Inv(s, chains) && a.Grow? && Enabled(a, s, chains)
    ensures var q, t := StackFor(s, a.b, a.p), Do(a, s, chains);
      s.current in s.fibers && q in t.fibers && HandlersOf(t.fibers[q]) == HandlersOf(s.fibers[s.current])
  {
    hide Partition, ChainOk, Parked, NoDuplicates;
    RunningParent(s, chains);
    CachedStack(s, chains, a.b);
  }

  /** No action changes the handlers of a stack in use, and only its end takes it out of use. */
  lemma {:induction false} HandlersStay(a: Action, s: State, chains: Chains, p: int)
    requires Inv(s, chains) && Enabled(a, s, chains) && InUse(s, chains, p) && !(Ends(a) && p == s.current)
    ensures var q, t := MovedTo(a, s, p), Do(a, s, chains);
      InUse(t, Moved(a, s, chains), q) && HandlersOf(t.fibers[q]) == HandlersOf(s.fibers[p])
  {
    if a.Grow? && p == s.current {
      GrownInUse(a, s, chains);
    } else if a.Grow? {
      GrowLeaves(a, s, chains, p);
    } else if a.Alloc? {
      AllocLeaves(a, s, chains, p);
    } else if Ends(a) {
      EndLeaves(a, s, chains, p);
    } else {
      SwitchLeaves(a, s, chains, p);
    }
  }

  lemma GrowLeaves(a: Action, s: State, chains: Chains, p: int)
    requires Inv(s, chains) && Enabled(a, s, chains) && InUse(s, chains, p) && a.Grow? && p != s.current
    ensures var t := Do(a, s, chains);
      InUse(t, Moved(a, s, chains), p) && HandlersOf(t.fibers[p]) == HandlersOf(s.fibers[p])
  {
    hide Partition, ChainOk, Parked, NoDuplicates;
    RunningParent(s, chains);
    OwnerFacts(s, chains, Running);
    CachedStack(s, chains, a.b);
    GrowFibers(s, chains, a.p, a.b);
  }

  lemma AllocLeaves(a: Action, s: State, chains: Chains, p: int)
    requires Inv(s, chains) && Enabled(a, s, chains) && InUse(s, chains, p) && a.Alloc?
    ensures var t := Do(a, s, chains);
      InUse(t, Moved(a, s, chains), p) && HandlersOf(t.fibers[p]) == HandlersOf(s.fibers[p])
  {
    hide Partition, ChainOk, Parked, NoDuplicates;
    CacheHead(s, chains, FIBER_BUCKET);
  }

  lemma EndLeaves(a: Action, s: State, chains: Chains, p: int)
    requires Inv(s, chains) && Enabled(a, s, chains) && InUse(s, chains, p) && Ends(a) && p != s.current
    ensures var t := Do(a, s, chains);
      InUse(t, Moved(a, s, chains), p) && HandlersOf(t.fibers[p]) == HandlersOf(s.fibers[p])
  {
    hide Partition, ChainOk, Parked, NoDuplicates;
    RunningParent(s, chains);
    OwnerFacts(s, chains, Running);
  }

  lemma SwitchLeaves(a: Action, s: State, chains: Chains, p: int)
    requires Inv(s, chains) && Enabled(a, s, chains) && InUse(s, chains, p) && !a.Grow? && !a.Alloc? && !Ends(a)
    ensures var t := Do(a, s, chains);
      InUse(t, Moved(a, s, chains), p) && HandlersOf(t.fibers[p]) == HandlersOf(s.fibers[p])
  {
    hide Partition, ChainOk, Parked, NoDuplicates;
    RunningParent(s, chains);
  }

  /** A stack just allocated is in hand, in use, without a trap, with the handlers given. */
  lemma {:induction false} AllocGives(a: Action, s: State, chains: Chains)
    requires Inv(s, chains) && Enabled(a, s, chains) && a.Alloc?
    ensures var t := Do(a, s, chains);
      && t.r.accu.Stack? && InUse(t, Moved(a, s, chains), t.r.accu.p)
      && HandlersOf(t.fibers[t.r.accu.p]) == Handlers(a.hval, a.hexn, a.heff)
      && t.fibers[t.r.accu.p].words == [Long(1)] && t.fibers[t.r.accu.p].parent == NULL
  {
    StepKeepsInv(a, s, chains);
    var t, after := Do(a, s, chains), Moved(a, s, chains);
    AllocatedIs(a, s, chains);
    InHandInUse(t, after, t.r.accu.p);
  }

  lemma AllocatedIs(a: Action, s: State, chains: Chains)
    requires Inv(s, chains) && Enabled(a, s, chains) && a.Alloc?
    ensures var t := Do(a, s, chains);
      && t.r.accu.Stack? && t.r.accu.p in t.fibers && InHand(t.r.accu.p) in Moved(a, s, chains)
      && HandlersOf(t.fibers[t.r.accu.p]) == Handlers(a.hval, a.hexn, a.heff)
      && t.fibers[t.r.accu.p].words == [Long(1)] && t.fibers[t.r.accu.p].parent == NULL
  {
    hide Partition, ChainOk, Parked, NoDuplicates;
    CacheHead(s, chains, FIBER_BUCKET);
  }

  lemma InHandInUse(s: State, chains: Chains, p: int)
    requires Inv(s, chains) && InHand(p) in chains && p in s.fibers
    ensures InUse(s, chains, p)
  {
    hide ChainOk;
    HandHolds(s, chains, p);
    OwnerFacts(s, chains, InHand(p));
  }

  // ----- runs -----

  /** Where the stack that is at `p` in state `m` is in state `n`. */
  ghost function Address(cs: seq<Config>, acts: seq<Action>, m: nat, n: nat, p: int): int
    requires |cs| == |acts| + 1 && m <= n <= |acts|
    decreases n
  {
    if n == m then p else
      var q := Address(cs, acts, m, n - 1, p);
      MovedTo(acts[n - 1], cs[n - 1].s, q)
  }

  /** The stack at `p` in state `m` has not ended before state `n`. */
  ghost predicate NotEnded(cs: seq<Config>, acts: seq<Action>, m: nat, n: nat, p: int)
    requires |cs| == |acts| + 1 && m <= n <= |acts|
  {
    forall i :: m <= i < n && Ends(acts[i]) ==> cs[i].s.current != Address(cs, acts, m, i, p)
  }

  lemma {:induction false} HandlersKept(cs: seq<Config>, acts: seq<Action>, m: nat, n: nat, p: int)
    requires Run(cs, acts) && m <= n <= |acts| && InUse(cs[m].s, cs[m].chains, p) && NotEnded(cs, acts, m, n, p)
    ensures var q := Address(cs, acts, m, n, p);
      InUse(cs[n].s, cs[n].chains, q) && HandlersOf(cs[n].s.fibers[q]) == HandlersOf(cs[m].s.fibers[p])
    decreases n
  {
    hide Do, Moved, Enabled, Inv, InUse, MovedTo;
    if m < n {
      HandlersKept(cs, acts, m, n - 1, p);
      RunStep(cs, acts, n - 1);
      HandlersStay(acts[n - 1], cs[n - 1].s, cs[n - 1].chains, Address(cs, acts, m, n - 1, p));
    }
  }

  /** Over every run: a stack allocated with three handlers, resumed, grown, captured and resumed again any number of
      times, calls the first when it returns, the second when an exception leaves it, the third when it performs. */
  lemma {:induction false} OwnHandlers(cs: seq<Config>, acts: seq<Action>, m: nat, n: nat)
    requires Run(cs, acts) && m < n < |acts| && acts[m].Alloc? && Climbs(acts[n])
    requires cs[m + 1].s.r.accu.Stack? ==>
      && NotEnded(cs, acts, m + 1, n, cs[m + 1].s.r.accu.p)
      && cs[n].s.current == Address(cs, acts, m + 1, n, cs[m + 1].s.r.accu.p)
    ensures cs[m + 1].s.r.accu.Stack?
    ensures var h := match acts[n]
        case ReturnUp => acts[m].hval
        case RaiseUp => acts[m].hexn
        case _ => acts[m].heff;
      cs[n + 1].s.r.accu == h && cs[n + 1].s.r.env == h && cs[n + 1].s.r.pc == Entry(h)
  {
    hide Do, Moved, Enabled, Inv, InUse, NotEnded, Address;
    RunStep(cs, acts, m);
    RunStep(cs, acts, n);
    AllocGives(acts[m], cs[m].s, cs[m].chains);
    var p := cs[m + 1].s.r.accu.p;
    HandlersKept(cs, acts, m + 1, n, p);
    CallsHandler(acts[n], cs[n].s, cs[n].chains);
  }

  lemma CallsHandler(a: Action, s: State, chains: Chains)
    requires Inv(s, chains) && Enabled(a, s, chains) && Climbs(a)
    ensures s.current in s.fibers
    ensures var f, t := s.fibers[s.current], Do(a, s, chains);
      var h := match a case ReturnUp => f.hval case RaiseUp => f.hexn case _ => f.heff;
      t.r.accu == h && t.r.env == h && t.r.pc == Entry(h)
  {
    hide Partition, ChainOk;
    RunningParent(s, chains);
    if a.Reperform? {
      CanJoin(s, chains, InCont(s.r.words[0].c));
    }
  }
}
