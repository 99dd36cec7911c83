/** The effect instructions as the interpreter runs them, field by field on the domain state. */
module FiberMachine {
  import opened Bytecode
  import opened Fibers
  import opened FiberRuns
  import Effects
  import FiberHandlers

  lemma PlanPerform(s: State, chains: Chains, c: int)
    requires Inv(s, chains) && c !in s.conts
    ensures s.current in s.fibers && Running in chains
    ensures s.fibers[s.current].parent != NULL <==> |chains[Running]| >= 2
    ensures |chains[Running]| >= 2 ==>
      && var parent := s.fibers[s.current].parent;
         Enabled(Perform(c), s, chains) && parent in s.fibers && parent != s.current &&
         Parked(s.fibers[parent].words, Running, 1) && Do(Perform(c), s, chains) == Performed(s, c) &&
         Inv(Do(Perform(c), s, chains), Moved(Perform(c), s, chains))
  {
    hide Partition, ChainOk;
    RunningParent(s, chains);
    Effects.RunningOwned(Effects.Config(s, chains));
    if |chains[Running]| >= 2 {
      StepKeepsInv(Perform(c), s, chains);
    }
  }

  lemma PlanReperform(s: State, chains: Chains, slots: int)
    requires Inv(s, chains) && CanReperform(s, chains, slots)
    ensures s.current in s.fibers && Running in chains
    ensures s.fibers[s.current].parent != NULL <==> |chains[Running]| >= 2
    ensures |chains[Running]| >= 2 ==>
      && var parent, c, tail := s.fibers[s.current].parent, s.r.words[0].c, s.r.words[1].p;
         Enabled(Reperform(slots), s, chains) && parent in s.fibers && tail in s.fibers &&
         parent != s.current && parent != tail && s.current != tail && s.fibers[tail].parent == NULL &&
         Parked(s.fibers[parent].words, Running, 1) &&
         Do(Reperform(slots), s, chains) == Reperformed(s, slots, c, tail) &&
         Inv(Do(Reperform(slots), s, chains), Moved(Reperform(slots), s, chains))
  {
    hide Partition, ChainOk;
    RunningParent(s, chains);
    Effects.RunningOwned(Effects.Config(s, chains));
    SuspendedEnds(s, chains, InCont(s.r.words[0].c));
    if |chains[Running]| >= 2 {
      StepKeepsInv(Reperform(slots), s, chains);
      ReperformKeeps(s, chains, slots);
    }
  }

  /** What `do_resume` relies on, for the chain `o` it puts on top. */
  lemma PlanResume(s: State, chains: Chains, o: Owner)
    requires Inv(s, chains) && o in chains && (o.InCont? || o.InHand?)
    ensures var p, tail := chains[o][0], Last(chains[o]);
      && chains[o] != [] && p in s.fibers && tail in s.fibers && s.current in s.fibers && s.current != p
      && s.current != tail
      && Parked(s.fibers[p].words, InHand(p), 0) && p != NULL
      && (o.InHand? ==> p == o.p) && (o.InCont? ==> o.c in s.conts && p == s.conts[o.c])
  {
    hide Partition, ChainOk;
    CanJoin(s, chains, o);
    SuspendedEnds(s, chains, o);
    OwnerFacts(s, chains, o);
  }

  lemma PlanJoin(a: Action, s: State, chains: Chains)
    requires Inv(s, chains) && Enabled(a, s, chains)
    requires a.Resume? || a.ResumeTerm? || a.ReperformTop?
    ensures Inv(Do(a, s, chains), Moved(a, s, chains))
    ensures var o := if a.ReperformTop? then InCont(s.r.words[0].c) else InHand(s.r.accu.p);
      && o in chains && chains[o] != []
      && var p, tail := chains[o][0], Last(chains[o]);
      && p in s.fibers && tail in s.fibers && s.current in s.fibers && s.current != p && s.current != tail
      && Parked(s.fibers[p].words, InHand(p), 0)
      && match a
         case Resume => Do(a, s, chains) == Resumed(s, SavedResume(s.r), s.r.words[0], s.r.words[1], p, tail)
         case ResumeTerm(slots) => Do(a, s, chains) ==
           Resumed(s, SavedTerm(s.r, slots), s.r.words[0], s.r.words[1], p, tail)
         case ReperformTop(slots, fn, exn) =>
           Do(a, s, chains) ==
             Resumed(s.(conts := s.conts[s.r.words[0].c := NULL]), SavedTerm(s.r, slots), fn, exn, p, tail)
  {
    hide Partition, ChainOk;
    var o := if a.ReperformTop? then InCont(s.r.words[0].c) else InHand(s.r.accu.p);
    PlanResume(s, chains, o);
    StepKeepsInv(a, s, chains);
  }

  class Domain {
    var pc: int
    var accu: Word
    var env: Word
    var extra: int
    var trap: int
    var words: seq<Word>
    var current: int
    var fibers: map<int, Fiber>
    var conts: map<int, int>
    var buckets: map<int, int>
    ghost var chains: Chains

    ghost function S(): State
      reads this
    {
      State(Regs(pc, accu, env, extra, trap, words), current, fibers, conts, buckets)
    }

    ghost predicate Valid()
      reads this
    {
      Inv(S(), chains)
    }

    /** The state follows an action of the model. */
    twostate predicate Did(a: Action)
      requires old(Valid()) && Enabled(a, old(S()), old(chains))
      reads this
    {
      S() == Do(a, old(S()), old(chains)) && chains == Moved(a, old(S()), old(chains))
    }

    constructor (main: int)
      requires main != NULL
      ensures Valid() && current == main && chains[Running] == [main] && trap == 1
    {
      pc, accu, env, extra, trap, words := 0, Long(0), Long(0), 0, 1, [];
      current := main;
      fibers := map[main := Fiber([], NULL, NULL, NO_BUCKET, Long(0), Long(0), Long(0))];
      conts := map[];
      buckets := map[FIBER_BUCKET := NULL, 1 := NULL, 2 := NULL, 3 := NULL, 4 := NULL];
      chains := map[Running := [main], InCache(FIBER_BUCKET) := [], InCache(1) := [], InCache(2) := [],
                    InCache(3) := [], InCache(4) := []];
      new;
      assert NodeOk(fibers, Running, [main], 0);
      assert main in chains[Running];
    }

    /** Jumps to a closure with the words given to it. */
    method Enter(f: Word)
      modifies this`pc, this`accu, this`env
      ensures accu == f && env == f && pc == Entry(f)
    {
      accu, env := f, f;
      pc := if f.Closure? then f.entry else 0;
    }

    /** PERFORM. Without a parent the effect is unhandled: an exception is raised here. */
    method PerformEffect(c: int) returns (handled: bool)
      requires Valid() && c !in conts
      modifies this
      ensures Valid() && (handled <==> |old(chains[Running])| >= 2)
      ensures handled ==> Did(Perform(c))
      ensures !handled ==> S() == old(S()) && chains == old(chains)
    {
      hide Inv, Enabled, Do, Moved, Parked;
      PlanPerform(S(), chains, c);
      var old_stack := current;
      var parent := fibers[old_stack].parent;
      if parent == NULL {
        return false;
      }
      ghost var after := Moved(Perform(c), S(), chains);
      var saved := [Long(trap), Code(pc + 1), env, Long(extra)] + words;
      fibers := fibers[old_stack := fibers[old_stack].(words := saved, parent := NULL)];
      current := parent;
      conts := conts[c := old_stack];
      Deliver(accu, c, old_stack);
      chains := after;
      return true;
    }

    /** Runs the effect handler of `from` on the stack just made current. */
    method Deliver(eff: Word, c: int, from: int)
      requires current in fibers && from in fibers && Parked(fibers[current].words, Running, 1)
      modifies this`pc, this`accu, this`env, this`extra, this`trap, this`words
      ensures S() == Delivered(old(S()), fibers, current, eff, c, from)
    {
      words := fibers[current].words;
      trap := words[0].n;
      extra := words[1].n;
      words := [eff, Cont(c), Stack(from)] + words[2..];
      Enter(fibers[from].heff);
      extra := extra + 2;
    }
  
    /** REPERFORMTERM: on to the parent's handler, or back to the perform with an exception when there is none. */
    method ReperformEffect(slots: int, raise_unhandled: Word, unhandled: Word)
      requires Valid() && CanReperform(S(), chains, slots)
      modifies this
      ensures Valid()
      ensures |old(chains[Running])| >= 2 ==> Did(Reperform(slots))
      ensures |old(chains[Running])| == 1 ==> Did(ReperformTop(slots, raise_unhandled, unhandled))
    {
      hide Inv, Enabled, Do, Moved, Parked, SavedTerm;
      PlanReperform(S(), chains, slots);
      if fibers[current].parent == NULL {
        AtTop(S(), chains, ReperformTop(slots, raise_unhandled, unhandled));
        BackToPerform(slots, raise_unhandled, unhandled);
      } else {
        PassOn(slots);
      }
    }

    method PassOn(slots: int)
      requires Valid() && CanReperform(S(), chains, slots) && Running in chains && |chains[Running]| >= 2
      modifies this
      ensures Enabled(Reperform(slots), old(S()), old(chains)) && Valid() && Did(Reperform(slots))
    {
      hide Inv, Enabled, Do, Moved, Parked, SavedTerm;
      PlanReperform(S(), chains, slots);
      ghost var after := Moved(Reperform(slots), S(), chains);
      var eff, c, tail, self := accu, words[0].c, words[1].p, current;
      var parent := fibers[self].parent;
      fibers := fibers[self := fibers[self].(words := SavedTerm(Regs(pc, accu, env, extra, trap, words), slots),
                                             parent := NULL)];
      current := parent;
      fibers := fibers[tail := fibers[tail].(parent := self)];
      Deliver(eff, c, self);
      chains := after;
    }

    method BackToPerform(slots: int, raise_unhandled: Word, unhandled: Word)
      requires Valid() && CanReperform(S(), chains, slots)
      requires Enabled(ReperformTop(slots, raise_unhandled, unhandled), S(), chains)
      modifies this
      ensures Valid() && Did(ReperformTop(slots, raise_unhandled, unhandled))
    {
      hide Inv, Enabled, Do, Moved, Parked, SavedTerm, Resumed;
      ghost var a := ReperformTop(slots, raise_unhandled, unhandled);
      var c := words[0].c;
      PlanJoin(a, S(), chains);
      PlanResume(S(), chains, InCont(c));
      ghost var after := Moved(a, S(), chains);
      var stack := conts[c];
      var tail := Effects.FindTail(fibers, stack, S(), chains, InCont(c));
      var saved := SavedTerm(Regs(pc, accu, env, extra, trap, words), slots);
      conts := conts[c := NULL];
      Join(stack, tail, saved, raise_unhandled, unhandled);
      chains := after;
    }

    /** The end of `do_resume`: the chain from `p` to `tail` goes on top, and `fn` is called there. */
    method Join(p: int, tail: int, saved: seq<Word>, fn: Word, arg: Word)
      requires p in fibers && tail in fibers && current in fibers && current != p && current != tail
      requires Parked(fibers[p].words, InHand(p), 0)
      modifies this
      ensures S() == Resumed(old(S()), saved, fn, arg, p, tail) && chains == old(chains)
    {
      hide Entry;
      fibers := fibers[tail := fibers[tail].(parent := current)];
      fibers := fibers[current := fibers[current].(words := saved)];
      current := p;
      var w := fibers[p].words;
      assert w == old(fibers[p].words);
      trap := w[0].n;
      words := [arg] + w[1..];
      Enter(fn);
      extra := 0;
    }

    /** `caml_continuation_use_noexc`: the stack of a continuation, once. */
    method ContinuationUse(c: int)
      requires Valid() && c in conts
      modifies this
      ensures Valid() && Did(Use(c)) && accu == Stack(old(conts[c])) && conts[c] == NULL
    {
      StepKeepsInv(Use(c), S(), chains);
      ghost var after := Moved(Use(c), S(), chains);
      hide Inv;
      accu := Stack(conts[c]);
      conts := conts[c := NULL];
      chains := after;
    }

    /** RESUME, and RESUMETERM with its operand: NULL means the continuation was taken before. */
    method ResumeStack(term: bool, slots: int, already_taken: Word) returns (resumed: bool)
      requires Valid() && 2 <= slots <= |words| && accu.Stack? && (accu.p == NULL || InHand(accu.p) in chains)
      modifies this
      ensures Valid() && (resumed <==> old(accu.p) != NULL)
      ensures resumed ==> Did(if term then ResumeTerm(slots) else Resume)
      ensures !resumed ==>
        Did(ResumeTaken(if term then SavedTerm(old(S()).r, slots) else SavedResume(old(S()).r), already_taken))
    {
      hide Inv, Enabled, Do, Moved, Parked, SavedTerm, SavedResume;
      var fn, arg := words[0], words[1];
      var regs := Regs(pc, accu, env, extra, trap, words);
      var saved := if term then SavedTerm(regs, slots) else SavedResume(regs);
      if accu.p == NULL {
        Taken(S(), chains, saved, already_taken);
        accu, words := already_taken, saved;
        return false;
      }
      ghost var a := if term then ResumeTerm(slots) else Resume;
      InHandResumes(a, S(), chains);
      PlanJoin(a, S(), chains);
      PlanResume(S(), chains, InHand(accu.p));
      ghost var after := Moved(a, S(), chains);
      var tail := Effects.FindTail(fibers, accu.p, S(), chains, InHand(accu.p));
      Join(accu.p, tail, saved, fn, arg);
      chains := after;
      return true;
    }

    /** `do_return` on an empty stack: the value handler runs on the parent, and the stack is given back. */
    method ReturnToParent()
      requires Valid() && words == [] && |chains[Running]| >= 2
      modifies this
      ensures Valid() && Did(ReturnUp)
    {
      hide Inv, Enabled, Do, Moved, Parked, Left;
      PlanLeave(ReturnUp, S(), chains);
      ghost var after := Moved(ReturnUp, S(), chains);
      Leave(fibers[current].hval);
      chains := after;
    }

    /** RAISE without a trap on this stack: the exception handler runs on the parent; without a parent the program
        ends. */
    method RaiseToParent() returns (caught: bool)
      requires Valid() && trap > 0
      modifies this
      ensures Valid() && (caught <==> |old(chains[Running])| >= 2)
      ensures caught ==> Did(RaiseUp)
      ensures !caught ==> S() == old(S()) && chains == old(chains)
    {
      hide Inv, Enabled, Do, Moved, Parked, Left;
      RunningParent(S(), chains);
      Effects.RunningOwned(Effects.Config(S(), chains));
      if fibers[current].parent == NULL {
        return false;
      }
      PlanLeave(RaiseUp, S(), chains);
      ghost var after := Moved(RaiseUp, S(), chains);
      Leave(fibers[current].hexn);
      chains := after;
      return true;
    }

    method Leave(h: Word)
      requires current in fibers && fibers[current].parent in fibers && fibers[current].parent != current
      requires fibers[current].bucket == NO_BUCKET || fibers[current].bucket in buckets
      requires Parked(fibers[fibers[current].parent].words, Running, 1)
      modifies this
      ensures S() == Left(old(S()), h) && chains == old(chains)
    {
      var old_stack := current;
      current := fibers[old_stack].parent;
      words := fibers[current].words;
      FreeStack(old_stack);
      trap := words[0].n;
      extra := words[1].n;
      words := [accu] + words[2..];
      Enter(h);
    }

    /** `caml_free_stack`. */
    method FreeStack(p: int)
      requires p in fibers && (fibers[p].bucket == NO_BUCKET || fibers[p].bucket in buckets)
      modifies this`fibers, this`buckets
      ensures S() == Freed(old(S()), p)
    {
      var b := fibers[p].bucket;
      if b == NO_BUCKET {
        fibers := fibers - {p};
      } else {
        fibers := fibers[p := fibers[p].(next := buckets[b])];
        buckets := buckets[b := p];
      }
    }

    /** `caml_try_realloc_stack`: the current stack moves to a larger one, of size class `b` or none. */
    method GrowStack(b: int, new_address: int)
      requires Valid() && new_address != NULL && new_address !in fibers && OtherClass(S(), b)
      modifies this
      ensures Valid() && Did(Grow(new_address, b))
      ensures S().r == old(S().r)
    {
      ghost var a := Grow(new_address, b);
      hide Inv, Enabled, Do, Moved, OtherClass;
      PlanGrow(a, S(), chains);
      ghost var after := Moved(a, S(), chains);
      var old_stack, p, bucket := current, new_address, b;
      if b in buckets && buckets[b] != NULL {
        p := buckets[b];
        bucket := fibers[p].bucket;
        buckets := buckets[b := fibers[p].next];
      }
      fibers := fibers[p := fibers[old_stack].(next := NULL, bucket := bucket)];
      FreeStack(old_stack);
      current := p;
      chains := after;
    }

    /** `caml_alloc_stack`: from the cache if it has one, else at a new address. */
    method AllocStack(hval: Word, hexn: Word, heff: Word, new_address: int)
      requires Valid() && new_address != NULL && new_address !in fibers
      modifies this
      ensures Valid() && Did(Alloc(new_address, hval, hexn, heff))
      ensures accu.Stack? && chains[InHand(accu.p)] == [accu.p] && accu.p in fibers
      ensures var f := fibers[accu.p];
        f.hval == hval && f.hexn == hexn && f.heff == heff && f.words == [Long(1)] && f.parent == NULL
    {
      ghost var a := Alloc(new_address, hval, hexn, heff);
      hide Inv, Enabled, Do, Moved;
      PlanAlloc(a, S(), chains);
      ghost var after := Moved(a, S(), chains);
      var p, bucket := buckets[FIBER_BUCKET], FIBER_BUCKET;
      if p != NULL {
        bucket := fibers[p].bucket;
        buckets := buckets[FIBER_BUCKET := fibers[p].next];
      } else {
        p := new_address;
      }
      fibers := fibers[p := Fiber([Long(1)], NULL, NULL, bucket, hval, hexn, heff)];
      accu := Stack(p);
      chains := after;
    }
  }

  lemma AtTop(s: State, chains: Chains, a: Action)
    requires Inv(s, chains) && a.ReperformTop? && CanReperform(s, chains, a.slots)
    requires s.current in s.fibers && s.fibers[s.current].parent == NULL
    ensures Enabled(a, s, chains)
  {
    RunningParent(s, chains);
  }

  lemma Taken(s: State, chains: Chains, saved: seq<Word>, exn: Word)
    requires Inv(s, chains) && s.r.accu == Stack(NULL)
    ensures var a := ResumeTaken(saved, exn);
      && Enabled(a, s, chains) && Do(a, s, chains) == s.(r := s.r.(accu := exn, words := saved))
      && Moved(a, s, chains) == chains && Inv(Do(a, s, chains), chains)
  {
    hide Partition, ChainOk;
    StepKeepsInv(ResumeTaken(saved, exn), s, chains);
  }

  lemma InHandResumes(a: Action, s: State, chains: Chains)
    requires Inv(s, chains) && CanResume(s, chains) && (a.Resume? || (a.ResumeTerm? && 2 <= a.slots <= |s.r.words|))
    ensures Enabled(a, s, chains)
  {
  }

  lemma PlanLeave(a: Action, s: State, chains: Chains)
    requires Inv(s, chains) && |chains[Running]| >= 2
    requires (a == ReturnUp && s.r.words == []) || (a == RaiseUp && s.r.trap > 0)
    ensures Enabled(a, s, chains) && Inv(Do(a, s, chains), Moved(a, s, chains))
    ensures s.current in s.fibers && s.fibers[s.current].parent in s.fibers && s.fibers[s.current].parent != s.current
    ensures s.fibers[s.current].bucket == NO_BUCKET || s.fibers[s.current].bucket in s.buckets
    ensures Parked(s.fibers[s.fibers[s.current].parent].words, Running, 1)
    ensures Do(a, s, chains) == Left(s, if a == ReturnUp then s.fibers[s.current].hval else s.fibers[s.current].hexn)
  {
    hide Partition, ChainOk;
    RunningParent(s, chains);
    StepKeepsInv(a, s, chains);
  }

  lemma PlanGrow(a: Action, s: State, chains: Chains)
    requires Inv(s, chains) && a.Grow? && a.p != NULL && a.p !in s.fibers && OtherClass(s, a.b)
    ensures Enabled(a, s, chains) && Inv(Do(a, s, chains), Moved(a, s, chains))
    ensures s.current in s.fibers
    ensures (s.fibers[s.current].bucket == NO_BUCKET || s.fibers[s.current].bucket in s.buckets)
    ensures StackFor(s, a.b, a.p) != s.current && (HasCached(s, a.b) ==> s.buckets[a.b] in s.fibers)
    ensures Do(a, s, chains) == Enlarged(s, a.b, a.p)
  {
    hide Partition, ChainOk;
    RunningParent(s, chains);
    CachedStack(s, chains, a.b);
    StepKeepsInv(a, s, chains);
  }

  lemma PlanAlloc(a: Action, s: State, chains: Chains)
    requires Inv(s, chains) && a.Alloc? && a.p != NULL && a.p !in s.fibers
    ensures Enabled(a, s, chains) && Inv(Do(a, s, chains), Moved(a, s, chains))
    ensures FIBER_BUCKET in s.buckets && (s.buckets[FIBER_BUCKET] != NULL ==> s.buckets[FIBER_BUCKET] in s.fibers)
    ensures Do(a, s, chains) == Allocated(s, a.p, a.hval, a.hexn, a.heff)
    ensures var t := Do(a, s, chains);
      && t.r.accu.Stack? && t.r.accu.p in t.fibers
      && FiberHandlers.HandlersOf(t.fibers[t.r.accu.p]) == FiberHandlers.Handlers(a.hval, a.hexn, a.heff)
      && t.fibers[t.r.accu.p].words == [Long(1)] && t.fibers[t.r.accu.p].parent == NULL
    ensures var q := if s.buckets[FIBER_BUCKET] != NULL then s.buckets[FIBER_BUCKET] else a.p;
      InHand(q) in Moved(a, s, chains) && Moved(a, s, chains)[InHand(q)] == [q]
  {
    hide Partition, ChainOk;
    CacheHead(s, chains, FIBER_BUCKET);
    FiberHandlers.AllocatedIs(a, s, chains);
    StepKeepsInv(a, s, chains);
  }
}
