/** Every run of effect instructions keeps each stack in exactly one place; a forwarded effect resumes where it was
    performed. */
module FiberRuns {
  import opened Lists
  import opened Bytecode
  import opened Fibers

  // ----- moving stacks between two owners -----

  ghost function At(chains: Chains, o: Owner): seq<int> {
    if o in chains then chains[o] else []
  }

  ghost predicate SameElsewhere(before: Chains, after: Chains, a: Owner, b: Owner) {
    forall o :: o != a && o != b ==> (o in before <==> o in after) && (o in before ==> before[o] == after[o])
  }

  /** The stacks of `a` and `b` are shared out anew between them. */
  ghost predicate Shared(before: Chains, after: Chains, a: Owner, b: Owner) {
    && SameElsewhere(before, after, a, b)
    && (forall p :: p in At(before, a) || p in At(before, b) <==> p in At(after, a) || p in At(after, b))
    && (a != b ==> forall p :: !(p in At(after, a) && p in At(after, b)))
    && NoDuplicates(At(after, a)) && NoDuplicates(At(after, b))
  }

  lemma SharedKeepsPartition(stacks: set<int>, before: Chains, after: Chains, a: Owner, b: Owner)
    requires Partition(stacks, before) && Shared(before, after, a, b)
    ensures Partition(stacks, after)
  {
    forall p | p in stacks
      ensures exists o :: o in after && p in after[o]
    {
      var o :| o in before && p in before[o];
      if o == a || o == b {
        assert p in At(before, o);
        assert p in At(after, a) || p in At(after, b);
        if p in At(after, a) {
          assert a in after && p in after[a];
        } else {
          assert b in after && p in after[b];
        }
      } else {
        assert o in after && p in after[o];
      }
    }
    forall o, p | o in after && p in after[o]
      ensures p in stacks && (exists x :: x in before && p in before[x] && ((x == a || x == b) <==> (o == a || o == b)))
    {
      InBefore(before, after, a, b, o, p);
    }
    forall o1, o2, p | o1 in after && o2 in after && p in after[o1] && p in after[o2]
      ensures o1 == o2
    {
      InBefore(before, after, a, b, o1, p);
      InBefore(before, after, a, b, o2, p);
    }
  }

  lemma InBefore(before: Chains, after: Chains, a: Owner, b: Owner, o: Owner, p: int)
    requires SameElsewhere(before, after, a, b) && o in after && p in after[o]
    requires forall q :: q in At(before, a) || q in At(before, b) <==> q in At(after, a) || q in At(after, b)
    ensures exists x :: x in before && p in before[x] && (if o == a || o == b then x == a || x == b else x == o)
  {
    if o == a || o == b {
      assert p in At(after, o);
      assert p in At(before, a) || p in At(before, b);
      if p in At(before, a) {
        assert a in before && p in before[a];
      } else {
        assert b in before && p in before[b];
      }
    } else {
      assert o in before && p in before[o];
    }
  }

  /** Owners that no stack leaves or joins are as before. */
  lemma OthersKept(s: State, t: State, before: Chains, after: Chains, a: Owner, b: Owner)
    requires Inv(s, before) && SameElsewhere(before, after, a, b)
    requires forall p :: p in s.fibers && p !in At(before, a) && p !in At(before, b) ==>
      p in t.fibers && t.fibers[p] == s.fibers[p]
    requires a == Running || b == Running || t.current == s.current
    requires forall c :: InCont(c) != a && InCont(c) != b && c in s.conts ==> c in t.conts && t.conts[c] == s.conts[c]
    requires forall x :: InCache(x) != a && InCache(x) != b && x in s.buckets ==>
      x in t.buckets && t.buckets[x] == s.buckets[x]
    ensures forall o :: o in after && o != a && o != b ==> ChainOk(t.fibers, o, after[o]) && HeadOk(t, o, after[o])
  {
    forall o | o in after && o != a && o != b
      ensures ChainOk(t.fibers, o, after[o]) && HeadOk(t, o, after[o])
    {
      assert o in before && before[o] == after[o];
      assert ChainOk(s.fibers, o, before[o]) && HeadOk(s, o, before[o]);
      forall i | 0 <= i < |after[o]|
        ensures NodeOk(t.fibers, o, after[o], i)
      {
        assert NodeOk(s.fibers, o, before[o], i);
        assert after[o][i] in before[o];
        assert after[o][i] !in At(before, a) && after[o][i] !in At(before, b);
      }
    }
  }

  /** The rest of the machine follows the move. */
  ghost predicate Follows(s: State, t: State, before: Chains, a: Owner, b: Owner) {
    && t.fibers.Keys == s.fibers.Keys
    && (forall p :: p in s.fibers && p !in At(before, a) && p !in At(before, b) ==> t.fibers[p] == s.fibers[p])
    && (forall p :: p in s.fibers ==> t.fibers[p].bucket == s.fibers[p].bucket)
    && (a == Running || b == Running || t.current == s.current)
    && (forall c :: InCont(c) != a && InCont(c) != b && c in s.conts ==> c in t.conts && t.conts[c] == s.conts[c])
    && (forall c :: InCont(c) != a && InCont(c) != b && c in t.conts ==> c in s.conts)
    && t.buckets.Keys == s.buckets.Keys
    && (forall x :: InCache(x) != a && InCache(x) != b && x in s.buckets ==> t.buckets[x] == s.buckets[x])
  }

  ghost predicate OwnerOk(t: State, after: Chains, o: Owner) {
    && (o == Running ==> o in after)
    && (o.InCont? && o.c in t.conts && t.conts[o.c] != NULL ==> o in after)
    && (o.InCache? && o.b in t.buckets ==> o in after)
    && (o in after ==> ChainOk(t.fibers, o, after[o]) && HeadOk(t, o, after[o]))
  }

  lemma OwnersKept(s: State, t: State, before: Chains, after: Chains, a: Owner, b: Owner)
    requires Owners(s, before) && SameElsewhere(before, after, a, b) && Follows(s, t, before, a, b)
    requires OwnerOk(t, after, a) && OwnerOk(t, after, b)
    ensures Owners(t, after)
  {
    hide ChainOk, HeadOk, At;
    forall c | c in t.conts && t.conts[c] != NULL
      ensures InCont(c) in after
    {
      if InCont(c) != a && InCont(c) != b {
        assert c in s.conts && t.conts[c] == s.conts[c];
      }
    }
    forall x | x in t.buckets
      ensures InCache(x) in after
    {
      if InCache(x) != a && InCache(x) != b {
        assert x in s.buckets;
      }
    }
  }

  lemma MoveKeepsInv(s: State, t: State, before: Chains, after: Chains, a: Owner, b: Owner)
    requires Inv(s, before) && Shared(before, after, a, b) && Follows(s, t, before, a, b)
    requires OwnerOk(t, after, a) && OwnerOk(t, after, b)
    ensures Inv(t, after)
  {
    hide ChainOk, HeadOk, Owners, Partition, NoDuplicates, At;
    SharedKeepsPartition(s.fibers.Keys, before, after, a, b);
    OthersKept(s, t, before, after, a, b);
    OwnersKept(s, t, before, after, a, b);
  }

  lemma TailLacksHead(chain: seq<int>)
    requires NoDuplicates(chain) && chain != []
    ensures forall p :: p in chain[1..] ==> p != chain[0]
    ensures forall p :: p in chain <==> p == chain[0] || p in chain[1..]
    ensures NoDuplicates(chain[1..])
  {
    assert chain == [chain[0]] + chain[1..];
    assert forall i :: 0 <= i < |chain| - 1 ==> chain[1..][i] == chain[i + 1];
  }

  lemma AppendLacks(x: seq<int>, p0: int)
    requires NoDuplicates(x) && p0 !in x
    ensures NoDuplicates(x + [p0]) && NoDuplicates([p0] + x)
    ensures forall p :: p in x + [p0] <==> p in x || p == p0
    ensures forall p :: p in [p0] + x <==> p in x || p == p0
  {
    assert forall i :: 0 <= i < |x| ==> x[i] in x;
  }

  /** The first stack of a chain goes to either end of another. */
  lemma HeadMoves(stacks: set<int>, chains: Chains, from: Owner, o: Owner)
    requires Partition(stacks, chains) && from in chains && o != from && chains[from] != []
    ensures var run := chains[from];
      && Shared(chains, chains[from := run[1..]][o := At(chains, o) + [run[0]]], from, o)
      && Shared(chains, chains[from := run[1..]][o := [run[0]] + At(chains, o)], from, o)
  {
    var run := chains[from];
    assert NoDuplicates(run) && NoDuplicates(At(chains, o));
    assert forall p :: p in run ==> p !in At(chains, o);
    hide NoDuplicates;
    assert run[0] in run;
    TailLacksHead(run);
    AppendLacks(At(chains, o), run[0]);
  }

  lemma TailOk(fibers: map<int, Fiber>, o: Owner, chain: seq<int>)
    requires ChainOk(fibers, o, chain) && chain != [] && (o.Running? || o.InCache?)
    ensures ChainOk(fibers, o, chain[1..])
  {
    forall i | 0 <= i < |chain| - 1
      ensures NodeOk(fibers, o, chain[1..], i)
    {
      assert NodeOk(fibers, o, chain, i + 1);
    }
  }

  lemma ChainFrame(fibers: map<int, Fiber>, later: map<int, Fiber>, o: Owner, chain: seq<int>)
    requires ChainOk(fibers, o, chain)
    requires forall p :: p in chain && p in fibers ==> p in later && later[p] == fibers[p]
    ensures ChainOk(later, o, chain)
  {
    forall i | 0 <= i < |chain|
      ensures NodeOk(later, o, chain, i)
    {
      assert NodeOk(fibers, o, chain, i) && chain[i] in chain;
    }
  }

  lemma OwnerFacts(s: State, chains: Chains, o: Owner)
    requires Inv(s, chains) && o in chains
    ensures ChainOk(s.fibers, o, chains[o]) && HeadOk(s, o, chains[o]) && NoDuplicates(chains[o])
    ensures forall x, p :: x in chains && x != o && p in chains[x] ==> p !in chains[o]
  {
  }

  lemma HandHolds(s: State, chains: Chains, p: int)
    requires Inv(s, chains)
    ensures InHand(p) in chains ==> p in chains[InHand(p)] && p in s.fibers
  {
    assert InHand(p) in chains ==> HeadOk(s, InHand(p), chains[InHand(p)]);
  }

  lemma {:induction false} PerformKeeps(s: State, chains: Chains, c: int)
    requires Inv(s, chains) && c !in s.conts && |chains[Running]| >= 2
    ensures var run := chains[Running];
      s.current in s.fibers && s.fibers[s.current].parent in s.fibers && s.fibers[s.current].parent != s.current &&
      Parked(s.fibers[s.fibers[s.current].parent].words, Running, 1) &&
      Inv(Performed(s, c), chains[Running := run[1..]][InCont(c) := [run[0]]])
  {
    hide Partition, Shared, SameElsewhere, NoDuplicates;
    RunningParent(s, chains);
    OwnerFacts(s, chains, Running);
    var run := chains[Running];
    var t, after := Performed(s, c), chains[Running := run[1..]][InCont(c) := [run[0]]];
    assert InCont(c) !in chains by {
      assert InCont(c) in chains ==> HeadOk(s, InCont(c), chains[InCont(c)]);
    }
    HeadMoves(s.fibers.Keys, chains, Running, InCont(c));
    assert At(chains, InCont(c)) + [run[0]] == [run[0]];
    TailOk(s.fibers, Running, run);
    ChainFrame(s.fibers, t.fibers, Running, run[1..]);
    assert NodeOk(t.fibers, InCont(c), [run[0]], 0);
    hide ChainOk, Parked;
    MoveKeepsInv(s, t, chains, after, Running, InCont(c));
  }

  /** A stack appended to a suspended chain by pointing its end there. */
  lemma AppendOk(fibers: map<int, Fiber>, later: map<int, Fiber>, o: Owner, chain: seq<int>, p: int)
    requires ChainOk(fibers, o, chain) && NoDuplicates(chain) && chain != [] && o.InCont?
    requires forall q :: q in chain && q != Last(chain) && q in fibers ==> q in later && later[q] == fibers[q]
    requires Last(chain) in fibers && Last(chain) in later && later[Last(chain)] == fibers[Last(chain)].(parent := p)
    requires p != NULL && p in later && later[p].parent == NULL && Parked(later[p].words, Running, 1)
    ensures ChainOk(later, o, chain + [p])
  {
    forall i | 0 <= i < |chain| + 1
      ensures NodeOk(later, o, chain + [p], i)
    {
      if i < |chain| {
        assert NodeOk(fibers, o, chain, i) && chain[i] in chain;
      }
    }
  }

  lemma {:induction false} ReperformKeeps(s: State, chains: Chains, slots: int)
    requires Inv(s, chains) && CanReperform(s, chains, slots) && |chains[Running]| >= 2
    ensures var run, c, tail := chains[Running], s.r.words[0].c, s.r.words[1].p;
      s.current in s.fibers && s.fibers[s.current].parent in s.fibers && tail in s.fibers &&
      s.fibers[s.current].parent != s.current && s.fibers[s.current].parent != tail && s.current != tail &&
      Parked(s.fibers[s.fibers[s.current].parent].words, Running, 1) &&
      Inv(Reperformed(s, slots, c, tail), chains[Running := run[1..]][InCont(c) := chains[InCont(c)] + [run[0]]])
  {
    hide Partition, Shared, SameElsewhere, NoDuplicates;
    RunningParent(s, chains);
    OwnerFacts(s, chains, Running);
    var run, c, tail := chains[Running], s.r.words[0].c, s.r.words[1].p;
    var o := InCont(c);
    SuspendedEnds(s, chains, o);
    OwnerFacts(s, chains, o);
    assert tail in chains[o];
    var t, after := Reperformed(s, slots, c, tail), chains[Running := run[1..]][o := chains[o] + [run[0]]];
    HeadMoves(s.fibers.Keys, chains, Running, o);
    TailOk(s.fibers, Running, run);
    ChainFrame(s.fibers, t.fibers, Running, run[1..]);
    AppendOk(s.fibers, t.fibers, o, chains[o], run[0]);
    hide ChainOk, Parked;
    MoveKeepsInv(s, t, chains, after, Running, o);
  }

  /** One chain on top of another, by pointing its end there. */
  lemma JoinOk(fibers: map<int, Fiber>, later: map<int, Fiber>, o: Owner, chain: seq<int>, run: seq<int>)
    requires ChainOk(fibers, o, chain) && ChainOk(fibers, Running, run) && NoDuplicates(chain) && NoDuplicates(run)
    requires chain != [] && run != [] && (o.InCont? || o.InHand?)
    requires forall q :: q in chain && q != Last(chain) && q in fibers ==> q in later && later[q] == fibers[q]
    requires Last(chain) in fibers && Last(chain) in later
    requires later[Last(chain)] == fibers[Last(chain)].(parent := run[0])
    requires forall q :: q in run && q != run[0] && q in fibers ==> q in later && later[q] == fibers[q]
    requires run[0] in fibers && run[0] in later && later[run[0]] == fibers[run[0]].(words := later[run[0]].words)
    requires Parked(later[run[0]].words, Running, 1)
    ensures ChainOk(later, Running, chain + run)
  {
    forall i | 0 <= i < |chain| + |run|
      ensures NodeOk(later, Running, chain + run, i)
    {
      if i < |chain| {
        assert NodeOk(fibers, o, chain, i) && chain[i] in chain;
      } else {
        assert NodeOk(fibers, Running, run, i - |chain|) && run[i - |chain|] in run;
      }
    }
  }

  lemma JoinShared(stacks: set<int>, chains: Chains, o: Owner)
    requires Partition(stacks, chains) && Running in chains && o != Running && o in chains
    ensures Shared(chains, Joined(chains, o), Running, o)
  {
    var after := Joined(chains, o);
    var chain, run := chains[o], chains[Running];
    assert NoDuplicates(chain) && NoDuplicates(run);
    assert forall p :: p in run ==> p !in chain;
    assert forall i :: 0 <= i < |chain| ==> chain[i] in chain;
    assert forall i :: 0 <= i < |run| ==> run[i] in run;
    assert At(after, Running) == chain + run && At(after, o) == [];
  }

  lemma CanJoin(s: State, chains: Chains, o: Owner)
    requires Inv(s, chains) && o in chains && (o.InCont? || o.InHand?)
    ensures var chain := chains[o];
      && chain != [] && chain[0] in s.fibers && Last(chain) in s.fibers
      && Parked(s.fibers[chain[0]].words, InHand(chain[0]), 0)
      && s.current in s.fibers && s.current in chains[Running] && s.current != chain[0] && s.current != Last(chain)
      && chain[0] in chain && Last(chain) in chain
  {
    hide Partition;
    RunningParent(s, chains);
    SuspendedEnds(s, chains, o);
    OwnerFacts(s, chains, Running);
    OwnerFacts(s, chains, o);
    assert chains[o][0] in chains[o] && Last(chains[o]) in chains[o] && s.current in chains[Running];
  }

  lemma {:induction false} ResumeKeeps(s: State, chains: Chains, o: Owner, conts: map<int, int>, saved: seq<Word>,
                                       fn: Word, arg: Word)
    requires Inv(s, chains) && o in chains && (o.InCont? || o.InHand?)
    requires conts == if o.InCont? then s.conts[o.c := NULL] else s.conts
    requires Parked(saved, Running, 1)
    ensures var p, tail := chains[o][0], Last(chains[o]);
      s.current in s.fibers && tail in s.fibers && p in s.fibers && s.current != p && s.current != tail &&
      Parked(s.fibers[p].words, InHand(p), 0) &&
      Inv(Resumed(s.(conts := conts), saved, fn, arg, p, tail), Joined(chains, o))
  {
    hide Partition, Shared, SameElsewhere, NoDuplicates;
    CanJoin(s, chains, o);
    JoinShared(s.fibers.Keys, chains, o);
    var p, tail := chains[o][0], Last(chains[o]);
    var t, after := Resumed(s.(conts := conts), saved, fn, arg, p, tail), Joined(chains, o);
    assert ChainOk(t.fibers, Running, chains[o] + chains[Running]) by {
      OwnerFacts(s, chains, Running);
      OwnerFacts(s, chains, o);
      JoinOk(s.fibers, t.fibers, o, chains[o], chains[Running]);
    }
    hide ChainOk, Parked;
    MoveKeepsInv(s, t, chains, after, Running, o);
  }

  /** Taking a continuation's stacks in hand. */
  lemma UseKeeps(s: State, chains: Chains, c: int, accu: Word)
    requires Inv(s, chains) && c in s.conts && s.conts[c] != NULL
    ensures Inv(s.(r := s.r.(accu := accu), conts := s.conts[c := NULL]),
                (chains - {InCont(c)})[InHand(s.conts[c]) := chains[InCont(c)]])
  {
    hide Partition;
    var o, h := InCont(c), InHand(s.conts[c]);
    var t, after := s.(r := s.r.(accu := accu), conts := s.conts[c := NULL]), (chains - {o})[h := chains[o]];
    OwnerFacts(s, chains, o);
    assert s.conts[c] in chains[o];
    HandHolds(s, chains, s.conts[c]);
    assert ChainOk(s.fibers, h, chains[o]) by {
      forall i | 0 <= i < |chains[o]|
        ensures NodeOk(s.fibers, h, chains[o], i)
      {
        assert NodeOk(s.fibers, o, chains[o], i);
      }
    }
    hide ChainOk, Parked;
    MoveKeepsInv(s, t, chains, after, o, h);
  }

  /** Giving the current stack back to its bucket. */
  lemma {:induction false} FreePooledKeeps(s: State, t: State, chains: Chains, h: Word)
    requires Inv(s, chains) && |chains[Running]| >= 2
    requires s.current in s.fibers && s.fibers[s.current].bucket != NO_BUCKET
    requires s.fibers[s.current].parent in s.fibers
    requires Parked(s.fibers[s.fibers[s.current].parent].words, Running, 1) && t == Left(s, h)
    ensures var b, run := s.fibers[s.current].bucket, chains[Running];
      InCache(b) in chains && Inv(t, chains[Running := run[1..]][InCache(b) := [run[0]] + chains[InCache(b)]])
  {
    hide Partition, Shared, SameElsewhere, NoDuplicates;
    var b, run := s.fibers[s.current].bucket, chains[Running];
    var o := InCache(b);
    RunningParent(s, chains);
    OwnerFacts(s, chains, Running);
    OwnerFacts(s, chains, o);
    assert run[0] in run;
    var after := chains[Running := run[1..]][o := [run[0]] + chains[o]];
    HeadMoves(s.fibers.Keys, chains, Running, o);
    TailOk(s.fibers, Running, run);
    ChainFrame(s.fibers, t.fibers, Running, run[1..]);
    assert ChainOk(t.fibers, o, [run[0]] + chains[o]) by {
      PrependOk(s.fibers, t.fibers, o, chains[o], run[0]);
    }
    hide ChainOk, Parked;
    MoveKeepsInv(s, t, chains, after, Running, o);
  }

  lemma PrependOk(fibers: map<int, Fiber>, later: map<int, Fiber>, o: Owner, chain: seq<int>, p: int)
    requires ChainOk(fibers, o, chain) && o.InCache?
    requires forall q :: q in chain && q in fibers ==> q in later && later[q] == fibers[q]
    requires p != NULL && p in later && later[p].next == if chain == [] then NULL else chain[0]
    ensures ChainOk(later, o, [p] + chain)
  {
    forall i | 0 <= i < |chain| + 1
      ensures NodeOk(later, o, [p] + chain, i)
    {
      if i > 0 {
        assert NodeOk(fibers, o, chain, i - 1) && chain[i - 1] in chain;
      }
    }
  }

  /** Giving away the current stack for good. */
  lemma FreeUnpooledKeeps(s: State, t: State, chains: Chains, h: Word)
    requires Inv(s, chains) && |chains[Running]| >= 2
    requires s.current in s.fibers && s.fibers[s.current].bucket == NO_BUCKET
    requires s.fibers[s.current].parent in s.fibers
    requires Parked(s.fibers[s.fibers[s.current].parent].words, Running, 1) && t == Left(s, h)
    ensures Inv(t, chains[Running := chains[Running][1..]])
  {
    hide Partition;
    var run := chains[Running];
    RunningParent(s, chains);
    OwnerFacts(s, chains, Running);
    var after := chains[Running := run[1..]];
    DropPartition(s.fibers.Keys, chains, Running);
    assert t.fibers.Keys == s.fibers.Keys - {run[0]};
    TailOk(s.fibers, Running, run);
    TailLacksHead(run);
    ChainFrame(s.fibers, t.fibers, Running, run[1..]);
    assert run[0] in run;
    hide ChainOk, NoDuplicates, Parked;
    OthersKept(s, t, chains, after, Running, Running);
  }

  lemma DropPartition(stacks: set<int>, chains: Chains, o: Owner)
    requires Partition(stacks, chains) && o in chains && chains[o] != []
    ensures Partition(stacks - {chains[o][0]}, chains[o := chains[o][1..]])
  {
    var after, p0 := chains[o := chains[o][1..]], chains[o][0];
    assert p0 in chains[o] && NoDuplicates(chains[o]);
    TailLacksHead(chains[o]);
    hide NoDuplicates;
    forall p | p in stacks - {p0}
      ensures exists x :: x in after && p in after[x]
    {
      var x :| x in chains && p in chains[x];
      assert x in after && p in after[x];
    }
  }

  /** A stack from the cache. */
  lemma AllocCachedKeeps(s: State, chains: Chains, p: int, hval: Word, hexn: Word, heff: Word)
    requires Inv(s, chains) && s.buckets[FIBER_BUCKET] != NULL && s.buckets[FIBER_BUCKET] in s.fibers
    ensures var q, o := s.buckets[FIBER_BUCKET], InCache(FIBER_BUCKET);
      chains[o] != [] && Inv(Allocated(s, p, hval, hexn, heff), chains[o := chains[o][1..]][InHand(q) := [q]])
  {
    hide Partition, Shared, SameElsewhere, NoDuplicates;
    CacheHead(s, chains, FIBER_BUCKET);
    var q, o := s.buckets[FIBER_BUCKET], InCache(FIBER_BUCKET);
    var h := InHand(q);
    OwnerFacts(s, chains, o);
    assert q in chains[o];
    HandHolds(s, chains, q);
    var t, after := Allocated(s, p, hval, hexn, heff), chains[o := chains[o][1..]][h := [q]];
    HeadMoves(s.fibers.Keys, chains, o, h);
    assert At(chains, h) + [q] == [q];
    TailOk(s.fibers, o, chains[o]);
    TailLacksHead(chains[o]);
    ChainFrame(s.fibers, t.fibers, o, chains[o][1..]);
    assert NodeOk(t.fibers, h, [q], 0);
    assert t.fibers.Keys == s.fibers.Keys;
    hide ChainOk, Parked;
    MoveKeepsInv(s, t, chains, after, o, h);
  }

  /** A stack at a new address. */
  lemma AllocFreshKeeps(s: State, chains: Chains, p: int, hval: Word, hexn: Word, heff: Word)
    requires Inv(s, chains) && s.buckets[FIBER_BUCKET] == NULL && p != NULL && p !in s.fibers
    ensures Inv(Allocated(s, p, hval, hexn, heff), chains[InHand(p) := [p]])
  {
    var t, after, h := Allocated(s, p, hval, hexn, heff), chains[InHand(p) := [p]], InHand(p);
    HandHolds(s, chains, p);
    assert Partition(t.fibers.Keys, after) by {
      assert t.fibers.Keys == s.fibers.Keys + {p};
      AddPartition(s.fibers.Keys, chains, h, p);
    }
    assert NodeOk(t.fibers, h, [p], 0);
    hide ChainOk, NoDuplicates, Parked, Partition;
    OthersKept(s, t, chains, after, h, h);
  }

  lemma AddPartition(stacks: set<int>, chains: Chains, o: Owner, p0: int)
    requires Partition(stacks, chains) && o !in chains && p0 !in stacks
    ensures Partition(stacks + {p0}, chains[o := [p0]])
  {
    var after := chains[o := [p0]];
    forall p | p in stacks + {p0}
      ensures exists x :: x in after && p in after[x]
    {
      if p == p0 {
        assert p in after[o];
      } else {
        var x :| x in chains && p in chains[x];
        assert x in after && p in after[x];
      }
    }
  }

  // ----- growth -----

  /** A stack is taken from the cache or added, the current one is given back, and the new one goes in its place. */
  lemma GrowPartition(s: State, chains: Chains, p: int, b: int)
    requires Inv(s, chains) && Enabled(Grow(p, b), s, chains)
    ensures Partition(Do(Grow(p, b), s, chains).fibers.Keys, Moved(Grow(p, b), s, chains))
  {
    hide Partition, ChainOk, Parked, NoDuplicates;
    RunningParent(s, chains);
    CachedStack(s, chains, b);
    OwnerFacts(s, chains, Running);
    var q, b0 := StackFor(s, b, p), s.fibers[s.current].bucket;
    HandHolds(s, chains, q);
    TakePartition(s, chains, p, b);
    GrowKeys(s, chains, p, b);
    var taken := if HasCached(s, b) then chains[InCache(b) := chains[InCache(b)][1..]] else chains;
    ReplacePartition(s.fibers.Keys + {q}, taken, b0, q);
  }

  lemma GrowKeys(s: State, chains: Chains, p: int, b: int)
    requires Inv(s, chains) && Enabled(Grow(p, b), s, chains)
    ensures var t, q := Do(Grow(p, b), s, chains), StackFor(s, b, p);
      && s.current in s.fibers
      && t.fibers.Keys ==
         if s.fibers[s.current].bucket == NO_BUCKET then s.fibers.Keys + {q} - {s.current} else s.fibers.Keys + {q}
  {
    hide Partition, ChainOk, Parked, NoDuplicates;
    RunningParent(s, chains);
    CachedStack(s, chains, b);
  }

  lemma ReplacePartition(stacks: set<int>, chains: Chains, b: int, q: int)
    requires Partition(stacks, chains[InHand(q) := [q]])
    requires InHand(q) !in chains
    requires Running in chains && chains[Running] != [] && (b == NO_BUCKET || InCache(b) in chains)
    ensures var run := chains[Running];
      Partition(if b == NO_BUCKET then stacks - {run[0]} else stacks,
                GivenBack(chains, b, run[0])[Running := [q] + run[1..]])
  {
    hide Partition;
    var run, hand := chains[Running], chains[InHand(q) := [q]];
    GivePartition(stacks, hand, b);
    var left := if b == NO_BUCKET then stacks - {run[0]} else stacks;
    var given := GivenBack(hand, b, run[0])[Running := run[1..]];
    PutPartition(left, given, q);
    assert given[Running := [q] + run[1..]] - {InHand(q)} == GivenBack(chains, b, run[0])[Running := [q] + run[1..]];
  }

  lemma TakePartition(s: State, chains: Chains, p: int, b: int)
    requires Inv(s, chains) && p !in s.fibers
    ensures InHand(StackFor(s, b, p)) !in chains
    ensures HasCached(s, b) ==> InCache(b) in chains && chains[InCache(b)] != []
    ensures
      var taken := if HasCached(s, b) then chains[InCache(b) := chains[InCache(b)][1..]] else chains;
      var q := StackFor(s, b, p);
      Partition(s.fibers.Keys + {q}, taken[InHand(q) := [q]])
  {
    CachedStack(s, chains, b);
    var q := StackFor(s, b, p);
    HandHolds(s, chains, q);
    if HasCached(s, b) {
      OwnerFacts(s, chains, InCache(b));
      assert q in chains[InCache(b)] && InHand(q) !in chains;
      assert s.fibers.Keys + {q} == s.fibers.Keys;
      HeadMoves(s.fibers.Keys, chains, InCache(b), InHand(q));
      assert At(chains, InHand(q)) + [q] == [q];
      SharedKeepsPartition(s.fibers.Keys, chains, chains[InCache(b) := chains[InCache(b)][1..]][InHand(q) := [q]],
                           InCache(b), InHand(q));
    } else {
      AddPartition(s.fibers.Keys, chains, InHand(q), q);
    }
  }

  /** The first running stack goes to its bucket, or away. */
  lemma GivePartition(stacks: set<int>, chains: Chains, b: int)
    requires Partition(stacks, chains) && Running in chains && chains[Running] != []
    requires (b == NO_BUCKET || InCache(b) in chains)
    ensures var run := chains[Running];
      Partition(if b == NO_BUCKET then stacks - {run[0]} else stacks, GivenBack(chains, b, run[0])[Running := run[1..]])
  {
    var run := chains[Running];
    if b == NO_BUCKET {
      DropPartition(stacks, chains, Running);
    } else {
      HeadMoves(stacks, chains, Running, InCache(b));
      var after := chains[Running := run[1..]][InCache(b) := [run[0]] + chains[InCache(b)]];
      SharedKeepsPartition(stacks, chains, after, Running, InCache(b));
      assert after == GivenBack(chains, b, run[0])[Running := run[1..]];
    }
  }

  /** The stack in hand goes in front of the running ones. */
  lemma PutPartition(stacks: set<int>, chains: Chains, q: int)
    requires Partition(stacks, chains) && Running in chains && InHand(q) in chains && chains[InHand(q)] == [q]
    ensures Partition(stacks, chains[Running := [q] + chains[Running]] - {InHand(q)})
  {
    JoinShared(stacks, chains, InHand(q));
    SharedKeepsPartition(stacks, chains, Joined(chains, InHand(q)), Running, InHand(q));
    assert Joined(chains, InHand(q)) == chains[Running := [q] + chains[Running]] - {InHand(q)};
  }

  /** The fields a growth changes: those of the new stack, and the link of the one given back. */
  lemma GrowFibers(s: State, chains: Chains, p: int, b: int)
    requires Inv(s, chains) && Enabled(Grow(p, b), s, chains)
    ensures var t, q, f := Do(Grow(p, b), s, chains), StackFor(s, b, p), s.fibers[s.current];
      && s.current in s.fibers && q != s.current && t.current == q && q in t.fibers && t.fibers[q].parent == f.parent
      && (forall x :: x in s.fibers && x != q && x != s.current ==> x in t.fibers && t.fibers[x] == s.fibers[x])
      && (f.bucket != NO_BUCKET ==>
            f.bucket in s.buckets && s.current in t.fibers &&
            t.fibers[s.current] == f.(next := s.buckets[f.bucket]) && t.buckets[f.bucket] == s.current)
      && t.buckets.Keys == s.buckets.Keys && t.conts == s.conts
      && (forall x :: x in s.buckets && x != b && x != f.bucket ==> t.buckets[x] == s.buckets[x])
      && (HasCached(s, b) ==> q in s.fibers && t.buckets[b] == s.fibers[q].next)
      && (b in s.buckets && !HasCached(s, b) ==> t.buckets[b] == NULL)
  {
    hide Partition, ChainOk, Parked, NoDuplicates;
    RunningParent(s, chains);
    CachedStack(s, chains, b);
  }

  lemma NotCached(s: State, chains: Chains, p: int, b: int, o: Owner)
    requires Inv(s, chains) && p !in s.fibers && o in chains && (HasCached(s, b) ==> o != InCache(b))
    ensures StackFor(s, b, p) !in chains[o]
  {
    if HasCached(s, b) {
      CachedStack(s, chains, b);
      assert StackFor(s, b, p) in chains[InCache(b)];
    }
  }

  lemma GrowRunning(s: State, chains: Chains, p: int, b: int)
    requires Inv(s, chains) && Enabled(Grow(p, b), s, chains)
    ensures var t, run := Do(Grow(p, b), s, chains), chains[Running];
      run != [] && ChainOk(t.fibers, Running, [StackFor(s, b, p)] + run[1..])
  {
    hide Partition;
    GrowFibers(s, chains, p, b);
    RunningParent(s, chains);
    OwnerFacts(s, chains, Running);
    CachedStack(s, chains, b);
    var t, q, run := Do(Grow(p, b), s, chains), StackFor(s, b, p), chains[Running];
    NotCached(s, chains, p, b, Running);
    hide Do, Enabled, Inv;
    TailLacksHead(run);
    TailOk(s.fibers, Running, run);
    forall i | 0 <= i < |run|
      ensures NodeOk(t.fibers, Running, [q] + run[1..], i)
    {
      assert NodeOk(s.fibers, Running, run, i);
      assert run[i] in run;
      if i > 0 {
        assert run[i] in run[1..];
      }
    }
  }

  /** A chain that the growth neither takes from nor adds to. */
  lemma GrowElsewhere(s: State, chains: Chains, p: int, b: int, o: Owner, chain: seq<int>)
    requires Inv(s, chains) && Enabled(Grow(p, b), s, chains)
    requires o in chains && o != Running && ChainOk(s.fibers, o, chain)
    requires forall x :: x in chain ==> x in chains[o] && x != StackFor(s, b, p)
    ensures ChainOk(Do(Grow(p, b), s, chains).fibers, o, chain)
  {
    hide Partition, Parked;
    GrowFibers(s, chains, p, b);
    OwnerFacts(s, chains, Running);
    OwnerFacts(s, chains, o);
    assert s.current in chains[Running];
    assert s.current !in chain;
    var t := Do(Grow(p, b), s, chains);
    hide Do, Enabled, Inv, ChainOk;
    ChainFrame(s.fibers, t.fibers, o, chain);
  }

  /** Each owner's chain after a growth. */
  lemma GrowOwner(s: State, chains: Chains, p: int, b: int, o: Owner)
    requires Inv(s, chains) && Enabled(Grow(p, b), s, chains) && o in Moved(Grow(p, b), s, chains)
    ensures var t, after := Do(Grow(p, b), s, chains), Moved(Grow(p, b), s, chains);
      ChainOk(t.fibers, o, after[o]) && HeadOk(t, o, after[o])
  {
    hide Partition, Parked;
    RunningParent(s, chains);
    CachedStack(s, chains, b);
    GrowFibers(s, chains, p, b);
    assert o in chains;
    OwnerFacts(s, chains, o);
    var t, after := Do(Grow(p, b), s, chains), Moved(Grow(p, b), s, chains);
    var b0 := s.fibers[s.current].bucket;
    if o == Running {
      GrowRunning(s, chains, p, b);
    } else if HasCached(s, b) && o == InCache(b) {
      CacheHead(s, chains, b);
      TailOk(s.fibers, o, chains[o]);
      TailLacksHead(chains[o]);
      GrowElsewhere(s, chains, p, b, o, chains[o][1..]);
    } else {
      NotCached(s, chains, p, b, o);
      GrowElsewhere(s, chains, p, b, o, chains[o]);
      if b0 != NO_BUCKET && o == InCache(b0) {
        hide Do, Moved;
        PrependOk(t.fibers, t.fibers, o, chains[o], s.current);
      }
    }
  }

  /** The running stack is replaced by a larger one. */
  lemma {:induction false} GrowKeeps(s: State, chains: Chains, p: int, b: int)
    requires Inv(s, chains) && Enabled(Grow(p, b), s, chains)
    ensures Inv(Do(Grow(p, b), s, chains), Moved(Grow(p, b), s, chains))
  {
    hide Partition, ChainOk, HeadOk;
    RunningParent(s, chains);
    CachedStack(s, chains, b);
    GrowFibers(s, chains, p, b);
    GrowPartition(s, chains, p, b);
    var t, after := Do(Grow(p, b), s, chains), Moved(Grow(p, b), s, chains);
    forall o | o in after
      ensures ChainOk(t.fibers, o, after[o]) && HeadOk(t, o, after[o])
    {
      GrowOwner(s, chains, p, b, o);
    }
    assert Owners(t, after);
  }

  /** Every instruction keeps every stack in exactly one chain, with the chains linked as the machine has them. */
  lemma {:induction false} StepKeepsInv(a: Action, s: State, chains: Chains)
    requires Inv(s, chains) && Enabled(a, s, chains)
    ensures Inv(Do(a, s, chains), Moved(a, s, chains))
  {
    RunningParent(s, chains);
    match a
    case Grow(p, b) => GrowKeeps(s, chains, p, b);
    case Alloc(p, hval, hexn, heff) =>
      CacheHead(s, chains, FIBER_BUCKET);
      if s.buckets[FIBER_BUCKET] != NULL {
        AllocCachedKeeps(s, chains, p, hval, hexn, heff);
      } else {
        AllocFreshKeeps(s, chains, p, hval, hexn, heff);
      }
    case Perform(c) => PerformKeeps(s, chains, c);
    case Reperform(slots) => ReperformKeeps(s, chains, slots);
    case ReperformTop(slots, fn, exn) =>
      var c := s.r.words[0].c;
      OwnerFacts(s, chains, InCont(c));
      ResumeKeeps(s, chains, InCont(c), s.conts[c := NULL], SavedTerm(s.r, slots), fn, exn);
    case Use(c) =>
      if s.conts[c] != NULL {
        UseKeeps(s, chains, c, Stack(s.conts[c]));
      } else {
        assert s.conts[c := NULL] == s.conts;
        RegistersKeep(s, s.r.(accu := Stack(NULL)), chains);
      }
    case Resume =>
      OwnerFacts(s, chains, InHand(s.r.accu.p));
      ResumeKeeps(s, chains, InHand(s.r.accu.p), s.conts, SavedResume(s.r), s.r.words[0], s.r.words[1]);
    case ResumeTerm(slots) =>
      OwnerFacts(s, chains, InHand(s.r.accu.p));
      ResumeKeeps(s, chains, InHand(s.r.accu.p), s.conts, SavedTerm(s.r, slots), s.r.words[0], s.r.words[1]);
    case ReturnUp => LeaveKeeps(s, chains, s.fibers[s.current].hval);
    case RaiseUp => LeaveKeeps(s, chains, s.fibers[s.current].hexn);
    case Local(r) => RegistersKeep(s, r, chains);
    case ResumeTaken(saved, exn) => RegistersKeep(s, s.r.(accu := exn, words := saved), chains);
  }

  lemma RegistersKeep(s: State, r: Regs, chains: Chains)
    requires Inv(s, chains)
    ensures Inv(s.(r := r), chains)
  {
    hide Partition, ChainOk;
    forall o | o in chains
      ensures HeadOk(s.(r := r), o, chains[o])
    {
      assert HeadOk(s, o, chains[o]);
    }
  }

  lemma LeaveKeeps(s: State, chains: Chains, h: Word)
    requires Inv(s, chains) && |chains[Running]| >= 2
    ensures s.current in s.fibers && s.fibers[s.current].parent in s.fibers
    ensures s.fibers[s.current].bucket == NO_BUCKET || s.fibers[s.current].bucket in s.buckets
    ensures Parked(s.fibers[s.fibers[s.current].parent].words, Running, 1)
    ensures var b, run := s.fibers[s.current].bucket, chains[Running];
      if b == NO_BUCKET then Inv(Left(s, h), chains[Running := run[1..]])
      else
        InCache(b) in chains &&
        Inv(Left(s, h), chains[Running := run[1..]][InCache(b) := [run[0]] + chains[InCache(b)]])
  {
    hide Partition;
    RunningParent(s, chains);
    if s.fibers[s.current].bucket == NO_BUCKET {
      FreeUnpooledKeeps(s, Left(s, h), chains, h);
    } else {
      FreePooledKeeps(s, Left(s, h), chains, h);
    }
  }
}
