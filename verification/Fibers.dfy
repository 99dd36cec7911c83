/** Effect handlers on the bytecode machine: stacks that move between the running chain, continuations and the cache. */
module Fibers {
  import opened Lists
  import opened Bytecode

  const NULL := 0

  /** A stack that is not running keeps its words; `next` links the stacks of a cache bucket. */
  datatype Fiber = Fiber(words: seq<Word>, parent: int, next: int, bucket: int, hval: Word, hexn: Word, heff: Word)

  /** The registers hold the words of the `current` stack. A continuation holds a stack, or NULL once taken. */
  datatype State = State(r: Regs, current: int, fibers: map<int, Fiber>, conts: map<int, int>, buckets: map<int, int>)

  const NO_BUCKET := -1
  const FIBER_BUCKET := 0

  // ----- where stacks are -----

  datatype Owner = Running | InCont(c: int) | InHand(p: int) | InCache(b: int)

  /** Every owner's stacks, from the innermost outwards. */
  type Chains = map<Owner, seq<int>>

  function Link(f: Fiber, o: Owner): int {
    if o.InCache? then f.next else f.parent
  }

  /** What a stack that is not executing keeps on top: the trap offset, and for one that waits for a child its extra
      arguments. */
  predicate Parked(words: seq<Word>, o: Owner, i: int) {
    match o
    case InCache(_) => true
    case Running => i > 0 ==> |words| >= 2 && words[0].Long? && words[1].Long?
    case _ => |words| >= 1 && words[0].Long? && (i > 0 ==> |words| >= 2 && words[1].Long?)
  }

  ghost predicate NodeOk(fibers: map<int, Fiber>, o: Owner, chain: seq<int>, i: int)
    requires 0 <= i < |chain|
  {
    && chain[i] != NULL && chain[i] in fibers
    && Link(fibers[chain[i]], o) == (if i + 1 < |chain| then chain[i + 1] else NULL)
    && Parked(fibers[chain[i]].words, o, i)
  }

  ghost predicate ChainOk(fibers: map<int, Fiber>, o: Owner, chain: seq<int>) {
    forall i :: 0 <= i < |chain| ==> NodeOk(fibers, o, chain, i)
  }

  /** The chain of an owner starts where the machine says. */
  ghost predicate HeadOk(s: State, o: Owner, chain: seq<int>) {
    match o
    case Running => |chain| > 0 && chain[0] == s.current
    case InCont(c) => c in s.conts && s.conts[c] != NULL && |chain| > 0 && chain[0] == s.conts[c]
    case InHand(p) => |chain| > 0 && chain[0] == p
    case InCache(b) => b in s.buckets && s.buckets[b] == if chain == [] then NULL else chain[0]
  }

  /** Every stack is in exactly one chain, once. */
  ghost predicate Partition(stacks: set<int>, chains: Chains) {
    && (forall o, p :: o in chains && p in chains[o] ==> p in stacks)
    && (forall p :: p in stacks ==> exists o :: o in chains && p in chains[o])
    && (forall o1, o2, p :: o1 in chains && o2 in chains && p in chains[o1] && p in chains[o2] ==> o1 == o2)
    && (forall o :: o in chains ==> NoDuplicates(chains[o]))
  }

  ghost predicate Owners(s: State, chains: Chains) {
    && Running in chains
    && (forall c :: c in s.conts && s.conts[c] != NULL ==> InCont(c) in chains)
    && (forall b :: b in s.buckets ==> InCache(b) in chains)
    && (forall p :: p in s.fibers ==> s.fibers[p].bucket == NO_BUCKET || s.fibers[p].bucket in s.buckets)
    && FIBER_BUCKET in s.buckets && NO_BUCKET !in s.buckets
  }

  ghost predicate Inv(s: State, chains: Chains) {
    && Owners(s, chains)
    && Partition(s.fibers.Keys, chains)
    && (forall o :: o in chains ==> ChainOk(s.fibers, o, chains[o]) && HeadOk(s, o, chains[o]))
  }

  // ----- the instructions -----

  function Entry(f: Word): int {
    if f.Closure? then f.entry else 0
  }

  /** The handler of an effect runs on `parent`, with the effect, the continuation and its last stack as arguments. */
  function Delivered(s: State, fibers: map<int, Fiber>, parent: int, eff: Word, c: int, from: int): State
    requires parent in fibers && from in fibers && Parked(fibers[parent].words, Running, 1)
  {
    var w, h := fibers[parent].words, fibers[from].heff;
    s.(r := Regs(Entry(h), h, h, w[1].n + 2, w[0].n, [eff, Cont(c), Stack(from)] + w[2..]), current := parent,
       fibers := fibers)
  }

  function SavedPerform(r: Regs): seq<Word> {
    [Long(r.trap), Code(r.pc + 1), r.env, Long(r.extra)] + r.words
  }

  function Performed(s: State, c: int): State
    requires s.current in s.fibers && s.fibers[s.current].parent in s.fibers
    requires s.fibers[s.current].parent != s.current && Parked(s.fibers[s.fibers[s.current].parent].words, Running, 1)
  {
    var f := s.fibers[s.current];
    var fibers := s.fibers[s.current := f.(words := SavedPerform(s.r), parent := NULL)];
    Delivered(s.(conts := s.conts[c := s.current]), fibers, f.parent, s.r.accu, c, s.current)
  }

  /** What the resumer leaves on its stack: RESUME also pushes a return frame, RESUMETERM and REPERFORMTERM drop
      theirs. */
  function SavedResume(r: Regs): seq<Word>
    requires |r.words| >= 2
  {
    [Long(r.trap), Long(0)] + Frame(r.pc + 1, r.env, r.extra) + r.words[2..]
  }

  function SavedTerm(r: Regs, slots: int): seq<Word>
    requires 2 <= slots <= |r.words|
  {
    [Long(r.trap), Long(r.extra)] + r.words[slots..]
  }

  /** Passes the effect on to the handler of the parent; this stack joins the continuation at its end, `tail`. */
  function Reperformed(s: State, slots: int, c: int, tail: int): State
    requires s.current in s.fibers && s.fibers[s.current].parent in s.fibers && tail in s.fibers
    requires s.fibers[s.current].parent != s.current && s.fibers[s.current].parent != tail && s.current != tail
    requires Parked(s.fibers[s.fibers[s.current].parent].words, Running, 1) && 2 <= slots <= |s.r.words|
  {
    var f := s.fibers[s.current];
    var fibers := s.fibers[s.current := f.(words := SavedTerm(s.r, slots), parent := NULL)];
    Delivered(s, fibers[tail := fibers[tail].(parent := s.current)], f.parent, s.r.accu, c, s.current)
  }

  /** Puts the chain from `p` to `tail` on top of the current stack, which keeps `saved`, and calls `fn` there. */
  function Resumed(s: State, saved: seq<Word>, fn: Word, arg: Word, p: int, tail: int): State
    requires s.current in s.fibers && tail in s.fibers && p in s.fibers && s.current != p && s.current != tail
    requires Parked(s.fibers[p].words, InHand(p), 0)
  {
    var fibers := s.fibers[tail := s.fibers[tail].(parent := s.current)];
    var w := fibers[p].words;
    s.(r := Regs(Entry(fn), fn, fn, 0, w[0].n, [arg] + w[1..]), current := p,
       fibers := fibers[s.current := fibers[s.current].(words := saved)])
  }

  /** Gives a stack back: to its cache bucket, or away for good. */
  function Freed(s: State, p: int): State
    requires p in s.fibers && (s.fibers[p].bucket == NO_BUCKET || s.fibers[p].bucket in s.buckets)
  {
    var b := s.fibers[p].bucket;
    if b == NO_BUCKET then s.(fibers := s.fibers - {p})
    else s.(fibers := s.fibers[p := s.fibers[p].(next := s.buckets[b])], buckets := s.buckets[b := p])
  }

  /** A return or an exception leaves the current stack: handler `h` of that stack runs on its parent. */
  function Left(s: State, h: Word): State
    requires s.current in s.fibers && s.fibers[s.current].parent in s.fibers
    requires s.fibers[s.current].bucket == NO_BUCKET || s.fibers[s.current].bucket in s.buckets
    requires Parked(s.fibers[s.fibers[s.current].parent].words, Running, 1)
  {
    var parent := s.fibers[s.current].parent;
    var w := s.fibers[parent].words;
    Freed(s, s.current).(r := Regs(Entry(h), h, h, w[1].n, w[0].n, [s.r.accu] + w[2..]), current := parent)
  }

  /** A stack from the cache, or a new one at `p`. */
  function Allocated(s: State, p: int, hval: Word, hexn: Word, heff: Word): State
    requires FIBER_BUCKET in s.buckets
    requires s.buckets[FIBER_BUCKET] != NULL ==> s.buckets[FIBER_BUCKET] in s.fibers
  {
    var cached := s.buckets[FIBER_BUCKET];
    var q := if cached != NULL then cached else p;
    var bucket := if cached != NULL then s.fibers[cached].bucket else FIBER_BUCKET;
    var buckets := if cached != NULL then s.buckets[FIBER_BUCKET := s.fibers[cached].next] else s.buckets;
    s.(r := s.r.(accu := Stack(q)), buckets := buckets,
       fibers := s.fibers[q := Fiber([Long(1)], NULL, NULL, bucket, hval, hexn, heff)])
  }

  /** The cache holds a stack of size class `b`. */
  predicate HasCached(s: State, b: int) {
    b in s.buckets && s.buckets[b] != NULL
  }

  function StackFor(s: State, b: int, p: int): int {
    if HasCached(s, b) then s.buckets[b] else p
  }

  /** The current stack is full: handlers and parent go to a larger stack of size class `b`, cached or new at `p`, and
      the old one is given back. The words are in the registers. */
  function Enlarged(s: State, b: int, p: int): State
    requires s.current in s.fibers
    requires (s.fibers[s.current].bucket == NO_BUCKET || s.fibers[s.current].bucket in s.buckets)
    requires StackFor(s, b, p) != s.current && (HasCached(s, b) ==> s.buckets[b] in s.fibers)
  {
    var f, q := s.fibers[s.current], StackFor(s, b, p);
    var bucket := if HasCached(s, b) then s.fibers[q].bucket else b;
    var buckets := if HasCached(s, b) then s.buckets[b := s.fibers[q].next] else s.buckets;
    Freed(s.(fibers := s.fibers[q := f.(next := NULL, bucket := bucket)], buckets := buckets), s.current).(current := q)
  }

  // ----- steps -----

  /** `Local` is any instruction that stays on the current stack. A continuation and its last stack reach REPERFORMTERM
      as the handler got them; a stack reaches RESUME from `Use` or `Alloc`. */
  datatype Action =
    | Local(r: Regs)
    | Grow(p: int, b: int)
    | Alloc(p: int, hval: Word, hexn: Word, heff: Word)
    | Perform(c: int)
    | Reperform(slots: int)
    | ReperformTop(slots: int, fn: Word, exn: Word)
    | Use(c: int)
    | Resume
    | ResumeTerm(slots: int)
    | ResumeTaken(saved: seq<Word>, exn: Word)
    | ReturnUp
    | RaiseUp

  ghost predicate CanReperform(s: State, chains: Chains, slots: int) {
    && 2 <= slots <= |s.r.words|
    && s.r.words[0].Cont? && InCont(s.r.words[0].c) in chains
    && s.r.words[1] == Stack(Last(chains[InCont(s.r.words[0].c)]))
  }

  ghost predicate CanResume(s: State, chains: Chains) {
    |s.r.words| >= 2 && s.r.accu.Stack? && InHand(s.r.accu.p) in chains
  }

  /** A larger stack is of another size class than the current one, or of none. */
  ghost predicate OtherClass(s: State, b: int) {
    b == NO_BUCKET || (b in s.buckets && (s.current in s.fibers ==> s.fibers[s.current].bucket != b))
  }

  ghost predicate Enabled(a: Action, s: State, chains: Chains)
    requires Inv(s, chains)
  {
    match a
    case Local(_) => true
    case Grow(p, b) => p != NULL && p !in s.fibers && OtherClass(s, b)
    case Alloc(p, _, _, _) => p != NULL && p !in s.fibers
    case Perform(c) => c !in s.conts && |chains[Running]| >= 2
    case Reperform(slots) => CanReperform(s, chains, slots) && |chains[Running]| >= 2
    case ReperformTop(slots, _, _) => CanReperform(s, chains, slots) && |chains[Running]| == 1
    case Use(c) => c in s.conts
    case Resume => CanResume(s, chains)
    case ResumeTerm(slots) => CanResume(s, chains) && 2 <= slots <= |s.r.words|
    case ResumeTaken(_, _) => s.r.accu == Stack(NULL)
    case ReturnUp => s.r.words == [] && |chains[Running]| >= 2
    case RaiseUp => s.r.trap > 0 && |chains[Running]| >= 2
  }

  ghost function Last(chain: seq<int>): int {
    if chain == [] then NULL else chain[|chain| - 1]
  }

  /** What the invariant says about the stacks an instruction touches. */
  lemma RunningParent(s: State, chains: Chains)
    requires Inv(s, chains)
    ensures s.current in s.fibers && s.current != NULL
    ensures s.fibers[s.current].parent == NULL <==> |chains[Running]| == 1
    ensures |chains[Running]| >= 2 ==>
      && var parent := s.fibers[s.current].parent;
         parent == chains[Running][1] && parent in s.fibers && parent != s.current && parent != NULL &&
         Parked(s.fibers[parent].words, Running, 1)
  {
    var run := chains[Running];
    assert HeadOk(s, Running, run) && ChainOk(s.fibers, Running, run);
    assert NodeOk(s.fibers, Running, run, 0);
    if |run| >= 2 {
      assert NodeOk(s.fibers, Running, run, 1);
    }
  }

  /** The last stack of a suspended chain: not running, and parentless. */
  lemma SuspendedEnds(s: State, chains: Chains, o: Owner)
    requires Inv(s, chains) && o in chains && (o.InCont? || o.InHand?)
    ensures var chain := chains[o];
      && |chain| > 0 && Last(chain) in s.fibers && s.fibers[Last(chain)].parent == NULL
      && chain[0] in s.fibers && Parked(s.fibers[chain[0]].words, o, 0) && chain[0] != NULL
      && forall p :: p in chains[Running] ==> p !in chain
  {
    var chain := chains[o];
    assert HeadOk(s, o, chain) && ChainOk(s.fibers, o, chain);
    assert NodeOk(s.fibers, o, chain, 0) && NodeOk(s.fibers, o, chain, |chain| - 1);
  }

  ghost function Do(a: Action, s: State, chains: Chains): State
    requires Inv(s, chains) && Enabled(a, s, chains)
  {
    RunningParent(s, chains);
    match a
    case Local(r) => s.(r := r)
    case Grow(p, b) =>
      CachedStack(s, chains, b);
      Enlarged(s, b, p)
    case Alloc(p, hval, hexn, heff) =>
      CacheHead(s, chains, FIBER_BUCKET);
      Allocated(s, p, hval, hexn, heff)
    case Perform(c) => Performed(s, c)
    case Reperform(slots) =>
      var c := s.r.words[0].c;
      SuspendedEnds(s, chains, InCont(c));
      Reperformed(s, slots, c, s.r.words[1].p)
    case ReperformTop(slots, fn, exn) =>
      var c := s.r.words[0].c;
      SuspendedEnds(s, chains, InCont(c));
      Resumed(s.(conts := s.conts[c := NULL]), SavedTerm(s.r, slots), fn, exn, s.conts[c], Last(chains[InCont(c)]))
    case Use(c) => s.(r := s.r.(accu := Stack(s.conts[c])), conts := s.conts[c := NULL])
    case Resume =>
      SuspendedEnds(s, chains, InHand(s.r.accu.p));
      Resumed(s, SavedResume(s.r), s.r.words[0], s.r.words[1], s.r.accu.p, Last(chains[InHand(s.r.accu.p)]))
    case ResumeTerm(slots) =>
      SuspendedEnds(s, chains, InHand(s.r.accu.p));
      Resumed(s, SavedTerm(s.r, slots), s.r.words[0], s.r.words[1], s.r.accu.p, Last(chains[InHand(s.r.accu.p)]))
    case ResumeTaken(saved, exn) => s.(r := s.r.(accu := exn, words := saved))
    case ReturnUp => Left(s, s.fibers[s.current].hval)
    case RaiseUp => Left(s, s.fibers[s.current].hexn)
  }

  lemma CacheHead(s: State, chains: Chains, b: int)
    requires Inv(s, chains) && b in s.buckets
    ensures s.buckets[b] != NULL ==>
      && s.buckets[b] in s.fibers && chains[InCache(b)] != [] && chains[InCache(b)][0] == s.buckets[b]
      && s.fibers[s.buckets[b]].next == (if |chains[InCache(b)]| > 1 then chains[InCache(b)][1] else NULL)
    ensures s.buckets[b] == NULL ==> chains[InCache(b)] == []
  {
    var chain := chains[InCache(b)];
    assert HeadOk(s, InCache(b), chain) && ChainOk(s.fibers, InCache(b), chain);
    if chain != [] {
      assert NodeOk(s.fibers, InCache(b), chain, 0);
    }
  }

  lemma CachedStack(s: State, chains: Chains, b: int)
    requires Inv(s, chains)
    ensures HasCached(s, b) ==>
      && s.buckets[b] in s.fibers && InCache(b) in chains && chains[InCache(b)] != []
      && s.buckets[b] != s.current && chains[InCache(b)][0] == s.buckets[b]
  {
    if HasCached(s, b) {
      CacheHead(s, chains, b);
      RunningParent(s, chains);
      assert HeadOk(s, Running, chains[Running]);
      assert s.current in chains[Running] && s.buckets[b] in chains[InCache(b)];
    }
  }

  /** How the action moves stacks between owners. */
  ghost function Moved(a: Action, s: State, chains: Chains): Chains
    requires Inv(s, chains) && Enabled(a, s, chains)
  {
    RunningParent(s, chains);
    var run := chains[Running];
    match a
    case Local(_) | ResumeTaken(_, _) => chains
    case Grow(p, b) =>
      CachedStack(s, chains, b);
      var taken := if HasCached(s, b) then chains[InCache(b) := chains[InCache(b)][1..]] else chains;
      GivenBack(taken, s.fibers[s.current].bucket, run[0])[Running := [StackFor(s, b, p)] + run[1..]]
    case Alloc(p, _, _, _) =>
      var q := s.buckets[FIBER_BUCKET];
      if q != NULL then
        CacheHead(s, chains, FIBER_BUCKET);
        chains[InCache(FIBER_BUCKET) := chains[InCache(FIBER_BUCKET)][1..]][InHand(q) := [q]]
      else chains[InHand(p) := [p]]
    case Perform(c) => chains[Running := run[1..]][InCont(c) := [run[0]]]
    case Reperform(_) =>
      var o := InCont(s.r.words[0].c);
      chains[Running := run[1..]][o := chains[o] + [run[0]]]
    case ReperformTop(_, _, _) => Joined(chains, InCont(s.r.words[0].c))
    case Use(c) =>
      if s.conts[c] == NULL then chains
      else (chains - {InCont(c)})[InHand(s.conts[c]) := chains[InCont(c)]]
    case Resume | ResumeTerm(_) => Joined(chains, InHand(s.r.accu.p))
    case ReturnUp | RaiseUp =>
      var b := s.fibers[s.current].bucket;
      if b == NO_BUCKET then chains[Running := run[1..]]
      else chains[Running := run[1..]][InCache(b) := [run[0]] + chains[InCache(b)]]
  }

  ghost function GivenBack(chains: Chains, b: int, p: int): Chains
    requires b == NO_BUCKET || InCache(b) in chains
  {
    if b == NO_BUCKET then chains else chains[InCache(b) := [p] + chains[InCache(b)]]
  }

  /** A suspended chain goes on top of the running one. */
  ghost function Joined(chains: Chains, o: Owner): Chains
    requires o in chains && Running in chains && o != Running
  {
    (chains - {o})[Running := chains[o] + chains[Running]]
  }
}
