/** An execution after which freeing the garbage leaves the upper level's head pointing to a freed cell. */
module LfUpperWitness {
  import opened LfLinks
  import opened LfSkiplist
  import opened LfReclaim
  import opened LfTower
  import opened LfUpper
  import opened LfUpperFree
  import opened LfUpperUse

  // ----- runs -----

  /** The state after a list of moves, and whether each of them was possible. */
  ghost function End(x: XState, moves: seq<(int, Move)>): XState
    decreases |moves|
  {
    if moves == [] then x
    else if XEnabled(x, moves[0].0, moves[0].1) then End(XStepped(x, moves[0].0, moves[0].1), moves[1..])
    else x
  }

  ghost predicate Runs(x: XState, moves: seq<(int, Move)>)
    decreases |moves|
  {
    moves == [] ||
    (XEnabled(x, moves[0].0, moves[0].1) && Runs(XStepped(x, moves[0].0, moves[0].1), moves[1..]))
  }

  lemma {:induction false} RunsOn(x: XState, a: seq<(int, Move)>, b: seq<(int, Move)>)
    requires Runs(x, a) && Runs(End(x, a), b)
    ensures Runs(x, a + b) && End(x, a + b) == End(End(x, a), b)
    decreases |a|
  {
    hide XEnabled, XStepped;
    if a == [] {
      assert a + b == b;
    } else {
      RunsOn(XStepped(x, a[0].0, a[0].1), a[1..], b);
      assert (a + b)[1..] == a[1..] + b;
    }
  }

  /** No insert is in flight together with a remove of the same key. */
  ghost predicate KeysApart(s: State) {
    forall t, v :: t in s.threads && v in s.threads && Inserting(s.threads[t]) && Deleting(s.threads[v]) ==>
      s.threads[t].info.key != s.threads[v].info.key
  }

  /** That holds in every state of a run. */
  ghost predicate Calm(x: XState, moves: seq<(int, Move)>)
    decreases |moves|
  {
    && KeysApart(x.s)
    && (moves == [] ||
        (XEnabled(x, moves[0].0, moves[0].1) && Calm(XStepped(x, moves[0].0, moves[0].1), moves[1..])))
  }

  lemma {:induction false} CalmOn(x: XState, a: seq<(int, Move)>, b: seq<(int, Move)>)
    requires Calm(x, a) && Calm(End(x, a), b)
    ensures Calm(x, a + b)
    decreases |a|
  {
    hide XEnabled, XStepped, KeysApart;
    if a == [] {
      assert a + b == b;
    } else {
      CalmOn(XStepped(x, a[0].0, a[0].1), a[1..], b);
      assert (a + b)[1..] == a[1..] + b;
    }
  }

  lemma {:induction false} RunsExecute(x: XState, moves: seq<(int, Move)>)
    returns (xs: seq<XState>, events: seq<XEvent>)
    requires Runs(x, moves)
    ensures |xs| == |events| + 1 == |moves| + 1 && xs[0] == x && xs[|moves|] == End(x, moves)
    ensures forall i :: 0 <= i < |events| ==> XFollows(xs[i], events[i], xs[i + 1])
    ensures Calm(x, moves) ==> forall i :: 0 <= i < |xs| ==> KeysApart(xs[i].s)
    decreases |moves|
  {
    hide XEnabled, XStepped, KeysApart;
    if moves == [] {
      xs, events := [x], [];
    } else {
      var (t, mv) := moves[0];
      var y := XStepped(x, t, mv);
      var ys, es := RunsExecute(y, moves[1..]);
      xs, events := [x] + ys, [XAct(t, mv)] + es;
    }
  }

  // ----- what is seen of a state -----

  /** The shared memory. */
  datatype Memory = Memory(links: Links, up: set<int>, gnext: map<int, Garbage>, ghead: int, glist: seq<int>, u: Tower)

  ghost function Seen(x: XState): Memory {
    Memory(x.s.links, x.s.up, x.s.gnext, x.s.ghead, x.s.glist, x.u)
  }

  /** A thread: its place, its call and what it holds. */
  datatype View = View(pc: Pc, key: int, inserting: bool, phase: Phase, h: Hold)

  ghost predicate At(x: XState, t: int, v: View) {
    && t in x.s.threads && t in x.holds
    && x.s.threads[t].pc == v.pc && x.s.threads[t].info.key == v.key && x.s.threads[t].info.inserting == v.inserting
    && x.s.threads[t].info.phase == v.phase && x.holds[t] == v.h
  }

  /** A step of `t` to the view `v`, leaving memory `mem` and the other threads alone. */
  ghost predicate Went(x: XState, t: int, mv: Move, mem: Memory, v: View) {
    && XEnabled(x, t, mv)
    && var y := XStepped(x, t, mv);
       Seen(y) == mem && At(y, t, v) && y.s.threads.Keys == x.s.threads.Keys &&
       (forall o, w :: o != t && At(x, o, w) ==> At(y, o, w))
  }

  lemma Frame(x: XState, t: int, mv: Move)
    requires XEnabled(x, t, mv)
    ensures var y := XStepped(x, t, mv);
      y.s.threads.Keys == x.s.threads.Keys && (forall o, w :: o != t && At(x, o, w) ==> At(y, o, w))
  {
    hide PlanOf, Keys, EffectOf, Applied, Local, Stepped, Relinked;
    var base := PlanOf(x, t, mv).base;
    if base.Does? {
      SteppedThreads(x.s, t, base.a);
    }
  }

  // ----- the steps, one by one -----

  lemma Calls(x: XState, t: int, v: View, inserting: bool, key: int)
    requires At(x, t, v) && v.pc == Idle && 0 < key < MAX_KEY
    ensures Went(x, t, Call(inserting, key), Seen(x), View(Search, key, inserting, Main, Hold(Below, HEAD, TAIL, NONE)))
  {
    Frame(x, t, Call(inserting, key));
  }

  lemma Enters(x: XState, t: int, v: View)
    requires At(x, t, v) && v.pc == Search && 0 < v.key < MAX_KEY
    requires HEAD in x.s.links && x.s.links[HEAD].key == 0 && !x.s.links[HEAD].marked
    ensures Went(x, t, Go, Seen(x), v.(pc := LoadCurr(HEAD), h := v.h.(walk := Load, pred := HEAD)))
  {
    Frame(x, t, Go);
  }

  lemma Loads(x: XState, t: int, v: View)
    requires At(x, t, v) && v.pc.LoadCurr? && v.h.walk == Load && v.h.pred in x.u
    ensures Went(x, t, Go, Seen(x), v.(h := v.h.(walk := Look(x.u[v.h.pred].next))))
  {
    Frame(x, t, Go);
  }

  lemma LooksPast(x: XState, t: int, v: View)
    requires At(x, t, v) && v.pc.LoadCurr? && v.h.walk.Look? && v.h.walk.curr in x.u
    requires var r := x.u[v.h.walk.curr]; !r.marked && r.key >= v.key
    ensures Went(x, t, Go, Seen(x), v.(h := v.h.(walk := Below, succ := v.h.walk.curr)))
  {
    Frame(x, t, Go);
  }

  lemma Drops(x: XState, t: int, v: View, p: int)
    requires At(x, t, v) && v.pc == LoadCurr(p) && v.h.walk == Below && p in x.s.links
    ensures Went(x, t, Go, Seen(x), v.(pc := Examine(p, x.s.links[p].next)))
  {
    Frame(x, t, Go);
  }

  /** The search of the bottom level ends at an unmarked cell. */
  lemma Examines(x: XState, t: int, v: View, p: int, c: int)
    requires At(x, t, v) && v.pc == Examine(p, c) && c in x.s.links && !x.s.links[c].marked && x.s.links[c].key >= v.key
    ensures Went(x, t, Go, Seen(x), v.(pc :=
      match v.phase
      case Cleaning(_) => Done(Removed)
      case Relinking => LinkUpper
      case Main =>
        if v.inserting then (if x.s.links[c].key == v.key then Done(AlreadyThere) else LinkCas(p, c))
        else (if x.s.links[c].key == v.key then MarkUpper(c) else Done(NotThere))))
  {
    Frame(x, t, Go);
  }

  lemma MeetsMarked(x: XState, t: int, v: View, p: int, c: int)
    requires At(x, t, v) && v.pc == Examine(p, c) && c in x.s.links && x.s.links[c].marked
    ensures Went(x, t, Go, Seen(x), v.(pc := SnipCas(p, c, x.s.links[c].next)))
  {
    Frame(x, t, Go);
  }

  lemma Makes(x: XState, t: int, v: View, p: int, c: int, n: int)
    requires At(x, t, v) && v.pc == LinkCas(p, c) && n !in x.s.links && n != NONE
    requires p in x.s.links && !x.s.links[p].marked && x.s.links[p].next == c
    ensures Went(x, t, Make(n, true),
      Seen(x).(links := Linked(x.s.links, p, n, v.key), gnext := x.s.gnext[n := Unclaimed],
               u := Added(x.u, n, Rung(v.key, x.clock, v.h.succ, false))),
      v.(pc := LinkUpper, h := v.h.(cell := n)))
  {
    Frame(x, t, Make(n, true));
  }

  lemma FlagsAbove(x: XState, t: int, v: View, n: int)
    requires At(x, t, v) && v.pc == MarkUpper(n) && n in x.u && !x.u[n].marked
    ensures Went(x, t, Go, Seen(x).(up := x.s.up + {n}, u := Flagged(x.u, n)), v)
  {
    Frame(x, t, Go);
  }

  lemma LeavesAbove(x: XState, t: int, v: View, n: int)
    requires At(x, t, v) && v.pc == MarkUpper(n) && n in x.u && x.u[n].marked
    ensures Went(x, t, Go, Seen(x), v.(pc := LoadSucc(n)))
  {
    Frame(x, t, Go);
  }

  lemma LoadsSucc(x: XState, t: int, v: View, n: int)
    requires At(x, t, v) && v.pc == LoadSucc(n) && n in x.s.links
    ensures Went(x, t, Go, Seen(x), v.(pc := MarkCas(n, x.s.links[n].next)))
  {
    Frame(x, t, Go);
  }

  lemma MarksBelow(x: XState, t: int, v: View, n: int)
    requires At(x, t, v) && n in x.s.links && v.pc == MarkCas(n, x.s.links[n].next) && !x.s.links[n].marked
    ensures Went(x, t, Go, Seen(x).(links := Marked(x.s.links, n)), v.(pc := Search, phase := Cleaning(n)))
  {
    Frame(x, t, Go);
  }

  lemma SnipsBelow(x: XState, t: int, v: View, p: int, c: int)
    requires At(x, t, v) && p in x.s.links && c in x.s.links && v.pc == SnipCas(p, c, x.s.links[c].next)
    requires !x.s.links[p].marked && x.s.links[p].next == c
    ensures Went(x, t, Go, Seen(x).(links := Snipped(x.s.links, p)), v.(pc := ClaimCas(ToPred(p), c)))
  {
    Frame(x, t, Go);
  }

  /** Claiming a cell, preparing its link and pushing it: four steps with nobody in the way. */
  lemma ClaimsIt(x: XState, t: int, v: View, p: int, c: int)
    requires At(x, t, v) && v.pc == ClaimCas(ToPred(p), c) && c in x.s.gnext && x.s.gnext[c] == Unclaimed
    ensures Went(x, t, Go, Seen(x).(gnext := x.s.gnext[c := Claimed]), v.(pc := LoadGarbage(ToPred(p), c)))
  {
    Frame(x, t, Go);
  }

  lemma LoadsHead(x: XState, t: int, v: View, p: int, c: int)
    requires At(x, t, v) && v.pc == LoadGarbage(ToPred(p), c)
    ensures Went(x, t, Go, Seen(x), v.(pc := StoreGarbage(ToPred(p), c, x.s.ghead)))
  {
    Frame(x, t, Go);
  }

  lemma StoresNext(x: XState, t: int, v: View, p: int, c: int, g: int)
    requires At(x, t, v) && v.pc == StoreGarbage(ToPred(p), c, g)
    ensures Went(x, t, Go, Seen(x).(gnext := x.s.gnext[c := Next(g)]), v.(pc := GarbageCas(ToPred(p), c, g)))
  {
    Frame(x, t, Go);
  }

  lemma PushesIt(x: XState, t: int, v: View, p: int, c: int)
    requires At(x, t, v) && v.pc == GarbageCas(ToPred(p), c, x.s.ghead)
    ensures Went(x, t, Go, Seen(x).(ghead := c, glist := [c] + x.s.glist), v.(pc := LoadCurr(p)))
  {
    Frame(x, t, Go);
  }

  lemma HooksIt(x: XState, t: int, v: View)
    requires At(x, t, v) && v.pc == LinkUpper && v.h.cell != NONE && v.h.pred in x.u
    requires x.u[v.h.pred].next == v.h.succ && !x.u[v.h.pred].marked
    ensures Went(x, t, Go, Seen(x).(u := Pointed(x.u, v.h.pred, v.h.cell)),
                 v.(pc := Done(Inserted), h := v.h.(cell := NONE)))
  {
    Frame(x, t, Go);
  }

  lemma Returns(x: XState, t: int, v: View)
    requires At(x, t, v) && v.pc.Done?
    ensures Went(x, t, Go, Seen(x), v.(pc := Idle))
  {
    Frame(x, t, Go);
  }

  // ----- pieces of the run -----

  type Moves = seq<(int, Move)>

  /** From `x` by `moves` of `t` to `y`, with this memory and this view; the other threads stay. */
  ghost predicate Path(x: XState, moves: Moves, y: XState, t: int, mem: Memory, v: View) {
    && Runs(x, moves) && End(x, moves) == y && Seen(y) == mem && At(y, t, v)
    && y.s.threads.Keys == x.s.threads.Keys && (forall o, w :: o != t && At(x, o, w) ==> At(y, o, w))
    && forall i :: 0 <= i < |moves| ==> moves[i].0 == t
  }

  /** No call but `c` begins. */
  ghost predicate Opens(moves: Moves, c: Move) {
    forall i :: 0 <= i < |moves| && moves[i].1.Call? ==> moves[i].1 == c
  }

  lemma Starts(x: XState, t: int, v: View)
    requires At(x, t, v)
    ensures Path(x, [], x, t, Seen(x), v) && forall c :: Opens([], c)
  {
  }

  lemma Takes(x: XState, moves: Moves, y: XState, t: int, mem: Memory, v: View, mv: Move, mem': Memory, v': View)
    returns (moves': Moves, y': XState)
    requires Path(x, moves, y, t, mem, v) && Went(y, t, mv, mem', v')
    ensures Path(x, moves', y', t, mem', v') && Seen(y') == mem' && At(y', t, v')
    ensures forall c :: Opens(moves, c) && (mv.Call? ==> mv == c) ==> Opens(moves', c)
  {
    hide XEnabled, XStepped, At, Seen;
    moves', y' := moves + [(t, mv)], XStepped(y, t, mv);
    assert Runs(y, [(t, mv)]) && End(y, [(t, mv)]) == y' by {
      assert [(t, mv)][1..] == [];
    }
    RunsOn(x, moves, [(t, mv)]);
  }

  /** The upper level has no cell between the sentinels, and the head is as ever. */
  ghost predicate EmptyAbove(mem: Memory) {
    && HEAD in mem.links && mem.links[HEAD].key == 0 && !mem.links[HEAD].marked
    && HEAD in mem.u && TAIL in mem.u && mem.u[HEAD].next == TAIL && !mem.u[HEAD].marked
    && !mem.u[TAIL].marked && mem.u[TAIL].key == MAX_KEY
  }

  /** A search passes over the empty upper level to the first cell below. */
  lemma Descends(x: XState, t: int, v: View) returns (moves: Moves, y: XState)
    requires At(x, t, v) && v.pc == Search && 0 < v.key < MAX_KEY && EmptyAbove(Seen(x))
    ensures Path(x, moves, y, t, Seen(x),
      v.(pc := Examine(HEAD, x.s.links[HEAD].next), h := v.h.(walk := Below, pred := HEAD, succ := TAIL)))
    ensures forall c :: Opens(moves, c)
  {
    hide Went, Path;
    var mem := Seen(x);
    Starts(x, t, v);
    Enters(x, t, v);
    var v1 := v.(pc := LoadCurr(HEAD), h := v.h.(walk := Load, pred := HEAD));
    moves, y := Takes(x, [], x, t, mem, v, Go, mem, v1);
    Loads(y, t, v1);
    var v2 := v1.(h := v1.h.(walk := Look(TAIL)));
    moves, y := Takes(x, moves, y, t, mem, v1, Go, mem, v2);
    LooksPast(y, t, v2);
    var v3 := v2.(h := v2.h.(walk := Below, succ := TAIL));
    moves, y := Takes(x, moves, y, t, mem, v2, Go, mem, v3);
    Drops(y, t, v3, HEAD);
    moves, y := Takes(x, moves, y, t, mem, v3, Go, mem, v3.(pc := Examine(HEAD, x.s.links[HEAD].next)));
  }

  lemma Arrived(x: XState, moves: Moves, y: XState, t: int, mem: Memory, v: View)
    requires Path(x, moves, y, t, mem, v)
    ensures Seen(y) == mem && At(y, t, v) && y.s.threads.Keys == x.s.threads.Keys
    ensures forall o, w :: o != t && At(x, o, w) ==> At(y, o, w)
  {
  }

  lemma Joins(x: XState, m1: Moves, y: XState, m2: Moves, z: XState, t: int, mem: Memory, v: View, mem': Memory,
              v': View)
    requires Path(x, m1, y, t, mem, v) && Path(y, m2, z, t, mem', v')
    ensures Path(x, m1 + m2, z, t, mem', v') && Seen(z) == mem' && At(z, t, v')
    ensures forall c :: Opens(m1, c) && Opens(m2, c) ==> Opens(m1 + m2, c)
  {
    hide XEnabled, XStepped;
    RunsOn(x, m1, m2);
  }

  const LINKS0: Links := map[HEAD := Cell(0, TAIL, false), TAIL := Cell(MAX_KEY, -1, false)]
  const TOWER0: Tower := map[HEAD := Rung(0, 0, TAIL, false), TAIL := Rung(MAX_KEY, 0, -1, false)]
  const GNEXT0: map<int, Garbage> := map[HEAD := Unclaimed, TAIL := Unclaimed]
  const MEMORY0 := Memory(LINKS0, {}, GNEXT0, HEAD, [], TOWER0)

  ghost predicate Key(k: int, n: int) {
    0 < k < MAX_KEY && n != HEAD && n != TAIL && n != NONE
  }

  /** After the first thread has inserted `n` on the bottom level, and before it links it above. */
  ghost function Inserted1(k: int, n: int, born: nat): Memory {
    Memory(Linked(LINKS0, HEAD, n, k), {}, GNEXT0[n := Unclaimed], HEAD, [], TOWER0[n := Rung(k, born, TAIL, false)])
  }

  ghost function Linking(k: int, n: int): View {
    View(LinkUpper, k, true, Main, Hold(Below, HEAD, TAIL, n))
  }

  lemma InsertsBelow(x: XState, t: int, v: View, k: int, n: int) returns (moves: Moves, y: XState, born: nat)
    requires Key(k, n) && Seen(x) == MEMORY0 && At(x, t, v) && v.pc == Idle
    ensures Path(x, moves, y, t, Inserted1(k, n, born), Linking(k, n)) && Opens(moves, Call(true, k))
  {
    hide Went, Path;
    var v1 := View(Search, k, true, Main, Hold(Below, HEAD, TAIL, NONE));
    Starts(x, t, v);
    Calls(x, t, v, true, k);
    moves, y := Takes(x, [], x, t, MEMORY0, v, Call(true, k), MEMORY0, v1);
    var m2, y2 := Descends(y, t, v1);
    var v2 := v1.(pc := Examine(HEAD, TAIL));
    Joins(x, moves, y, m2, y2, t, MEMORY0, v1, MEMORY0, v2);
    moves, y := moves + m2, y2;
    Examines(y, t, v2, HEAD, TAIL);
    var v3 := v2.(pc := LinkCas(HEAD, TAIL));
    moves, y := Takes(x, moves, y, t, MEMORY0, v2, Go, MEMORY0, v3);
    Makes(y, t, v3, HEAD, TAIL, n);
    born := y.clock;
    moves, y := Takes(x, moves, y, t, MEMORY0, v3, Make(n, true), Inserted1(k, n, born), Linking(k, n));
  }

  /** After the second thread has marked `n` on both levels. */
  ghost function Marked1(k: int, n: int, born: nat): Memory {
    var m := Inserted1(k, n, born);
    m.(links := Marked(m.links, n), up := {n}, u := Flagged(m.u, n))
  }

  ghost function Cleaner(k: int, n: int): View {
    View(Search, k, false, Cleaning(n), Hold(Below, HEAD, TAIL, NONE))
  }

  lemma MarksBoth(x: XState, t: int, v: View, k: int, n: int, born: nat) returns (moves: Moves, y: XState)
    requires Key(k, n) && Seen(x) == Inserted1(k, n, born) && At(x, t, v) && v.pc == Idle
    ensures Path(x, moves, y, t, Marked1(k, n, born), Cleaner(k, n))
  {
    hide Went, Path;
    var mem := Inserted1(k, n, born);
    var v1 := View(Search, k, false, Main, Hold(Below, HEAD, TAIL, NONE));
    Starts(x, t, v);
    Calls(x, t, v, false, k);
    moves, y := Takes(x, [], x, t, mem, v, Call(false, k), mem, v1);
    var m2, y2 := Descends(y, t, v1);
    var v2 := v1.(pc := Examine(HEAD, n));
    Joins(x, moves, y, m2, y2, t, mem, v1, mem, v2);
    moves, y := moves + m2, y2;
    Examines(y, t, v2, HEAD, n);
    var v3 := v2.(pc := MarkUpper(n));
    moves, y := Takes(x, moves, y, t, mem, v2, Go, mem, v3);
    FlagsAbove(y, t, v3, n);
    var mem1 := mem.(up := {n}, u := Flagged(mem.u, n));
    assert mem.up + {n} == {n};
    moves, y := Takes(x, moves, y, t, mem, v3, Go, mem1, v3);
    LeavesAbove(y, t, v3, n);
    var v4 := v3.(pc := LoadSucc(n));
    moves, y := Takes(x, moves, y, t, mem1, v3, Go, mem1, v4);
    LoadsSucc(y, t, v4, n);
    var v5 := v4.(pc := MarkCas(n, TAIL));
    moves, y := Takes(x, moves, y, t, mem1, v4, Go, mem1, v5);
    MarksBelow(y, t, v5, n);
    moves, y := Takes(x, moves, y, t, mem1, v5, Go, Marked1(k, n, born), Cleaner(k, n));
  }

  /** After the second thread has snipped `n` from the bottom level and put it on the garbage list. */
  ghost function Removed1(k: int, n: int, born: nat): Memory {
    var m := Marked1(k, n, born);
    m.(links := Snipped(m.links, HEAD), gnext := m.gnext[n := Next(HEAD)], ghead := n, glist := [n])
  }

  lemma CleansUp(x: XState, t: int, k: int, n: int, born: nat) returns (moves: Moves, y: XState)
    requires Key(k, n) && Seen(x) == Marked1(k, n, born) && At(x, t, Cleaner(k, n))
    ensures Path(x, moves, y, t, Removed1(k, n, born), Cleaner(k, n).(pc := Idle))
  {
    hide Went, Path;
    var mem, end := Marked1(k, n, born), Removed1(k, n, born);
    var v0 := Cleaner(k, n);
    moves, y := Descends(x, t, v0);
    var v1 := v0.(pc := Examine(HEAD, n));
    Arrived(x, moves, y, t, mem, v1);
    MeetsMarked(y, t, v1, HEAD, n);
    var v2 := v1.(pc := SnipCas(HEAD, n, TAIL));
    moves, y := Takes(x, moves, y, t, mem, v1, Go, mem, v2);
    SnipsBelow(y, t, v2, HEAD, n);
    var mem1 := mem.(links := end.links);
    var v3 := v2.(pc := ClaimCas(ToPred(HEAD), n));
    moves, y := Takes(x, moves, y, t, mem, v2, Go, mem1, v3);
    ClaimsIt(y, t, v3, HEAD, n);
    var mem2 := mem1.(gnext := mem1.gnext[n := Claimed]);
    var v4 := v3.(pc := LoadGarbage(ToPred(HEAD), n));
    moves, y := Takes(x, moves, y, t, mem1, v3, Go, mem2, v4);
    LoadsHead(y, t, v4, HEAD, n);
    var v5 := v4.(pc := StoreGarbage(ToPred(HEAD), n, HEAD));
    moves, y := Takes(x, moves, y, t, mem2, v4, Go, mem2, v5);
    StoresNext(y, t, v5, HEAD, n, HEAD);
    var mem3 := mem1.(gnext := end.gnext);
    assert mem2.gnext[n := Next(HEAD)] == end.gnext;
    var v6 := v5.(pc := GarbageCas(ToPred(HEAD), n, HEAD));
    moves, y := Takes(x, moves, y, t, mem2, v5, Go, mem3, v6);
    PushesIt(y, t, v6, HEAD, n);
    var v7 := v6.(pc := LoadCurr(HEAD));
    assert [n] + mem3.glist == [n];
    moves, y := Takes(x, moves, y, t, mem3, v6, Go, end, v7);
    Drops(y, t, v7, HEAD);
    var v8 := v7.(pc := Examine(HEAD, TAIL));
    moves, y := Takes(x, moves, y, t, end, v7, Go, end, v8);
    Examines(y, t, v8, HEAD, TAIL);
    var v9 := v8.(pc := Done(LfSkiplist.Removed));
    moves, y := Takes(x, moves, y, t, end, v8, Go, end, v9);
    Returns(y, t, v9);
    moves, y := Takes(x, moves, y, t, end, v9, Go, end, v0.(pc := Idle));
  }

  /** The first thread links the cell above, long after it was removed. */
  lemma LinksLate(x: XState, t: int, k: int, n: int, born: nat) returns (moves: Moves, y: XState)
    requires Key(k, n) && Seen(x) == Removed1(k, n, born) && At(x, t, Linking(k, n))
    ensures var mem := Removed1(k, n, born);
      Path(x, moves, y, t, mem.(u := Pointed(mem.u, HEAD, n)),
           Linking(k, n).(pc := Idle, h := Hold(Below, HEAD, TAIL, NONE)))
  {
    hide Went, Path;
    var mem, v := Removed1(k, n, born), Linking(k, n);
    Starts(x, t, v);
    HooksIt(x, t, v);
    var end, v1 := mem.(u := Pointed(mem.u, HEAD, n)),
        v.(pc := Done(LfSkiplist.Inserted), h := Hold(Below, HEAD, TAIL, NONE));
    moves, y := Takes(x, [], x, t, mem, v, Go, end, v1);
    Returns(y, t, v1);
    moves, y := Takes(x, moves, y, t, end, v1, Go, end, v1.(pc := Idle));
  }

  // ----- the whole run -----

  ghost function Start(): XState {
    var idle := Thread(Info(0, false, Main, false, false), Idle);
    var none := Hold(Below, HEAD, TAIL, NONE);
    XState(State(LINKS0, {}, GNEXT0, HEAD, map[1 := idle, 2 := idle], []), TOWER0, map[1 := none, 2 := none], 1, {})
  }

  lemma StartsEmpty()
    ensures XInitial(Start()) && Seen(Start()) == MEMORY0 && Start().s.threads.Keys == {1, 2}
    ensures forall t :: t == 1 || t == 2 ==> At(Start(), t, View(Idle, 0, false, Main, Hold(Below, HEAD, TAIL, NONE)))
  {
  }

  /**
   One insert and one remove of the same key, any key: the insert links its cell on the bottom level and pauses, the
   remove marks it, snips it there and hands it over, and the insert then links the removed cell above. Both calls have
   returned, and freeing the garbage would free a cell the head points to on the upper level.
   */
  lemma {:induction false} FreedButLinked(k: int, n: int) returns (xs: seq<XState>, events: seq<XEvent>)
    requires Key(k, n)
    ensures XExecution(xs, events)
    ensures var x := xs[|events|]; Quiescent(x.s) && n in x.s.glist && OnLevel(x.u, n) && !Clean(x)
  {
    hide Path, XEnabled, XStepped, Inserted1, Marked1, Removed1, Linking, Cleaner, Start, At, Seen, XInitial, XFollows,
         OnLevel, Quiescent, Clean;
    var x0 := Start();
    StartsEmpty();
    var v0 := View(Idle, 0, false, Main, Hold(Below, HEAD, TAIL, NONE));
    var m1, x1, born := InsertsBelow(x0, 1, v0, k, n);
    Arrived(x0, m1, x1, 1, Inserted1(k, n, born), Linking(k, n));
    var m2, x2 := MarksBoth(x1, 2, v0, k, n, born);
    Arrived(x1, m2, x2, 2, Marked1(k, n, born), Cleaner(k, n));
    var m3, x3 := CleansUp(x2, 2, k, n, born);
    Arrived(x2, m3, x3, 2, Removed1(k, n, born), Cleaner(k, n).(pc := Idle));
    var m4, x4 := LinksLate(x3, 1, k, n, born);
    Whole(x0, x1, x2, x3, x4, m1, m2, m3, m4, k, n, born);
    xs, events := RunsExecute(x0, m1 + m2 + m3 + m4);
    Ends(x4, k, n, born);
  }

  lemma Whole(x0: XState, x1: XState, x2: XState, x3: XState, x4: XState, m1: Moves, m2: Moves, m3: Moves, m4: Moves,
              k: int, n: int, born: nat)
    requires Path(x0, m1, x1, 1, Inserted1(k, n, born), Linking(k, n))
    requires Path(x1, m2, x2, 2, Marked1(k, n, born), Cleaner(k, n))
    requires Path(x2, m3, x3, 2, Removed1(k, n, born), Cleaner(k, n).(pc := Idle))
    requires var mem := Removed1(k, n, born);
      Path(x3, m4, x4, 1, mem.(u := Pointed(mem.u, HEAD, n)),
           Linking(k, n).(pc := Idle, h := Hold(Below, HEAD, TAIL, NONE)))
    ensures Runs(x0, m1 + m2 + m3 + m4) && End(x0, m1 + m2 + m3 + m4) == x4
    ensures At(x4, 2, Cleaner(k, n).(pc := Idle))
    ensures At(x4, 1, Linking(k, n).(pc := Idle, h := Hold(Below, HEAD, TAIL, NONE)))
    ensures x4.s.threads.Keys == x0.s.threads.Keys
    ensures var mem := Removed1(k, n, born); Seen(x4) == mem.(u := Pointed(mem.u, HEAD, n))
  {
    hide XEnabled, XStepped, Inserted1, Marked1, Removed1, Linking, Cleaner, At, Seen;
    RunsOn(x0, m1, m2);
    RunsOn(x0, m1 + m2, m3);
    RunsOn(x0, m1 + m2 + m3, m4);
  }

  lemma Ends(x: XState, k: int, n: int, born: nat)
    requires Key(k, n) && x.s.threads.Keys == {1, 2}
    requires At(x, 2, Cleaner(k, n).(pc := Idle))
    requires At(x, 1, Linking(k, n).(pc := Idle, h := Hold(Below, HEAD, TAIL, NONE)))
    requires var mem := Removed1(k, n, born); Seen(x) == mem.(u := Pointed(mem.u, HEAD, n))
    ensures Quiescent(x.s) && n in x.s.glist && OnLevel(x.u, n) && !Clean(x)
  {
    assert x.u[HEAD].next == n && x.u[n] == Rung(k, born, TAIL, true);
    assert forall m :: m in x.u ==> m == HEAD || m == TAIL || m == n;
    assert Ordered(x.u);
    assert Leads(x.u, n, n);
  }
}
