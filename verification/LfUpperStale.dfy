/**
 A second execution after which freeing is not safe, with calls on different keys only: an insert that has to search
 again links its cell with the upper pointer of its first search, which by then leads to a removed cell.
 */
module LfUpperStale {
  import opened LfLinks
  import opened LfSkiplist
  import opened LfReclaim
  import opened LfTower
  import opened LfUpper
  import opened LfUpperInv
  import opened LfUpperFree
  import opened LfUpperUse
  import opened LfUpperWitness

  // ----- more steps -----

  lemma LooksMarked(x: XState, t: int, v: View)
    requires At(x, t, v) && v.pc.LoadCurr? && v.h.walk.Look? && v.h.walk.curr in x.u && x.u[v.h.walk.curr].marked
    ensures Went(x, t, Go, Seen(x), v.(h := v.h.(walk := Snip(v.h.walk.curr, x.u[v.h.walk.curr].next))))
  {
    Frame(x, t, Go);
  }

  lemma SnipsAbove(x: XState, t: int, v: View, p: int, c: int, z: int)
    requires At(x, t, v) && v.pc == LoadCurr(p) && v.h.walk == Snip(c, z) && v.h.pred == p && p in x.u && c in x.s.up
    requires x.u[p].next == c && !x.u[p].marked
    ensures Went(x, t, Go, Seen(x).(u := Pointed(x.u, p, z)), v.(pc := ClaimCas(ToPred(p), c), h := v.h.(walk := Load)))
  {
    Frame(x, t, Go);
  }

  lemma Passes(x: XState, t: int, v: View, p: int, c: int)
    requires At(x, t, v) && v.pc == Examine(p, c) && c in x.s.links && !x.s.links[c].marked && x.s.links[c].key < v.key
    ensures Went(x, t, Go, Seen(x), v.(pc := Examine(c, x.s.links[c].next)))
  {
    Frame(x, t, Go);
  }

  lemma ClaimedAlready(x: XState, t: int, v: View, p: int, c: int)
    requires At(x, t, v) && v.pc == ClaimCas(ToPred(p), c) && c in x.s.gnext && x.s.gnext[c] != Unclaimed
    ensures Went(x, t, Go, Seen(x), v.(pc := LoadCurr(p)))
  {
    Frame(x, t, Go);
  }

  lemma SearchesAgain(x: XState, t: int, v: View)
    requires At(x, t, v) && v.pc == LinkUpper && v.h.cell != NONE && v.h.pred in x.u && x.u[v.h.pred].next != v.h.succ
    ensures Went(x, t, Go, Seen(x), v.(pc := Search, phase := Relinking))
  {
    Frame(x, t, Go);
  }

  // ----- pieces of the run -----

  ghost predicate Keys2(k1: int, m: int, k2: int, n: int) {
    Key(k1, m) && Key(k2, n) && k1 < k2 && m != n
  }

  /** The head leads to `n` on the upper level, unmarked or not. */
  ghost predicate OneAbove(mem: Memory, k: int, n: int) {
    && HEAD in mem.links && mem.links[HEAD].key == 0 && !mem.links[HEAD].marked
    && HEAD in mem.u && n in mem.u && mem.u[HEAD].next == n && !mem.u[HEAD].marked && mem.u[n].key == k
  }

  /** A search for a key up to that of the one cell above stops there and drops to the bottom level. */
  lemma DescendsBefore(x: XState, t: int, v: View, k: int, n: int) returns (moves: Moves, y: XState)
    requires At(x, t, v) && v.pc == Search && 0 < v.key <= k < MAX_KEY && OneAbove(Seen(x), k, n) && !x.u[n].marked
    ensures Path(x, moves, y, t, Seen(x),
      v.(pc := Examine(HEAD, x.s.links[HEAD].next), h := v.h.(walk := Below, pred := HEAD, succ := n)))
    ensures forall c :: Opens(moves, c)
  {
    hide Went, Path, Opens;
    var mem := Seen(x);
    Starts(x, t, v);
    Enters(x, t, v);
    var v1 := v.(pc := LoadCurr(HEAD), h := v.h.(walk := Load, pred := HEAD));
    moves, y := Takes(x, [], x, t, mem, v, Go, mem, v1);
    Loads(y, t, v1);
    var v2 := v1.(h := v1.h.(walk := Look(n)));
    moves, y := Takes(x, moves, y, t, mem, v1, Go, mem, v2);
    LooksPast(y, t, v2);
    var v3 := v2.(h := v2.h.(walk := Below, succ := n));
    moves, y := Takes(x, moves, y, t, mem, v2, Go, mem, v3);
    Drops(y, t, v3, HEAD);
    moves, y := Takes(x, moves, y, t, mem, v3, Go, mem, v3.(pc := Examine(HEAD, x.s.links[HEAD].next)));
  }

  /** One cell `n` on both levels. */
  ghost function One(k: int, n: int, born: nat): Memory {
    var mem := Inserted1(k, n, born);
    mem.(u := Pointed(mem.u, HEAD, n))
  }

  ghost function Finished(k: int): View {
    View(Idle, k, true, Main, Hold(Below, HEAD, TAIL, NONE))
  }

  lemma InsertsBoth(x: XState, t: int, v: View, k: int, n: int) returns (moves: Moves, y: XState, born: nat)
    requires Key(k, n) && Seen(x) == MEMORY0 && At(x, t, v) && v.pc == Idle
    ensures Path(x, moves, y, t, One(k, n, born), Finished(k)) && Opens(moves, Call(true, k))
  {
    hide Went, Path, Opens;
    moves, y, born := InsertsBelow(x, t, v, k, n);
    var mem, v1 := Inserted1(k, n, born), Linking(k, n);
    Arrived(x, moves, y, t, mem, v1);
    HooksIt(y, t, v1);
    var v2 := v1.(pc := Done(Inserted), h := Hold(Below, HEAD, TAIL, NONE));
    moves, y := Takes(x, moves, y, t, mem, v1, Go, One(k, n, born), v2);
    Returns(y, t, v2);
    moves, y := Takes(x, moves, y, t, One(k, n, born), v2, Go, One(k, n, born), Finished(k));
  }

  /** Then `m` in front of it on the bottom level, its upper pointer leading to `n`. */
  ghost function Two(k1: int, m: int, k2: int, n: int, b1: nat, b2: nat): Memory {
    var mem := One(k2, n, b2);
    mem.(links := Linked(mem.links, HEAD, m, k1), gnext := mem.gnext[m := Unclaimed],
         u := Added(mem.u, m, Rung(k1, b1, n, false)))
  }

  ghost function Waiting(k1: int, m: int, n: int): View {
    View(LinkUpper, k1, true, Main, Hold(Below, HEAD, n, m))
  }

  lemma OneFacts(k: int, n: int, born: nat)
    requires Key(k, n)
    ensures var mem := One(k, n, born);
      && OneAbove(mem, k, n) && !mem.u[n].marked && mem.links[HEAD] == Cell(0, n, false)
      && n in mem.links && mem.links[n] == Cell(k, TAIL, false) && mem.up == {} && mem.glist == [] && mem.ghead == HEAD
      && mem.links.Keys == {HEAD, TAIL, n} && TAIL in mem.links && mem.links[TAIL] == Cell(MAX_KEY, -1, false)
      && mem.u.Keys == {HEAD, TAIL, n} && mem.u[n].next == TAIL && mem.u[TAIL].key == MAX_KEY && !mem.u[TAIL].marked
      && n in mem.gnext && mem.gnext[n] == Unclaimed
  {
  }

  lemma InsertsBefore(x: XState, t: int, k1: int, m: int, k2: int, n: int, b2: nat)
    returns (moves: Moves, y: XState, b1: nat)
    requires Keys2(k1, m, k2, n) && Seen(x) == One(k2, n, b2) && At(x, t, Finished(k2))
    ensures Path(x, moves, y, t, Two(k1, m, k2, n, b1, b2), Waiting(k1, m, n)) && Opens(moves, Call(true, k1))
  {
    hide Went, Path, Opens;
    OneFacts(k2, n, b2);
    hide One;
    var mem, v := One(k2, n, b2), Finished(k2);
    var v1 := View(Search, k1, true, Main, Hold(Below, HEAD, TAIL, NONE));
    Starts(x, t, v);
    Calls(x, t, v, true, k1);
    moves, y := Takes(x, [], x, t, mem, v, Call(true, k1), mem, v1);
    var m2, y2 := DescendsBefore(y, t, v1, k2, n);
    var v2 := v1.(pc := Examine(HEAD, n), h := Hold(Below, HEAD, n, NONE));
    Joins(x, moves, y, m2, y2, t, mem, v1, mem, v2);
    moves, y := moves + m2, y2;
    Examines(y, t, v2, HEAD, n);
    var v3 := v2.(pc := LinkCas(HEAD, n));
    moves, y := Takes(x, moves, y, t, mem, v2, Go, mem, v3);
    Makes(y, t, v3, HEAD, n, m);
    b1 := y.clock;
    moves, y := Takes(x, moves, y, t, mem, v3, Make(m, true), Two(k1, m, k2, n, b1, b2), Waiting(k1, m, n));
  }

  /** The other thread marks `n` on both levels. */
  ghost function TwoMarked(k1: int, m: int, k2: int, n: int, b1: nat, b2: nat): Memory {
    var mem := Two(k1, m, k2, n, b1, b2);
    mem.(links := Marked(mem.links, n), up := {n}, u := Flagged(mem.u, n))
  }

  ghost function Hunter(k2: int, n: int): View {
    View(Search, k2, false, Cleaning(n), Hold(Below, HEAD, n, NONE))
  }

  lemma TwoFacts(k1: int, m: int, k2: int, n: int, b1: nat, b2: nat)
    requires Keys2(k1, m, k2, n)
    ensures var mem := Two(k1, m, k2, n, b1, b2);
      && OneAbove(mem, k2, n) && !mem.u[n].marked && mem.links[HEAD] == Cell(0, m, false)
      && m in mem.links && mem.links[m] == Cell(k1, n, false) && n in mem.links && mem.links[n] == Cell(k2, TAIL, false)
      && mem.up == {} && mem.glist == [] && mem.ghead == HEAD && TAIL in mem.links
      && mem.links[TAIL] == Cell(MAX_KEY, -1, false)
      && m in mem.u && mem.u[m] == Rung(k1, b1, n, false) && TAIL in mem.u && mem.u[n].next == TAIL
      && mem.u[TAIL].key == MAX_KEY && !mem.u[TAIL].marked && n in mem.gnext && mem.gnext[n] == Unclaimed
  {
    OneFacts(k2, n, b2);
    hide One;
  }

  lemma FindsSecond(x: XState, t: int, v: View, k1: int, m: int, k2: int, n: int, b1: nat, b2: nat)
    returns (moves: Moves, y: XState)
    requires Keys2(k1, m, k2, n) && Seen(x) == Two(k1, m, k2, n, b1, b2) && At(x, t, v) && v.pc == Idle
    ensures Path(x, moves, y, t, Two(k1, m, k2, n, b1, b2),
                 View(MarkUpper(n), k2, false, Main, Hold(Below, HEAD, n, NONE)))
    ensures Opens(moves, Call(false, k2))
  {
    hide Went, Path, Opens;
    TwoFacts(k1, m, k2, n, b1, b2);
    hide Two;
    var mem := Two(k1, m, k2, n, b1, b2);
    var v1 := View(Search, k2, false, Main, Hold(Below, HEAD, TAIL, NONE));
    Starts(x, t, v);
    Calls(x, t, v, false, k2);
    moves, y := Takes(x, [], x, t, mem, v, Call(false, k2), mem, v1);
    var m2, y2 := DescendsBefore(y, t, v1, k2, n);
    var v2 := View(Examine(HEAD, m), k2, false, Main, Hold(Below, HEAD, n, NONE));
    Joins(x, moves, y, m2, y2, t, mem, v1, mem, v2);
    moves, y := moves + m2, y2;
    Passes(y, t, v2, HEAD, m);
    var v3 := v2.(pc := Examine(m, n));
    moves, y := Takes(x, moves, y, t, mem, v2, Go, mem, v3);
    Examines(y, t, v3, m, n);
    moves, y := Takes(x, moves, y, t, mem, v3, Go, mem, v3.(pc := MarkUpper(n)));
  }

  /** Marking a cell above and then below, with nobody in the way. */
  lemma MarksIt(x: XState, t: int, v: View, n: int) returns (moves: Moves, y: XState)
    requires At(x, t, v) && v.pc == MarkUpper(n) && n in x.u && !x.u[n].marked && n in x.s.links && !x.s.links[n].marked
    ensures Path(x, moves, y, t, Seen(x).(links := Marked(x.s.links, n), up := x.s.up + {n}, u := Flagged(x.u, n)),
      v.(pc := Search, phase := Cleaning(n)))
    ensures forall c :: Opens(moves, c)
  {
    hide Went, Path, Opens;
    var mem := Seen(x);
    Starts(x, t, v);
    FlagsAbove(x, t, v, n);
    var mem1 := mem.(up := mem.up + {n}, u := Flagged(mem.u, n));
    moves, y := Takes(x, [], x, t, mem, v, Go, mem1, v);
    LeavesAbove(y, t, v, n);
    var v1 := v.(pc := LoadSucc(n));
    moves, y := Takes(x, moves, y, t, mem1, v, Go, mem1, v1);
    LoadsSucc(y, t, v1, n);
    var v2 := v1.(pc := MarkCas(n, mem.links[n].next));
    moves, y := Takes(x, moves, y, t, mem1, v1, Go, mem1, v2);
    MarksBelow(y, t, v2, n);
    moves, y := Takes(x, moves, y, t, mem1, v2, Go, mem1.(links := Marked(mem.links, n)),
                      v.(pc := Search, phase := Cleaning(n)));
  }

  lemma MarksSecond(x: XState, t: int, v: View, k1: int, m: int, k2: int, n: int, b1: nat, b2: nat)
    returns (moves: Moves, y: XState)
    requires Keys2(k1, m, k2, n) && Seen(x) == Two(k1, m, k2, n, b1, b2) && At(x, t, v) && v.pc == Idle
    ensures Path(x, moves, y, t, TwoMarked(k1, m, k2, n, b1, b2), Hunter(k2, n)) && Opens(moves, Call(false, k2))
  {
    hide Went, Path, Opens;
    TwoFacts(k1, m, k2, n, b1, b2);
    hide Two;
    var mem, v1 := Two(k1, m, k2, n, b1, b2), View(MarkUpper(n), k2, false, Main, Hold(Below, HEAD, n, NONE));
    moves, y := FindsSecond(x, t, v, k1, m, k2, n, b1, b2);
    Arrived(x, moves, y, t, mem, v1);
    assert mem.up + {n} == {n};
    var m2, y2 := MarksIt(y, t, v1, n);
    Joins(x, moves, y, m2, y2, t, mem, v1, TwoMarked(k1, m, k2, n, b1, b2), Hunter(k2, n));
    moves, y := moves + m2, y2;
  }

  /** Snipped above, about to be claimed. */
  ghost function Unhooked(k1: int, m: int, k2: int, n: int, b1: nat, b2: nat): Memory {
    var mem := TwoMarked(k1, m, k2, n, b1, b2);
    mem.(u := Pointed(mem.u, HEAD, TAIL))
  }

  ghost function Walker(k2: int, n: int, pc: Pc, walk: Walk): View {
    View(pc, k2, false, Cleaning(n), Hold(walk, HEAD, n, NONE))
  }

  lemma SnipsFirst(x: XState, t: int, k1: int, m: int, k2: int, n: int, b1: nat, b2: nat)
    returns (moves: Moves, y: XState)
    requires Keys2(k1, m, k2, n) && Seen(x) == TwoMarked(k1, m, k2, n, b1, b2) && At(x, t, Hunter(k2, n))
    ensures Path(x, moves, y, t, Unhooked(k1, m, k2, n, b1, b2), Walker(k2, n, ClaimCas(ToPred(HEAD), n), Load))
    ensures forall c :: Opens(moves, c)
  {
    hide Went, Path, Opens;
    TwoFacts(k1, m, k2, n, b1, b2);
    hide Two;
    var mem, end, v := TwoMarked(k1, m, k2, n, b1, b2), Unhooked(k1, m, k2, n, b1, b2), Hunter(k2, n);
    Starts(x, t, v);
    Enters(x, t, v);
    var v1 := Walker(k2, n, LoadCurr(HEAD), Load);
    moves, y := Takes(x, [], x, t, mem, v, Go, mem, v1);
    Loads(y, t, v1);
    var v2 := Walker(k2, n, LoadCurr(HEAD), Look(n));
    moves, y := Takes(x, moves, y, t, mem, v1, Go, mem, v2);
    LooksMarked(y, t, v2);
    var v3 := Walker(k2, n, LoadCurr(HEAD), Snip(n, TAIL));
    moves, y := Takes(x, moves, y, t, mem, v2, Go, mem, v3);
    SnipsAbove(y, t, v3, HEAD, n, TAIL);
    moves, y := Takes(x, moves, y, t, mem, v3, Go, end, Walker(k2, n, ClaimCas(ToPred(HEAD), n), Load));
  }

  /** The cell goes to the garbage list, with nobody in the way. */
  lemma HandsOver(x: XState, t: int, v: View, n: int) returns (moves: Moves, y: XState)
    requires At(x, t, v) && v.pc == ClaimCas(ToPred(HEAD), n) && n in x.s.gnext && x.s.gnext[n] == Unclaimed
    requires x.s.ghead == HEAD && x.s.glist == []
    ensures Path(x, moves, y, t, Seen(x).(gnext := x.s.gnext[n := Next(HEAD)], ghead := n, glist := [n]),
                 v.(pc := LoadCurr(HEAD)))
    ensures forall c :: Opens(moves, c)
  {
    hide Went, Path, Opens;
    var mem := Seen(x);
    var end := mem.(gnext := mem.gnext[n := Next(HEAD)], ghead := n, glist := [n]);
    Starts(x, t, v);
    ClaimsIt(x, t, v, HEAD, n);
    var mem2 := mem.(gnext := mem.gnext[n := Claimed]);
    var v1 := v.(pc := LoadGarbage(ToPred(HEAD), n));
    moves, y := Takes(x, [], x, t, mem, v, Go, mem2, v1);
    LoadsHead(y, t, v1, HEAD, n);
    var v2 := v1.(pc := StoreGarbage(ToPred(HEAD), n, HEAD));
    moves, y := Takes(x, moves, y, t, mem2, v1, Go, mem2, v2);
    StoresNext(y, t, v2, HEAD, n, HEAD);
    var mem3 := mem.(gnext := end.gnext);
    assert mem2.gnext[n := Next(HEAD)] == end.gnext;
    var v3 := v2.(pc := GarbageCas(ToPred(HEAD), n, HEAD));
    moves, y := Takes(x, moves, y, t, mem2, v2, Go, mem3, v3);
    PushesIt(y, t, v3, HEAD, n);
    assert [n] + mem3.glist == [n];
    moves, y := Takes(x, moves, y, t, mem3, v3, Go, end, v.(pc := LoadCurr(HEAD)));
  }

  /** Handed over, and still linked below. */
  ghost function SnippedAbove(k1: int, m: int, k2: int, n: int, b1: nat, b2: nat): Memory {
    var mem := Unhooked(k1, m, k2, n, b1, b2);
    mem.(gnext := mem.gnext[n := Next(HEAD)], ghead := n, glist := [n])
  }

  ghost function SnippedBoth(k1: int, m: int, k2: int, n: int, b1: nat, b2: nat): Memory {
    var mem := SnippedAbove(k1, m, k2, n, b1, b2);
    mem.(links := Snipped(mem.links, m))
  }

  lemma SnippedFacts(k1: int, m: int, k2: int, n: int, b1: nat, b2: nat)
    requires Keys2(k1, m, k2, n)
    ensures var mem := SnippedAbove(k1, m, k2, n, b1, b2);
      && EmptyAbove(mem) && mem.links[HEAD] == Cell(0, m, false) && m in mem.links && mem.links[m] == Cell(k1, n, false)
      && n in mem.links && mem.links[n] == Cell(k2, TAIL, true) && TAIL in mem.links
      && mem.links[TAIL] == Cell(MAX_KEY, -1, false)
      && m in mem.u && mem.u[m] == Rung(k1, b1, n, false) && n in mem.gnext && mem.gnext[n] != Unclaimed
  {
    TwoFacts(k1, m, k2, n, b1, b2);
    hide Two;
  }

  /** On with the search, to the removed cell on the bottom level. */
  lemma FindsAgain(x: XState, t: int, k1: int, m: int, k2: int, n: int, b1: nat, b2: nat)
    returns (moves: Moves, y: XState)
    requires Keys2(k1, m, k2, n) && Seen(x) == SnippedAbove(k1, m, k2, n, b1, b2)
    requires At(x, t, Walker(k2, n, LoadCurr(HEAD), Load))
    ensures Path(x, moves, y, t, SnippedAbove(k1, m, k2, n, b1, b2), Cleaner(k2, n).(pc := SnipCas(m, n, TAIL)))
    ensures forall c :: Opens(moves, c)
  {
    hide Went, Path, Opens;
    SnippedFacts(k1, m, k2, n, b1, b2);
    hide SnippedAbove;
    var mem, v := SnippedAbove(k1, m, k2, n, b1, b2), Walker(k2, n, LoadCurr(HEAD), Load);
    Starts(x, t, v);
    Loads(x, t, v);
    var v1 := v.(h := Hold(Look(TAIL), HEAD, n, NONE));
    moves, y := Takes(x, [], x, t, mem, v, Go, mem, v1);
    LooksPast(y, t, v1);
    var v2 := Cleaner(k2, n).(pc := LoadCurr(HEAD));
    moves, y := Takes(x, moves, y, t, mem, v1, Go, mem, v2);
    Drops(y, t, v2, HEAD);
    var v3 := v2.(pc := Examine(HEAD, m));
    moves, y := Takes(x, moves, y, t, mem, v2, Go, mem, v3);
    Passes(y, t, v3, HEAD, m);
    var v4 := v3.(pc := Examine(m, n));
    moves, y := Takes(x, moves, y, t, mem, v3, Go, mem, v4);
    MeetsMarked(y, t, v4, m, n);
    moves, y := Takes(x, moves, y, t, mem, v4, Go, mem, v4.(pc := SnipCas(m, n, TAIL)));
  }

  lemma SnipsSecond(x: XState, t: int, k1: int, m: int, k2: int, n: int, b1: nat, b2: nat)
    returns (moves: Moves, y: XState)
    requires Keys2(k1, m, k2, n) && Seen(x) == SnippedAbove(k1, m, k2, n, b1, b2)
    requires At(x, t, Cleaner(k2, n).(pc := SnipCas(m, n, TAIL)))
    ensures Path(x, moves, y, t, SnippedBoth(k1, m, k2, n, b1, b2), Cleaner(k2, n).(pc := Idle))
    ensures forall c :: Opens(moves, c)
  {
    hide Went, Path, Opens;
    SnippedFacts(k1, m, k2, n, b1, b2);
    hide SnippedAbove;
    var mem, end := SnippedAbove(k1, m, k2, n, b1, b2), SnippedBoth(k1, m, k2, n, b1, b2);
    var v := Cleaner(k2, n).(pc := SnipCas(m, n, TAIL));
    Starts(x, t, v);
    SnipsBelow(x, t, v, m, n);
    var v1 := v.(pc := ClaimCas(ToPred(m), n));
    moves, y := Takes(x, [], x, t, mem, v, Go, end, v1);
    ClaimedAlready(y, t, v1, m, n);
    var v2 := v1.(pc := LoadCurr(m));
    moves, y := Takes(x, moves, y, t, end, v1, Go, end, v2);
    Drops(y, t, v2, m);
    var v3 := v2.(pc := Examine(m, TAIL));
    moves, y := Takes(x, moves, y, t, end, v2, Go, end, v3);
    Examines(y, t, v3, m, TAIL);
    var v4 := v3.(pc := Done(Removed));
    moves, y := Takes(x, moves, y, t, end, v3, Go, end, v4);
    Returns(y, t, v4);
    moves, y := Takes(x, moves, y, t, end, v4, Go, end, v4.(pc := Idle));
  }

  /** Both snipped, and `m` linked above with its pointer to `n`. */
  ghost function StaleEnd(k1: int, m: int, k2: int, n: int, b1: nat, b2: nat): Memory {
    var mem := SnippedBoth(k1, m, k2, n, b1, b2);
    mem.(u := Pointed(mem.u, HEAD, m))
  }

  ghost function Linker(k1: int, m: int, pc: Pc): View {
    View(pc, k1, true, Relinking, Hold(Below, HEAD, TAIL, m))
  }

  /** The first thread fails to link and searches again. */
  lemma FailsToLink(x: XState, t: int, k1: int, m: int, k2: int, n: int, b1: nat, b2: nat)
    returns (moves: Moves, y: XState)
    requires Keys2(k1, m, k2, n) && Seen(x) == SnippedBoth(k1, m, k2, n, b1, b2) && At(x, t, Waiting(k1, m, n))
    ensures Path(x, moves, y, t, Seen(x), Linker(k1, m, Examine(HEAD, m))) && forall c :: Opens(moves, c)
  {
    hide Went, Path, Opens;
    SnippedFacts(k1, m, k2, n, b1, b2);
    hide SnippedAbove;
    var mem, v := Seen(x), Waiting(k1, m, n);
    Starts(x, t, v);
    SearchesAgain(x, t, v);
    var v1 := v.(pc := Search, phase := Relinking);
    moves, y := Takes(x, [], x, t, mem, v, Go, mem, v1);
    var m2, y2 := Descends(y, t, v1);
    Joins(x, moves, y, m2, y2, t, mem, v1, mem, Linker(k1, m, Examine(HEAD, m)));
    moves, y := moves + m2, y2;
  }

  /** Then it links `m` with its old pointer to `n`. */
  lemma LinksStale(x: XState, t: int, k1: int, m: int, k2: int, n: int, b1: nat, b2: nat)
    returns (moves: Moves, y: XState)
    requires Keys2(k1, m, k2, n) && Seen(x) == SnippedBoth(k1, m, k2, n, b1, b2)
    requires At(x, t, Linker(k1, m, Examine(HEAD, m)))
    ensures Path(x, moves, y, t, StaleEnd(k1, m, k2, n, b1, b2), Linker(k1, NONE, Idle)) && forall c :: Opens(moves, c)
  {
    hide Went, Path, Opens;
    SnippedFacts(k1, m, k2, n, b1, b2);
    hide SnippedAbove;
    var mem, end, v := Seen(x), StaleEnd(k1, m, k2, n, b1, b2), Linker(k1, m, Examine(HEAD, m));
    Starts(x, t, v);
    Examines(x, t, v, HEAD, m);
    var v1 := Linker(k1, m, LinkUpper);
    moves, y := Takes(x, [], x, t, mem, v, Go, mem, v1);
    HooksIt(y, t, v1);
    var v2 := Linker(k1, NONE, Done(Inserted));
    moves, y := Takes(x, moves, y, t, mem, v1, Go, end, v2);
    Returns(y, t, v2);
    moves, y := Takes(x, moves, y, t, end, v2, Go, end, Linker(k1, NONE, Idle));
  }

  // ----- the keys in flight -----

  /** No call in flight but that of `t` is of the other kind on the key of `c`. */
  ghost predicate NoClash(s: State, t: int, c: Move) {
    c.Call? && forall v :: v in s.threads && v != t && !s.threads[v].pc.Idle? ==>
      s.threads[v].info.inserting == c.inserting || s.threads[v].info.key != c.key
  }

  lemma CalmStep(x: XState, t: int, mv: Move, c: Move)
    requires XEnabled(x, t, mv) && KeysApart(x.s) && NoClash(x.s, t, c) && (mv.Call? ==> mv == c)
    ensures KeysApart(XStepped(x, t, mv).s) && NoClash(XStepped(x, t, mv).s, t, c)
  {
    hide PlanOf, Stepped, Enabled, Local, Relinked;
    var y := XStepped(x, t, mv);
    forall v | v in x.s.threads && v != t
      ensures v in y.s.threads && y.s.threads[v].pc == x.s.threads[v].pc
      ensures y.s.threads[v].info.key == x.s.threads[v].info.key
      ensures y.s.threads[v].info.inserting == x.s.threads[v].info.inserting
    {
      if PlanOf(x, t, mv).base.Does? {
        OthersKeep(x.s, t, PlanOf(x, t, mv).base.a, v);
      }
    }
    Frame(x, t, mv);
    IdleCalls(x, t, mv);
    CallOrSame(x, t, mv);
  }

  /** A step begins a call or leaves the thread's key and kind. */
  lemma CallOrSame(x: XState, t: int, mv: Move)
    requires XEnabled(x, t, mv)
    ensures t in XStepped(x, t, mv).s.threads
    ensures var i, i' := x.s.threads[t].info, XStepped(x, t, mv).s.threads[t].info;
      if mv.Call? then i'.key == mv.key && i'.inserting == mv.inserting
        else i'.key == i.key && i'.inserting == i.inserting
  {
    hide Stepped, Relinked, WalkPlan, LinkPlan, MakePlan, Local, Enabled;
    if PlanOf(x, t, mv).base.Does? {
      ActorAfter(x.s, t, PlanOf(x, t, mv).base.a);
      LocalCall(x.s, t, PlanOf(x, t, mv).base.a);
      PlanCalls(x, t, mv);
    }
  }

  lemma LocalCall(s: State, t: int, a: Action)
    requires Enabled(s, t, a)
    ensures var i, i' := s.threads[t].info, Local(s, t, a).1.info;
      if a.Begin? then i'.key == a.key && i'.inserting == a.inserting
        else i'.key == i.key && i'.inserting == i.inserting
  {
    hide EffectOf;
  }

  lemma PlanCalls(x: XState, t: int, mv: Move)
    requires t in x.s.threads && t in x.holds && PlanOf(x, t, mv) != Stuck && PlanOf(x, t, mv).base.Does?
    ensures PlanOf(x, t, mv).base.a.Begin? <==> mv.Call?
    ensures mv.Call? ==> PlanOf(x, t, mv).base.a == Begin(mv.inserting, mv.key)
  {
    hide EffectOf;
  }

  lemma {:induction false} CalmPiece(x: XState, moves: Moves, t: int, c: Move)
    requires Runs(x, moves) && (forall i :: 0 <= i < |moves| ==> moves[i].0 == t) && Opens(moves, c)
    requires KeysApart(x.s) && NoClash(x.s, t, c)
    ensures Calm(x, moves) && KeysApart(End(x, moves).s)
    decreases |moves|
  {
    hide XEnabled, XStepped, KeysApart, NoClash;
    if moves != [] {
      CalmStep(x, t, moves[0].1, c);
      assert forall i :: 0 <= i < |moves| - 1 ==> moves[1..][i] == moves[i + 1];
      CalmPiece(XStepped(x, t, moves[0].1), moves[1..], t, c);
    }
  }

  /** A piece of the run appended to a calm run. */
  lemma Appends(x: XState, m1: Moves, y: XState, m2: Moves, z: XState, t: int, mem: Memory, v: View, o: int, w: View,
                c: Move)
    requires Runs(x, m1) && End(x, m1) == y && Calm(x, m1) && KeysApart(y.s) && y.s.threads.Keys == {t, o} && t != o
    requires Path(y, m2, z, t, mem, v) && Opens(m2, c) && c.Call? && At(y, o, w)
    requires w.pc.Idle? || w.inserting == c.inserting || w.key != c.key
    ensures Runs(x, m1 + m2) && End(x, m1 + m2) == z && Calm(x, m1 + m2) && KeysApart(z.s)
    ensures z.s.threads.Keys == {t, o} && Seen(z) == mem && At(z, t, v) && At(z, o, w)
  {
    hide XEnabled, XStepped, KeysApart, Seen;
    CalmPiece(y, m2, t, c);
    RunsOn(x, m1, m2);
    CalmOn(x, m1, m2);
  }

  // ----- the whole run -----

  lemma StaleRun(k1: int, m: int, k2: int, n: int) returns (moves: Moves, z: XState, b1: nat, b2: nat)
    requires Keys2(k1, m, k2, n)
    ensures Runs(Start(), moves) && End(Start(), moves) == z && Calm(Start(), moves) && z.s.threads.Keys == {1, 2}
    ensures Seen(z) == StaleEnd(k1, m, k2, n, b1, b2) && At(z, 1, Linker(k1, NONE, Idle))
    ensures At(z, 2, Cleaner(k2, n).(pc := Idle))
  {
    hide Path, Runs, End, Calm, KeysApart, At, Seen, Start, One, Two, TwoMarked, Unhooked, SnippedAbove, SnippedBoth,
         StaleEnd, Opens;
    var x, idle := Start(), View(Idle, 0, false, Main, Hold(Below, HEAD, TAIL, NONE));
    StartsEmpty();
    StartsCalm();
    var more, y;
    more, y, b2 := InsertsBoth(x, 1, idle, k2, n);
    Appends(x, [], x, more, y, 1, One(k2, n, b2), Finished(k2), 2, idle, Call(true, k2));
    moves, z := [] + more, y;
    more, y, b1 := InsertsBefore(z, 1, k1, m, k2, n, b2);
    Appends(x, moves, z, more, y, 1, Two(k1, m, k2, n, b1, b2), Waiting(k1, m, n), 2, idle, Call(true, k1));
    moves, z := moves + more, y;
    more, y := MarksSecond(z, 2, idle, k1, m, k2, n, b1, b2);
    var c, w := Call(false, k2), Waiting(k1, m, n);
    Appends(x, moves, z, more, y, 2, TwoMarked(k1, m, k2, n, b1, b2), Hunter(k2, n), 1, w, c);
    moves, z := moves + more, y;
    more, y := SnipsFirst(z, 2, k1, m, k2, n, b1, b2);
    var hunter := Walker(k2, n, ClaimCas(ToPred(HEAD), n), Load);
    Appends(x, moves, z, more, y, 2, Unhooked(k1, m, k2, n, b1, b2), hunter, 1, w, c);
    moves, z := moves + more, y;
    UnhookedClaim(z, k1, m, k2, n, b1, b2);
    more, y := HandsOver(z, 2, hunter, n);
    Appends(x, moves, z, more, y, 2, SnippedAbove(k1, m, k2, n, b1, b2), hunter.(pc := LoadCurr(HEAD)), 1, w, c);
    moves, z := moves + more, y;
    more, y := FindsAgain(z, 2, k1, m, k2, n, b1, b2);
    var snip := Cleaner(k2, n).(pc := SnipCas(m, n, TAIL));
    Appends(x, moves, z, more, y, 2, SnippedAbove(k1, m, k2, n, b1, b2), snip, 1, w, c);
    moves, z := moves + more, y;
    more, y := SnipsSecond(z, 2, k1, m, k2, n, b1, b2);
    Appends(x, moves, z, more, y, 2, SnippedBoth(k1, m, k2, n, b1, b2), Cleaner(k2, n).(pc := Idle), 1, w, c);
    moves, z := moves + more, y;
    more, y := FailsToLink(z, 1, k1, m, k2, n, b1, b2);
    var done, link := Cleaner(k2, n).(pc := Idle), Linker(k1, m, Examine(HEAD, m));
    Appends(x, moves, z, more, y, 1, SnippedBoth(k1, m, k2, n, b1, b2), link, 2, done, Call(true, k1));
    moves, z := moves + more, y;
    more, y := LinksStale(z, 1, k1, m, k2, n, b1, b2);
    Appends(x, moves, z, more, y, 1, StaleEnd(k1, m, k2, n, b1, b2), Linker(k1, NONE, Idle), 2, done, Call(true, k1));
    moves, z := moves + more, y;
  }

  lemma StartsCalm()
    ensures Runs(Start(), []) && End(Start(), []) == Start() && Calm(Start(), []) && KeysApart(Start().s)
  {
  }

  lemma UnhookedClaim(x: XState, k1: int, m: int, k2: int, n: int, b1: nat, b2: nat)
    requires Keys2(k1, m, k2, n) && Seen(x) == Unhooked(k1, m, k2, n, b1, b2)
    ensures n in x.s.gnext && x.s.gnext[n] == Unclaimed && x.s.ghead == HEAD && x.s.glist == []
    ensures Seen(x).(gnext := x.s.gnext[n := Next(HEAD)], ghead := n, glist := [n]) ==
      SnippedAbove(k1, m, k2, n, b1, b2)
  {
  }

  lemma StaleEnds(x: XState, k1: int, m: int, k2: int, n: int, b1: nat, b2: nat)
    requires Keys2(k1, m, k2, n) && x.s.threads.Keys == {1, 2} && Seen(x) == StaleEnd(k1, m, k2, n, b1, b2)
    requires At(x, 1, Linker(k1, NONE, Idle)) && At(x, 2, Cleaner(k2, n).(pc := Idle))
    ensures Quiescent(x.s) && n in x.s.glist && OnLevel(x.u, n) && !Clean(x)
  {
    assert x.u[HEAD].next == m && x.u[m] == Rung(k1, b1, n, false) && x.u[n] == Rung(k2, b2, TAIL, true);
    assert forall c :: c in x.u ==> c == HEAD || c == TAIL || c == n || c == m;
    assert Ordered(x.u);
    assert Leads(x.u, n, n);
    assert Leads(x.u, m, n);
  }

  /**
   Keeping an insert and a remove of the same key apart is not enough: with inserts and a remove of different keys in
   flight, all calls return and the head leads on the upper level to a cell of the garbage list, over a cell linked with
   a stale pointer.
   */
  lemma {:induction false} FreedThoughKeysApart(k1: int, m: int, k2: int, n: int)
    returns (xs: seq<XState>, events: seq<XEvent>)
    requires Keys2(k1, m, k2, n)
    ensures XExecution(xs, events) && forall i :: 0 <= i < |xs| ==> KeysApart(xs[i].s)
    ensures var x := xs[|events|]; Quiescent(x.s) && n in x.s.glist && OnLevel(x.u, n) && !Clean(x)
  {
    hide Runs, End, Calm, KeysApart, At, Seen, Start, XInitial, XFollows, OnLevel, Quiescent, Clean, StaleEnd;
    StartsEmpty();
    var moves, y, b1, b2 := StaleRun(k1, m, k2, n);
    xs, events := RunsExecute(Start(), moves);
    StaleEnds(y, k1, m, k2, n, b1, b2);
  }
}
