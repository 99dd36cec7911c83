/** Freeing the garbage with an upper level: it is safe exactly when no link step has led to a removed cell. */
module LfUpperFree {
  import opened LfLinks
  import opened LfSkiplist
  import opened LfReclaim
  import opened LfTower
  import opened LfUpper
  import opened LfUpperInv
  import opened LfUpperRuns

  /** No cell of the garbage list can be met by a search of the upper level. */
  ghost predicate Clean(x: XState) {
    forall n :: n in x.s.glist ==> !OnLevel(x.u, n)
  }

  /** With no operation in flight, the removed cells still on the upper level are those a link step has led to. */
  lemma {:induction false} QuiescentLevel(x: XState, n: int)
    requires XInv(x) && Quiescent(x.s)
    ensures n in x.s.glist && OnLevel(x.u, n) <==> n in x.relinked
  {
    hide CoreInv, GarbageInv, OwnersInv, TowerOk, HoldsOk, OnLevel, Unhidden;
    InvParts(x);
    if n in x.s.links {
      QuiescentGarbage(x.s, n);
    } else if n in x.s.glist {
      ListedIn(x.s, n);
    }
    NobodyHunts(x, n);
    assert !Missing(x, n);
  }

  lemma NobodyHunts(x: XState, n: int)
    requires Ordered(x.u) && Quiescent(x.s)
    ensures forall t :: !Hunting(x, t, n)
  {
    hide Tracks;
  }

  lemma ListedIn(s: State, n: int)
    requires Inv(s) && n in s.glist
    ensures n in s.links
  {
    hide CoreInv, OwnersInv, ListOk, PushersOk, HasPusher;
    assert Condemned(s.links, s.up, n);
  }

  lemma CleanIsNotRelinked(x: XState)
    requires XInv(x) && Quiescent(x.s)
    ensures Clean(x) <==> x.relinked == {}
  {
    hide XInv, OnLevel;
    if x.relinked == {} {
      forall n | n in x.s.glist ensures !OnLevel(x.u, n) {
        QuiescentLevel(x, n);
      }
    }
    if Clean(x) {
      forall n ensures n !in x.relinked {
        QuiescentLevel(x, n);
      }
    }
  }

  // ----- freeing -----

  /** The level after freeing: cells it has lost are forgotten, since nothing follows their pointers again. */
  ghost function Level(u: Tower): Tower {
    map n | n in u && OnLevel(u, n) :: u[n]
  }

  ghost function XFreed(x: XState): XState {
    XState(Freed(x.s), Level(x.u), x.holds, x.clock, {})
  }

  lemma LevelOrdered(u: Tower)
    requires Ordered(u)
    ensures Ordered(Level(u))
  {
    var v := Level(u);
    LevelEnds(u, HEAD);
    forall n | n in v && n != TAIL
      ensures u[n].next in v
    {
      assert Leads(u, n, u[n].next);
      LeadsOn(u, HEAD, n, u[n].next);
    }
  }

  lemma {:induction false} LevelEnds(u: Tower, a: int)
    requires Ordered(u) && a in u
    ensures Leads(u, a, TAIL)
    decreases MAX_KEY - u[a].key, u[a].born
  {
    if a != TAIL {
      LevelEnds(u, u[a].next);
    }
  }

  /** What is on the level of a quiescent, clean list is unmarked. */
  lemma CleanUnmarked(x: XState, n: int)
    requires XInv(x) && Quiescent(x.s) && Clean(x) && n in x.u && OnLevel(x.u, n)
    ensures n in Freed(x.s).links && !x.s.links[n].marked && !x.u[n].marked && n !in x.s.glist
  {
    hide CoreInv, GarbageInv, OnLevel, Hunted, Unhidden, HoldsOk, RelinkedOk, Ordered;
    InvParts(x);
    QuiescentGarbage(x.s, n);
    if x.u[n].marked {
      UpIsMarked(x.s, n);
    }
  }

  lemma UpIsMarked(s: State, n: int)
    requires Inv(s) && Quiescent(s) && n in s.up
    ensures n in s.links && s.links[n].marked
  {
    hide CoreInv, GarbageInv, CleanersOk, ClaimersOk, WinnersOk;
    assert s.links[n].marked || HasRemover(s, n);
  }

  /** A clean free keeps the invariant of both levels: no pointer that a search can follow leaves the cells that
      exist. */
  lemma {:induction false} CleanFreeKeepsInv(x: XState)
    requires XInv(x) && Quiescent(x.s) && Clean(x)
    ensures XInv(XFreed(x))
  {
    hide Inv, Hunted, Unhidden, HoldsOk, RelinkedOk, Clean, TowerOk, Freed, Level;
    FreeingKeepsBottom(x.s);
    CleanTower(x);
    SameThreads(x.s);
    NothingHeld(x, XFreed(x));
    NothingMissing(XFreed(x));
  }

  lemma SameThreads(s: State)
    ensures Freed(s).threads == s.threads
  {
  }

  lemma CleanTower(x: XState)
    requires XInv(x) && Quiescent(x.s) && Clean(x)
    ensures var y := XFreed(x);
      TowerOk(y.s.links, y.s.up, y.u, y.clock) && forall n :: n in y.u ==> !y.s.links[n].marked
  {
    hide Inv, Hunted, Unhidden, HoldsOk, RelinkedOk, Clean, Ordered, Quiescent;
    InvParts(x);
    LevelOrdered(x.u);
    var y := XFreed(x);
    forall n | n in y.u
      ensures n in y.s.links && y.s.links[n] == x.s.links[n] && !x.s.links[n].marked && !x.u[n].marked
    {
      CleanUnmarked(x, n);
    }
    forall n ensures n !in y.s.up {
      if n in x.s.up {
        UpIsMarked(x.s, n);
        QuiescentGarbage(x.s, n);
      }
    }
  }

  lemma NothingHeld(x: XState, y: XState)
    requires HoldsOk(x) && Quiescent(x.s) && y.s.threads == x.s.threads && y.holds == x.holds
    ensures HoldsOk(y)
  {
  }

  lemma NothingMissing(y: XState)
    requires y.relinked == {} && TowerOk(y.s.links, y.s.up, y.u, y.clock)
    requires (forall n :: n in y.u ==> !y.s.links[n].marked)
    ensures RelinkedOk(y) && Unhidden(y) && Hunted(y)
  {
    forall n ensures !Missing(y, n) {
    }
  }

  // ----- executions -----

  datatype XEvent = XAct(t: int, mv: Move) | XFree

  ghost predicate XInitial(x: XState) {
    && Initial(x.s) && x.holds.Keys == x.s.threads.Keys && x.clock == 1 && x.relinked == {}
    && x.u == map[HEAD := Rung(0, 0, TAIL, false), TAIL := Rung(MAX_KEY, 0, -1, false)]
  }

  /** Freeing follows only a clean state: otherwise a pointer of the upper level is left dangling. */
  ghost predicate XFollows(x: XState, e: XEvent, x': XState) {
    match e
    case XAct(t, mv) => XEnabled(x, t, mv) && x' == XStepped(x, t, mv)
    case XFree => Quiescent(x.s) && Clean(x) && x' == XFreed(x)
  }

  ghost predicate XExecution(xs: seq<XState>, events: seq<XEvent>) {
    && |xs| == |events| + 1 && XInitial(xs[0])
    && forall i :: 0 <= i < |events| ==> XFollows(xs[i], events[i], xs[i + 1])
  }

  lemma XInitialInv(x: XState)
    requires XInitial(x)
    ensures XInv(x)
  {
    hide Inv;
    InitialInv(x.s);
    assert x.s.up == {};
    assert forall n :: n in x.u ==> n == HEAD || n == TAIL;
    NothingHeldAtAll(x);
    NothingMissing(x);
  }

  lemma NothingHeldAtAll(x: XState)
    requires Quiescent(x.s) && x.holds.Keys == x.s.threads.Keys
    ensures HoldsOk(x)
  {
  }

  lemma {:induction false} XExecutionInv(xs: seq<XState>, events: seq<XEvent>, i: nat)
    requires XExecution(xs, events) && i < |xs|
    ensures XInv(xs[i])
  {
    hide XInv;
    if i == 0 {
      XInitialInv(xs[0]);
    } else {
      XExecutionInv(xs, events, i - 1);
      assert XFollows(xs[i - 1], events[i - 1], xs[i]);
      match events[i - 1]
      case XAct(t, mv) => XStepKeepsInv(xs[i - 1], t, mv);
      case XFree => CleanFreeKeepsInv(xs[i - 1]);
    }
  }

  /** Step `j` links a cell from which the upper level leads to `n`, after the mark of `n`. */
  ghost predicate LinksTo(xs: seq<XState>, events: seq<XEvent>, j: nat, n: int) {
    && j < |events| && j + 1 < |xs| && events[j].XAct? && XEnabled(xs[j], events[j].t, events[j].mv)
    && n in xs[j].s.links && xs[j].s.links[n].marked
    && var e := PlanOf(xs[j], events[j].t, events[j].mv).shift;
       e.Hooks? && Ordered(xs[j + 1].u) && e.m in xs[j + 1].u && Leads(xs[j + 1].u, e.m, n)
  }

  /** `n` is on the level in all the states after `j` up to `i`: nothing has snipped it. */
  ghost predicate NotSnipped(xs: seq<XState>, j: nat, i: nat, n: int) {
    i < |xs| && forall k :: j < k <= i ==> OnLevel(xs[k].u, n)
  }

  ghost predicate LinkedLate(xs: seq<XState>, events: seq<XEvent>, i: nat, n: int) {
    exists j: nat :: j < i && LinksTo(xs, events, j, n) && NotSnipped(xs, j, i, n)
  }

  /** A link step marks nothing at the bottom. */
  lemma HookKeepsMarks(x: XState, t: int, mv: Move, n: int)
    requires XInv(x) && XEnabled(x, t, mv) && PlanOf(x, t, mv).shift.Hooks?
    ensures n in XStepped(x, t, mv).s.links && XStepped(x, t, mv).s.links[n].marked <==>
      n in x.s.links && x.s.links[n].marked
  {
    hide Inv, Hunted, Unhidden, CoreInv, Stepped, Local, Enabled, HoldsOk, TowerOk, Relinked, RelinkedOk, MakePlan,
         WalkPlan, EffectOf;
    BaseKeeps(x.s, t, PlanOf(x, t, mv).base);
    HookAction(x, t, mv);
    LeaveIsQuiet(x.s, t);
  }

  lemma HookAction(x: XState, t: int, mv: Move)
    requires t in x.s.threads && t in x.holds && PlanOf(x, t, mv) != Stuck && PlanOf(x, t, mv).shift.Hooks?
    ensures x.s.threads[t].pc == LinkUpper && PlanOf(x, t, mv).base == Does(LeaveUpper) && mv == Go
    ensures x.holds[t].cell == PlanOf(x, t, mv).shift.m
  {
    hide EffectOf;
  }

  lemma LeaveIsQuiet(s: State, t: int)
    requires t in s.threads && s.threads[t].pc == LinkUpper
    ensures EffectOf(s, t, LeaveUpper) == Nothing
  {
  }

  /** The history set, one step on. */
  lemma RelinkedNext(x: XState, t: int, mv: Move, n: int)
    requires XInv(x) && XEnabled(x, t, mv)
    ensures var x', e := XStepped(x, t, mv), PlanOf(x, t, mv).shift;
      n in x'.relinked <==>
        && OnLevel(x'.u, n)
        && (n in x.relinked ||
            (e.Hooks? && n in x.s.links && x.s.links[n].marked && Ordered(x'.u) && e.m in x'.u && Leads(x'.u, e.m, n)))
  {
    hide Inv, Hunted, Unhidden, CoreInv, Stepped, Local, Enabled, HoldsOk, TowerOk, PlanOf, EffectOf;
    BaseKeeps(x.s, t, PlanOf(x, t, mv).base);
    if PlanOf(x, t, mv).shift.Hooks? {
      HookKeepsMarks(x, t, mv, n);
    }
  }

  lemma {:induction false} RelinkedIsLate(xs: seq<XState>, events: seq<XEvent>, i: nat, n: int)
    requires XExecution(xs, events) && i < |xs|
    ensures n in xs[i].relinked <==> LinkedLate(xs, events, i, n)
  {
    hide XInv, XEnabled, XStepped, PlanOf, OnLevel, Leads, Ordered, XFreed, Clean, XInitial, LinksTo;
    if i == 0 {
      StartsUnlinked(xs[0]);
    } else {
      var x, e, x' := xs[i - 1], events[i - 1], xs[i];
      RelinkedIsLate(xs, events, i - 1, n);
      XExecutionInv(xs, events, i - 1);
      assert XFollows(x, e, x');
      StepIsLate(xs, events, i, n);
      if n in x'.relinked && n in x.relinked {
        var j: nat :| j < i - 1 && LinksTo(xs, events, j, n) && NotSnipped(xs, j, i - 1, n);
        assert NotSnipped(xs, j, i, n);
      } else if n in x'.relinked {
        assert NotSnipped(xs, i - 1, i, n);
      }
      if LinkedLate(xs, events, i, n) {
        var j: nat :| j < i && LinksTo(xs, events, j, n) && NotSnipped(xs, j, i, n);
        if j < i - 1 {
          assert NotSnipped(xs, j, i - 1, n);
        }
      }
    }
  }

  lemma StartsUnlinked(x: XState)
    requires XInitial(x)
    ensures x.relinked == {}
  {
  }

  lemma StepIsLate(xs: seq<XState>, events: seq<XEvent>, i: nat, n: int)
    requires XExecution(xs, events) && 0 < i < |xs| && XInv(xs[i - 1]) && XFollows(xs[i - 1], events[i - 1], xs[i])
    ensures n in xs[i].relinked ==> OnLevel(xs[i].u, n) && (n in xs[i - 1].relinked || LinksTo(xs, events, i - 1, n))
    ensures OnLevel(xs[i].u, n) && (n in xs[i - 1].relinked || LinksTo(xs, events, i - 1, n)) ==> n in xs[i].relinked
  {
    hide XInv, XEnabled, XStepped, PlanOf, OnLevel, Leads, Ordered, XInitial;
    match events[i - 1]
    case XAct(t, mv) => RelinkedNext(xs[i - 1], t, mv, n);
    case XFree => CleanIsNotRelinked(xs[i - 1]);
  }

  /**
   Freeing in a quiescent state of any execution leaves no pointer of the upper level to a freed cell, if and only if no
   link step taken after the mark of a cell has led the level to that cell without its being snipped since.
   */
  lemma {:induction false} FreeIsCleanIff(xs: seq<XState>, events: seq<XEvent>, i: nat)
    requires XExecution(xs, events) && i < |xs| && Quiescent(xs[i].s)
    ensures Clean(xs[i]) <==> forall n :: !LinkedLate(xs, events, i, n)
  {
    hide XInv, LinkedLate, Clean, XExecution;
    XExecutionInv(xs, events, i);
    CleanIsNotRelinked(xs[i]);
    if forall n :: !LinkedLate(xs, events, i, n) {
      forall n ensures n !in xs[i].relinked {
        RelinkedIsLate(xs, events, i, n);
      }
    }
    if Clean(xs[i]) {
      forall n ensures !LinkedLate(xs, events, i, n) {
        RelinkedIsLate(xs, events, i, n);
      }
    }
  }

  // ----- every step finds its cells -----

  /** The base step of a thread at a plain place finds its cell. */
  lemma StepFinds(s: State, t: int)
    requires Inv(s) && t in s.threads
    requires var pc := s.threads[t].pc;
      !pc.Idle? && !pc.Search? && !pc.LinkCas? && !pc.LinkUpper? && !pc.MarkUpper? && !pc.Done?
    ensures Enabled(s, t, Step)
  {
    hide Reach, Passed, EffectOf, OwnersInv, ListOk, PushersOk, HasPusher;
    CoreOf(s);
    CoreSorted(s);
    assert ThreadOk(s.links, s.up, s.threads[t]);
  }

  /** Which actions of the bottom level are open to a thread. */
  lemma Open(s: State, t: int)
    requires t in s.threads
    ensures var pc := s.threads[t].pc;
      && (pc.LoadCurr? || pc.LinkUpper? ==> Enabled(s, t, Refind))
      && (pc.LinkUpper? || pc.MarkUpper? ==> Enabled(s, t, LeaveUpper))
      && (pc.MarkUpper? ==> Enabled(s, t, MarkLevel))
      && (pc.Done? ==> Enabled(s, t, Return))
      && (pc.LoadCurr? ==> forall n :: n in s.up ==> Enabled(s, t, SnipUpper(n)))
      && (pc.Search? || pc.LoadCurr? ==> forall p ::
            p in s.links && p != TAIL && !s.links[p].marked && s.links[p].key < s.threads[t].info.key ==>
              Enabled(s, t, Pick(p)))
  {
    hide EffectOf;
  }

  lemma WalkFinds(x: XState, t: int)
    requires XInv(x) && t in x.s.threads && x.s.threads[t].pc.LoadCurr? && t in x.holds && x.holds[t].walk != Below
    ensures XEnabled(x, t, Go)
  {
    hide Inv, Hunted, Unhidden, RelinkedOk, Enabled, LinkPlan, MakePlan, CoreInv, Sorted;
    InvParts(x);
    CellOk(x, t);
    Open(x.s, t);
  }

  lemma HeadIsOpen(l: Links)
    requires Sorted(l)
    ensures HEAD in l && HEAD != TAIL && !l[HEAD].marked && l[HEAD].key == 0
  {
  }

  lemma SearchFinds(x: XState, t: int)
    requires XInv(x) && t in x.s.threads && t in x.holds && x.s.threads[t].pc.Search?
    ensures XEnabled(x, t, Go)
  {
    hide Inv, Hunted, Unhidden, RelinkedOk, Enabled, CoreInv, Sorted, TowerOk, HoldsOk;
    InvParts(x);
    CellOk(x, t);
    HeadIsOpen(x.s.links);
    Open(x.s, t);
  }

  lemma OtherFinds(x: XState, t: int)
    requires XInv(x) && t in x.s.threads && t in x.holds
    requires var pc := x.s.threads[t].pc; pc.LinkUpper? || pc.MarkUpper? || pc.Done?
    ensures XEnabled(x, t, Go)
  {
    hide Inv, Hunted, Unhidden, RelinkedOk, Enabled, WalkPlan, MakePlan, CoreInv, TowerOk, HoldsOk, Before;
    CellOk(x, t);
    Open(x.s, t);
  }

  /** As long as every free is clean, no thread ever reads a cell that has been freed: its next step is always
      possible. */
  lemma {:induction false} NeverStuck(xs: seq<XState>, events: seq<XEvent>, i: nat, t: int)
    requires XExecution(xs, events) && i < |xs| && t in xs[i].s.threads
    requires !xs[i].s.threads[t].pc.Idle? && !xs[i].s.threads[t].pc.LinkCas?
    ensures XEnabled(xs[i], t, Go)
  {
    hide Inv, Hunted, Unhidden, RelinkedOk, EffectOf, LinkPlan, MakePlan, Enabled, TowerOk, HoldOk, XExecution;
    XExecutionInv(xs, events, i);
    var x := xs[i];
    var pc := x.s.threads[t].pc;
    if pc.Search? {
      SearchFinds(x, t);
    } else if pc.LinkUpper? || pc.MarkUpper? || pc.Done? {
      OtherFinds(x, t);
    } else if pc.LoadCurr? && x.holds[t].walk != Below {
      WalkFinds(x, t);
    } else {
      StepFinds(x.s, t);
    }
  }

  /** The bottom level of any execution is one of the executions of the bottom level alone. */
  lemma {:induction false} Projects(xs: seq<XState>, events: seq<XEvent>, i: nat)
    returns (states: seq<State>, acts: seq<Event>)
    requires XExecution(xs, events) && i < |xs|
    ensures Execution(states, acts) && states[|acts|] == xs[i].s
  {
    hide PlanOf, Stepped, Freed, Clean, Quiescent, Enabled, Relinked, Level;
    if i == 0 {
      states, acts := [xs[0].s], [];
    } else {
      states, acts := Projects(xs, events, i - 1);
      assert XFollows(xs[i - 1], events[i - 1], xs[i]);
      var e := events[i - 1];
      if e.XFree? {
        states, acts := states + [xs[i].s], acts + [Free];
      } else {
        StepProjects(xs[i - 1], e.t, e.mv);
        var base := PlanOf(xs[i - 1], e.t, e.mv).base;
        if base.Does? {
          states, acts := states + [xs[i].s], acts + [Act(e.t, base.a)];
        }
      }
    }
  }

  lemma StepProjects(x: XState, t: int, mv: Move)
    requires XEnabled(x, t, mv)
    ensures var base := PlanOf(x, t, mv).base;
      match base
      case Stutter => XStepped(x, t, mv).s == x.s
      case Does(a) => Enabled(x.s, t, a) && XStepped(x, t, mv).s == Stepped(x.s, t, a)
  {
    hide PlanOf, Stepped, Enabled, Relinked;
  }
}
