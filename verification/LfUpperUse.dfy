/** A way to use the list that makes freeing safe on the upper level too: inserts and removes that never overlap. */
module LfUpperUse {
  import opened LfLinks
  import opened LfSkiplist
  import opened LfReclaim
  import opened LfTower
  import opened LfUpper
  import opened LfUpperInv
  import opened LfUpperRuns
  import opened LfUpperFree

  ghost predicate Inserting(th: Thread) {
    !th.pc.Idle? && th.info.inserting
  }

  ghost predicate Deleting(th: Thread) {
    !th.pc.Idle? && !th.info.inserting
  }

  /** No insert is in flight together with a remove. */
  ghost predicate Apart(s: State) {
    forall t, v :: t in s.threads && v in s.threads && Inserting(s.threads[t]) ==> !Deleting(s.threads[v])
  }

  ghost predicate NoDeletes(s: State) {
    forall v :: v in s.threads ==> !Deleting(s.threads[v])
  }

  /** The upper level leads from `a` to no removed cell. */
  ghost predicate Spotless(links: Links, u: Tower, a: int) {
    Ordered(u) && a in u && forall n :: Leads(u, a, n) ==> !(n in links && links[n].marked)
  }

  ghost predicate HoldSpotless(links: Links, u: Tower, h: Hold) {
    && Spotless(links, u, h.pred) && Spotless(links, u, h.succ)
    && (h.cell != NONE ==> Spotless(links, u, h.cell))
    && (h.walk.Look? || h.walk.Snip? ==> Spotless(links, u, h.walk.curr))
  }

  ghost predicate Tidy(x: XState) {
    && x.relinked == {}
    && forall t :: t in x.s.threads && t in x.holds && Inserting(x.s.threads[t]) ==>
         HoldSpotless(x.s.links, x.u, x.holds[t])
  }

  /** Between removes the level is spotless. */
  lemma LevelSpotless(x: XState)
    requires XInv(x) && x.relinked == {} && NoDeletes(x.s)
    ensures Spotless(x.s.links, x.u, HEAD)
  {
    hide Inv, Unhidden, HoldsOk, TowerOk, Tracks;
    InvParts(x);
    forall n | Leads(x.u, HEAD, n)
      ensures !(n in x.s.links && x.s.links[n].marked)
    {
      LeadsBefore(x.u, HEAD, n);
      NoHunters(x, n);
      assert !Missing(x, n);
    }
  }

  lemma NoHunters(x: XState, n: int)
    requires XInv(x) && NoDeletes(x.s) && Ordered(x.u)
    ensures forall t :: !Hunting(x, t, n)
  {
    hide Inv, Unhidden, Hunted, HoldsOk, TowerOk, Tracks, RelinkedOk, CoreInv;
    InvParts(x);
    forall t
      ensures !Hunting(x, t, n)
    {
      if t in x.s.threads && x.s.threads[t].info.phase.Cleaning? && !x.s.threads[t].pc.Idle? {
        CleanersDelete(x.s, t);
      }
    }
  }

  lemma CleanersDelete(s: State, t: int)
    requires CoreInv(s) && t in s.threads && !s.threads[t].pc.Idle?
    ensures s.threads[t].info.phase.Cleaning? || Removing(s.threads[t].pc) ==> !s.threads[t].info.inserting
    ensures s.threads[t].pc.LinkUpper? ==> s.threads[t].info.inserting
  {
    hide Reach, Passed, PredOk, CurrOk, BackOk;
    assert ThreadOk(s.links, s.up, s.threads[t]);
  }

  lemma SpotlessNext(links: Links, u: Tower, a: int)
    requires Spotless(links, u, a) && a != TAIL
    ensures Spotless(links, u, u[a].next)
  {
  }

  /** While nothing is removed, spotless cells stay so. */
  lemma SpotlessKept(links: Links, links': Links, u: Tower, e: Shift, a: int)
    requires Sound(u, e) && Spotless(links, u, a) && (e.Hooks? ==> Spotless(links, u, e.m))
    requires forall n :: n in u && n in links' && links'[n].marked ==> n in links && links[n].marked
    ensures Spotless(links', Shifted(u, e), a)
  {
    hide Ordered;
    SoundShift(u, e);
    forall n | Leads(Shifted(u, e), a, n)
      ensures !(n in links' && links'[n].marked)
    {
      ShiftLeads(u, e, a, n);
    }
  }

  // ----- steps of inserts -----

  /** What an insert takes hold of in its walk is spotless. */
  lemma WalkSpotless(links: Links, u: Tower, th: Thread, h: Hold)
    requires Ordered(u) && HoldOk(u, th, h) && th.pc.LoadCurr? && HoldSpotless(links, u, h)
    requires WalkPlan(u, h, th.info.key) != Stuck
    ensures HoldSpotless(links, u, WalkPlan(u, h, th.info.key).hold)
  {
    hide Spotless;
    match h.walk
    case Load => SpotlessNext(links, u, h.pred);
    case Look(c) =>
      if c != TAIL {
        SpotlessNext(links, u, c);
      }
    case _ =>
  }

  lemma TailSpotless(links: Links, u: Tower)
    requires Ordered(u) && TAIL in links && !links[TAIL].marked
    ensures Spotless(links, u, TAIL)
  {
  }

  lemma GoSpotless(x: XState, t: int)
    requires XInv(x) && XEnabled(x, t, Go) && HoldSpotless(x.s.links, x.u, x.holds[t]) && Spotless(x.s.links, x.u, HEAD)
    ensures HoldSpotless(x.s.links, x.u, PlanOf(x, t, Go).hold)
  {
    hide Inv, Hunted, Unhidden, CoreInv, RelinkedOk, Enabled, Spotless, WalkPlan, TowerOk, HoldOk, EffectOf;
    InvParts(x);
    CellOk(x, t);
    if x.s.threads[t].pc.LoadCurr? {
      WalkSpotless(x.s.links, x.u, x.s.threads[t], x.holds[t]);
    }
  }

  lemma CallSpotless(x: XState, t: int, mv: Move)
    requires XInv(x) && XEnabled(x, t, mv) && mv.Call? && Spotless(x.s.links, x.u, HEAD)
    ensures HoldSpotless(x.s.links, x.u, PlanOf(x, t, mv).hold)
  {
    hide Inv, Hunted, Unhidden, CoreInv, RelinkedOk, Enabled, Spotless, TowerOk, HoldsOk;
    InvParts(x);
    TailSpotless(x.s.links, x.u);
  }

  /** The new cell leads to itself and to what the search found. */
  lemma NewSpotless(links: Links, u: Tower, m: int, r: Rung)
    requires Ordered(u) && CanAdd(u, m, r) && Spotless(links, Added(u, m, r), r.next)
    requires !(m in links && links[m].marked)
    ensures Spotless(links, Added(u, m, r), m)
  {
  }

  /** Nothing is marked while only inserts are in flight. */
  lemma NothingMarked(x: XState, t: int, mv: Move)
    requires XInv(x) && XEnabled(x, t, mv) && NoDeletes(x.s)
    ensures forall n :: !JustMarked(x.s, XStepped(x, t, mv).s, n)
  {
    hide Inv, Hunted, Unhidden, CoreInv, RelinkedOk, Enabled, PlanOf, Stepped, Local, Applied, HoldsOk, TowerOk,
         Relinked;
    InvParts(x);
    BaseKeeps(x.s, t, PlanOf(x, t, mv).base);
    if !x.s.threads[t].pc.Idle? {
      CleanersDelete(x.s, t);
    }
  }

  lemma InsertHold(x: XState, t: int, mv: Move)
    requires XInv(x) && XEnabled(x, t, mv) && NoDeletes(x.s) && Tidy(x)
    requires x.s.threads[t].pc.Idle? ==> mv.Call?
    ensures HoldSpotless(XStepped(x, t, mv).s.links, XStepped(x, t, mv).u, PlanOf(x, t, mv).hold)
  {
    hide Inv, Hunted, Unhidden, CoreInv, RelinkedOk, Enabled, Spotless, PlanOf, Stepped, TowerOk, HoldsOk, Relinked,
         Sound, JustMarked, EffectOf;
    LevelSpotless(x);
    PlanSound(x, t, mv);
    if mv.Call? {
      CallSpotless(x, t, mv);
      HoldKept(x, t, mv, PlanOf(x, t, mv).hold);
    } else if mv.Go? {
      ActiveHolds(x, t);
      GoSpotless(x, t);
      HoldKept(x, t, mv, PlanOf(x, t, mv).hold);
    } else {
      ActiveHolds(x, t);
      MakeSpotless(x, t, mv);
    }
  }

  lemma ActiveHolds(x: XState, t: int)
    requires Tidy(x) && NoDeletes(x.s) && t in x.s.threads && t in x.holds && !x.s.threads[t].pc.Idle?
    ensures HoldSpotless(x.s.links, x.u, x.holds[t])
  {
  }

  /** What is spotless before a step with no remove in flight is spotless after it. */
  lemma StepSpotless(x: XState, t: int, mv: Move, a: int)
    requires XInv(x) && XEnabled(x, t, mv) && NoDeletes(x.s) && Tidy(x) && Spotless(x.s.links, x.u, a)
    ensures Spotless(XStepped(x, t, mv).s.links, XStepped(x, t, mv).u, a)
  {
    hide Inv, Hunted, Unhidden, CoreInv, RelinkedOk, Enabled, Spotless, PlanOf, Stepped, TowerOk, HoldsOk, Relinked,
         Sound, EffectOf;
    PlanSound(x, t, mv);
    NothingMarked(x, t, mv);
    var e := PlanOf(x, t, mv).shift;
    if e.Hooks? {
      HookAction(x, t, mv);
      ActiveHolds(x, t);
      HookedCell(x, t, mv);
    }
    var links' := XStepped(x, t, mv).s.links;
    forall n | n in x.u && n in links' && links'[n].marked
      ensures n in x.s.links && x.s.links[n].marked
    {
      assert !JustMarked(x.s, XStepped(x, t, mv).s, n);
    }
    SpotlessKept(x.s.links, links', x.u, e, a);
  }

  lemma HookedCell(x: XState, t: int, mv: Move)
    requires t in x.s.threads && t in x.holds && PlanOf(x, t, mv) != Stuck && PlanOf(x, t, mv).shift.Hooks?
    ensures PlanOf(x, t, mv).shift.m != NONE
  {
    hide EffectOf;
  }

  lemma HoldKept(x: XState, t: int, mv: Move, h: Hold)
    requires XInv(x) && XEnabled(x, t, mv) && NoDeletes(x.s) && Tidy(x) && HoldSpotless(x.s.links, x.u, h)
    ensures HoldSpotless(XStepped(x, t, mv).s.links, XStepped(x, t, mv).u, h)
  {
    hide Inv, XEnabled, Spotless, XStepped, XInv, Tidy, NoDeletes;
    StepSpotless(x, t, mv, h.pred);
    StepSpotless(x, t, mv, h.succ);
    if h.cell != NONE {
      StepSpotless(x, t, mv, h.cell);
    }
    if h.walk.Look? || h.walk.Snip? {
      StepSpotless(x, t, mv, h.walk.curr);
    }
  }

  lemma MakeSpotless(x: XState, t: int, mv: Move)
    requires XInv(x) && XEnabled(x, t, mv) && NoDeletes(x.s) && Tidy(x) && mv.Make?
    requires HoldSpotless(x.s.links, x.u, x.holds[t])
    ensures HoldSpotless(XStepped(x, t, mv).s.links, XStepped(x, t, mv).u, PlanOf(x, t, mv).hold)
  {
    hide Inv, Hunted, Unhidden, CoreInv, RelinkedOk, Enabled, Spotless, Stepped, TowerOk, HoldsOk, Relinked, EffectOf,
         Tidy, NoDeletes, JustMarked;
    HoldKept(x, t, mv, x.holds[t]);
    var plan, x' := PlanOf(x, t, mv), XStepped(x, t, mv);
    if plan.shift.Grows? {
      PlanSound(x, t, mv);
      PlanFlags(x, t, mv);
      InvParts(x);
      LinkedCell(x.s, t, mv.cell);
      NewSpotless(x'.s.links, x.u, plan.shift.m, plan.shift.r);
    }
  }

  // ----- executions -----

  /** Without a remove in flight before a step of an insert, or with nothing but removes in flight, the list stays
      tidy. */
  lemma TidyStep(x: XState, t: int, mv: Move)
    requires XInv(x) && XEnabled(x, t, mv) && Tidy(x) && Apart(x.s) && Apart(XStepped(x, t, mv).s)
    ensures Tidy(XStepped(x, t, mv))
  {
    hide Inv, Hunted, Unhidden, CoreInv, RelinkedOk, Enabled, PlanOf, Stepped, TowerOk, HoldsOk, Relinked, EffectOf,
         HoldSpotless, JustMarked;
    var x' := XStepped(x, t, mv);
    BaseKeeps(x.s, t, PlanOf(x, t, mv).base);
    if NoDeletes(x.s) {
      forall v | v in x'.s.threads && v in x'.holds && Inserting(x'.s.threads[v])
        ensures HoldSpotless(x'.s.links, x'.u, x'.holds[v])
      {
        if v == t {
          IdleCalls(x, t, mv);
          InsertHold(x, t, mv);
        } else {
          HoldKept(x, t, mv, x.holds[v]);
        }
      }
      InsertRelinks(x, t, mv);
    } else {
      DeleteRelinks(x, t, mv);
      StillDeletes(x, t, mv);
    }
  }

  lemma IdleCalls(x: XState, t: int, mv: Move)
    requires XEnabled(x, t, mv)
    ensures x.s.threads[t].pc.Idle? ==> mv.Call?
  {
    hide EffectOf;
  }

  lemma InsertRelinks(x: XState, t: int, mv: Move)
    requires XInv(x) && XEnabled(x, t, mv) && Tidy(x) && NoDeletes(x.s)
    ensures XStepped(x, t, mv).relinked == {}
  {
    hide Inv, Hunted, Unhidden, CoreInv, RelinkedOk, Enabled, PlanOf, Stepped, TowerOk, HoldsOk, Relinked, EffectOf,
         Tracks;
    var e, x' := PlanOf(x, t, mv).shift, XStepped(x, t, mv);
    if e.Hooks? {
      HookAction(x, t, mv);
      ActiveHolds(x, t);
      HookedCell(x, t, mv);
      StepSpotless(x, t, mv, e.m);
    }
    forall n ensures n !in x'.relinked {
      RelinkedNext(x, t, mv, n);
      if e.Hooks? {
        HookKeepsMarks(x, t, mv, n);
      }
    }
  }

  /** With a remove in flight no insert is, so nothing is linked. */
  lemma DeleteRelinks(x: XState, t: int, mv: Move)
    requires XInv(x) && XEnabled(x, t, mv) && Tidy(x) && Apart(x.s) && !NoDeletes(x.s)
    ensures XStepped(x, t, mv).relinked == {}
  {
    hide Inv, Hunted, Unhidden, CoreInv, RelinkedOk, Enabled, PlanOf, Stepped, TowerOk, HoldsOk, Relinked, EffectOf,
         Tracks;
    if PlanOf(x, t, mv).shift.Hooks? {
      HookAction(x, t, mv);
      InvParts(x);
      CleanersDelete(x.s, t);
    }
    forall n ensures n !in XStepped(x, t, mv).relinked {
      RelinkedNext(x, t, mv, n);
    }
  }

  /** A step that leaves no insert in flight where there was none. */
  lemma StillDeletes(x: XState, t: int, mv: Move)
    requires XInv(x) && XEnabled(x, t, mv) && Apart(x.s) && Apart(XStepped(x, t, mv).s) && !NoDeletes(x.s)
    ensures var x' := XStepped(x, t, mv); forall v :: v in x'.s.threads ==> !Inserting(x'.s.threads[v])
  {
    hide Inv, Hunted, Unhidden, CoreInv, RelinkedOk, Enabled, PlanOf, Stepped, TowerOk, HoldsOk, Relinked, EffectOf;
    var x' := XStepped(x, t, mv);
    BaseKeeps(x.s, t, PlanOf(x, t, mv).base);
    var d :| d in x.s.threads && Deleting(x.s.threads[d]);
    forall v | v in x'.s.threads
      ensures !Inserting(x'.s.threads[v])
    {
      assert !Inserting(x.s.threads[v]);
      if v == t {
        if d == t {
          KindKept(x, t, mv);
        } else {
          assert Deleting(x'.s.threads[d]);
        }
      }
    }
  }

  /** A call stays what it is until it returns. */
  lemma KindKept(x: XState, t: int, mv: Move)
    requires XEnabled(x, t, mv) && !x.s.threads[t].pc.Idle?
    ensures t in XStepped(x, t, mv).s.threads
    ensures XStepped(x, t, mv).s.threads[t].info.inserting == x.s.threads[t].info.inserting
  {
    hide Stepped, PlanOf, Relinked;
    var base := PlanOf(x, t, mv).base;
    if base.Does? {
      ActorAfter(x.s, t, base.a);
      LocalKind(x.s, t, base.a);
    }
  }

  lemma LocalKind(s: State, t: int, a: Action)
    requires Enabled(s, t, a) && !s.threads[t].pc.Idle?
    ensures Local(s, t, a).1.info.inserting == s.threads[t].info.inserting
  {
    hide EffectOf;
  }

  /** State `j` is the first one, or one just after a free. */
  ghost predicate AfterFree(events: seq<XEvent>, j: nat) {
    j == 0 || (j <= |events| && events[j - 1] == XFree)
  }

  lemma {:induction false} StaysTidy(xs: seq<XState>, events: seq<XEvent>, j: nat, i: nat)
    requires XExecution(xs, events) && AfterFree(events, j) && j <= i < |xs|
    requires forall k :: j <= k <= i ==> Apart(xs[k].s)
    ensures Tidy(xs[i])
  {
    hide XInv, Apart, XEnabled, XStepped, Clean, Level, Freed;
    if i == 0 {
      InitiallyTidy(xs[0]);
    } else if i == j {
      assert XFollows(xs[i - 1], events[i - 1], xs[i]);
      SameThreads(xs[i - 1].s);
      IdleIsTidy(xs[i]);
    } else {
      StaysTidy(xs, events, j, i - 1);
      XExecutionInv(xs, events, i - 1);
      assert XFollows(xs[i - 1], events[i - 1], xs[i]);
      match events[i - 1]
      case XAct(t, mv) => TidyStep(xs[i - 1], t, mv);
      case XFree =>
        SameThreads(xs[i - 1].s);
        IdleIsTidy(xs[i]);
    }
  }

  lemma InitiallyTidy(x: XState)
    requires XInitial(x)
    ensures Tidy(x)
  {
    IdleIsTidy(x);
  }

  lemma IdleIsTidy(x: XState)
    requires x.relinked == {} && Quiescent(x.s)
    ensures Tidy(x)
  {
  }

  /** A caller that has let no insert overlap a remove since the last free, or since the start, can free the garbage in
      a quiescent state. */
  lemma {:induction false} ApartIsClean(xs: seq<XState>, events: seq<XEvent>, j: nat, i: nat)
    requires XExecution(xs, events) && AfterFree(events, j) && j <= i < |xs| && Quiescent(xs[i].s)
    requires forall k :: j <= k <= i ==> Apart(xs[k].s)
    ensures Clean(xs[i])
  {
    hide XInv, Clean, XExecution;
    StaysTidy(xs, events, j, i);
    XExecutionInv(xs, events, i);
    CleanIsNotRelinked(xs[i]);
  }
}
