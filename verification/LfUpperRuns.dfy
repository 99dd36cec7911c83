/** Executions of the list with its upper level: when freeing the garbage is safe there, exactly. */
module LfUpperRuns {
  import opened LfLinks
  import opened LfSkiplist
  import opened LfReclaim
  import opened LfTower
  import opened LfUpper
  import opened LfUpperInv

  // ----- removed cells still on the level -----

  lemma InBoth(x: XState, t: int, mv: Move, n: int)
    requires XInv(x) && XEnabled(x, t, mv) && n in x.s.links && n in Shifted(x.u, PlanOf(x, t, mv).shift)
    ensures n in x.u
  {
    hide Inv, Hunted, Unhidden, CoreInv, RelinkedOk, Stepped, Local, Enabled, PlanOf, HoldsOk, TowerOk, EffectOf;
    PlanFlags(x, t, mv);
    if PlanOf(x, t, mv).shift.Grows? {
      MakeFresh(x.s, t, mv.cell);
    }
  }

  /** A removed cell never comes back on the level but by a link step that is to blame. */
  lemma MissingBefore(x: XState, t: int, mv: Move, n: int)
    requires XInv(x) && XEnabled(x, t, mv) && Missing(XStepped(x, t, mv), n)
    requires !JustMarked(x.s, XStepped(x, t, mv).s, n)
    ensures Ordered(x.u) && Missing(x, n) && n in x.u
    ensures var e := PlanOf(x, t, mv).shift; e.Hooks? ==> e.m in x.u && !Leads(x.u, e.m, n)
  {
    hide Inv, Hunted, Unhidden, CoreInv, Stepped, Local, Enabled, PlanOf, HoldsOk, TowerOk, EffectOf;
    InvParts(x);
    PlanSound(x, t, mv);
    var e, x' := PlanOf(x, t, mv).shift, XStepped(x, t, mv);
    SoundShift(x.u, e);
    InBoth(x, t, mv, n);
    ShiftLeads(x.u, e, HEAD, n);
    if e.Hooks? {
      LinkedLeads(x.u, e, n);
    }
  }

  lemma RelinkedStep(x: XState, t: int, mv: Move)
    requires XInv(x) && XEnabled(x, t, mv)
    ensures RelinkedOk(XStepped(x, t, mv))
  {
    hide PlanOf, Stepped, Enabled;
  }

  /** At the bottom mark no other unmarked cell has that key, above or below. */
  lemma MarkUnhides(x: XState, t: int, mv: Move, n: int, c: int)
    requires XInv(x) && XEnabled(x, t, mv) && JustMarked(x.s, XStepped(x, t, mv).s, n) && n in x.u && c in x.u && c != n
    requires x.u[c].key == x.u[n].key
    ensures x.u[c].marked
  {
    hide Inv, Hunted, Unhidden, Stepped, Local, Enabled, PlanOf, HoldsOk, RelinkedOk, EffectOf, Relinked, Reach;
    InvParts(x);
    BaseKeeps(x.s, t, PlanOf(x, t, mv).base);
    assert n in x.s.links && !x.s.links[n].marked;
    if !x.u[c].marked {
      assert c in x.s.links && !x.s.links[c].marked;
      UniqueKey(x.s.links, n, c);
    }
  }

  lemma StillHidden(x: XState, t: int, mv: Move, n: int, c: int)
    requires XInv(x) && XEnabled(x, t, mv) && Missing(XStepped(x, t, mv), n)
    requires !JustMarked(x.s, XStepped(x, t, mv).s, n)
    requires Ordered(XStepped(x, t, mv).u) && Hides(XStepped(x, t, mv).u, c, n)
    ensures Ordered(x.u) && n in x.u && Hides(x.u, c, n)
  {
    hide Inv, Hunted, Unhidden, CoreInv, Stepped, Local, Enabled, PlanOf, HoldsOk, TowerOk, EffectOf, Relinked,
         RelinkedOk, Ordered, Missing, Before;
    InvParts(x);
    PlanSound(x, t, mv);
    var e, x' := PlanOf(x, t, mv).shift, XStepped(x, t, mv);
    MissingBefore(x, t, mv, n);
    SoundShift(x.u, e);
    HeadIn(x.u);
    ShiftLeads(x.u, e, HEAD, c);
    if c in x.u {
      ShiftLeads(x.u, e, c, n);
      if e.Hooks? {
        NotThrough(x.u, e, c, n);
      }
    }
  }

  lemma HeadIn(u: Tower)
    requires Ordered(u)
    ensures HEAD in u
  {
  }

  lemma NotThrough(u: Tower, e: Shift, c: int, n: int)
    requires Sound(u, e) && e.Hooks? && c in u && n in u && !Leads(u, e.m, n)
    requires Ordered(Shifted(u, e)) && Leads(Shifted(u, e), c, n)
    ensures !Leads(u, e.m, c)
  {
    ShiftLeads(u, e, c, n);
    if Leads(u, e.m, c) {
      LeadsOn(u, e.m, c, n);
    }
  }

  lemma UnhiddenStep(x: XState, t: int, mv: Move)
    requires XInv(x) && XEnabled(x, t, mv)
    ensures Ordered(XStepped(x, t, mv).u) && Unhidden(XStepped(x, t, mv))
  {
    hide Inv, Hunted, CoreInv, Stepped, Local, Enabled, PlanOf, HoldsOk, TowerOk, EffectOf, Relinked, RelinkedOk,
         Ordered, Missing, Hides, JustMarked;
    InvParts(x);
    PlanSound(x, t, mv);
    var e, x' := PlanOf(x, t, mv).shift, XStepped(x, t, mv);
    SoundShift(x.u, e);
    forall n, c | Missing(x', n)
      ensures MissingIn(x', n) && !Hides(x'.u, c, n)
    {
      MissingIsIn(x', n);
      if Hides(x'.u, c, n) {
        if JustMarked(x.s, x'.s, n) {
          NewlyMarkedSeen(x, t, mv, n, c);
        } else {
          StillHidden(x, t, mv, n, c);
          MissingBefore(x, t, mv, n);
        }
      }
    }
  }

  ghost predicate MissingIn(x: XState, n: int) {
    n in x.u
  }

  lemma MissingIsIn(x: XState, n: int)
    requires Missing(x, n)
    ensures MissingIn(x, n)
  {
  }

  /** A cell just marked is not hidden. */
  lemma NewlyMarkedSeen(x: XState, t: int, mv: Move, n: int, c: int)
    requires XInv(x) && XEnabled(x, t, mv) && JustMarked(x.s, XStepped(x, t, mv).s, n)
    requires Ordered(XStepped(x, t, mv).u) && n in XStepped(x, t, mv).u
    ensures !Hides(XStepped(x, t, mv).u, c, n)
  {
    hide Inv, Hunted, Unhidden, CoreInv, Stepped, Local, Enabled, HoldsOk, TowerOk, EffectOf, Relinked, RelinkedOk,
         Ordered, JustMarked, WalkPlan, LinkPlan, MakePlan, PlanOf;
    BaseKeeps(x.s, t, PlanOf(x, t, mv).base);
    MarkShift(x, t, mv, n);
    if c in x.u && c != n && x.u[c].key == x.u[n].key {
      MarkUnhides(x, t, mv, n, c);
    }
  }

  /** The step that marks at the bottom leaves the upper level alone, and starts a search. */
  lemma MarkShift(x: XState, t: int, mv: Move, n: int)
    requires XInv(x) && XEnabled(x, t, mv) && JustMarked(x.s, XStepped(x, t, mv).s, n)
    ensures PlanOf(x, t, mv).shift == Stays && XStepped(x, t, mv).u == x.u
    ensures t in XStepped(x, t, mv).s.threads && t in XStepped(x, t, mv).holds
    ensures XStepped(x, t, mv).s.threads[t].info.phase == Cleaning(n) && XStepped(x, t, mv).s.threads[t].pc == Search
  {
    hide Inv, Hunted, Unhidden, CoreInv, Stepped, Enabled, HoldsOk, TowerOk, Relinked, RelinkedOk, JustMarked, WalkPlan,
         LinkPlan, MakePlan;
    var base := PlanOf(x, t, mv).base;
    BaseKeeps(x.s, t, base);
    ActorAfter(x.s, t, base.a);
    assert x.s.threads[t].pc.MarkCas?;
  }

  // ----- the remover's search -----

  /** A thread that only hunts on: same place, same hold. */
  lemma OthersHunt(x: XState, t: int, mv: Move, v: int, n: int)
    requires XInv(x) && XEnabled(x, t, mv) && Missing(XStepped(x, t, mv), n)
    requires !JustMarked(x.s, XStepped(x, t, mv).s, n)
    requires Ordered(x.u) && Ordered(XStepped(x, t, mv).u) && Hunting(x, v, n) && v != t
    ensures Hunting(XStepped(x, t, mv), v, n)
  {
    hide Inv, Hunted, Unhidden, CoreInv, Stepped, Local, Enabled, PlanOf, HoldsOk, TowerOk, EffectOf, Relinked,
         RelinkedOk, Ordered, JustMarked, Tracks, Missing;
    BaseKeeps(x.s, t, PlanOf(x, t, mv).base);
    if x.holds[v].walk != Below && x.holds[v].pred in x.u && Tracks(x.u, x.holds[v].pred, n) {
      TrackKept(x, t, mv, x.holds[v].pred, n);
      if x.holds[v].walk.Look? && x.holds[v].walk.curr in x.u && Tracks(x.u, x.holds[v].walk.curr, n) {
        TrackKept(x, t, mv, x.holds[v].walk.curr, n);
      }
    }
  }

  lemma TrackKept(x: XState, t: int, mv: Move, a: int, n: int)
    requires XInv(x) && XEnabled(x, t, mv) && Missing(XStepped(x, t, mv), n)
    requires !JustMarked(x.s, XStepped(x, t, mv).s, n)
    requires Ordered(x.u) && a in x.u && Tracks(x.u, a, n) && Ordered(XStepped(x, t, mv).u)
    ensures a in XStepped(x, t, mv).u && Tracks(XStepped(x, t, mv).u, a, n)
  {
    hide Inv, Hunted, Unhidden, CoreInv, Stepped, Local, Enabled, PlanOf, HoldsOk, TowerOk, EffectOf, Relinked,
         RelinkedOk, Ordered, JustMarked, Tracks;
    PlanSound(x, t, mv);
    MissingBefore(x, t, mv, n);
    SoundShift(x.u, PlanOf(x, t, mv).shift);
    ShiftTracks(x.u, PlanOf(x, t, mv).shift, a, n);
  }

  /** What the hunter's key and cell are. */
  lemma HunterKey(x: XState, t: int, n: int)
    requires XInv(x) && Missing(x, n) && t in x.s.threads && x.s.threads[t].info.phase == Cleaning(n)
    requires !x.s.threads[t].pc.Idle?
    ensures n in x.u && x.u[n].key == x.s.threads[t].info.key && x.u[n].marked && n != HEAD && n != TAIL
    ensures t in x.holds && HoldOk(x.u, x.s.threads[t], x.holds[t]) && 0 < x.s.threads[t].info.key < MAX_KEY
  {
    hide Reach, Passed, PredOk, CurrOk, BackOk, GarbageInv, OwnersInv, Hunted, Unhidden, PcOk, HoldOk;
    CellOk(x, t);
    assert ThreadOk(x.s.links, x.s.up, x.s.threads[t]);
  }

  /** The walk of a hunter moves on along the track, and cannot end before it has met the cell. */
  lemma {:induction false} WalkHunts(u: Tower, th: Thread, h: Hold, n: int)
    requires Ordered(u) && HoldOk(u, th, h) && th.pc.LoadCurr? && h.walk != Below && n in u && u[n].marked
    requires u[n].key == th.info.key && Leads(u, HEAD, n) && (forall c :: !Hides(u, c, n))
    requires Tracks(u, h.pred, n) && (h.walk.Look? ==> Tracks(u, h.walk.curr, n))
    requires WalkPlan(u, h, th.info.key) != Stuck
    ensures var plan := WalkPlan(u, h, th.info.key);
      && plan.base != Does(Step)
      && (plan.base != Does(Refind) ==>
            plan.hold.walk != Below && plan.hold.pred in u && Tracks(u, plan.hold.pred, n) &&
            (plan.hold.walk.Look? ==> plan.hold.walk.curr in u && Tracks(u, plan.hold.walk.curr, n)))
  {
    match h.walk
    case Load =>
      NextTracks(u, h.pred, n);
    case Look(c) =>
      if !u[c].marked && u[c].key < th.info.key {
        NextTracks(u, c, n);
      } else if !u[c].marked {
        EndsAtIt(u, c, n);
      }
    case Snip(_, _) =>
  }

  lemma EndsAtIt(u: Tower, c: int, n: int)
    requires Ordered(u) && c in u && n in u && Tracks(u, c, n) && !u[c].marked && u[n].marked
    ensures u[c].key < u[n].key || Hides(u, c, n)
  {
    LeadsBefore(u, c, n);
  }

  /** A hunter is searching: at the start, on the upper level, or handing over a cell it has snipped there. */
  lemma HunterPlace(x: XState, t: int, n: int)
    requires XInv(x) && Ordered(x.u) && Missing(x, n) && Hunting(x, t, n)
    ensures var pc, h := x.s.threads[t].pc, x.holds[t];
      pc.Search? || (pc.LoadCurr? && h.walk != Below) || (Collecting(pc) && h.walk == Load)
    ensures Cleans(x.s.threads[t], n)
  {
    hide Inv, Hunted, Unhidden, TowerOk, RelinkedOk, Tracks;
    HunterKey(x, t, n);
  }

  /** The hunter's thread after its own step. */
  lemma HunterThread(x: XState, t: int, mv: Move, n: int)
    requires XInv(x) && XEnabled(x, t, mv) && Cleans(x.s.threads[t], n)
    ensures var x' := XStepped(x, t, mv);
      && t in x'.s.threads && t in x'.holds && x'.holds[t] == PlanOf(x, t, mv).hold
      && x'.s.threads[t].info.phase == Cleaning(n) && !x'.s.threads[t].pc.Idle?
      && (PlanOf(x, t, mv).base == Does(Refind) && x.s.threads[t].pc.LoadCurr? ==> x'.s.threads[t].pc == Search)
  {
    hide Inv, Hunted, Unhidden, TowerOk, RelinkedOk, HoldsOk, PlanOf, Local, Stepped, Enabled, EffectOf, Relinked;
    var base := PlanOf(x, t, mv).base;
    InvParts(x);
    if base.Does? {
      ActorAfter(x.s, t, base.a);
      MarkerCleans(x.s, t, base.a);
      if x.s.threads[t].pc.LoadCurr? {
        RefindMoves(x.s, t);
      }
    }
  }

  lemma OnlyGo(x: XState, t: int, mv: Move)
    requires XEnabled(x, t, mv) && !x.s.threads[t].pc.Idle? && !x.s.threads[t].pc.LinkCas?
    ensures mv == Go
  {
    hide EffectOf;
  }

  lemma HunterHunts(x: XState, t: int, mv: Move, n: int)
    requires XInv(x) && XEnabled(x, t, mv) && Missing(XStepped(x, t, mv), n)
    requires !JustMarked(x.s, XStepped(x, t, mv).s, n)
    requires Ordered(x.u) && Ordered(XStepped(x, t, mv).u) && Hunting(x, t, n)
    ensures Hunting(XStepped(x, t, mv), t, n)
  {
    hide Inv, Hunted, CoreInv, Stepped, Local, Enabled, HoldsOk, TowerOk, EffectOf, Relinked, RelinkedOk, Ordered,
         JustMarked, Tracks, Missing, WalkPlan, LinkPlan, MakePlan, HoldOk, Hides;
    MissingBefore(x, t, mv, n);
    HunterPlace(x, t, n);
    HunterThread(x, t, mv, n);
    OnlyGo(x, t, mv);
    HunterKey(x, t, n);
    MissingOnLevel(x, n);
    var th, h, plan := x.s.threads[t], x.holds[t], PlanOf(x, t, mv);
    if th.pc.Search? {
      HeadTracks(x.u, n);
      TrackKept(x, t, mv, HEAD, n);
    } else if th.pc.LoadCurr? {
      WalkHunts(x.u, th, h, n);
      if plan.base != Does(Refind) {
        TrackKept(x, t, mv, plan.hold.pred, n);
        if plan.hold.walk.Look? {
          TrackKept(x, t, mv, plan.hold.walk.curr, n);
        }
      }
    } else {
      TrackKept(x, t, mv, h.pred, n);
    }
  }

  lemma MissingOnLevel(x: XState, n: int)
    requires Missing(x, n) && Ordered(x.u)
    ensures Leads(x.u, HEAD, n)
  {
  }

  lemma HeadTracks(u: Tower, n: int)
    requires Ordered(u) && Leads(u, HEAD, n)
    ensures HEAD in u && Tracks(u, HEAD, n)
  {
  }

  lemma HuntedStep(x: XState, t: int, mv: Move)
    requires XInv(x) && XEnabled(x, t, mv)
    ensures Ordered(XStepped(x, t, mv).u) && Hunted(XStepped(x, t, mv))
  {
    hide Inv, Unhidden, CoreInv, Stepped, Local, Enabled, HoldsOk, TowerOk, EffectOf, Relinked, RelinkedOk, Ordered,
         JustMarked, Missing, PlanOf, Hunting;
    InvParts(x);
    PlanSound(x, t, mv);
    SoundShift(x.u, PlanOf(x, t, mv).shift);
    var x' := XStepped(x, t, mv);
    forall n | Missing(x', n)
      ensures exists v :: Hunting(x', v, n)
    {
      if JustMarked(x.s, x'.s, n) {
        NewHunter(x, t, mv, n);
      } else {
        MissingBefore(x, t, mv, n);
        var v :| Hunting(x, v, n);
        if v == t {
          HunterHunts(x, t, mv, n);
        } else {
          OthersHunt(x, t, mv, v, n);
        }
        assert Hunting(x', v, n);
      }
    }
  }

  lemma NewHunter(x: XState, t: int, mv: Move, n: int)
    requires XInv(x) && XEnabled(x, t, mv) && JustMarked(x.s, XStepped(x, t, mv).s, n) && Ordered(XStepped(x, t, mv).u)
    ensures Hunting(XStepped(x, t, mv), t, n)
  {
    hide Inv, Hunted, Unhidden, CoreInv, Stepped, Local, Enabled, HoldsOk, TowerOk, EffectOf, Relinked, RelinkedOk,
         PlanOf;
    MarkShift(x, t, mv, n);
  }

  /** Every step of every thread keeps the invariant of both levels. */
  lemma {:induction false} XStepKeepsInv(x: XState, t: int, mv: Move)
    requires XInv(x) && XEnabled(x, t, mv)
    ensures XInv(XStepped(x, t, mv))
  {
    hide Inv, Hunted, Unhidden, CoreInv, Stepped, Local, Enabled, HoldsOk, TowerOk, EffectOf, Relinked, RelinkedOk,
         PlanOf;
    TowerStep(x, t, mv);
    HoldsStep(x, t, mv);
    RelinkedStep(x, t, mv);
    UnhiddenStep(x, t, mv);
    HuntedStep(x, t, mv);
    BaseKeeps(x.s, t, PlanOf(x, t, mv).base);
  }
}
