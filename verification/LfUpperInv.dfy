/** Every step of the list with its upper level keeps the invariant, whatever the interleaving. */
module LfUpperInv {
  import opened LfLinks
  import opened LfSkiplist
  import opened LfReclaim
  import opened LfTower
  import opened LfUpper

  // ----- the bottom level under a step -----

  /** What a step of `t` leaves of the bottom level and of the other threads. */
  ghost predicate Kept(s: State, s': State, t: int) {
    && s'.threads.Keys == s.threads.Keys
    && (forall v :: v in s.threads && v != t ==>
          s'.threads[v].pc == s.threads[v].pc && s'.threads[v].info.phase == s.threads[v].info.phase &&
          s'.threads[v].info.key == s.threads[v].info.key &&
          s'.threads[v].info.inserting == s.threads[v].info.inserting)
    && (forall n :: n in s.links ==>
          n in s'.links && s'.links[n].key == s.links[n].key && (s.links[n].marked ==> s'.links[n].marked))
  }

  /** The cell a step marks at the bottom, if any. */
  ghost predicate JustMarked(s: State, s': State, n: int) {
    n in s'.links && s'.links[n].marked && !(n in s.links && s.links[n].marked)
  }

  lemma OthersKeep(s: State, t: int, a: Action, v: int)
    requires Enabled(s, t, a) && v in s.threads && v != t
    ensures v in Stepped(s, t, a).threads
    ensures var th, th' := s.threads[v], Stepped(s, t, a).threads[v];
      th'.pc == th.pc && th'.info.phase == th.info.phase && th'.info.key == th.info.key &&
      th'.info.inserting == th.info.inserting
  {
    hide Keys, EffectOf, Applied, Local, Stepped;
    SteppedThreads(s, t, a);
  }

  lemma BaseKeeps(s: State, t: int, base: Base)
    requires Inv(s) && t in s.threads && (base.Does? ==> Enabled(s, t, base.a))
    ensures Inv(BaseAfter(s, t, base)) && Kept(s, BaseAfter(s, t, base), t)
    ensures forall n :: JustMarked(s, BaseAfter(s, t, base), n) ==>
      n in s.links && base.Does? && EffectOf(s, t, base.a) == Marks(n)
    ensures base.Stutter? ==> BaseAfter(s, t, base) == s
  {
    hide Inv, CoreInv, Stepped, Local, Applied, EffectOf, Legal, Enabled;
    if base.Does? {
      var a := base.a;
      ActorIn(s, t, a);
      StepKeepsInv(s, t, a);
      CoreOf(s);
      CoreStep(s, t, a);
      EffectLegal(s, t, a);
      PcFrame(s, t, a);
      var e, k, s' := EffectOf(s, t, a), s.threads[t].info.key, Stepped(s, t, a);
      AppliedKeys(s.links, e, k);
      forall n | n in s.links
        ensures n in s'.links && s'.links[n].key == s.links[n].key && (s.links[n].marked ==> s'.links[n].marked)
        ensures JustMarked(s, s', n) ==> e == Marks(n)
      {
        MarkedIsFrozen(s.links, e, k, n);
      }
      forall n | JustMarked(s, s', n)
        ensures n in s.links
      {
        if n !in s.links {
          NewIsUnmarked(s.links, e, k);
        }
      }
      forall v | v in s.threads && v != t
        ensures s'.threads[v].info.key == s.threads[v].info.key
        ensures s'.threads[v].info.inserting == s.threads[v].info.inserting
      {
        OthersKeep(s, t, a, v);
      }
    }
  }

  // ----- the upper level under a step -----

  /** Cells stay, with their keys; marks stay, and freeze the pointer. */
  ghost predicate TowerKept(u: Tower, v: Tower) {
    forall n :: n in u ==> n in v && v[n].key == u[n].key && v[n].born == u[n].born && (u[n].marked ==> v[n] == u[n])
  }

  /** The effects a step can have. */
  ghost predicate Sound(u: Tower, e: Shift) {
    && Ordered(u)
    && match e
       case Stays => true
       case Unhooks(p, x) =>
         p in u && p != TAIL && !u[p].marked && u[p].next != TAIL && u[u[p].next].marked && x == u[u[p].next].next
       case Hooks(p, m) => p in u && p != TAIL && !u[p].marked && m in u && m != HEAD && m != TAIL && Before(u[p], u[m])
       case Flags(n) => n in u && n != HEAD && n != TAIL
       case Grows(m, r) => CanAdd(u, m, r)
  }

  lemma SoundPointed(u: Tower, p: int, x: int)
    requires Ordered(u) && p in u && p != TAIL && !u[p].marked && x in u && Before(u[p], u[x])
    ensures Ordered(Pointed(u, p, x)) && TowerKept(u, Pointed(u, p, x))
  {
    PointedOrdered(u, p, x);
    hide Ordered;
  }

  lemma PastSuccessor(u: Tower, p: int)
    requires Ordered(u) && p in u && p != TAIL && u[p].next != TAIL
    ensures u[p].next in u && u[u[p].next].next in u && Before(u[p], u[u[u[p].next].next])
  {
  }

  lemma SoundShift(u: Tower, e: Shift)
    requires Sound(u, e)
    ensures Ordered(Shifted(u, e)) && TowerKept(u, Shifted(u, e))
  {
    hide Ordered, Before;
    match e
    case Stays =>
    case Unhooks(p, x) =>
      PastSuccessor(u, p);
      SoundPointed(u, p, x);
    case Hooks(p, m) => SoundPointed(u, p, m);
    case Flags(n) => FlaggedLeads(u, n, n, n);
    case Grows(m, r) => AddedLeads(u, m, r, r.next, r.next);
  }

  /** Only a link step makes a cell lead where it did not, and only through the cell linked. */
  lemma {:induction false} ShiftLeads(u: Tower, e: Shift, a: int, b: int)
    requires Sound(u, e) && a in u && Ordered(Shifted(u, e)) && Leads(Shifted(u, e), a, b)
    ensures b in u ==> Leads(u, a, b) || (e.Hooks? && Leads(u, a, e.p) && Leads(u, e.m, b))
    ensures b in u || e.Grows?
    ensures e.Grows? ==> b in u && Leads(u, a, b)
  {
    var v := Shifted(u, e);
    LeadsBefore(v, a, b);
    match e
    case Stays =>
    case Unhooks(p, x) =>
      PointedLeads(u, p, x, a, b);
      if Leads(u, a, p) && Leads(u, x, b) {
        var y := u[p].next;
        assert Leads(u, y, x) && Leads(u, p, x);
        LeadsOn(u, p, x, b);
        LeadsOn(u, a, p, b);
      }
    case Hooks(p, m) => PointedLeads(u, p, m, a, b);
    case Flags(n) => FlaggedLeads(u, n, a, b);
    case Grows(m, r) =>
      AddedLeads(u, m, r, a, b);
      LeadsBefore(u, a, b);
  }

  /** A cell leads through a link step only to what it or the cell linked led to before. */
  lemma LinkedLeads(u: Tower, e: Shift, b: int)
    requires Sound(u, e) && e.Hooks? && b in u && Ordered(Shifted(u, e))
    ensures Leads(Shifted(u, e), e.m, b) <==> Leads(u, e.m, b)
  {
    XNotBack(u, e.p, e.m);
    PointedLeads(u, e.p, e.m, e.m, b);
  }

  lemma ShiftTracks(u: Tower, e: Shift, a: int, n: int)
    requires Sound(u, e) && a in u && n in u && Tracks(u, a, n)
    requires Ordered(Shifted(u, e)) && Leads(Shifted(u, e), HEAD, n)
    requires e.Hooks? ==> !Leads(u, e.m, n)
    ensures Tracks(Shifted(u, e), a, n)
  {
    match e
    case Stays =>
    case Unhooks(p, x) => SnipTracks(u, p, a, n);
    case Hooks(p, m) => LinkTracks(u, p, m, a, n);
    case Flags(m) => FlagTracks(u, m, a, n);
    case Grows(m, r) => AddTracks(u, m, r, a, n);
  }

  // ----- what a step does -----

  lemma InvParts(x: XState)
    requires XInv(x)
    ensures CoreInv(x.s) && Sorted(x.s.links) && Ordered(x.u)
  {
    CoreOf(x.s);
    CoreSorted(x.s);
  }

  lemma CellOk(x: XState, t: int)
    requires XInv(x) && t in x.s.threads && !x.s.threads[t].pc.Idle?
    ensures 0 < x.s.threads[t].info.key < MAX_KEY
    ensures Removing(x.s.threads[t].pc) ==>
      x.s.threads[t].pc.cell in x.s.links && x.s.threads[t].pc.cell != HEAD && x.s.threads[t].pc.cell != TAIL
    ensures t in x.holds && HoldOk(x.u, x.s.threads[t], x.holds[t])
  {
    hide Reach, Passed, PredOk, CurrOk, BackOk, GarbageInv, OwnersInv, Hunted, Unhidden;
    assert ThreadOk(x.s.links, x.s.up, x.s.threads[t]);
  }

  lemma WalkSound(u: Tower, th: Thread, h: Hold)
    requires Ordered(u) && HoldOk(u, th, h) && th.pc.LoadCurr? && WalkPlan(u, h, th.info.key) != Stuck
    ensures Sound(u, WalkPlan(u, h, th.info.key).shift)
  {
  }

  lemma LinkSound(u: Tower, th: Thread, h: Hold)
    requires Ordered(u) && HoldOk(u, th, h) && th.pc.LinkUpper? && LinkPlan(u, h) != Stuck
    ensures Sound(u, LinkPlan(u, h).shift)
  {
  }

  lemma MakeSound(x: XState, t: int, n: int, tall: bool)
    requires Ordered(x.u) && TowerOk(x.s.links, x.s.up, x.u, x.clock) && t in x.s.threads && t in x.holds
    requires HoldOk(x.u, x.s.threads[t], x.holds[t]) && x.s.threads[t].pc.LinkCas? && n !in x.s.links
    requires 0 < x.s.threads[t].info.key < MAX_KEY
    ensures Sound(x.u, MakePlan(x, t, n, tall).shift)
  {
    hide EffectOf;
  }

  lemma MakeFresh(s: State, t: int, n: int)
    requires Enabled(s, t, Allocate(n))
    ensures n !in s.links && s.threads[t].pc.LinkCas?
  {
  }

  lemma PlanSound(x: XState, t: int, mv: Move)
    requires XInv(x) && XEnabled(x, t, mv)
    ensures Sound(x.u, PlanOf(x, t, mv).shift)
  {
    hide Inv, Hunted, Unhidden, CoreInv, Enabled, RelinkedOk, HoldOk, WalkPlan, LinkPlan, Sound;
    InvParts(x);
    var th, h := x.s.threads[t], x.holds[t];
    if mv.Call? {
      assert PlanOf(x, t, mv).shift == Stays;
      StaySound(x.u);
      return;
    }
    CellOk(x, t);
    if mv.Make? {
      MakeFresh(x.s, t, mv.cell);
      MakeSound(x, t, mv.cell, mv.tall);
    } else if th.pc.LoadCurr? {
      WalkSound(x.u, th, h);
    } else if th.pc.LinkUpper? {
      LinkSound(x.u, th, h);
    } else if th.pc.MarkUpper? {
      StaySound(x.u);
      FlagSound(x, th.pc.cell);
    } else {
      StaySound(x.u);
    }
  }

  lemma StaySound(u: Tower)
    requires Ordered(u)
    ensures Sound(u, Stays)
  {
  }

  lemma FlagSound(x: XState, n: int)
    requires Ordered(x.u) && n != HEAD && n != TAIL
    ensures n in x.u ==> Sound(x.u, Flags(n))
  {
  }

  lemma UpFrame(s: State, t: int, a: Action)
    requires Enabled(s, t, a)
    ensures Stepped(s, t, a).up ==
      s.up + if s.threads[t].pc.MarkUpper? && a == MarkLevel then {s.threads[t].pc.cell} else {}
  {
    hide Applied, EffectOf, ObservedAll, Local;
  }

  lemma LinkedCell(s: State, t: int, n: int)
    requires CoreInv(s) && Enabled(s, t, Allocate(n)) && EffectOf(s, t, Allocate(n)).Links?
    ensures var l := Stepped(s, t, Allocate(n)).links; n in l && l[n].key == s.threads[t].info.key && !l[n].marked
  {
    hide CoreInv, Stepped, Legal;
    CoreStep(s, t, Allocate(n));
    EffectLegal(s, t, Allocate(n));
  }

  /** Which plans mark a level. */
  lemma PlanFlags(x: XState, t: int, mv: Move)
    requires t in x.s.threads && t in x.holds && PlanOf(x, t, mv) != Stuck
    ensures var plan := PlanOf(x, t, mv);
      && (plan.shift.Flags? ==> x.s.threads[t].pc == MarkUpper(plan.shift.n) && plan.base == Does(MarkLevel))
      && (plan.base == Does(MarkLevel) ==> plan.shift == Flags(x.s.threads[t].pc.cell) && x.s.threads[t].pc.MarkUpper?)
      && (plan.shift.Grows? ==>
            mv.Make? && plan.base == Does(Allocate(mv.cell)) && plan.shift.m == mv.cell &&
            plan.shift.r.key == x.s.threads[t].info.key && plan.shift.r.born == x.clock &&
            EffectOf(x.s, t, Allocate(mv.cell)).Links?)
      && (!plan.shift.Grows? && !plan.shift.Stays? ==> mv.Go?)
  {
    hide EffectOf;
  }

  lemma TowerStep(x: XState, t: int, mv: Move)
    requires XInv(x) && XEnabled(x, t, mv)
    ensures var x' := XStepped(x, t, mv); TowerOk(x'.s.links, x'.s.up, x'.u, x'.clock)
  {
    hide Inv, Hunted, Unhidden, CoreInv, Enabled, RelinkedOk, HoldsOk, PlanOf, Stepped, Sound, EffectOf, Relinked,
         Ordered;
    PlanSound(x, t, mv);
    PlanFlags(x, t, mv);
    var plan := PlanOf(x, t, mv);
    SoundShift(x.u, plan.shift);
    BaseKeeps(x.s, t, plan.base);
    if plan.base.Does? {
      UpFrame(x.s, t, plan.base.a);
    }
    MarkedAbove(x, t, mv);
    if plan.shift.Grows? {
      InvParts(x);
      LinkedCell(x.s, t, mv.cell);
      MakeFresh(x.s, t, mv.cell);
    }
    TowerAgrees(x, XStepped(x, t, mv), plan.shift);
  }

  /** The bottom mark comes after the upper one. */
  lemma MarkedAbove(x: XState, t: int, mv: Move)
    requires XInv(x) && XEnabled(x, t, mv)
    ensures forall n :: n in x.u && JustMarked(x.s, BaseAfter(x.s, t, PlanOf(x, t, mv).base), n) ==> x.u[n].marked
  {
    hide Inv, Hunted, Unhidden, CoreInv, RelinkedOk, Stepped, Local, Applied, Enabled, PlanOf;
    var base := PlanOf(x, t, mv).base;
    BaseKeeps(x.s, t, base);
    forall n | n in x.u && JustMarked(x.s, BaseAfter(x.s, t, base), n)
      ensures x.u[n].marked
    {
      assert x.s.threads[t].pc.MarkCas? && x.s.threads[t].pc.cell == n;
      CellOk(x, t);
    }
  }

  lemma TowerAgrees(x: XState, x': XState, e: Shift)
    requires TowerOk(x.s.links, x.s.up, x.u, x.clock) && x'.u == Shifted(x.u, e) && x'.clock == x.clock + 1
    requires Sound(x.u, e)
    requires Ordered(x'.u) && TowerKept(x.u, x'.u)
    requires forall n :: n in x.s.links ==> n in x'.s.links && x'.s.links[n].key == x.s.links[n].key
    requires forall n :: n in x.u && JustMarked(x.s, x'.s, n) ==> x.u[n].marked
    requires x'.s.up == x.s.up + if e.Flags? then {e.n} else {}
    requires e.Grows? ==>
      e.r.born == x.clock && e.m !in x.s.links && e.m in x'.s.links &&
      x'.s.links[e.m].key == e.r.key && !x'.s.links[e.m].marked
    ensures TowerOk(x'.s.links, x'.s.up, x'.u, x'.clock)
  {
    hide Ordered, Before;
    assert forall n :: n in x'.u ==> n in x.u || (e.Grows? && n == e.m);
  }

  // ----- what threads hold -----

  lemma LocalMoves(s: State, t: int, a: Action)
    requires Enabled(s, t, a)
    ensures var th, th' := s.threads[t], Local(s, t, a).1;
      && (!a.Begin? ==> th'.info.key == th.info.key)
      && (a.Begin? ==> 0 < th'.info.key < MAX_KEY && th'.pc == Search)
      && (th'.pc.LoadSucc? || th'.pc.MarkCas? || th'.pc.Reload? ==>
            Removing(th.pc) && th.pc.cell == th'.pc.cell && (th.pc.MarkUpper? ==> a == LeaveUpper))
      && (Collecting(th.pc) && a.Step? ==>
            (Collecting(th'.pc) && th'.pc.back == th.pc.back) || th'.pc == Resume(th.pc.back))
      && (a.SnipUpper? && th.pc.LoadCurr? ==> th'.pc == ClaimCas(ToPred(th.pc.pred), a.cell))
      && (a.Pick? ==> th'.pc == LoadCurr(a.pred))
      && (a == Return ==> th'.pc.Idle?)
  {
    hide EffectOf;
  }

  lemma ActorAfter(s: State, t: int, a: Action)
    requires Enabled(s, t, a)
    ensures t in Stepped(s, t, a).threads
    ensures var th, th' := Local(s, t, a).1, Stepped(s, t, a).threads[t];
      th'.pc == th.pc && th'.info.phase == th.info.phase && th'.info.key == th.info.key &&
      th'.info.inserting == th.info.inserting
  {
    hide Keys, EffectOf, Applied, Local, Stepped;
    SteppedThreads(s, t, a);
  }

  lemma HoldStable(u: Tower, v: Tower, th: Thread, th': Thread, h: Hold)
    requires HoldOk(u, th, h) && TowerKept(u, v) && th'.pc == th.pc && th'.info.key == th.info.key
    requires Removing(th.pc) && th.pc.cell in v ==> th.pc.cell in u
    ensures HoldOk(v, th', h)
  {
  }

  /** Steps that leave what the thread holds as it is. */
  lemma PlainHold(u: Tower, th: Thread, th': Thread, h: Hold)
    requires HoldOk(u, th, h) && !th.pc.Idle? && th'.info.key == th.info.key && (h.walk == Below || Collecting(th.pc))
    requires th'.pc.LoadSucc? || th'.pc.MarkCas? || th'.pc.Reload? ==> th'.pc.cell in u ==> u[th'.pc.cell].marked
    requires Collecting(th.pc) && h.walk != Below ==>
      (Collecting(th'.pc) && th'.pc.back == th.pc.back) || th'.pc == Resume(th.pc.back)
    ensures HoldOk(u, th', h)
  {
  }

  lemma WalkHold(u: Tower, th: Thread, th': Thread, h: Hold)
    requires Ordered(u) && HoldOk(u, th, h) && th.pc.LoadCurr? && h.walk != Below
    requires WalkPlan(u, h, th.info.key) != Stuck
    requires 0 < th.info.key < MAX_KEY && th'.info.key == th.info.key
    requires var base := WalkPlan(u, h, th.info.key).base;
      match base
      case Stutter => th'.pc == th.pc
      case Does(a) =>
        (a.SnipUpper? ==> th'.pc == ClaimCas(ToPred(th.pc.pred), a.cell)) && (a.Pick? ==> th'.pc == LoadCurr(a.pred)) &&
        (a == Refind ==> th'.pc == Search)
    ensures HoldOk(u, th', WalkPlan(u, h, th.info.key).hold)
  {
  }

  /** The acting thread after the step: where it is, with what key. */
  ghost predicate Acted(x: XState, t: int, mv: Move, th': Thread)
    requires XEnabled(x, t, mv)
  {
    var th, base := x.s.threads[t], PlanOf(x, t, mv).base;
    match base
    case Stutter => th'.pc == th.pc && th'.info.key == th.info.key
    case Does(a) => th'.pc == Local(x.s, t, a).1.pc && th'.info.key == Local(x.s, t, a).1.info.key
  }

  lemma ActedAfter(x: XState, t: int, mv: Move)
    requires XEnabled(x, t, mv)
    ensures t in XStepped(x, t, mv).s.threads && Acted(x, t, mv, XStepped(x, t, mv).s.threads[t])
  {
    hide Stepped, Local, PlanOf, Enabled, Relinked;
    var plan := PlanOf(x, t, mv);
    if plan.base.Does? {
      ActorAfter(x.s, t, plan.base.a);
    }
  }

  lemma GoHold(x: XState, t: int, th': Thread)
    requires XInv(x) && XEnabled(x, t, Go) && Acted(x, t, Go, th')
    ensures HoldOk(x.u, th', PlanOf(x, t, Go).hold)
  {
    hide Inv, Hunted, Unhidden, CoreInv, RelinkedOk, Stepped, Local, Enabled, HoldOk, TowerOk, WalkPlan, HoldsOk;
    var th, h, plan := x.s.threads[t], x.holds[t], PlanOf(x, t, Go);
    InvParts(x);
    CellOk(x, t);
    if plan.base.Does? {
      LocalMoves(x.s, t, plan.base.a);
    }
    if th.pc.Search? {
      SearchHold(x.u, th, th', h);
    } else if th.pc.LoadCurr? && h.walk != Below {
      RefindMoves(x.s, t);
      WalkActions(x.u, h, th.info.key);
      WalkHold(x.u, th, th', h);
    } else {
      OtherHold(x, t, th');
    }
  }

  lemma WalkActions(u: Tower, h: Hold, key: int)
    requires WalkPlan(u, h, key) != Stuck
    ensures WalkPlan(u, h, key).base.Does? ==> !WalkPlan(u, h, key).base.a.Begin?
  {
  }

  lemma RefindMoves(s: State, t: int)
    requires t in s.threads && (s.threads[t].pc.LoadCurr? || s.threads[t].pc.LinkUpper?)
    ensures Local(s, t, Refind).1.pc == Search
  {
  }

  lemma SearchHold(u: Tower, th: Thread, th': Thread, h: Hold)
    requires Ordered(u) && HoldOk(u, th, h) && th.pc.Search? && 0 < th.info.key
    requires th'.pc == LoadCurr(HEAD) && th'.info.key == th.info.key
    ensures HoldOk(u, th', h.(walk := Load, pred := HEAD))
  {
  }

  lemma OtherHold(x: XState, t: int, th': Thread)
    requires Ordered(x.u) && XEnabled(x, t, Go) && Acted(x, t, Go, th') && !x.s.threads[t].pc.Search?
    requires HoldOk(x.u, x.s.threads[t], x.holds[t]) && !(x.s.threads[t].pc.LoadCurr? && x.holds[t].walk != Below)
    ensures HoldOk(x.u, th', PlanOf(x, t, Go).hold)
  {
    hide Stepped, Local, Enabled, Ordered, Before;
    var th, h, plan := x.s.threads[t], x.holds[t], PlanOf(x, t, Go);
    LocalMoves(x.s, t, plan.base.a);
    PlainHold(x.u, th, th', h);
  }

  lemma CallHold(x: XState, t: int, mv: Move, th': Thread)
    requires Ordered(x.u) && XEnabled(x, t, mv) && mv.Call? && Acted(x, t, mv, th')
    ensures HoldOk(x.u, th', PlanOf(x, t, mv).hold)
  {
    hide Stepped, Local, Enabled;
    LocalMoves(x.s, t, Begin(mv.inserting, mv.key));
  }

  lemma MakeHold(x: XState, t: int, mv: Move, th': Thread)
    requires XInv(x) && XEnabled(x, t, mv) && mv.Make? && Acted(x, t, mv, th')
    ensures HoldOk(Shifted(x.u, PlanOf(x, t, mv).shift), th', PlanOf(x, t, mv).hold)
  {
    hide Inv, Hunted, Unhidden, CoreInv, RelinkedOk, Stepped, Local, Enabled, EffectOf, HoldsOk, HoldOk;
    InvParts(x);
    CellOk(x, t);
    LocalMoves(x.s, t, Allocate(mv.cell));
    MakeFresh(x.s, t, mv.cell);
    AfterAllocate(x.s, t, mv.cell);
    var th, h := x.s.threads[t], x.holds[t];
    NewCellHold(x.u, mv.cell, Rung(th.info.key, x.clock, h.succ, false), th, th', h);
  }

  lemma NewCellHold(u: Tower, m: int, r: Rung, th: Thread, th': Thread, h: Hold)
    requires Ordered(u) && HoldOk(u, th, h) && th.pc.LinkCas? && m !in u && r.key == th.info.key
    requires (th'.pc == LinkUpper || th'.pc == Search) && th'.info.key == th.info.key
    ensures HoldOk(u, th', h.(cell := NONE)) && HoldOk(Added(u, m, r), th', h.(cell := m))
  {
  }

  lemma AfterAllocate(s: State, t: int, n: int)
    requires t in s.threads && s.threads[t].pc.LinkCas?
    ensures Local(s, t, Allocate(n)).1.pc == LinkUpper || Local(s, t, Allocate(n)).1.pc == Search
  {
  }

  lemma HoldsStep(x: XState, t: int, mv: Move)
    requires XInv(x) && XEnabled(x, t, mv)
    ensures HoldsOk(XStepped(x, t, mv))
  {
    hide Inv, Hunted, Unhidden, CoreInv, RelinkedOk, Stepped, Local, Enabled, PlanOf, HoldOk, Sound, Relinked, TowerOk,
         EffectOf, Acted;
    PlanSound(x, t, mv);
    PlanFlags(x, t, mv);
    ActedAfter(x, t, mv);
    var plan, x' := PlanOf(x, t, mv), XStepped(x, t, mv);
    InvParts(x);
    SoundShift(x.u, plan.shift);
    BaseKeeps(x.s, t, plan.base);
    assert HoldOk(x'.u, x'.s.threads[t], x'.holds[t]) by {
      OwnHold(x, t, mv, x'.s.threads[t]);
    }
    forall v | v in x.s.threads && v != t
      ensures HoldOk(x'.u, x'.s.threads[v], x'.holds[v])
    {
      assert HoldOk(x.u, x.s.threads[v], x.holds[v]);
      NotTheNewCell(x, t, mv, v);
      HoldStable(x.u, x'.u, x.s.threads[v], x'.s.threads[v], x.holds[v]);
    }
  }

  lemma OwnHold(x: XState, t: int, mv: Move, th': Thread)
    requires XInv(x) && XEnabled(x, t, mv) && Acted(x, t, mv, th')
    ensures HoldOk(Shifted(x.u, PlanOf(x, t, mv).shift), th', PlanOf(x, t, mv).hold)
  {
    hide Inv, Hunted, Unhidden, CoreInv, RelinkedOk, Stepped, Local, Enabled, HoldOk, Sound, TowerOk, EffectOf, Acted,
         HoldsOk, WalkPlan, LinkPlan, MakePlan;
    InvParts(x);
    PlanSound(x, t, mv);
    PlanFlags(x, t, mv);
    var e := PlanOf(x, t, mv).shift;
    SoundShift(x.u, e);
    if mv.Make? {
      MakeHold(x, t, mv, th');
    } else {
      if mv.Call? {
        CallHold(x, t, mv, th');
      } else {
        GoHold(x, t, th');
      }
      HoldStable(x.u, Shifted(x.u, e), th', th', PlanOf(x, t, mv).hold);
    }
  }

  /** A new cell is not one that a remover holds. */
  lemma NotTheNewCell(x: XState, t: int, mv: Move, v: int)
    requires XInv(x) && XEnabled(x, t, mv) && v in x.s.threads
    ensures var u' := Shifted(x.u, PlanOf(x, t, mv).shift);
      Removing(x.s.threads[v].pc) && x.s.threads[v].pc.cell in u' ==> x.s.threads[v].pc.cell in x.u
  {
    hide Inv, Hunted, Unhidden, CoreInv, RelinkedOk, Stepped, Local, Enabled, PlanOf, HoldOk, TowerOk, EffectOf;
    PlanFlags(x, t, mv);
    var e := PlanOf(x, t, mv).shift;
    if e.Grows? {
      MakeFresh(x.s, t, mv.cell);
      if Removing(x.s.threads[v].pc) {
        CellOk(x, v);
      }
    }
  }
}
