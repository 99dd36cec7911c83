/**
 The lock-free skip list with an upper level. Each thread walks that level before the bottom one, snips marked cells
 there, links the cell it has inserted and marks the cell it removes; all these steps interleave freely.
 */
module LfUpper {
  import opened LfLinks
  import opened LfSkiplist
  import opened LfReclaim
  import opened LfTower

  const NONE := -1

  /** Where a search is on the upper level; `Below` when it is not there. */
  datatype Walk = Below | Load | Look(curr: int) | Snip(curr: int, succ: int)

  /** preds[1] and succs[1] of the last search, and the cell to link, NONE for a cell of the bottom level only. */
  datatype Hold = Hold(walk: Walk, pred: int, succ: int, cell: int)

  /** `relinked` is history: marked cells on the level that a link step made after their mark leads to, ever since. */
  datatype XState = XState(s: State, u: Tower, holds: map<int, Hold>, clock: nat, relinked: set<int>)

  datatype Move = Call(inserting: bool, key: int) | Make(cell: int, tall: bool) | Go

  // ----- the steps -----

  datatype Base = Stutter | Does(a: Action)

  /** The effect on the upper level. */
  datatype Shift = Stays | Unhooks(p: int, x: int) | Hooks(p: int, m: int) | Flags(n: int) | Grows(m: int, r: Rung)

  /** `Stuck` where the step does not apply or would read a cell that does not exist. */
  datatype Plan = Plan(base: Base, shift: Shift, hold: Hold) | Stuck

  ghost function WalkPlan(u: Tower, h: Hold, key: int): Plan {
    match h.walk
    case Below => Plan(Does(Step), Stays, h)
    case Load => if h.pred in u then Plan(Stutter, Stays, h.(walk := Look(u[h.pred].next))) else Stuck
    case Look(c) =>
      if c !in u then Stuck
      else if u[c].marked then Plan(Stutter, Stays, h.(walk := Snip(c, u[c].next)))
      else if u[c].key < key then Plan(Does(Pick(c)), Stays, h.(walk := Look(u[c].next), pred := c))
      else Plan(Stutter, Stays, h.(walk := Below, succ := c))
    case Snip(c, z) =>
      if h.pred !in u then Stuck
      else if u[h.pred].next == c && !u[h.pred].marked then
        Plan(Does(SnipUpper(c)), Unhooks(h.pred, z), h.(walk := Load))
      else Plan(Does(Refind), Stays, h.(walk := Below))
  }

  ghost function LinkPlan(u: Tower, h: Hold): Plan {
    if h.cell == NONE then Plan(Does(LeaveUpper), Stays, h)
    else if h.pred !in u then Stuck
    else if u[h.pred].next == h.succ && !u[h.pred].marked then
      Plan(Does(LeaveUpper), Hooks(h.pred, h.cell), h.(cell := NONE))
    else Plan(Does(Refind), Stays, h)
  }

  /** A new cell's upper pointer is what the search found; nothing refreshes it later. */
  ghost function MakePlan(x: XState, t: int, n: int, tall: bool): Plan
    requires t in x.s.threads && t in x.holds
  {
    var h := x.holds[t];
    if tall && EffectOf(x.s, t, Allocate(n)).Links? then
      Plan(Does(Allocate(n)), Grows(n, Rung(x.s.threads[t].info.key, x.clock, h.succ, false)), h.(cell := n))
    else Plan(Does(Allocate(n)), Stays, h.(cell := NONE))
  }

  ghost function PlanOf(x: XState, t: int, mv: Move): Plan
    requires t in x.s.threads && t in x.holds
  {
    var th, h := x.s.threads[t], x.holds[t];
    match mv
    case Call(inserting, key) => Plan(Does(Begin(inserting, key)), Stays, Hold(Below, HEAD, TAIL, NONE))
    case Make(n, tall) => if th.pc.LinkCas? && n != NONE then MakePlan(x, t, n, tall) else Stuck
    case Go =>
      match th.pc
      case Search => Plan(Does(Pick(HEAD)), Stays, h.(walk := Load, pred := HEAD))
      case LoadCurr(_) => WalkPlan(x.u, h, th.info.key)
      case LinkUpper => LinkPlan(x.u, h)
      case MarkUpper(n) =>
        if n in x.u && !x.u[n].marked then Plan(Does(MarkLevel), Flags(n), h) else Plan(Does(LeaveUpper), Stays, h)
      case Done(_) => Plan(Does(Return), Stays, h)
      case Idle => Stuck
      case LinkCas(_, _) => Stuck
      case _ => Plan(Does(Step), Stays, h)
  }

  ghost function Shifted(u: Tower, e: Shift): Tower {
    match e
    case Stays => u
    case Unhooks(p, x) => if p in u then Pointed(u, p, x) else u
    case Hooks(p, m) => if p in u then Pointed(u, p, m) else u
    case Flags(n) => if n in u then Flagged(u, n) else u
    case Grows(m, r) => Added(u, m, r)
  }

  ghost predicate XEnabled(x: XState, t: int, mv: Move) {
    && t in x.s.threads && t in x.holds
    && var plan := PlanOf(x, t, mv);
       plan != Stuck && (plan.base.Does? ==> Enabled(x.s, t, plan.base.a))
  }

  ghost function BaseAfter(s: State, t: int, base: Base): State
    requires base.Does? ==> Enabled(s, t, base.a)
  {
    if base.Does? then Stepped(s, t, base.a) else s
  }

  ghost function Relinked(links: Links, v: Tower, e: Shift, relinked: set<int>): set<int> {
    set n | n in v && n in links && links[n].marked && OnLevel(v, n) &&
            (n in relinked || (e.Hooks? && e.m in v && Leads(v, e.m, n)))
  }

  ghost function XStepped(x: XState, t: int, mv: Move): XState
    requires XEnabled(x, t, mv)
  {
    var plan := PlanOf(x, t, mv);
    var s', v := BaseAfter(x.s, t, plan.base), Shifted(x.u, plan.shift);
    XState(s', v, x.holds[t := plan.hold], x.clock + 1, Relinked(s'.links, v, plan.shift, x.relinked))
  }

  // ----- the invariant -----

  /** The two levels agree on keys, and a cell is marked above before it is marked below. */
  ghost predicate TowerOk(links: Links, up: set<int>, u: Tower, clock: nat) {
    && Ordered(u)
    && (forall n :: n in u ==> n in links && u[n].key == links[n].key && u[n].born < clock)
    && (forall n :: n in u && links[n].marked ==> u[n].marked)
    && (forall n :: n in up ==> n in u && u[n].marked)
    && (forall n :: n in u && u[n].marked ==> n in up)
  }

  ghost predicate WalkOk(u: Tower, th: Thread, h: Hold)
    requires h.pred in u
  {
    && (h.walk != Below ==>
          th.pc == LoadCurr(h.pred) || (Collecting(th.pc) && th.pc.back == ToPred(h.pred) && h.walk == Load))
    && (h.walk.Look? || h.walk.Snip? ==>
          h.walk.curr in u && h.walk.curr != HEAD && Before(u[h.pred], u[h.walk.curr]))
    && (h.walk.Snip? ==> h.walk.curr != TAIL && u[h.walk.curr].marked && u[h.walk.curr].next == h.walk.succ)
  }

  ghost predicate HoldOk(u: Tower, th: Thread, h: Hold) {
    th.pc.Idle? ||
    (&& h.pred in u && h.pred != TAIL && u[h.pred].key < th.info.key
     && h.succ in u && h.succ != HEAD && th.info.key <= u[h.succ].key
     && (h.cell != NONE ==> h.cell in u && h.cell != HEAD && h.cell != TAIL && u[h.cell].key == th.info.key)
     && WalkOk(u, th, h)
     && (th.pc.LoadSucc? || th.pc.MarkCas? || th.pc.Reload? ==> th.pc.cell in u ==> u[th.pc.cell].marked))
  }

  ghost predicate HoldsOk(x: XState) {
    x.holds.Keys == x.s.threads.Keys && forall t :: t in x.s.threads ==> HoldOk(x.u, x.s.threads[t], x.holds[t])
  }

  /** Removed, still on the upper level, and no link step to blame. */
  ghost predicate Missing(x: XState, n: int) {
    n in x.s.links && x.s.links[n].marked && OnLevel(x.u, n) && n !in x.relinked
  }

  /** Thread `t` removed `n` and its search has yet to meet it on the upper level. */
  ghost predicate Hunting(x: XState, t: int, n: int)
    requires Ordered(x.u)
  {
    && t in x.s.threads && t in x.holds
    && var th, h := x.s.threads[t], x.holds[t];
    && th.info.phase == Cleaning(n) && !th.pc.Idle?
    && (th.pc.Search? ||
        (h.walk != Below && h.pred in x.u && Tracks(x.u, h.pred, n) &&
         (h.walk.Look? ==> h.walk.curr in x.u && Tracks(x.u, h.walk.curr, n))))
  }

  ghost predicate Hunted(x: XState)
    requires Ordered(x.u)
  {
    forall n :: Missing(x, n) ==> exists t :: Hunting(x, t, n)
  }

  /** An unmarked cell of the same key in front of `n` would end the search before it. */
  ghost predicate Hides(u: Tower, c: int, n: int)
    requires Ordered(u) && n in u
  {
    c in u && c != n && u[c].key == u[n].key && !u[c].marked && Leads(u, HEAD, c) && Leads(u, c, n)
  }

  ghost predicate Unhidden(x: XState)
    requires Ordered(x.u)
  {
    forall n, c :: Missing(x, n) ==> !Hides(x.u, c, n)
  }

  ghost predicate RelinkedOk(x: XState) {
    forall n :: n in x.relinked ==> n in x.s.links && x.s.links[n].marked && OnLevel(x.u, n)
  }

  ghost predicate XInv(x: XState) {
    && Inv(x.s)
    && TowerOk(x.s.links, x.s.up, x.u, x.clock) && HoldsOk(x)
    && RelinkedOk(x) && Unhidden(x) && Hunted(x)
  }
}
