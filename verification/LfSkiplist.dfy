/**
 The lock-free skip list under any interleaving of any number of threads. Every shared access of
 skiplist_find, insert, remove and the garbage list is one atomic step on the bottom level; the
 search of the upper levels is an arbitrary choice of an unmarked predecessor.
 */
module LfSkiplist {
  import opened LfLinks

  /** garbage_next: NULL, the reserved value 1, or a pointer. */
  datatype Garbage = Unclaimed | Claimed | Next(cell: int)

  /** Where skiplist_find resumes after handing a cell to the garbage list. */
  datatype Back = ToSearch | ToPred(pred: int)

  datatype Outcome = Inserted | AlreadyThere | Removed | NotThere

  /** What the current search is for: the operation itself, fixing up after a mark, or relinking upper levels. */
  datatype Phase = Main | Cleaning(cell: int) | Relinking

  datatype Pc =
    | Idle
    | Search
    | LoadCurr(pred: int)
    | Examine(pred: int, curr: int)
    | SnipCas(pred: int, curr: int, succ: int)
    | ClaimCas(back: Back, cell: int)
    | LoadGarbage(back: Back, cell: int)
    | StoreGarbage(back: Back, cell: int, seen: int)
    | GarbageCas(back: Back, cell: int, seen: int)
    | LinkCas(pred: int, succ: int)
    | LinkUpper
    | MarkUpper(cell: int)
    | LoadSucc(cell: int)
    | MarkCas(cell: int, succ: int)
    | Reload(cell: int)
    | Done(outcome: Outcome)

  /** `absent` and `present` record whether, since the call began, the key was ever out of or in the set. */
  datatype Info = Info(key: int, inserting: bool, phase: Phase, absent: bool, present: bool)

  datatype Thread = Thread(info: Info, pc: Pc)

  /** `up` holds the cells with a marked upper-level pointer; `glist` is the garbage list as a sequence. */
  datatype State = State(links: Links, up: set<int>, gnext: map<int, Garbage>, ghead: int,
                         threads: map<int, Thread>, glist: seq<int>)

  datatype Action =
    | Begin(inserting: bool, key: int)
    | Pick(pred: int)
    | SnipUpper(cell: int)
    | Step
    | Allocate(cell: int)
    | MarkLevel
    | Refind
    | LeaveUpper
    | Return

  // ----- the steps -----

  ghost function Observed(l: Links, th: Info): Info {
    th.(absent := th.absent || th.key !in Keys(l), present := th.present || th.key in Keys(l))
  }

  ghost function Watched(l: Links, th: Thread): Thread {
    th.(info := Observed(l, th.info))
  }

  ghost function ObservedAll(l: Links, threads: map<int, Thread>): map<int, Thread> {
    map t | t in threads :: Watched(l, threads[t])
  }

  /** Thread `t` moves to `th`, the links become `l`, and every thread observes the new set. */
  ghost function Moved(s: State, t: int, th: Thread, l: Links): State {
    s.(threads := ObservedAll(l, s.threads[t := th]), links := l)
  }

  function Resume(back: Back): Pc {
    match back
    case ToSearch => Search
    case ToPred(p) => LoadCurr(p)
  }

  /** skiplist_find has stopped at an unmarked `curr` whose key is not below the target. */
  function Ended(th: Thread, pred: int, curr: int, found: bool): Thread {
    match th.info.phase
    case Cleaning(_) => th.(pc := Done(Removed))
    case Relinking => th.(pc := LinkUpper)
    case Main =>
      if th.info.inserting then th.(pc := if found then Done(AlreadyThere) else LinkCas(pred, curr))
      else th.(pc := if found then MarkUpper(curr) else Done(NotThere))
  }

  /** The effect on the shared links: at most one compare-and-swap succeeds per step. */
  datatype Effect = Nothing | Snips(pred: int) | Links(pred: int, cell: int) | Marks(cell: int)

  ghost function EffectOf(s: State, t: int, a: Action): Effect
    requires t in s.threads
  {
    var th, l := s.threads[t], s.links;
    match th.pc
    case SnipCas(p, c, _) => if a.Step? && p in l && !l[p].marked && l[p].next == c then Snips(p) else Nothing
    case LinkCas(p, c) => if a.Allocate? && p in l && !l[p].marked && l[p].next == c then Links(p, a.cell) else Nothing
    case MarkCas(n, c) => if a.Step? && n in l && !l[n].marked && l[n].next == c then Marks(n) else Nothing
    case _ => Nothing
  }

  ghost function Applied(l: Links, e: Effect, k: int): Links {
    match e
    case Nothing => l
    case Snips(p) => if p in l && l[p].next in l then Snipped(l, p) else l
    case Links(p, n) => if p in l then Linked(l, p, n, k) else l
    case Marks(n) => if n in l then Marked(l, n) else l
  }

  /** The acting thread's next local state; None if the action is not enabled. */
  ghost function Local(s: State, t: int, a: Action): (r: (bool, Thread))
    requires t in s.threads
  {
    var th, l := s.threads[t], s.links;
    var done := EffectOf(s, t, a) != Nothing;
    match (th.pc, a)
    case (Idle, Begin(ins, k)) => (0 < k < MAX_KEY, Thread(Info(k, ins, Main, false, false), Search))
    case (Search, Pick(p)) =>
      (p in l && p != TAIL && !l[p].marked && l[p].key < th.info.key, th.(pc := LoadCurr(p)))
    case (LoadCurr(_), Pick(p)) =>
      (p in l && p != TAIL && !l[p].marked && l[p].key < th.info.key, th.(pc := LoadCurr(p)))
    case (LoadCurr(_), Refind) => (true, th.(pc := Search))
    case (Search, SnipUpper(n)) => (n in s.up, th.(pc := ClaimCas(ToSearch, n)))
    case (LoadCurr(p), SnipUpper(n)) => (n in s.up, th.(pc := ClaimCas(ToPred(p), n)))
    case (LoadCurr(p), Step) => (p in l, if p in l then th.(pc := Examine(p, l[p].next)) else th)
    case (Examine(p, c), Step) =>
      (c in l,
       if c !in l then th
       else if l[c].marked then th.(pc := SnipCas(p, c, l[c].next))
       else if l[c].key < th.info.key then th.(pc := Examine(c, l[c].next))
       else Ended(th, p, c, l[c].key == th.info.key))
    case (SnipCas(p, c, n), Step) => (true, th.(pc := if done then ClaimCas(ToPred(p), c) else Search))
    case (ClaimCas(back, n), Step) =>
      (n in s.gnext, th.(pc := if n in s.gnext && s.gnext[n] == Unclaimed then LoadGarbage(back, n) else Resume(back)))
    case (LoadGarbage(back, n), Step) => (true, th.(pc := StoreGarbage(back, n, s.ghead)))
    case (StoreGarbage(back, n, g), Step) => (true, th.(pc := GarbageCas(back, n, g)))
    case (GarbageCas(back, n, g), Step) =>
      (true, th.(pc := if s.ghead == g then Resume(back) else LoadGarbage(back, n)))
    case (LinkCas(p, c), Allocate(n)) => (n !in l, th.(pc := if done then LinkUpper else Search))
    case (LinkUpper, Refind) => (true, Thread(th.info.(phase := Relinking), Search))
    case (LinkUpper, LeaveUpper) => (true, th.(pc := Done(Inserted)))
    case (MarkUpper(n), MarkLevel) => (true, th)
    case (MarkUpper(n), LeaveUpper) => (true, th.(pc := LoadSucc(n)))
    case (LoadSucc(n), Step) => (n in l, if n in l then th.(pc := MarkCas(n, l[n].next)) else th)
    case (MarkCas(n, c), Step) =>
      (true, if done then Thread(th.info.(phase := Cleaning(n)), Search) else th.(pc := Reload(n)))
    case (Reload(n), Step) =>
      (n in l,
       if n !in l then th else if l[n].marked then th.(pc := Done(NotThere)) else th.(pc := MarkCas(n, l[n].next)))
    case (Done(_), Return) => (true, th.(pc := Idle))
    case _ => (false, th)
  }

  ghost predicate Enabled(s: State, t: int, a: Action) {
    t in s.threads && Local(s, t, a).0
  }

  /** One atomic step of thread `t`. */
  ghost function Stepped(s: State, t: int, a: Action): State
    requires Enabled(s, t, a)
  {
    var th := s.threads[t];
    var s' := Moved(s, t, Local(s, t, a).1, Applied(s.links, EffectOf(s, t, a), th.info.key));
    match (th.pc, a)
    case (ClaimCas(_, n), Step) =>
      if s.gnext[n] == Unclaimed then s'.(gnext := s.gnext[n := Claimed]) else s'
    case (StoreGarbage(_, n, g), Step) => s'.(gnext := s.gnext[n := Next(g)])
    case (GarbageCas(_, n, g), Step) =>
      if s.ghead == g then s'.(ghead := n, glist := [n] + s.glist) else s'
    case (LinkCas(_, _), Allocate(n)) =>
      if EffectOf(s, t, a).Links? then s'.(gnext := s.gnext[n := Unclaimed]) else s'
    case (MarkUpper(n), MarkLevel) => s'.(up := s.up + {n})
    case _ => s'
  }

  // ----- what each thread knows -----

  /** Going past `c` is justified: the key was absent, and a cell being cleaned up is off the chain. */
  ghost predicate Passed(l: Links, th: Info, c: int)
    requires Sorted(l) && c in l
  {
    && (l[c].key > th.key ==> th.absent)
    && (th.phase.Cleaning? && l[c].key >= th.key && c != th.phase.cell ==> !Reach(l, HEAD, th.phase.cell))
  }

  ghost predicate PredOk(l: Links, th: Info, p: int)
    requires Sorted(l)
  {
    && p in l && p != TAIL && l[p].key < th.key
    && (l[p].marked ==> Passed(l, th, l[p].next))
  }

  ghost predicate CurrOk(l: Links, th: Info, c: int)
    requires Sorted(l)
  {
    c in l && c != HEAD && Passed(l, th, c)
  }

  ghost predicate BackOk(l: Links, th: Info, back: Back)
    requires Sorted(l)
  {
    back.ToPred? ==> PredOk(l, th, back.pred)
  }

  ghost predicate Condemned(l: Links, up: set<int>, n: int) {
    n in l && n != HEAD && n != TAIL && (l[n].marked || n in up)
  }

  /** The cell a remove is about to mark was unmarked when found; if it is marked now, the key was absent. */
  ghost predicate Target(l: Links, th: Info, n: int) {
    && !th.inserting && th.phase == Main && th.present
    && n in l && n != HEAD && n != TAIL && l[n].key == th.key && (l[n].marked ==> th.absent)
  }

  ghost predicate PhaseOk(l: Links, th: Info) {
    match th.phase
    case Main => true
    case Relinking => th.inserting
    case Cleaning(n) => !th.inserting && n in l && n != HEAD && n != TAIL && l[n].marked && l[n].key == th.key
  }

  ghost predicate PcOk(l: Links, up: set<int>, th: Thread)
    requires Sorted(l)
  {
    match th.pc
    case Idle => true
    case Search => true
    case LoadCurr(p) => PredOk(l, th.info, p)
    case Examine(p, c) => PredOk(l, th.info, p) && CurrOk(l, th.info, c)
    case SnipCas(p, c, n) => PredOk(l, th.info, p) && CurrOk(l, th.info, c) && l[c].marked && l[c].next == n
    case ClaimCas(back, n) => BackOk(l, th.info, back) && Condemned(l, up, n)
    case LoadGarbage(back, n) => BackOk(l, th.info, back) && Condemned(l, up, n)
    case StoreGarbage(back, n, _) => BackOk(l, th.info, back) && Condemned(l, up, n)
    case GarbageCas(back, n, _) => BackOk(l, th.info, back) && Condemned(l, up, n)
    case LinkCas(p, c) =>
      th.info.inserting && th.info.phase == Main && PredOk(l, th.info, p) && c in l && l[c].key > th.info.key
    case LinkUpper => th.info.inserting
    case MarkUpper(n) => Target(l, th.info, n)
    case LoadSucc(n) => Target(l, th.info, n)
    case MarkCas(n, _) => Target(l, th.info, n)
    case Reload(n) => Target(l, th.info, n)
    case Done(o) =>
      && (o == AlreadyThere ==> th.info.present)
      && (o == NotThere ==> th.info.absent)
      && (th.info.phase.Cleaning? ==> !Reach(l, HEAD, th.info.phase.cell))
  }

  ghost predicate ThreadOk(l: Links, up: set<int>, th: Thread)
    requires Sorted(l)
  {
    th.pc.Idle? || (0 < th.info.key < MAX_KEY && PhaseOk(l, th.info) && PcOk(l, up, th))
  }

  ghost predicate ThreadsOk(s: State)
    requires Sorted(s.links)
  {
    forall t :: t in s.threads ==> ThreadOk(s.links, s.up, s.threads[t])
  }

  // ----- what one thread knows survives the steps of the others -----

  lemma PassedSnip(l: Links, p: int, th: Info, c: int)
    requires CanSnip(l, p) && Chained(l) && c in l && PhaseOk(l, th) && Passed(l, th, c)
    ensures Sorted(Snipped(l, p)) && Passed(Snipped(l, p), Observed(Snipped(l, p), th), c)
  {
    SnipSorted(l, p);
    if th.phase.Cleaning? {
      var n := th.phase.cell;
      if n != l[p].next {
        SnipReach(l, p, HEAD, n);
      } else {
        SnipRemoves(l, p);
      }
    }
  }

  lemma PassedLink(l: Links, p: int, n: int, k: int, th: Info, c: int)
    requires CanLink(l, p, n, k) && c in l && PhaseOk(l, th) && Passed(l, th, c)
    ensures Sorted(Linked(l, p, n, k)) && Passed(Linked(l, p, n, k), Observed(Linked(l, p, n, k), th), c)
  {
    LinkSorted(l, p, n, k);
    if th.phase.Cleaning? {
      LinkReach(l, p, n, k, HEAD, th.phase.cell);
    }
  }

  lemma PassedMark(l: Links, n: int, th: Info, c: int)
    requires CanMark(l, n) && c in l && Passed(l, th, c)
    ensures Sorted(Marked(l, n)) && Passed(Marked(l, n), Observed(Marked(l, n), th), c)
  {
    MarkReach(l, n, HEAD, HEAD);
    if th.phase.Cleaning? {
      MarkReach(l, n, HEAD, th.phase.cell);
    }
  }

  /** Marking a cell some thread holds as predecessor: its successor is then frozen and rightly passed. */
  lemma PassedByMark(l: Links, n: int, th: Info)
    requires Chained(l) && CanMark(l, n) && l[n].key < th.key && PhaseOk(l, th)
    ensures Sorted(Marked(l, n)) && Passed(Marked(l, n), Observed(Marked(l, n), th), l[n].next)
  {
    MarkReach(l, n, HEAD, HEAD);
    MarkRemoves(l, n);
    var c := l[n].next;
    if l[c].key > th.key {
      Gap(l, n, th.key);
    }
    if th.phase.Cleaning? && l[c].key >= th.key && c != th.phase.cell {
      PassedOver(l, n, th.phase.cell);
      MarkReach(l, n, HEAD, th.phase.cell);
    }
  }

  /** Loading the successor of a predecessor, marked or not. */
  lemma PassedByLoad(l: Links, th: Info, p: int)
    requires Chained(l) && PredOk(l, th, p) && PhaseOk(l, th)
    ensures Passed(l, Observed(l, th), l[p].next)
  {
    if !l[p].marked {
      var c := l[p].next;
      if l[c].key > th.key {
        Gap(l, p, th.key);
      }
      if th.phase.Cleaning? && l[c].key >= th.key && c != th.phase.cell {
        PassedOver(l, p, th.phase.cell);
      }
    }
  }

  ghost predicate Legal(l: Links, e: Effect, k: int) {
    && Chained(l)
    && match e
       case Nothing => true
       case Snips(p) => CanSnip(l, p)
       case Links(p, n) => CanLink(l, p, n, k)
       case Marks(n) => CanMark(l, n)
  }

  /** The three compare-and-swaps keep the list sorted and every unmarked cell on it. */
  lemma {:induction false} EffectChained(l: Links, e: Effect, k: int)
    requires Legal(l, e, k)
    ensures Chained(Applied(l, e, k))
  {
    match e
    case Nothing =>
    case Snips(p) => SnipKeeps(l, p);
    case Links(p, n) => LinkAdds(l, p, n, k);
    case Marks(n) => MarkRemoves(l, n);
  }

  /** A marked cell's pointer never changes again; marks and keys are permanent. */
  lemma {:induction false} MarkedIsFrozen(l: Links, e: Effect, k: int, x: int)
    requires Legal(l, e, k) && x in l
    ensures x in Applied(l, e, k) && Applied(l, e, k)[x].key == l[x].key
    ensures l[x].marked ==> Applied(l, e, k)[x] == l[x]
    ensures !l[x].marked && Applied(l, e, k)[x].marked ==> e == Marks(x) && Applied(l, e, k)[x].next == l[x].next
  {
  }

  lemma PassedStable(l: Links, e: Effect, k: int, th: Info, c: int)
    requires Legal(l, e, k) && c in l && PhaseOk(l, th) && Passed(l, th, c)
    ensures Sorted(Applied(l, e, k)) && c in Applied(l, e, k)
    ensures Passed(Applied(l, e, k), Observed(Applied(l, e, k), th), c)
  {
    hide Keys;
    EffectChained(l, e, k);
    match e
    case Nothing =>
    case Snips(p) => PassedSnip(l, p, th, c);
    case Links(p, n) => PassedLink(l, p, n, k, th, c);
    case Marks(n) => PassedMark(l, n, th, c);
  }

  lemma PredStable(l: Links, e: Effect, k: int, th: Info, p: int)
    requires Legal(l, e, k) && PhaseOk(l, th) && PredOk(l, th, p)
    ensures Sorted(Applied(l, e, k)) && PredOk(Applied(l, e, k), Observed(Applied(l, e, k), th), p)
  {
    hide Passed, Keys, Chained;
    EffectChained(l, e, k);
    SortedOf(Applied(l, e, k));
    MarkedIsFrozen(l, e, k, p);
    if l[p].marked {
      PassedStable(l, e, k, th, l[p].next);
    } else if e == Marks(p) {
      PassedByMark(l, p, th);
    }
  }

  lemma SortedOf(l: Links)
    requires Chained(l)
    ensures Sorted(l)
  {
  }

  lemma CurrStable(l: Links, e: Effect, k: int, th: Info, c: int)
    requires Legal(l, e, k) && PhaseOk(l, th) && Sorted(l) && CurrOk(l, th, c)
    ensures Sorted(Applied(l, e, k)) && CurrOk(Applied(l, e, k), Observed(Applied(l, e, k), th), c)
    ensures c in l && c in Applied(l, e, k)
  {
    hide Passed, Keys, Chained;
    PassedStable(l, e, k, th, c);
  }

  lemma TargetStable(l: Links, e: Effect, k: int, th: Info, n: int)
    requires Legal(l, e, k) && Target(l, th, n)
    ensures Target(Applied(l, e, k), Observed(Applied(l, e, k), th), n)
  {
    MarkedIsFrozen(l, e, k, n);
    if e == Marks(n) {
      MarkRemoves(l, n);
    }
  }

  lemma PhaseStable(l: Links, e: Effect, k: int, th: Info)
    requires Legal(l, e, k) && PhaseOk(l, th)
    ensures PhaseOk(Applied(l, e, k), Observed(Applied(l, e, k), th))
  {
    if th.phase.Cleaning? {
      MarkedIsFrozen(l, e, k, th.phase.cell);
    }
  }

  lemma OffChainStable(l: Links, e: Effect, k: int, n: int)
    requires Legal(l, e, k) && n in l && !Reach(l, HEAD, n)
    ensures Sorted(Applied(l, e, k)) && n in Applied(l, e, k) && !Reach(Applied(l, e, k), HEAD, n)
  {
    EffectChained(l, e, k);
    match e
    case Nothing =>
    case Snips(p) =>
      if n != l[p].next {
        SnipReach(l, p, HEAD, n);
      } else {
        SnipRemoves(l, p);
      }
    case Links(p, m) => LinkReach(l, p, m, k, HEAD, n);
    case Marks(m) => MarkReach(l, m, HEAD, n);
  }

  /** Whatever step another thread takes, what this thread knows stays true. */
  lemma {:induction false} ThreadStable(l: Links, up: set<int>, e: Effect, k: int, up': set<int>, th: Thread)
    requires Legal(l, e, k) && ThreadOk(l, up, th) && up <= up'
    ensures Sorted(Applied(l, e, k)) && ThreadOk(Applied(l, e, k), up', Watched(Applied(l, e, k), th))
  {
    hide Passed, PredOk, CurrOk, Target, PhaseOk, Keys, Chained, Applied, Legal;
    EffectChained(l, e, k);
    SortedOf(Applied(l, e, k));
    LegalSorted(l, e, k);
    if th.pc.Idle? {
      return;
    }
    PhaseStable(l, e, k, th.info);
    if th.pc.ClaimCas? || th.pc.LoadGarbage? || th.pc.StoreGarbage? || th.pc.GarbageCas? {
      BackStable(l, up, e, k, up', th.info, th.pc.back, th.pc.cell);
    } else if th.pc.MarkUpper? || th.pc.LoadSucc? || th.pc.MarkCas? || th.pc.Reload? {
      TargetStable(l, e, k, th.info, th.pc.cell);
    } else if th.pc.Done? {
      if th.info.phase.Cleaning? {
        CleaningCell(l, th.info);
        OffChainStable(l, e, k, th.info.phase.cell);
      }
    } else {
      SearchStable(l, up, e, k, up', th);
    }
  }

  ghost predicate Searching(th: Thread) {
    th.pc.Search? || th.pc.LoadCurr? || th.pc.Examine? || th.pc.SnipCas? || th.pc.LinkCas? || th.pc.LinkUpper?
  }

  lemma SearchStable(l: Links, up: set<int>, e: Effect, k: int, up': set<int>, th: Thread)
    requires Legal(l, e, k) && Sorted(l) && PhaseOk(l, th.info) && PcOk(l, up, th) && Searching(th)
    ensures Sorted(Applied(l, e, k)) && PcOk(Applied(l, e, k), up', Watched(Applied(l, e, k), th))
  {
    hide Passed, PredOk, CurrOk, Target, PhaseOk, Keys, Chained, Applied, Legal;
    EffectChained(l, e, k);
    SortedOf(Applied(l, e, k));
    if th.pc.LoadCurr? || th.pc.Examine? || th.pc.SnipCas? || th.pc.LinkCas? {
      PredStable(l, e, k, th.info, th.pc.pred);
    }
    if th.pc.Examine? || th.pc.SnipCas? {
      CurrStable(l, e, k, th.info, th.pc.curr);
      MarkedIsFrozen(l, e, k, th.pc.curr);
    } else if th.pc.LinkCas? {
      MarkedIsFrozen(l, e, k, th.pc.succ);
    }
  }

  lemma LegalSorted(l: Links, e: Effect, k: int)
    requires Legal(l, e, k)
    ensures Chained(l) && Sorted(l)
  {
  }

  lemma CleaningCell(l: Links, th: Info)
    requires PhaseOk(l, th) && th.phase.Cleaning?
    ensures th.phase.cell in l && l[th.phase.cell].marked && l[th.phase.cell].key == th.key && th.phase.cell != HEAD
  {
  }

  lemma BackStable(l: Links, up: set<int>, e: Effect, k: int, up': set<int>, th: Info, back: Back, n: int)
    requires Legal(l, e, k) && Sorted(l) && PhaseOk(l, th) && up <= up'
    requires BackOk(l, th, back) && Condemned(l, up, n)
    ensures Sorted(Applied(l, e, k)) && BackOk(Applied(l, e, k), Observed(Applied(l, e, k), th), back)
    ensures Condemned(Applied(l, e, k), up', n)
  {
    hide Passed, PredOk, Keys, Chained, PhaseOk;
    EffectChained(l, e, k);
    SortedOf(Applied(l, e, k));
    MarkedIsFrozen(l, e, k, n);
    if back.ToPred? {
      PredStable(l, e, k, th, back.pred);
    }
  }

  // ----- what the acting thread knows after its step -----

  ghost predicate UpOk(l: Links, up: set<int>) {
    forall n :: n in up ==> n in l && n != HEAD && n != TAIL
  }

  ghost predicate CoreInv(s: State) {
    Chained(s.links) && UpOk(s.links, s.up) && ThreadsOk(s)
  }

  /** A successful compare-and-swap is one of the three legal effects. */
  lemma EffectLegal(s: State, t: int, a: Action)
    requires CoreInv(s) && Enabled(s, t, a)
    ensures Legal(s.links, EffectOf(s, t, a), s.threads[t].info.key)
  {
    hide Passed, Reach;
    assert ThreadOk(s.links, s.up, s.threads[t]);
  }

  lemma LiveKey(l: Links, c: int, k: int)
    requires Sorted(l) && c in l && !l[c].marked && l[c].key == k && 0 < k < MAX_KEY
    ensures k in Keys(l) && c != HEAD && c != TAIL
  {
  }

  lemma ExamineOk(l: Links, up: set<int>, th: Thread, p: int, c: int)
    requires Chained(l) && ThreadOk(l, up, th) && th.pc == Examine(p, c)
    ensures c in l
    ensures !l[c].marked && l[c].key < th.info.key ==>
      PredOk(l, Observed(l, th.info), c) && CurrOk(l, Observed(l, th.info), l[c].next)
    ensures !l[c].marked && l[c].key >= th.info.key ==>
      ThreadOk(l, up, Watched(l, Ended(th, p, c, l[c].key == th.info.key)))
  {
    hide Reach, Keys;
    if !l[c].marked && l[c].key < th.info.key {
      PassedByLoad(l, th.info, c);
    }
    if !l[c].marked && l[c].key == th.info.key {
      LiveKey(l, c, th.info.key);
    }
  }

  lemma LoadOk(l: Links, th: Info, p: int)
    requires Chained(l) && PhaseOk(l, th) && PredOk(l, th, p)
    ensures PredOk(l, Observed(l, th), p) && CurrOk(l, Observed(l, th), l[p].next)
  {
    hide Reach, Keys;
    PassedByLoad(l, th, p);
  }

  lemma FindActorOk(s: State, t: int, a: Action, up': set<int>)
    requires CoreInv(s) && Enabled(s, t, a) && a.Step? && s.up <= up'
    requires s.threads[t].pc.LoadCurr? || s.threads[t].pc.Examine?
    ensures ThreadOk(s.links, up', Watched(s.links, Local(s, t, a).1))
  {
    hide Reach, Keys, Chained;
    var th, l := s.threads[t], s.links;
    SortedOf(l);
    assert ThreadOk(l, s.up, th);
    if th.pc.LoadCurr? {
      LoadOk(l, th.info, th.pc.pred);
    } else {
      var p, c := th.pc.pred, th.pc.curr;
      ExamineOk(l, s.up, th, p, c);
      if !l[c].marked && l[c].key >= th.info.key {
        ThreadStable(l, s.up, Nothing, 0, up', Watched(l, Ended(th, p, c, l[c].key == th.info.key)));
      }
    }
  }

  /** The upper levels fix the predecessor, snip above it, or start again. */
  lemma DescendActorOk(s: State, t: int, a: Action, up': set<int>)
    requires CoreInv(s) && Enabled(s, t, a) && !a.Step? && s.up <= up'
    requires s.threads[t].pc.LoadCurr? || s.threads[t].pc.Examine?
    ensures ThreadOk(s.links, up', Watched(s.links, Local(s, t, a).1))
  {
    hide Reach, Keys, Chained, Passed, CurrOk, Target;
    SortedOf(s.links);
    ThreadStable(s.links, s.up, Nothing, 0, up', s.threads[t]);
  }

  lemma ObservedKeeps(l: Links, i: Info)
    ensures var o := Observed(l, i);
      o.key == i.key && o.inserting == i.inserting && o.phase == i.phase
    ensures (i.absent ==> Observed(l, i).absent) && (i.present ==> Observed(l, i).present)
  {
  }

  lemma GarbageActorOk(s: State, t: int, a: Action, up': set<int>)
    requires CoreInv(s) && Enabled(s, t, a) && s.up <= up'
    requires Collecting(s.threads[t].pc)
    ensures ThreadOk(s.links, up', Watched(s.links, Local(s, t, a).1))
  {
    hide Reach, Keys, Chained, Passed, Observed;
    SortedOf(s.links);
    ThreadStable(s.links, s.up, Nothing, 0, up', s.threads[t]);
    ObservedKeeps(s.links, s.threads[t].info);
  }

  ghost predicate Removing(pc: Pc) {
    pc.MarkUpper? || pc.LoadSucc? || pc.MarkCas? || pc.Reload?
  }

  ghost predicate Collecting(pc: Pc) {
    pc.ClaimCas? || pc.LoadGarbage? || pc.StoreGarbage? || pc.GarbageCas?
  }

  /** A remover that does not win goes on with the same cell, or gives up because it is marked. */
  lemma RemovingMoves(s: State, t: int, a: Action)
    requires Enabled(s, t, a) && EffectOf(s, t, a) == Nothing && Removing(s.threads[t].pc)
    ensures var th, th' := s.threads[t], Local(s, t, a).1;
      && th'.info == th.info
      && (if th'.pc == Done(NotThere) then th.pc.cell in s.links && s.links[th.pc.cell].marked
          else Removing(th'.pc) && th'.pc.cell == th.pc.cell)
  {
  }

  lemma RemovingActorOk(s: State, t: int, a: Action, up': set<int>)
    requires CoreInv(s) && Enabled(s, t, a) && EffectOf(s, t, a) == Nothing && s.up <= up'
    requires Removing(s.threads[t].pc)
    ensures ThreadOk(s.links, up', Watched(s.links, Local(s, t, a).1))
  {
    hide Reach, Keys, Chained, Passed, PredOk, CurrOk, BackOk, Local, EffectOf, Target, PhaseOk;
    SortedOf(s.links);
    RemovingMoves(s, t, a);
    var th, th' := s.threads[t], Local(s, t, a).1;
    assert ThreadOk(s.links, s.up, th);
    assert ThreadOk(s.links, up', Watched(s.links, th)) by {
      ThreadStable(s.links, s.up, Nothing, 0, up', th);
    }
    assert Target(s.links, Observed(s.links, th.info), th.pc.cell);
    if th'.pc.Done? {
      GaveUp(s.links, Observed(s.links, th.info), th.pc.cell);
    }
  }

  lemma GaveUp(l: Links, i: Info, n: int)
    requires Target(l, i, n) && l[n].marked
    ensures i.absent && !i.phase.Cleaning?
  {
  }

  lemma OtherActorOk(s: State, t: int, a: Action, up': set<int>)
    requires CoreInv(s) && Enabled(s, t, a) && EffectOf(s, t, a) == Nothing && s.up <= up'
    requires var pc := s.threads[t].pc;
      !pc.LoadCurr? && !pc.Examine? && !Collecting(pc) && !Removing(pc)
    ensures ThreadOk(s.links, up', Watched(s.links, Local(s, t, a).1))
  {
    hide Reach, Keys, Chained, Passed, Target;
    SortedOf(s.links);
    ThreadStable(s.links, s.up, Nothing, 0, up', s.threads[t]);
  }

  /** Steps that change no link: loads, comparisons, failed compare-and-swaps and the garbage list. */
  lemma QuietActorOk(s: State, t: int, a: Action, up': set<int>)
    requires CoreInv(s) && Enabled(s, t, a) && EffectOf(s, t, a) == Nothing && s.up <= up'
    ensures ThreadOk(s.links, up', Watched(s.links, Local(s, t, a).1))
  {
    hide Local, EffectOf, ThreadOk, Chained;
    SortedOf(s.links);
    var pc := s.threads[t].pc;
    if (pc.LoadCurr? || pc.Examine?) && a.Step? {
      FindActorOk(s, t, a, up');
    } else if pc.LoadCurr? || pc.Examine? {
      DescendActorOk(s, t, a, up');
    } else if Collecting(pc) {
      GarbageActorOk(s, t, a, up');
    } else if Removing(pc) {
      RemovingActorOk(s, t, a, up');
    } else {
      OtherActorOk(s, t, a, up');
    }
  }

  lemma SnipActorOk(s: State, t: int, a: Action, up': set<int>)
    requires CoreInv(s) && Enabled(s, t, a) && EffectOf(s, t, a).Snips? && s.up <= up'
    ensures var l' := Applied(s.links, EffectOf(s, t, a), s.threads[t].info.key);
      Sorted(l') && ThreadOk(l', up', Watched(l', Local(s, t, a).1))
  {
    hide Reach, Keys, Passed;
    var th, l, e := s.threads[t], s.links, EffectOf(s, t, a);
    assert ThreadOk(l, s.up, th);
    EffectLegal(s, t, a);
    EffectChained(l, e, th.info.key);
    PhaseStable(l, e, th.info.key, th.info);
    PredStable(l, e, th.info.key, th.info, th.pc.pred);
    MarkedIsFrozen(l, e, th.info.key, th.pc.curr);
  }

  lemma LinkOrMarkActorOk(s: State, t: int, a: Action, up': set<int>)
    requires CoreInv(s) && Enabled(s, t, a) && s.up <= up'
    requires EffectOf(s, t, a).Links? || EffectOf(s, t, a).Marks?
    ensures var l' := Applied(s.links, EffectOf(s, t, a), s.threads[t].info.key);
      Sorted(l') && ThreadOk(l', up', Watched(l', Local(s, t, a).1))
  {
    hide Reach, Keys, Passed;
    var th, l, e := s.threads[t], s.links, EffectOf(s, t, a);
    assert ThreadOk(l, s.up, th);
    EffectLegal(s, t, a);
    EffectChained(l, e, th.info.key);
    PhaseStable(l, e, th.info.key, th.info);
  }

  lemma ActorOk(s: State, t: int, a: Action, up': set<int>)
    requires CoreInv(s) && Enabled(s, t, a) && s.up <= up'
    ensures var l' := Applied(s.links, EffectOf(s, t, a), s.threads[t].info.key);
      Sorted(l') && ThreadOk(l', up', Watched(l', Local(s, t, a).1))
  {
    hide Reach, Keys, Passed, ThreadOk, Local;
    if EffectOf(s, t, a) == Nothing {
      QuietActorOk(s, t, a, up');
    } else if EffectOf(s, t, a).Snips? {
      SnipActorOk(s, t, a, up');
    } else {
      LinkOrMarkActorOk(s, t, a, up');
    }
  }

  /** Every step keeps the list well formed and every thread's knowledge true. */
  lemma {:induction false} CoreStep(s: State, t: int, a: Action)
    requires CoreInv(s) && Enabled(s, t, a)
    ensures CoreInv(Stepped(s, t, a))
    ensures Stepped(s, t, a).links == Applied(s.links, EffectOf(s, t, a), s.threads[t].info.key)
  {
    hide Reach, Keys, Passed, ThreadOk, Chained, Legal, EffectOf, Applied, Local;
    var s' := Stepped(s, t, a);
    var e, k, l := EffectOf(s, t, a), s.threads[t].info.key, s.links;
    assert s'.links == Applied(l, e, k) && s.up <= s'.up;
    EffectLegal(s, t, a);
    EffectChained(l, e, k);
    SortedOf(l);
    SortedOf(s'.links);
    forall n | n in s'.up ensures n in s'.links && n != HEAD && n != TAIL {
      UpMember(s, t, a, n);
      MarkedIsFrozen(l, e, k, n);
    }
    forall u | u in s'.threads ensures ThreadOk(s'.links, s'.up, s'.threads[u]) {
      if u == t {
        ActorOk(s, t, a, s'.up);
      } else {
        assert ThreadOk(l, s.up, s.threads[u]);
        ThreadStable(l, s.up, e, k, s'.up, s.threads[u]);
      }
    }
  }

  lemma UpMember(s: State, t: int, a: Action, n: int)
    requires CoreInv(s) && Enabled(s, t, a) && n in Stepped(s, t, a).up
    ensures n in s.links && n != HEAD && n != TAIL
  {
    hide Reach, Keys, Passed, Chained, Applied, EffectOf, ObservedAll;
    SortedOf(s.links);
    assert ThreadOk(s.links, s.up, s.threads[t]);
  }
}
