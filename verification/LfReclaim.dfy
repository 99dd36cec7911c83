/**
 Removed cells: each is claimed for the garbage list once, the list is a simple chain ending at the
 head sentinel, and when no operation is in flight it holds exactly the cells off the bottom level.
 */
module LfReclaim {
  import opened LfLinks
  import opened LfSkiplist

  // ----- the garbage list -----

  ghost predicate Pushing(th: Thread, n: int) {
    (th.pc.LoadGarbage? || th.pc.StoreGarbage? || th.pc.GarbageCas?) && th.pc.cell == n
  }

  ghost function After(glist: seq<int>, i: int): int
    requires 0 <= i < |glist|
  {
    if i + 1 < |glist| then glist[i + 1] else HEAD
  }

  /** The list linked from `ghead` through garbage_next is exactly `glist`, without repetition, up to the head
      sentinel. */
  ghost predicate ListOk(gnext: map<int, Garbage>, ghead: int, glist: seq<int>) {
    && ghead == (if glist == [] then HEAD else glist[0])
    && (forall i {:trigger glist[i]} :: 0 <= i < |glist| ==>
          glist[i] in gnext && gnext[glist[i]] == Next(After(glist, i)))
    && (forall i, j :: 0 <= i < j < |glist| ==> glist[i] != glist[j])
  }

  ghost predicate HasClaimed(pc: Pc) {
    pc.LoadGarbage? || pc.StoreGarbage? || pc.GarbageCas?
  }

  ghost predicate PushersOk(s: State) {
    && (forall t :: t in s.threads && HasClaimed(s.threads[t].pc) ==>
          var n := s.threads[t].pc.cell; n in s.gnext && s.gnext[n] != Unclaimed && n !in s.glist)
    && (forall t :: t in s.threads && s.threads[t].pc.GarbageCas? ==>
          s.threads[t].pc.cell in s.gnext && s.gnext[s.threads[t].pc.cell] == Next(s.threads[t].pc.seen))
    && (forall t, u, n :: t in s.threads && u in s.threads && Pushing(s.threads[t], n) && Pushing(s.threads[u], n) ==>
          t == u)
  }

  ghost predicate HasPusher(s: State, n: int) {
    exists t :: t in s.threads && Pushing(s.threads[t], n)
  }

  ghost predicate ClaimsOk(s: State) {
    && s.gnext.Keys == s.links.Keys
    && (forall n :: n in s.gnext && s.gnext[n] != Unclaimed ==> n in s.glist || HasPusher(s, n))
    && (forall n :: n in s.glist ==> Condemned(s.links, s.up, n))
  }

  ghost predicate GarbageInv(s: State) {
    ListOk(s.gnext, s.ghead, s.glist) && PushersOk(s) && ClaimsOk(s)
  }

  lemma PcFrame(s: State, t: int, a: Action)
    requires Enabled(s, t, a)
    ensures Stepped(s, t, a).threads.Keys == s.threads.Keys
    ensures Stepped(s, t, a).threads[t].pc == Local(s, t, a).1.pc
    ensures Stepped(s, t, a).threads[t].info.phase == Local(s, t, a).1.info.phase
    ensures forall u :: u in s.threads && u != t ==>
      Stepped(s, t, a).threads[u].pc == s.threads[u].pc &&
      Stepped(s, t, a).threads[u].info.phase == s.threads[u].info.phase
  {
    hide Local, EffectOf, Applied, Keys;
  }

  /** The effect of a step on the garbage fields. */
  datatype GarbageEffect =
    | Same
    | Claims(cell: int)
    | Stores(cell: int, to: int)
    | Pushes(cell: int)
    | Creates(cell: int)

  ghost function GarbageEffectOf(s: State, t: int, a: Action): GarbageEffect
    requires t in s.threads
  {
    match (s.threads[t].pc, a)
    case (ClaimCas(_, n), Step) => if n in s.gnext && s.gnext[n] == Unclaimed then Claims(n) else Same
    case (StoreGarbage(_, n, g), Step) => Stores(n, g)
    case (GarbageCas(_, n, g), Step) => if s.ghead == g then Pushes(n) else Same
    case (LinkCas(_, _), Allocate(n)) => if EffectOf(s, t, a).Links? then Creates(n) else Same
    case _ => Same
  }

  ghost function NewGnext(s: State, e: GarbageEffect): map<int, Garbage> {
    match e
    case Claims(n) => s.gnext[n := Claimed]
    case Stores(n, g) => s.gnext[n := Next(g)]
    case Creates(n) => s.gnext[n := Unclaimed]
    case _ => s.gnext
  }

  lemma GarbageFrame(s: State, t: int, a: Action)
    requires Enabled(s, t, a)
    ensures var e, s' := GarbageEffectOf(s, t, a), Stepped(s, t, a);
      && s'.gnext == NewGnext(s, e)
      && s'.ghead == (if e.Pushes? then e.cell else s.ghead)
      && s'.glist == (if e.Pushes? then [e.cell] + s.glist else s.glist)
  {
    hide Applied, EffectOf, ObservedAll;
  }

  /** What the acting thread's position says about a garbage effect. */
  lemma GarbageEffectOk(s: State, t: int, a: Action)
    requires CoreInv(s) && GarbageInv(s) && Enabled(s, t, a)
    ensures var e := GarbageEffectOf(s, t, a);
      match e
      case Same => true
      case Claims(n) => n in s.gnext && s.gnext[n] == Unclaimed && n !in s.glist
      case Stores(n, _) => n in s.gnext && s.gnext[n] != Unclaimed && n !in s.glist && Pushing(s.threads[t], n)
      case Pushes(n) => n in s.gnext && n !in s.glist && s.gnext[n] == Next(s.ghead) && Pushing(s.threads[t], n)
      case Creates(n) => n !in s.gnext && n !in s.glist
  {
    hide Applied, EffectOf, CoreInv, Stepped, HasPusher, Condemned;
  }

  lemma ListStep(s: State, t: int, a: Action)
    requires CoreInv(s) && GarbageInv(s) && Enabled(s, t, a)
    ensures ListOk(Stepped(s, t, a).gnext, Stepped(s, t, a).ghead, Stepped(s, t, a).glist)
  {
    hide CoreInv, Stepped, GarbageEffectOf, PushersOk, ClaimsOk, Local, EffectOf, Applied;
    GarbageEffectOk(s, t, a);
    GarbageFrame(s, t, a);
    var e, s' := GarbageEffectOf(s, t, a), Stepped(s, t, a);
    if e.Pushes? {
      forall i | 0 <= i < |s'.glist|
        ensures s'.glist[i] in s'.gnext
        ensures s'.gnext[s'.glist[i]] == Next(After(s'.glist, i))
      {
        if i > 0 {
          assert s'.glist[i] == s.glist[i - 1] && After(s'.glist, i) == After(s.glist, i - 1);
        }
      }
    }
  }

  lemma PushersStep(s: State, t: int, a: Action)
    requires CoreInv(s) && GarbageInv(s) && Enabled(s, t, a)
    ensures PushersOk(Stepped(s, t, a))
  {
    hide CoreInv, Stepped, GarbageEffectOf, ListOk, ClaimsOk, Local, EffectOf, Applied;
    GarbageEffectOk(s, t, a);
    GarbageFrame(s, t, a);
    PcFrame(s, t, a);
    NewPusher(s, t, a);
    var e, s' := GarbageEffectOf(s, t, a), Stepped(s, t, a);
    forall u | u in s'.threads && HasClaimed(s'.threads[u].pc)
      ensures var n := s'.threads[u].pc.cell; n in s'.gnext && s'.gnext[n] != Unclaimed && n !in s'.glist
      ensures s'.threads[u].pc.GarbageCas? ==> s'.gnext[s'.threads[u].pc.cell] == Next(s'.threads[u].pc.seen)
    {
      if u != t {
        var n := s.threads[u].pc.cell;
        assert Pushing(s.threads[u], n);
        assert Pushing(s.threads[t], n) ==> u == t;
      }
    }
    forall u, v, n | u in s'.threads && v in s'.threads && Pushing(s'.threads[u], n) && Pushing(s'.threads[v], n)
      ensures u == v
    {
      assert u != t ==> Pushing(s.threads[u], n);
      assert v != t ==> Pushing(s.threads[v], n);
    }
  }

  /** A thread becomes a pusher only by claiming a cell, and stays one for the same cell until it has pushed it. */
  lemma NewPusher(s: State, t: int, a: Action)
    requires Enabled(s, t, a)
    ensures var e, pc, pc' := GarbageEffectOf(s, t, a), s.threads[t].pc, Local(s, t, a).1.pc;
      && (pc'.LoadGarbage? || pc'.StoreGarbage? || pc'.GarbageCas? ==>
            (e == Claims(pc'.cell) && pc'.LoadGarbage?) ||
            (Pushing(s.threads[t], pc'.cell) && !e.Pushes? && !e.Claims? && !e.Creates?))
      && (e.Claims? ==> Pushing(Local(s, t, a).1, e.cell))
      && (pc'.GarbageCas? ==> e == Stores(pc'.cell, pc'.seen))
      && (e.Pushes? ==> !pc'.LoadGarbage? && !pc'.StoreGarbage? && !pc'.GarbageCas?)
      && (forall n :: Pushing(s.threads[t], n) && !e.Pushes? ==> Pushing(Local(s, t, a).1, n))
  {
    hide EffectOf;
  }

  lemma ClaimsStep(s: State, t: int, a: Action)
    requires CoreInv(s) && GarbageInv(s) && Enabled(s, t, a)
    ensures ClaimsOk(Stepped(s, t, a))
  {
    hide CoreInv, Stepped, GarbageEffectOf, ListOk, PushersOk, Local, Condemned, EffectOf, Applied;
    GarbageEffectOk(s, t, a);
    GarbageFrame(s, t, a);
    PcFrame(s, t, a);
    NewPusher(s, t, a);
    LinksFrame(s, t, a);
    CondemnedStep(s, t, a);
    var e, s' := GarbageEffectOf(s, t, a), Stepped(s, t, a);
    forall n | n in s'.gnext && s'.gnext[n] != Unclaimed ensures n in s'.glist || HasPusher(s', n) {
      if e == Claims(n) {
        assert Pushing(s'.threads[t], n);
      } else if n !in s'.glist {
        assert n in s.gnext && s.gnext[n] != Unclaimed;
        var u :| u in s.threads && Pushing(s.threads[u], n);
        assert Pushing(s'.threads[u], n);
      }
    }
  }

  lemma AppliedKeys(l: Links, e: Effect, k: int)
    requires Legal(l, e, k)
    ensures Applied(l, e, k).Keys == l.Keys + (if e.Links? then {e.cell} else {})
  {
    hide Chained, Reach;
  }

  /** Only a successful insert adds a cell; its garbage field starts unclaimed. */
  lemma LinksFrame(s: State, t: int, a: Action)
    requires CoreInv(s) && GarbageInv(s) && Enabled(s, t, a)
    ensures Stepped(s, t, a).gnext.Keys == Stepped(s, t, a).links.Keys
  {
    hide Chained, CoreInv, ListOk, PushersOk, HasPusher, Condemned, Stepped, Legal, Applied, Local;
    EffectLegal(s, t, a);
    CoreStep(s, t, a);
    GarbageEffectOk(s, t, a);
    GarbageFrame(s, t, a);
    AppliedKeys(s.links, EffectOf(s, t, a), s.threads[t].info.key);
    var e := GarbageEffectOf(s, t, a);
    assert NewGnext(s, e).Keys == s.gnext.Keys + (if e.Creates? then {e.cell} else {});
  }

  lemma CondemnedStep(s: State, t: int, a: Action)
    requires CoreInv(s) && GarbageInv(s) && Enabled(s, t, a)
    ensures forall n :: n in Stepped(s, t, a).glist ==> Condemned(Stepped(s, t, a).links, Stepped(s, t, a).up, n)
  {
    hide CoreInv, Stepped, GarbageEffectOf, ListOk, PushersOk, Local, EffectOf, Applied, Legal;
    GarbageFrame(s, t, a);
    GarbageEffectOk(s, t, a);
    EffectLegal(s, t, a);
    CoreStep(s, t, a);
    UpGrows(s, t, a);
    var s' := Stepped(s, t, a);
    forall n | n in s'.glist ensures Condemned(s'.links, s'.up, n) {
      if n !in s.glist {
        PusherCondemned(s, t, n);
      }
      MarkedIsFrozen(s.links, EffectOf(s, t, a), s.threads[t].info.key, n);
    }
  }

  lemma UpGrows(s: State, t: int, a: Action)
    requires Enabled(s, t, a)
    ensures s.up <= Stepped(s, t, a).up
  {
    hide Applied, EffectOf, ObservedAll, Local;
  }

  lemma PusherCondemned(s: State, t: int, n: int)
    requires CoreInv(s) && t in s.threads && Pushing(s.threads[t], n)
    ensures Condemned(s.links, s.up, n)
  {
    hide Reach, Passed;
    assert ThreadOk(s.links, s.up, s.threads[t]);
  }

  /** Every step keeps the garbage list simple and complete. */
  lemma {:induction false} GarbageStep(s: State, t: int, a: Action)
    requires CoreInv(s) && GarbageInv(s) && Enabled(s, t, a)
    ensures GarbageInv(Stepped(s, t, a))
  {
    ListStep(s, t, a);
    PushersStep(s, t, a);
    ClaimsStep(s, t, a);
  }

  // ----- who is responsible for a removed cell -----

  ghost predicate Cleans(th: Thread, n: int) {
    th.info.phase == Cleaning(n) && !th.pc.Idle? && !th.pc.Done?
  }

  ghost predicate Removes(th: Thread, n: int) {
    (th.pc.MarkUpper? || th.pc.LoadSucc? || th.pc.MarkCas? || th.pc.Reload?) && th.pc.cell == n
  }

  ghost predicate HasCleaner(s: State, n: int) {
    exists t :: t in s.threads && Cleans(s.threads[t], n)
  }

  ghost predicate HasClaimer(s: State, n: int) {
    exists t :: t in s.threads && s.threads[t].pc.ClaimCas? && s.threads[t].pc.cell == n
  }

  ghost predicate HasRemover(s: State, n: int) {
    exists t :: t in s.threads && Removes(s.threads[t], n)
  }

  /** A marked cell still on the chain has a remover fixing it up. */
  ghost predicate CleanersOk(s: State)
    requires Sorted(s.links)
  {
    forall n :: n in s.links && s.links[n].marked && Reach(s.links, HEAD, n) ==> HasCleaner(s, n)
  }

  /** A cell snipped off the chain is claimed for the garbage list or about to be. */
  ghost predicate ClaimersOk(s: State)
    requires Sorted(s.links)
  {
    forall n :: n in s.links && s.links[n].marked && !Reach(s.links, HEAD, n) ==>
      (n in s.gnext && s.gnext[n] != Unclaimed) || HasClaimer(s, n)
  }

  /** A cell marked at an upper level is marked at the bottom or has a remover that will see to it. */
  ghost predicate RemoversOk(s: State) {
    forall n :: n in s.up ==> n in s.links && (s.links[n].marked || HasRemover(s, n))
  }

  ghost predicate SameWin(th: Thread, th': Thread) {
    !th.pc.Idle? && !th'.pc.Idle? && th.info.phase.Cleaning? && th'.info.phase == th.info.phase
  }

  /** At most one thread's remove has succeeded on a given cell. */
  ghost predicate WinnersOk(s: State) {
    forall t, u :: t in s.threads && u in s.threads && SameWin(s.threads[t], s.threads[u]) ==> t == u
  }

  ghost predicate OwnersInv(s: State)
    requires Sorted(s.links)
  {
    CleanersOk(s) && ClaimersOk(s) && RemoversOk(s) && WinnersOk(s)
  }

  lemma PhaseFacts(s: State, t: int)
    requires CoreInv(s) && t in s.threads
    ensures s.threads[t].pc.LinkUpper? || s.threads[t].pc.MarkCas? ==> !s.threads[t].info.phase.Cleaning?
  {
    hide Reach, Passed, PredOk, CurrOk, BackOk, Chained;
    SortedOf(s.links);
    assert ThreadOk(s.links, s.up, s.threads[t]);
  }

  lemma MarkerCleans(s: State, t: int, a: Action)
    requires CoreInv(s) && Enabled(s, t, a)
    ensures EffectOf(s, t, a).Marks? ==> Cleans(Local(s, t, a).1, EffectOf(s, t, a).cell)
    ensures !EffectOf(s, t, a).Marks? && Local(s, t, a).1.info.phase.Cleaning? ==>
      s.threads[t].info.phase == Local(s, t, a).1.info.phase && !s.threads[t].pc.Idle?
    ensures forall n :: Cleans(s.threads[t], n) ==>
      Local(s, t, a).1.info.phase == Cleaning(n) && !Local(s, t, a).1.pc.Idle?
  {
    hide CoreInv;
    PhaseFacts(s, t);
  }

  lemma CleanersStep(s: State, t: int, a: Action)
    requires CoreInv(s) && CleanersOk(s) && Enabled(s, t, a)
    ensures CoreInv(Stepped(s, t, a)) && CleanersOk(Stepped(s, t, a))
  {
    hide CoreInv, Stepped, Local, EffectOf, Applied, Legal, Reach;
    CoreStep(s, t, a);
    EffectLegal(s, t, a);
    PcFrame(s, t, a);
    MarkerCleans(s, t, a);
    var s', e, k := Stepped(s, t, a), EffectOf(s, t, a), s.threads[t].info.key;
    AppliedKeys(s.links, e, k);
    CoreSorted(s);
    CoreSorted(s');
    forall n | n in s'.links && s'.links[n].marked && Reach(s'.links, HEAD, n) ensures HasCleaner(s', n) {
      if e == Marks(n) {
        assert Cleans(s'.threads[t], n);
      } else {
        if n !in s.links {
          NewIsUnmarked(s.links, e, k);
        }
        MarkedIsFrozen(s.links, e, k, n);
        if !Reach(s.links, HEAD, n) {
          OffChainStable(s.links, e, k, n);
        }
        var u :| u in s.threads && Cleans(s.threads[u], n);
        if s'.threads[u].pc.Done? {
          FinishedCleaning(s', u, n);
        }
        assert Cleans(s'.threads[u], n);
      }
    }
  }

  lemma CoreSorted(s: State)
    requires CoreInv(s)
    ensures Sorted(s.links)
  {
  }

  lemma NewIsUnmarked(l: Links, e: Effect, k: int)
    requires Legal(l, e, k) && e.Links?
    ensures e.cell in Applied(l, e, k) && !Applied(l, e, k)[e.cell].marked
  {
  }

  lemma FinishedCleaning(s: State, u: int, n: int)
    requires CoreInv(s) && u in s.threads && s.threads[u].pc.Done? && s.threads[u].info.phase == Cleaning(n)
    ensures Sorted(s.links) && n in s.links && !Reach(s.links, HEAD, n)
  {
    hide Reach;
    assert ThreadOk(s.links, s.up, s.threads[u]);
  }

  lemma ClaimersStep(s: State, t: int, a: Action)
    requires CoreInv(s) && GarbageInv(s) && ClaimersOk(s) && Enabled(s, t, a)
    ensures CoreInv(Stepped(s, t, a)) && ClaimersOk(Stepped(s, t, a))
  {
    hide CoreInv, Stepped, Local, EffectOf, Applied, Legal, Reach, GarbageEffectOf, ListOk, PushersOk, ClaimsOk;
    CoreStep(s, t, a);
    EffectLegal(s, t, a);
    PcFrame(s, t, a);
    GarbageFrame(s, t, a);
    GarbageEffectOk(s, t, a);
    ClaimantMoves(s, t, a);
    var s', e, k := Stepped(s, t, a), EffectOf(s, t, a), s.threads[t].info.key;
    AppliedKeys(s.links, e, k);
    CoreSorted(s);
    CoreSorted(s');
    forall n | n in s'.links && s'.links[n].marked && !Reach(s'.links, HEAD, n)
      ensures (n in s'.gnext && s'.gnext[n] != Unclaimed) || HasClaimer(s', n)
    {
      if n !in s.links {
        NewIsUnmarked(s.links, e, k);
      }
      MarkedIsFrozen(s.links, e, k, n);
      if e.Snips? && s.links[e.pred].next == n {
        assert s'.threads[t].pc.ClaimCas? && s'.threads[t].pc.cell == n;
      } else {
        StillOffChain(s.links, e, k, n);
        if !(n in s.gnext && s.gnext[n] != Unclaimed) {
          var u :| u in s.threads && s.threads[u].pc.ClaimCas? && s.threads[u].pc.cell == n;
          assert u != t ==> s'.threads[u].pc.ClaimCas? && s'.threads[u].pc.cell == n;
        }
      }
    }
  }

  /** The winner of a snip turns to claiming the cell; a claiming step leaves the cell claimed. */
  lemma ClaimantMoves(s: State, t: int, a: Action)
    requires CoreInv(s) && GarbageInv(s) && Enabled(s, t, a)
    ensures EffectOf(s, t, a).Snips? ==>
      && EffectOf(s, t, a).pred in s.links
      && Local(s, t, a).1.pc.ClaimCas?
      && Local(s, t, a).1.pc.cell == s.links[EffectOf(s, t, a).pred].next
    ensures s.threads[t].pc.ClaimCas? ==>
      GarbageEffectOf(s, t, a) == Claims(s.threads[t].pc.cell) ||
      (s.threads[t].pc.cell in s.gnext && s.gnext[s.threads[t].pc.cell] != Unclaimed)
  {
    hide CoreInv, Stepped, ListOk, PushersOk, ClaimsOk;
  }

  /** Only the snipped cell leaves the chain in a step. */
  lemma StillOffChain(l: Links, e: Effect, k: int, n: int)
    requires Legal(l, e, k) && n in l && Sorted(Applied(l, e, k)) && !Reach(Applied(l, e, k), HEAD, n)
    requires Applied(l, e, k)[n].marked && !(e.Snips? && l[e.pred].next == n)
    ensures Sorted(l) && l[n].marked && !Reach(l, HEAD, n)
  {
    hide Reach;
    match e
    case Nothing =>
    case Snips(p) => SnipReach(l, p, HEAD, n);
    case Links(p, m) => LinkReach(l, p, m, k, HEAD, n);
    case Marks(m) => MarkReach(l, m, HEAD, n);
  }

  lemma RemoversStep(s: State, t: int, a: Action)
    requires CoreInv(s) && RemoversOk(s) && Enabled(s, t, a)
    ensures RemoversOk(Stepped(s, t, a))
  {
    hide CoreInv, Stepped, Local, EffectOf, Applied, Legal;
    CoreStep(s, t, a);
    EffectLegal(s, t, a);
    PcFrame(s, t, a);
    var s', e, k := Stepped(s, t, a), EffectOf(s, t, a), s.threads[t].info.key;
    forall n | n in s'.up ensures n in s'.links && (s'.links[n].marked || HasRemover(s', n)) {
      UpMember(s, t, a, n);
      MarkedIsFrozen(s.links, e, k, n);
      RemoverMoves(s, t, a, n);
      if n in s.up && !s.links[n].marked {
        var u :| u in s.threads && Removes(s.threads[u], n);
        assert u != t ==> Removes(s'.threads[u], n);
      }
    }
  }

  lemma RemoverMoves(s: State, t: int, a: Action, n: int)
    requires CoreInv(s) && Enabled(s, t, a)
    ensures n in Stepped(s, t, a).up && n !in s.up ==> Removes(Local(s, t, a).1, n)
    ensures Removes(s.threads[t], n) ==>
      n in Stepped(s, t, a).links && (Stepped(s, t, a).links[n].marked || Removes(Local(s, t, a).1, n))
  {
    hide Reach, Passed, PredOk, CurrOk, BackOk, Chained, ObservedAll, Keys;
    SortedOf(s.links);
    assert ThreadOk(s.links, s.up, s.threads[t]);
  }

  lemma WinnersStep(s: State, t: int, a: Action)
    requires CoreInv(s) && WinnersOk(s) && Enabled(s, t, a)
    ensures WinnersOk(Stepped(s, t, a))
  {
    hide CoreInv, Stepped, Local, EffectOf, Applied, Legal;
    PcFrame(s, t, a);
    MarkerCleans(s, t, a);
    EffectLegal(s, t, a);
    var s', e := Stepped(s, t, a), EffectOf(s, t, a);
    forall u | u in s.threads && u != t && !s.threads[u].pc.Idle? && s.threads[u].info.phase.Cleaning?
      ensures e.Marks? ==> s.threads[u].info.phase.cell != e.cell
    {
      WinnerMarked(s, u);
      if e.Marks? {
        TargetUnmarked(s.links, e, s.threads[t].info.key);
      }
    }
  }

  lemma WinnerMarked(s: State, u: int)
    requires CoreInv(s) && u in s.threads && !s.threads[u].pc.Idle? && s.threads[u].info.phase.Cleaning?
    ensures s.threads[u].info.phase.cell in s.links && s.links[s.threads[u].info.phase.cell].marked
  {
    hide Reach, Passed, PcOk;
    assert ThreadOk(s.links, s.up, s.threads[u]);
  }

  lemma TargetUnmarked(l: Links, e: Effect, k: int)
    requires Legal(l, e, k) && e.Marks?
    ensures e.cell in l && !l[e.cell].marked
  {
  }

  // ----- whole runs -----

  ghost predicate Inv(s: State) {
    CoreInv(s) && GarbageInv(s) && OwnersInv(s)
  }

  /** Every step of every thread keeps the invariant. */
  lemma {:induction false} StepKeepsInv(s: State, t: int, a: Action)
    requires Inv(s) && Enabled(s, t, a)
    ensures Inv(Stepped(s, t, a))
  {
    hide CoreInv, GarbageInv, CleanersOk, ClaimersOk, RemoversOk, WinnersOk, Stepped, Enabled;
    CoreSorted(s);
    GarbageStep(s, t, a);
    CleanersStep(s, t, a);
    ClaimersStep(s, t, a);
    RemoversStep(s, t, a);
    WinnersStep(s, t, a);
    CoreSorted(Stepped(s, t, a));
  }

  /** Each step changes the set by nothing, by adding the key it inserts, or by removing the key it removes. */
  lemma {:induction false} StepOnSet(s: State, t: int, a: Action)
    requires Inv(s) && Enabled(s, t, a)
    ensures var k, before, after := s.threads[t].info.key, Keys(s.links), Keys(Stepped(s, t, a).links);
      match EffectOf(s, t, a)
      case Nothing => after == before
      case Snips(_) => after == before
      case Links(_, _) => s.threads[t].info.inserting && k !in before && after == before + {k}
      case Marks(_) => !s.threads[t].info.inserting && k in before && after == before - {k}
  {
    hide Keys, GarbageInv, OwnersInv, CoreInv, Stepped, EffectOf, Reach;
    CoreStep(s, t, a);
    EffectLegal(s, t, a);
    EffectRole(s, t, a);
    match EffectOf(s, t, a)
    case Nothing =>
    case Snips(p) => SnipKeeps(s.links, p);
    case Links(p, n) => LinkAdds(s.links, p, n, s.threads[t].info.key);
    case Marks(n) => MarkRemoves(s.links, n);
  }

  lemma EffectRole(s: State, t: int, a: Action)
    requires CoreInv(s) && Enabled(s, t, a)
    ensures EffectOf(s, t, a).Links? ==> s.threads[t].info.inserting
    ensures EffectOf(s, t, a).Marks? ==>
      !s.threads[t].info.inserting && s.links[EffectOf(s, t, a).cell].key == s.threads[t].info.key
  {
    hide Reach, Passed, PredOk, CurrOk, BackOk, Chained, Local;
    SortedOf(s.links);
    assert ThreadOk(s.links, s.up, s.threads[t]);
  }

  // ----- quiescence and freeing -----

  ghost predicate Quiescent(s: State) {
    forall t :: t in s.threads ==> s.threads[t].pc.Idle?
  }

  /** With no operation in flight the garbage list is exactly the marked cells, and all of them are off the chain. */
  lemma {:induction false} QuiescentGarbage(s: State, n: int)
    requires Inv(s) && Quiescent(s) && n in s.links
    ensures Sorted(s.links)
    ensures n in s.glist <==> s.links[n].marked
    ensures s.links[n].marked <==> !Reach(s.links, HEAD, n)
  {
    hide Reach, Passed, ThreadsOk;
    if n in s.glist {
      assert Condemned(s.links, s.up, n);
      assert s.links[n].marked || HasRemover(s, n);
    }
    if s.links[n].marked {
      if !Reach(s.links, HEAD, n) {
        assert (n in s.gnext && s.gnext[n] != Unclaimed) || HasClaimer(s, n);
        assert n in s.glist || HasPusher(s, n);
      }
    }
  }

  /** caml_lf_skiplist_free_garbage's walk: it ends, and frees every cell of the list exactly once. */
  method FreeGarbage(gnext: map<int, Garbage>, ghead: int, ghost glist: seq<int>) returns (freed: seq<int>)
    requires ListOk(gnext, ghead, glist) && HEAD !in glist
    ensures freed == glist
  {
    freed := [];
    var curr := ghead;
    while curr != HEAD
      invariant |freed| <= |glist| && freed == glist[..|freed|]
      invariant curr == if |freed| < |glist| then glist[|freed|] else HEAD
      decreases |glist| - |freed|
    {
      assert curr == glist[|freed|];
      freed := freed + [curr];
      curr := gnext[curr].cell;
    }
  }

  ghost function Freed(s: State): State {
    var gone := set n | n in s.glist;
    s.(links := s.links - gone, gnext := s.gnext - gone, up := s.up - gone, ghead := HEAD, glist := [])
  }

  lemma {:induction false} FreedReach(s: State, a: int, b: int)
    requires Inv(s) && Quiescent(s) && a in s.links && Reach(s.links, HEAD, a) && Reach(s.links, a, b)
    requires Sorted(Freed(s).links)
    ensures a in Freed(s).links && Reach(Freed(s).links, a, b)
    decreases MAX_KEY - s.links[a].key
  {
    hide GarbageInv, OwnersInv, CoreInv;
    CoreSorted(s);
    QuiescentGarbage(s, a);
    if a != b {
      ReachNext(s.links, a);
      FreedReach(s, s.links[a].next, b);
    }
  }

  lemma ReachNext(l: Links, a: int)
    requires Sorted(l) && a in l && a != TAIL && Reach(l, HEAD, a)
    ensures Reach(l, HEAD, l[a].next)
  {
    assert Reach(l, l[a].next, l[a].next);
    assert Reach(l, a, l[a].next);
    ReachTransitive(l, HEAD, a, l[a].next);
  }

  lemma FreedSorted(s: State)
    requires Inv(s) && Quiescent(s)
    ensures Sorted(Freed(s).links)
  {
    hide GarbageInv, OwnersInv, CoreInv, Reach;
    CoreSorted(s);
    var l, l' := s.links, Freed(s).links;
    QuiescentGarbage(s, HEAD);
    QuiescentGarbage(s, TAIL);
    forall n | n in l' && n != TAIL ensures l'[n].next in l' {
      QuiescentGarbage(s, n);
      ReachNext(l, n);
      QuiescentGarbage(s, l[n].next);
    }
  }

  /** On the bottom level, freeing the garbage when no operation is in flight frees no reachable cell and keeps the
      set. */
  lemma {:induction false} FreeingKeepsBottom(s: State)
    requires Inv(s) && Quiescent(s)
    ensures Inv(Freed(s)) && Keys(Freed(s).links) == Keys(s.links)
    ensures forall n :: n in s.links && n !in Freed(s).links ==> Sorted(s.links) && !Reach(s.links, HEAD, n)
    ensures forall n :: n in s.links ==> (n !in Freed(s).links <==> n in s.glist)
    ensures Freed(s).glist == [] && Freed(s).ghead == HEAD
  {
    FreedSorted(s);
    CoreSorted(s);
    forall n | n in s.links ensures n in Freed(s).links <==> !s.links[n].marked {
      QuiescentGarbage(s, n);
    }
    FreedCore(s);
    FreedRest(s);
    FreedSet(s);
    forall n | n in s.links && n !in Freed(s).links ensures !Reach(s.links, HEAD, n) {
      QuiescentGarbage(s, n);
    }
  }

  lemma FreedSet(s: State)
    requires Inv(s) && forall n :: n in s.links ==> (n in Freed(s).links <==> !s.links[n].marked)
    ensures Keys(Freed(s).links) == Keys(s.links)
  {
    hide Inv;
    var l, l' := s.links, Freed(s).links;
    forall n | n in l && n != HEAD && n != TAIL && !l[n].marked ensures n in l' && l'[n] == l[n] {
    }
  }

  lemma FreedCore(s: State)
    requires Inv(s) && Quiescent(s) && Sorted(Freed(s).links)
    requires forall n :: n in s.links ==> (n in Freed(s).links <==> !s.links[n].marked)
    ensures CoreInv(Freed(s))
  {
    hide GarbageInv, OwnersInv, Reach;
    var s' := Freed(s);
    forall n | n in s'.links ensures Reach(s'.links, HEAD, n) {
      assert Reach(s.links, HEAD, n);
      assert Reach(s.links, HEAD, HEAD) by { assert HEAD == HEAD; SelfReach(s.links); }
      FreedReach(s, HEAD, n);
    }
  }

  lemma SelfReach(l: Links)
    requires Sorted(l)
    ensures Reach(l, HEAD, HEAD)
  {
  }

  lemma FreedRest(s: State)
    requires Inv(s) && Quiescent(s) && CoreInv(Freed(s))
    requires forall n :: n in s.links ==> (n in Freed(s).links <==> !s.links[n].marked)
    ensures GarbageInv(Freed(s)) && OwnersInv(Freed(s))
  {
    FreedGarbage(s);
    FreedOwners(s);
  }

  lemma FreedGarbage(s: State)
    requires GarbageInv(s) && Quiescent(s)
    ensures GarbageInv(Freed(s))
  {
    hide Condemned;
    var s' := Freed(s);
    forall n | n in s'.gnext ensures s'.gnext[n] == Unclaimed {
      assert s.gnext[n] != Unclaimed ==> n in s.glist || HasPusher(s, n);
    }
  }

  lemma FreedOwners(s: State)
    requires CoreInv(s) && OwnersInv(s) && Quiescent(s) && CoreInv(Freed(s))
    requires forall n :: n in s.links ==> (n in Freed(s).links <==> !s.links[n].marked)
    ensures OwnersInv(Freed(s))
  {
    hide CoreInv, CleanersOk, ClaimersOk;
    CoreSorted(s);
    CoreSorted(Freed(s));
    var s' := Freed(s);
    forall n | n in s'.up ensures n in s'.links && HasRemover(s', n) {
      assert s.links[n].marked || HasRemover(s, n);
    }
    NoMarksLeft(s');
  }

  lemma NoMarksLeft(s: State)
    requires Sorted(s.links) && forall n :: n in s.links ==> !s.links[n].marked
    ensures CleanersOk(s) && ClaimersOk(s)
  {
  }

  // ----- executions -----

  datatype Event = Act(t: int, a: Action) | Free

  ghost predicate Initial(s: State) {
    && s.links == map[HEAD := Cell(0, TAIL, false), TAIL := Cell(MAX_KEY, -1, false)]
    && s.up == {} && s.gnext == map[HEAD := Unclaimed, TAIL := Unclaimed]
    && s.ghead == HEAD && s.glist == [] && Quiescent(s)
  }

  ghost predicate Follows(s: State, e: Event, s': State) {
    match e
    case Act(t, a) => Enabled(s, t, a) && s' == Stepped(s, t, a)
    case Free => Quiescent(s) && s' == Freed(s)
  }

  ghost predicate Execution(states: seq<State>, events: seq<Event>) {
    && |states| == |events| + 1 && Initial(states[0])
    && forall i :: 0 <= i < |events| ==> Follows(states[i], events[i], states[i + 1])
  }

  lemma InitialInv(s: State)
    requires Initial(s)
    ensures Inv(s)
  {
    assert s.links.Keys == {HEAD, TAIL};
    assert Reach(s.links, HEAD, TAIL) by { assert Reach(s.links, TAIL, TAIL); }
  }

  /** The invariant holds in every state of every execution, whatever the interleaving. */
  lemma {:induction false} ExecutionInv(states: seq<State>, events: seq<Event>, i: nat)
    requires Execution(states, events) && i < |states|
    ensures Inv(states[i])
  {
    hide Inv;
    if i == 0 {
      InitialInv(states[0]);
    } else {
      ExecutionInv(states, events, i - 1);
      assert Follows(states[i - 1], events[i - 1], states[i]);
      match events[i - 1]
      case Act(t, a) => StepKeepsInv(states[i - 1], t, a);
      case Free => FreeingKeepsBottom(states[i - 1]);
    }
  }

  /** From state `j` to state `i`, thread `t` is inside the same call. */
  ghost predicate DuringCall(states: seq<State>, t: int, j: nat, i: nat)
    requires i < |states| && t in states[i].threads
  {
    j <= i && forall m :: j <= m <= i ==>
      t in states[m].threads && !states[m].threads[t].pc.Idle? &&
      states[m].threads[t].info.key == states[i].threads[t].info.key
  }

  /** The flags are honest: a set flag points to a state within the call where the key was out of, or in, the set. */
  lemma {:induction false} FlagsAreHonest(states: seq<State>, events: seq<Event>, i: nat, t: int)
    requires Execution(states, events) && i < |states| && t in states[i].threads && !states[i].threads[t].pc.Idle?
    ensures states[i].threads[t].info.absent ==>
      exists j: nat :: DuringCall(states, t, j, i) && states[i].threads[t].info.key !in Keys(states[j].links)
    ensures states[i].threads[t].info.present ==>
      exists j: nat :: DuringCall(states, t, j, i) && states[i].threads[t].info.key in Keys(states[j].links)
  {
    hide Keys, Local, EffectOf, Applied, Freed, Initial, Follows, Stepped, Enabled;
    if i == 0 {
      InitialIdle(states[0], t);
      return;
    }
    assert Follows(states[i - 1], events[i - 1], states[i]);
    var s, s' := states[i - 1], states[i];
    assert DuringCall(states, t, i, i);
    FollowsFlags(s, events[i - 1], s', t);
    if !s.threads[t].pc.Idle? {
      FlagsAreHonest(states, events, i - 1, t);
      if s.threads[t].info.absent {
        var j: nat :| DuringCall(states, t, j, i - 1) && s.threads[t].info.key !in Keys(states[j].links);
        assert DuringCall(states, t, j, i);
      }
      if s.threads[t].info.present {
        var j: nat :| DuringCall(states, t, j, i - 1) && s.threads[t].info.key in Keys(states[j].links);
        assert DuringCall(states, t, j, i);
      }
    }
  }

  lemma InitialIdle(s: State, t: int)
    requires Initial(s) && t in s.threads
    ensures s.threads[t].pc.Idle?
  {
  }

  lemma FollowsFlags(s: State, e: Event, s': State, t: int)
    requires Follows(s, e, s') && t in s'.threads && !s'.threads[t].pc.Idle?
    ensures t in s.threads
    ensures !s.threads[t].pc.Idle? ==> s'.threads[t].info.key == s.threads[t].info.key
    ensures s'.threads[t].info.absent ==>
      s'.threads[t].info.key !in Keys(s'.links) || (!s.threads[t].pc.Idle? && s.threads[t].info.absent)
    ensures s'.threads[t].info.present ==>
      s'.threads[t].info.key in Keys(s'.links) || (!s.threads[t].pc.Idle? && s.threads[t].info.present)
  {
    hide Keys, EffectOf, Applied;
    if e.Act? {
      SteppedThreads(s, e.t, e.a);
    }
  }

  lemma SteppedThreads(s: State, t: int, a: Action)
    requires Enabled(s, t, a)
    ensures var s' := Stepped(s, t, a);
      s'.threads == ObservedAll(s'.links, s.threads[t := Local(s, t, a).1])
  {
    hide Keys, EffectOf, Applied, Local, ObservedAll;
  }

  lemma DoneFacts(s: State, t: int)
    requires CoreInv(s) && t in s.threads && s.threads[t].pc.Done?
    ensures s.threads[t].pc.outcome == NotThere ==> s.threads[t].info.absent
    ensures s.threads[t].pc.outcome == AlreadyThere ==> s.threads[t].info.present
  {
    hide Reach, Passed, Chained;
    SortedOf(s.links);
    assert ThreadOk(s.links, s.up, s.threads[t]);
  }

  /**
   Linearisation of the operations that change nothing: a remove answers "not there" only if the key was
   absent at some moment of the call, and an insert finds the key only if it was present at some moment.
   */
  lemma {:induction false} AnswersAreJustified(states: seq<State>, events: seq<Event>, i: nat, t: int)
    requires Execution(states, events) && i < |states| && t in states[i].threads && states[i].threads[t].pc.Done?
    ensures states[i].threads[t].pc.outcome == NotThere ==>
      exists j: nat :: DuringCall(states, t, j, i) && states[i].threads[t].info.key !in Keys(states[j].links)
    ensures states[i].threads[t].pc.outcome == AlreadyThere ==>
      exists j: nat :: DuringCall(states, t, j, i) && states[i].threads[t].info.key in Keys(states[j].links)
  {
    hide Execution, CoreInv, GarbageInv, OwnersInv, DuringCall, Keys;
    ExecutionInv(states, events, i);
    DoneFacts(states[i], t);
    FlagsAreHonest(states, events, i, t);
  }

  // ----- a cell is removed once -----

  ghost predicate NoFree(events: seq<Event>, i: nat, j: nat) {
    forall m :: i <= m < j && m < |events| ==> events[m] != Free
  }

  /** A marked cell keeps its mark and its pointer as long as it is not freed. */
  lemma {:induction false} MarkedStays(states: seq<State>, events: seq<Event>, i: nat, j: nat, n: int)
    requires Execution(states, events) && i <= j < |states| && NoFree(events, i, j)
    requires n in states[i].links && states[i].links[n].marked
    ensures n in states[j].links && states[j].links[n] == states[i].links[n]
    decreases j
  {
    hide Inv, Initial, Freed, Stepped, Applied, EffectOf, Legal, Enabled, CoreInv;
    if i < j {
      MarkedStays(states, events, i, j - 1, n);
      ExecutionInv(states, events, j - 1);
      var s, e := states[j - 1], events[j - 1];
      assert Follows(s, e, states[j]);
      CoreOf(s);
      CoreStep(s, e.t, e.a);
      EffectLegal(s, e.t, e.a);
      ActorIn(s, e.t, e.a);
      MarkedIsFrozen(s.links, EffectOf(s, e.t, e.a), s.threads[e.t].info.key, n);
    }
  }

  lemma CoreOf(s: State)
    requires Inv(s)
    ensures CoreInv(s)
  {
  }

  lemma ActorIn(s: State, t: int, a: Action)
    requires Enabled(s, t, a)
    ensures t in s.threads
  {
  }

  /** Two successful marks of one cell are the same step: at most one remove of it reports success. */
  lemma {:induction false} RemovedOnce(states: seq<State>, events: seq<Event>, i: nat, j: nat, n: int)
    requires Execution(states, events) && i <= j < |events| && NoFree(events, i, j)
    requires events[i].Act? && events[j].Act? && events[i].t in states[i].threads && events[j].t in states[j].threads
    requires EffectOf(states[i], events[i].t, events[i].a) == Marks(n)
    requires EffectOf(states[j], events[j].t, events[j].a) == Marks(n)
    ensures i == j
  {
    hide Inv, Initial, Freed, Stepped, CoreInv;
    if i < j {
      var s, e := states[i], events[i];
      assert Follows(s, e, states[i + 1]);
      ExecutionInv(states, events, i);
      CoreOf(s);
      CoreStep(s, e.t, e.a);
      MarkedStays(states, events, i + 1, j, n);
    }
  }

  ghost predicate MarksAt(states: seq<State>, events: seq<Event>, j: nat, t: int, n: int) {
    && j < |events| && j < |states| && events[j].Act? && events[j].t == t && t in states[j].threads
    && EffectOf(states[j], t, events[j].a) == Marks(n)
  }

  /** How a thread comes to be cleaning up a cell, and to report a removal. */
  lemma CleaningOrigin(s: State, e: Event, s': State, t: int)
    requires Follows(s, e, s') && t in s'.threads && !s'.threads[t].pc.Idle?
    ensures t in s.threads
    ensures s'.threads[t].info.phase.Cleaning? ==>
      && !s.threads[t].pc.Idle?
      && (s.threads[t].info.phase == s'.threads[t].info.phase ||
          (e.Act? && e.t == t && EffectOf(s, t, e.a) == Marks(s'.threads[t].info.phase.cell)))
    ensures s'.threads[t].pc == Done(Removed) ==>
      !s.threads[t].pc.Idle? && s'.threads[t].info.phase == s.threads[t].info.phase &&
      (s.threads[t].pc == Done(Removed) || s.threads[t].info.phase.Cleaning?)
  {
    hide Stepped, Applied, Local, EffectOf;
    if e.Act? {
      ActorIn(s, e.t, e.a);
      PcFrame(s, e.t, e.a);
      LocalOrigin(s, e.t, e.a);
    }
  }

  lemma LocalOrigin(s: State, t: int, a: Action)
    requires Enabled(s, t, a)
    ensures var th, th' := s.threads[t], Local(s, t, a).1;
      && (!th'.pc.Idle? && th'.info.phase.Cleaning? ==>
           !th.pc.Idle? && (th.info.phase == th'.info.phase || EffectOf(s, t, a) == Marks(th'.info.phase.cell)))
      && (th'.pc == Done(Removed) ==>
           !th.pc.Idle? && th'.info.phase == th.info.phase && (th.pc == Done(Removed) || th.info.phase.Cleaning?))
  {
  }

  /** A remove that reports success has marked a cell itself, during the call. */
  lemma {:induction false} RemovalMarked(states: seq<State>, events: seq<Event>, i: nat, t: int)
    requires Execution(states, events) && i < |states| && t in states[i].threads && !states[i].threads[t].pc.Idle?
    ensures states[i].threads[t].info.phase.Cleaning? ==>
      exists j: nat ::
        MarksAt(states, events, j, t, states[i].threads[t].info.phase.cell) && DuringCall(states, t, j, i)
    ensures states[i].threads[t].pc == Done(Removed) ==> states[i].threads[t].info.phase.Cleaning?
  {
    hide EffectOf, Local, Freed, Initial, Stepped;
    if i == 0 {
      InitialIdle(states[0], t);
    } else {
      var s, s' := states[i - 1], states[i];
      assert Follows(s, events[i - 1], s');
      CleaningOrigin(s, events[i - 1], s', t);
      FollowsFlags(s, events[i - 1], s', t);
      if !s.threads[t].pc.Idle? {
        RemovalMarked(states, events, i - 1, t);
        assert DuringCall(states, t, i - 1, i);
        if s'.threads[t].info.phase.Cleaning? {
          var n := s'.threads[t].info.phase.cell;
          if s.threads[t].info.phase == s'.threads[t].info.phase {
            var j: nat :| MarksAt(states, events, j, t, n) && DuringCall(states, t, j, i - 1);
            assert DuringCall(states, t, j, i);
          } else {
            assert MarksAt(states, events, i - 1, t, n);
          }
        }
      }
    }
  }

  /** Nothing is freed during a call. */
  lemma NoFreeDuring(states: seq<State>, events: seq<Event>, t: int, j: nat, i: nat)
    requires Execution(states, events) && i < |states| && t in states[i].threads && DuringCall(states, t, j, i)
    ensures NoFree(events, j, i)
  {
    hide Stepped, Freed, Enabled, Initial;
    forall m | j <= m < i && m < |events|
      ensures events[m] != Free
    {
      assert Follows(states[m], events[m], states[m + 1]);
      assert !states[m].threads[t].pc.Idle?;
    }
  }

  /** Two calls that report the removal of one cell, not freed in between, are one call. */
  lemma {:induction false} OneRemoval(states: seq<State>, events: seq<Event>, i: nat, t: int, i': nat, t': int, n: int)
    requires Execution(states, events) && i <= i' < |states| && NoFree(events, i, i')
    requires t in states[i].threads && states[i].threads[t].pc == Done(Removed)
    requires states[i].threads[t].info.phase == Cleaning(n)
    requires t' in states[i'].threads && states[i'].threads[t'].pc == Done(Removed)
    requires states[i'].threads[t'].info.phase == Cleaning(n)
    ensures t == t' && DuringCall(states, t, i, i')
  {
    hide Initial, Follows, EffectOf;
    RemovalMarked(states, events, i, t);
    RemovalMarked(states, events, i', t');
    var j: nat :| MarksAt(states, events, j, t, n) && DuringCall(states, t, j, i);
    var j': nat :| MarksAt(states, events, j', t', n) && DuringCall(states, t', j', i');
    NoFreeDuring(states, events, t, j, i);
    NoFreeDuring(states, events, t', j', i');
    if j <= j' {
      RemovedOnce(states, events, j, j', n);
    } else {
      RemovedOnce(states, events, j', j, n);
    }
  }

  // ----- a key is inserted once -----

  /** The call has linked its cell on the bottom level. */
  ghost predicate HasLinked(th: Thread) {
    th.pc.LinkUpper? || th.info.phase.Relinking? || th.pc == Done(Inserted)
  }

  ghost predicate LinksAt(states: seq<State>, events: seq<Event>, j: nat, t: int) {
    && j < |events| && j < |states| && events[j].Act? && events[j].t == t && t in states[j].threads
    && EffectOf(states[j], t, events[j].a).Links?
  }

  lemma MarkerIsMain(s: State, t: int)
    requires CoreInv(s) && t in s.threads
    ensures s.threads[t].pc.MarkCas? ==> s.threads[t].info.phase == Main
  {
    hide Reach, Passed, PredOk, CurrOk, BackOk, Chained;
    SortedOf(s.links);
    assert ThreadOk(s.links, s.up, s.threads[t]);
  }

  lemma LocalLinks(s: State, t: int, a: Action)
    requires Enabled(s, t, a) && (s.threads[t].pc.MarkCas? ==> s.threads[t].info.phase == Main)
    ensures var th, th' := s.threads[t], Local(s, t, a).1;
      && (!th'.pc.Idle? && HasLinked(th') ==> !th.pc.Idle? && (HasLinked(th) || EffectOf(s, t, a).Links?))
      && (!th.pc.Idle? && HasLinked(th) ==> th'.pc.Idle? || HasLinked(th'))
      && (EffectOf(s, t, a).Links? ==> HasLinked(th'))
  {
  }

  lemma LinkIsMain(s: State, t: int, a: Action)
    requires CoreInv(s) && Enabled(s, t, a) && EffectOf(s, t, a).Links?
    ensures !HasLinked(s.threads[t]) && !s.threads[t].pc.Idle?
  {
    hide Reach, Passed, PredOk, CurrOk, BackOk, Chained;
    SortedOf(s.links);
    assert ThreadOk(s.links, s.up, s.threads[t]);
  }

  lemma LinkOrigin(s: State, e: Event, s': State, t: int)
    requires CoreInv(s) && Follows(s, e, s') && t in s'.threads && !s'.threads[t].pc.Idle?
    ensures t in s.threads
    ensures HasLinked(s'.threads[t]) ==>
      !s.threads[t].pc.Idle? && (HasLinked(s.threads[t]) || (e.Act? && e.t == t && EffectOf(s, t, e.a).Links?))
    ensures !s.threads[t].pc.Idle? && HasLinked(s.threads[t]) ==> HasLinked(s'.threads[t])
    ensures e.Act? && e.t == t && EffectOf(s, t, e.a).Links? ==> HasLinked(s'.threads[t])
  {
    hide Stepped, Applied, Local, EffectOf, CoreInv;
    if e.Act? {
      ActorIn(s, e.t, e.a);
      PcFrame(s, e.t, e.a);
      MarkerIsMain(s, e.t);
      LocalLinks(s, e.t, e.a);
    }
  }

  /** An insert that reports a new key linked its cell during the call. */
  lemma {:induction false} InsertionLinked(states: seq<State>, events: seq<Event>, i: nat, t: int)
    requires Execution(states, events) && i < |states| && t in states[i].threads && !states[i].threads[t].pc.Idle?
    requires HasLinked(states[i].threads[t])
    ensures exists j: nat :: LinksAt(states, events, j, t) && DuringCall(states, t, j, i)
  {
    hide EffectOf, Local, Freed, Initial, Stepped, HasLinked, Inv, CoreInv, Follows, Enabled;
    if i == 0 {
      InitialIdle(states[0], t);
    } else {
      var s, s' := states[i - 1], states[i];
      assert Follows(s, events[i - 1], s');
      ExecutionInv(states, events, i - 1);
      CoreOf(s);
      LinkOrigin(s, events[i - 1], s', t);
      FollowsFlags(s, events[i - 1], s', t);
      assert DuringCall(states, t, i - 1, i);
      if HasLinked(s.threads[t]) {
        InsertionLinked(states, events, i - 1, t);
        var j: nat :| LinksAt(states, events, j, t) && DuringCall(states, t, j, i - 1);
        assert DuringCall(states, t, j, i);
      } else {
        assert LinksAt(states, events, i - 1, t);
      }
    }
  }

  lemma {:induction false} LinkedStays(states: seq<State>, events: seq<Event>, j: nat, i: nat, t: int)
    requires Execution(states, events) && j < i < |states| && t in states[i].threads
    requires LinksAt(states, events, j, t) && DuringCall(states, t, j, i)
    ensures HasLinked(states[i].threads[t])
    decreases i
  {
    hide EffectOf, Local, Freed, Initial, Stepped, HasLinked, Inv, CoreInv, Follows, Enabled;
    assert Follows(states[i - 1], events[i - 1], states[i]);
    ExecutionInv(states, events, i - 1);
    CoreOf(states[i - 1]);
    LinkOrigin(states[i - 1], events[i - 1], states[i], t);
    if j < i - 1 {
      assert DuringCall(states, t, j, i - 1);
      LinkedStays(states, events, j, i - 1, t);
    }
  }

  /** A call links at most one cell: an insert that reports a new key added it exactly once. */
  lemma {:induction false} OneInsertion(states: seq<State>, events: seq<Event>, i: nat, t: int, j: nat, j': nat)
    requires Execution(states, events) && i < |states| && t in states[i].threads && j <= j' < i
    requires LinksAt(states, events, j, t) && LinksAt(states, events, j', t) && DuringCall(states, t, j, i)
    ensures j == j'
  {
    hide EffectOf, Local, Freed, Initial, Stepped, HasLinked, CoreInv;
    if j < j' {
      assert DuringCall(states, t, j, j');
      LinkedStays(states, events, j, j', t);
      ExecutionInv(states, events, j');
      assert Follows(states[j'], events[j'], states[j' + 1]);
      CoreOf(states[j']);
      LinkIsMain(states[j'], t, events[j'].a);
    }
  }

  // ----- the answers are exact -----

  /** The result of a call goes with what it has done. */
  ghost predicate ResultFits(th: Thread) {
    th.pc.Done? ==>
      && (th.pc.outcome == Removed <==> th.info.phase.Cleaning?)
      && (th.pc.outcome == Inserted <==> HasLinked(th))
  }

  lemma LocalResult(s: State, t: int, a: Action)
    requires CoreInv(s) && Enabled(s, t, a)
    ensures ResultFits(Local(s, t, a).1)
    ensures var th, th' := s.threads[t], Local(s, t, a).1;
      && (!th.pc.Idle? && th.info.phase.Cleaning? ==> th'.pc.Idle? || th'.info.phase.Cleaning?)
      && (EffectOf(s, t, a).Marks? ==> th'.info.phase.Cleaning?)
  {
    hide CoreInv;
    ActorPhase(s, t);
  }

  lemma ActorPhase(s: State, t: int)
    requires CoreInv(s) && t in s.threads
    ensures s.threads[t].pc.LinkUpper? ==> !s.threads[t].info.phase.Cleaning?
    ensures s.threads[t].pc.Reload? || s.threads[t].pc.MarkCas? ==> s.threads[t].info.phase == Main
  {
    hide Reach, Passed, PredOk, CurrOk, BackOk, Chained;
    SortedOf(s.links);
    assert ThreadOk(s.links, s.up, s.threads[t]);
  }

  lemma ResultOrigin(s: State, e: Event, s': State, t: int)
    requires CoreInv(s) && Follows(s, e, s') && t in s'.threads && !s'.threads[t].pc.Idle?
    ensures t in s.threads
    ensures ResultFits(s.threads[t]) ==> ResultFits(s'.threads[t])
    ensures !s.threads[t].pc.Idle? && s.threads[t].info.phase.Cleaning? ==> s'.threads[t].info.phase.Cleaning?
    ensures e.Act? && e.t == t && EffectOf(s, t, e.a).Marks? ==> s'.threads[t].info.phase.Cleaning?
  {
    hide Stepped, Applied, Local, EffectOf, CoreInv;
    if e.Act? {
      ActorIn(s, e.t, e.a);
      PcFrame(s, e.t, e.a);
      LocalResult(s, e.t, e.a);
    }
  }

  lemma {:induction false} ResultsFit(states: seq<State>, events: seq<Event>, i: nat, t: int)
    requires Execution(states, events) && i < |states| && t in states[i].threads
    ensures ResultFits(states[i].threads[t])
  {
    hide EffectOf, Local, Freed, Initial, Stepped, HasLinked, Inv, CoreInv, Follows, Enabled;
    if i == 0 {
      InitialIdle(states[0], t);
    } else if !states[i].threads[t].pc.Idle? {
      assert Follows(states[i - 1], events[i - 1], states[i]);
      ExecutionInv(states, events, i - 1);
      CoreOf(states[i - 1]);
      ResultOrigin(states[i - 1], events[i - 1], states[i], t);
      ResultsFit(states, events, i - 1, t);
    }
  }

  lemma {:induction false} MarkedCleans(states: seq<State>, events: seq<Event>, j: nat, i: nat, t: int, n: int)
    requires Execution(states, events) && j < i < |states| && t in states[i].threads
    requires MarksAt(states, events, j, t, n) && DuringCall(states, t, j, i)
    ensures states[i].threads[t].info.phase.Cleaning?
    decreases i
  {
    hide EffectOf, Local, Freed, Initial, Stepped, Inv, CoreInv, Follows, Enabled;
    assert Follows(states[i - 1], events[i - 1], states[i]);
    ExecutionInv(states, events, i - 1);
    CoreOf(states[i - 1]);
    ResultOrigin(states[i - 1], events[i - 1], states[i], t);
    if j < i - 1 {
      assert DuringCall(states, t, j, i - 1);
      MarkedCleans(states, events, j, i - 1, t, n);
    }
  }

  /** A call reports a removal if and only if it has marked a cell, and an insertion if and only if it has linked one.
      */
  lemma {:induction false} AnswersAreExact(states: seq<State>, events: seq<Event>, i: nat, t: int)
    requires Execution(states, events) && i < |states| && t in states[i].threads && states[i].threads[t].pc.Done?
    ensures states[i].threads[t].pc.outcome == Removed <==>
      exists j: nat, n :: j < i && MarksAt(states, events, j, t, n) && DuringCall(states, t, j, i)
    ensures states[i].threads[t].pc.outcome == Inserted <==>
      exists j: nat :: j < i && LinksAt(states, events, j, t) && DuringCall(states, t, j, i)
  {
    hide EffectOf, Local, Freed, Initial, Stepped, HasLinked, Inv, CoreInv, Follows, Enabled;
    ResultsFit(states, events, i, t);
    RemovalMarked(states, events, i, t);
    forall j: nat, n | j < i && MarksAt(states, events, j, t, n) && DuringCall(states, t, j, i)
      ensures states[i].threads[t].info.phase.Cleaning?
    {
      MarkedCleans(states, events, j, i, t, n);
    }
    forall j: nat | j < i && LinksAt(states, events, j, t) && DuringCall(states, t, j, i)
      ensures HasLinked(states[i].threads[t])
    {
      LinkedStays(states, events, j, i, t);
    }
    if HasLinked(states[i].threads[t]) {
      InsertionLinked(states, events, i, t);
      var j: nat :| LinksAt(states, events, j, t) && DuringCall(states, t, j, i);
      ActsBefore(states, events, j, i, t);
    }
    if states[i].threads[t].info.phase.Cleaning? {
      var n := states[i].threads[t].info.phase.cell;
      var j: nat :| MarksAt(states, events, j, t, n) && DuringCall(states, t, j, i);
      NotDone(states, events, j, t);
      assert j != i;
    }
  }

  /** A call that has answered links and marks no more. */
  lemma NotDone(states: seq<State>, events: seq<Event>, j: nat, t: int)
    requires j < |events| && j < |states| && events[j].Act? && t in states[j].threads
    requires !EffectOf(states[j], t, events[j].a).Nothing?
    ensures !states[j].threads[t].pc.Done?
  {
  }

  lemma ActsBefore(states: seq<State>, events: seq<Event>, j: nat, i: nat, t: int)
    requires i < |states| && t in states[i].threads && states[i].threads[t].pc.Done?
    requires LinksAt(states, events, j, t) && DuringCall(states, t, j, i)
    ensures j < i
  {
    hide EffectOf;
    NotDone(states, events, j, t);
  }
}
