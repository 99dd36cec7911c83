/**
 Stop-the-world sections with the barriers their callbacks use: domains in a callback may go through any number of
 barriers, and the leader resets the barrier word when it prepares a section.
 */
module StwBarrier {
  import opened Bytes
  import opened Lists
  import Stw
  import Barrier

  const MAX_DOMAINS := 128

  datatype State = State(stw: Stw.State, barrier: Barrier.State)

  datatype Action = Section(a: Stw.Action) | AtBarrier

  ghost predicate InCallback(pc: Stw.Pc) {
    pc.LeadCallback? || pc.Callback?
  }

  /** The barrier of a section about to announce itself to `parts`. */
  ghost function Reset(parts: seq<int>): Barrier.State {
    Barrier.State(0, map d | d in parts :: Barrier.Ready(0), 0, [])
  }

  /** A callback returns when it is out of the barriers it entered. */
  ghost predicate Enabled(s: State, d: int, a: Action) {
    match a
    case Section(b) =>
      && Stw.Enabled(s.stw, d, b)
      && (InCallback(s.stw.pc[d]) && d in s.barrier.doms ==> s.barrier.doms[d].Ready?)
    case AtBarrier => d in s.stw.pc && InCallback(s.stw.pc[d]) && Barrier.Enabled(s.barrier, d)
  }

  ghost function Next(s: State, d: int, a: Action): State
    requires Enabled(s, d, a)
  {
    match a
    case Section(b) =>
      State(Stw.Next(s.stw, d, b), if s.stw.pc[d].Prepare? then Reset(s.stw.parts) else s.barrier)
    case AtBarrier => s.(barrier := Barrier.Next(s.barrier, d))
  }

  // ----- the invariant -----

  /** A section is prepared. */
  ghost predicate Active(s: Stw.State) {
    s.leader.Some? && s.leader.value in s.pc && !s.pc[s.leader.value].Prepare?
  }

  /** The domains of the section. */
  ghost function Members(s: Stw.State): seq<int>
    requires Active(s)
  {
    if s.pc[s.leader.value].Announce? then s.parts else s.snapshot
  }

  ghost predicate BarrierOk(s: State)
    requires Active(s.stw)
  {
    && Barrier.Inv(s.barrier)
    && s.barrier.doms.Keys == Elements(Members(s.stw))
    && forall d :: d in s.barrier.doms && s.barrier.doms[d] != Barrier.Ready(0) ==> d in s.stw.started
  }

  /** Only a domain in a callback is inside a barrier. */
  ghost predicate WaitersOk(s: State) {
    forall d :: d in s.barrier.doms && s.barrier.doms[d].Entered? ==> d in s.stw.pc && InCallback(s.stw.pc[d])
  }

  ghost predicate Inv(s: State) {
    && Stw.Inv(s.stw) && |s.stw.pc| <= MAX_DOMAINS
    && WaitersOk(s)
    && (Active(s.stw) ==> BarrierOk(s))
  }

  /** A callback runs in a section past its preparation, for its domains. */
  lemma CallbackMember(s: Stw.State, d: int)
    requires Stw.Inv(s) && d in s.pc && InCallback(s.pc[d])
    ensures Active(s) && Members(s) == s.snapshot && d in s.snapshot && d in s.started
  {
    hide NoDuplicates, Stw.LockOk, Stw.PartsOk, Stw.ClearerOk;
    assert s.leader.Some? && Stw.DomainOk(s, d);
  }

  /** The leader resets the barrier while no domain is inside one. */
  lemma {:induction false} ResetIsFree(s: State, d: int)
    requires Inv(s) && d in s.stw.pc && s.stw.pc[d].Prepare?
    ensures s.stw.leader == Some(d) && d in s.stw.parts
    ensures forall e :: e in s.barrier.doms ==> s.barrier.doms[e].Ready?
  {
    hide NoDuplicates;
    assert s.stw.leader.Some? && Stw.DomainOk(s.stw, d);
    forall e | e in s.barrier.doms
      ensures s.barrier.doms[e].Ready?
    {
      if s.barrier.doms[e].Entered? {
        CallbackMember(s.stw, e);
      }
    }
  }

  lemma FewDomains(s: Stw.State)
    requires Stw.Inv(s)
    ensures |s.parts| <= |s.pc| && |Elements(s.parts)| == |s.parts|
  {
    hide Stw.SectionOk;
    PartsIn(s);
    hide Stw.Inv;
    FitsIn(s.parts, s.pc.Keys);
    ElementsSize(s.parts);
    assert |s.pc| == |s.pc.Keys|;
  }

  lemma PartsIn(s: Stw.State)
    requires Stw.Inv(s)
    ensures NoDuplicates(s.parts) && forall i :: 0 <= i < |s.parts| ==> s.parts[i] in s.pc
  {
    hide Stw.SectionOk, NoDuplicates;
    assert Stw.PartsOk(s);
    forall i | 0 <= i < |s.parts|
      ensures s.parts[i] in s.pc
    {
      var d := s.parts[i];
      assert d in s.parts;
      assert d in s.pc;
    }
  }

  /** A prepared section starts with a barrier that nobody has entered, for exactly the domains it announces. */
  lemma {:induction false} SectionStartsFresh(s: State, d: int, a: Action)
    requires Inv(s) && Enabled(s, d, a) && s.stw.pc[d].Prepare?
    ensures var t := Next(s, d, a);
      Barrier.Initial(t.barrier) && t.barrier.doms.Keys == Elements(s.stw.parts) && |t.barrier.doms| == t.stw.processing
  {
    ResetIsFree(s, d);
    FewDomains(s.stw);
    var t := Next(s, d, a);
    assert t.barrier.doms.Keys == Elements(s.stw.parts);
  }

  lemma InitialInv(b: Barrier.State)
    requires Barrier.Initial(b)
    ensures Barrier.Inv(b)
  {
  }

  lemma PrepareKeeps(s: State, d: int, a: Action)
    requires Inv(s) && Enabled(s, d, a) && s.stw.pc[d].Prepare? && Stw.Inv(Next(s, d, a).stw)
    ensures Inv(Next(s, d, a))
  {
    ResetIsFree(s, d);
    SectionStartsFresh(s, d, a);
    var t := Next(s, d, a);
    InitialInv(t.barrier);
    hide Barrier.Inv, Stw.Inv;
    assert Members(t.stw) == s.stw.parts;
  }

  /** While the leader announces, or once it has, the domains of the section stay. */
  lemma MembersStay(s: Stw.State, d: int, a: Stw.Action)
    requires Stw.Inv(s) && Stw.Enabled(s, d, a) && !s.pc[d].Prepare? && Active(Stw.Next(s, d, a))
    ensures Active(s) && Members(Stw.Next(s, d, a)) == Members(s) && s.started <= Stw.Next(s, d, a).started
  {
    hide Stw.Inv;
    LeaderFacts(s, d);
    if s.pc[d].Announce? {
      assert s.parts[..|s.parts|] == s.parts;
    }
    match s.pc[d]
    case Announce(_) =>
    case Exit =>
    case HoldsLock =>
    case _ =>
  }

  /** The leader alone announces, and holds the lock meanwhile. */
  lemma LeaderFacts(s: Stw.State, d: int)
    requires Stw.Inv(s) && d in s.pc
    ensures s.leader.None? ==> Stw.Outside(s.pc[d])
    ensures s.leader.Some? ==>
      && s.leader.value in s.pc
      && (s.pc[d].HoldsLock? || s.pc[d].Exit? ==> !s.pc[s.leader.value].Prepare? && !s.pc[s.leader.value].Announce?)
      && (s.pc[d].Announce? ==> d == s.leader.value && s.pc[d].i <= |s.parts| && s.snapshot == s.parts[..s.pc[d].i])
  {
    hide NoDuplicates, Stw.ClearerOk, Stw.PartsOk;
    if s.leader.Some? {
      assert Stw.DomainOk(s, d);
    }
  }

  lemma OneMoves(s: Stw.State, d: int, a: Stw.Action)
    requires Stw.Enabled(s, d, a)
    ensures d in s.pc
    ensures var t := Stw.Next(s, d, a);
      |t.pc| == |s.pc| && forall e :: e in s.pc ==> e in t.pc && (e != d ==> t.pc[e] == s.pc[e])
  {
    var t := Stw.Next(s, d, a);
    assert t.pc == s.pc || t.pc == s.pc[d := t.pc[d]];
    assert t.pc.Keys == s.pc.Keys;
    assert |t.pc| == |t.pc.Keys| && |s.pc| == |s.pc.Keys|;
  }

  lemma SectionKeeps(s: State, d: int, a: Stw.Action)
    requires Inv(s) && Enabled(s, d, Section(a))
    ensures Inv(Next(s, d, Section(a)))
  {
    hide Stw.Inv, Stw.Enabled, Stw.Next, Barrier.Inv, Members;
    Stw.StepKeepsInv(s.stw, d, a);
    OneMoves(s.stw, d, a);
    if s.stw.pc[d].Prepare? {
      PrepareKeeps(s, d, Section(a));
    } else {
      var t := Next(s, d, Section(a));
      if Active(t.stw) {
        MembersStay(s.stw, d, a);
      }
      assert t.barrier == s.barrier;
    }
  }

  lemma BarrierKeeps(s: State, d: int)
    requires Inv(s) && Enabled(s, d, AtBarrier)
    ensures Inv(Next(s, d, AtBarrier))
  {
    hide Stw.Inv, Barrier.Inv, Members, Barrier.Final, Barrier.Sense, Barrier.Count;
    CallbackMember(s.stw, d);
    Barrier.StepKeepsInv(s.barrier, d);
    assert Next(s, d, AtBarrier).barrier.doms.Keys == s.barrier.doms.Keys;
  }

  /** Any step of any domain, of the section or at a barrier. */
  lemma {:induction false} StepKeepsInv(s: State, d: int, a: Action)
    requires Inv(s) && Enabled(s, d, a)
    ensures Inv(Next(s, d, a))
  {
    hide Inv;
    match a
    case Section(b) => SectionKeeps(s, d, b);
    case AtBarrier => BarrierKeeps(s, d);
  }

  // ----- runs -----

  ghost predicate Run(states: seq<State>, moves: seq<(int, Action)>) {
    && |states| == |moves| + 1 && Stw.Initial(states[0].stw)
    && |states[0].stw.pc| <= MAX_DOMAINS && states[0].barrier == Reset([])
    && forall i :: 0 <= i < |moves| ==>
         Enabled(states[i], moves[i].0, moves[i].1) && states[i + 1] == Next(states[i], moves[i].0, moves[i].1)
  }

  lemma {:induction false} RunInv(states: seq<State>, moves: seq<(int, Action)>, i: nat)
    requires Run(states, moves) && i < |states|
    ensures Inv(states[i])
  {
    if i == 0 {
      hide Stw.SectionOk;
    } else {
      hide Inv, Next, Enabled;
      RunInv(states, moves, i - 1);
      StepKeepsInv(states[i - 1], moves[i - 1].0, moves[i - 1].1);
    }
  }

  /** In every state of every run, a domain in a callback shares the barrier with exactly the domains of its section:
      the number a final arrival is compared with is theirs, and nobody leaves a barrier before all of them entered
      it. */
  lemma {:induction false} CallbackBarrier(states: seq<State>, moves: seq<(int, Action)>, i: nat, d: int, e: int)
    requires Run(states, moves) && i < |states| && d in states[i].stw.pc && InCallback(states[i].stw.pc[d])
    requires e in states[i].stw.snapshot
    ensures var s := states[i];
      && d in s.barrier.doms && e in s.barrier.doms && |s.barrier.doms| == |s.stw.snapshot|
      && Barrier.Left(s.barrier.doms[d]) <= Barrier.Begun(s.barrier.doms[e])
      && Barrier.Begun(s.barrier.doms[d]) <= Barrier.Begun(s.barrier.doms[e]) + 1
  {
    RunInv(states, moves, i);
    var s := states[i];
    CallbackMember(s.stw, d);
    ElementsSize(s.stw.snapshot);
    assert NoDuplicates(s.stw.snapshot);
    hide NoDuplicates, Stw.SectionOk;
    assert Barrier.Position(s.barrier, d) && Barrier.Position(s.barrier, e);
  }

  /** Past its first barrier a callback runs with every domain of the section in its callback or through with it. */
  lemma {:induction false} AllStarted(states: seq<State>, moves: seq<(int, Action)>, i: nat, d: int, e: int)
    requires Run(states, moves) && i < |states| && d in states[i].stw.pc && InCallback(states[i].stw.pc[d])
    requires d in states[i].barrier.doms && Barrier.Left(states[i].barrier.doms[d]) >= 1 && e in states[i].stw.snapshot
    ensures e in states[i].stw.started
  {
    RunInv(states, moves, i);
    CallbackBarrier(states, moves, i, d, e);
    CallbackMember(states[i].stw, d);
  }

  // ----- barriers are passed -----

  ghost predicate Goes(s: State, moves: seq<(int, Action)>, t: State)
    decreases |moves|
  {
    if moves == [] then s == t
    else Enabled(s, moves[0].0, moves[0].1) && Goes(Next(s, moves[0].0, moves[0].1), moves[1..], t)
  }

  function AtBarriers(ds: seq<int>): seq<(int, Action)> {
    seq(|ds|, i requires 0 <= i < |ds| => (ds[i], AtBarrier))
  }

  lemma {:induction false} Lifts(s: State, ds: seq<int>, b: Barrier.State)
    requires Barrier.Goes(s.barrier, ds, b)
    requires forall d :: d in s.barrier.doms ==> d in s.stw.pc && InCallback(s.stw.pc[d])
    ensures Goes(s, AtBarriers(ds), s.(barrier := b))
    decreases |ds|
  {
    hide InCallback, Barrier.Final, Barrier.Sense, Barrier.Count;
    if ds != [] {
      var t := Next(s, ds[0], AtBarrier);
      assert t.barrier.doms.Keys == s.barrier.doms.Keys;
      Lifts(t, ds[1..], b);
      assert AtBarriers(ds)[1..] == AtBarriers(ds[1..]);
    }
  }

  /** With all domains of the section in its callback, some run takes them through a barrier. */
  lemma {:induction false} BarrierPassed(s: State, d: int) returns (moves: seq<(int, Action)>, t: State)
    requires Inv(s) && d in s.stw.pc && InCallback(s.stw.pc[d])
    requires forall e :: e in s.stw.snapshot ==> e in s.stw.pc && InCallback(s.stw.pc[e])
    ensures Goes(s, moves, t) && t.stw == s.stw && t.barrier.round == s.barrier.round + 1
  {
    hide InCallback, Goes;
    CallbackMember(s.stw, d);
    var ds, b := Barrier.RoundEnds(s.barrier);
    Lifts(s, ds, b);
    moves, t := AtBarriers(ds), s.(barrier := b);
  }
}
