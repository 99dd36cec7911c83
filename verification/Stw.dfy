/**
 Stop-the-world sections: any number of domains, any interleaving. Each shared access of
 caml_try_run_on_all_domains_with_spin_work, stw_handler, handle_incoming,
 decrement_stw_domains_still_processing, create_domain and domain_terminate is one step.
 */
module Stw {
  import opened Bytes
  import opened Lists
  import opened StwDomains

  datatype Pc =
    | Absent
    | Joining
    | JoiningLocked
    | Mutator
    | SawNoLeader
    | HoldsLock
    | Prepare
    | Announce(i: nat)
    | Await(i: nat)
    | LeadCallback
    | Ack
    | Spin
    | Callback
    | Decrement
    | WantClear
    | Clear
    | UnlockClear
    | WantExit
    | Exit

  /**
   `parts` are the domains of the stop-the-world set and `snapshot` those the current section announced;
   `started` and `finished` record who entered and left the current section's callback.
   */
  datatype State = State(
    pc: map<int, Pc>, leader: Option<int>, lock: Option<int>, parts: seq<int>, pending: set<int>,
    running: nat, processing: int, snapshot: seq<int>, started: set<int>, finished: set<int>)

  datatype Action = Step | TryStw | Poll | Leave

  ghost function To(s: State, d: int, pc: Pc): State {
    s.(pc := s.pc[d := pc])
  }

  ghost predicate Enabled(s: State, d: int, a: Action) {
    && d in s.pc
    && match s.pc[d]
       case Absent => a.Step?
       case Joining => a.Step? && s.lock.None?
       case Mutator => !a.Step?
       case SawNoLeader => a.Step?
       case Await(i) => a.Step? && (i < |s.snapshot| ==> s.snapshot[i] !in s.pending)
       case Spin => a.Step? && s.running == 0
       case WantClear => a.Step? && s.lock.None?
       case WantExit => a.Step? && s.lock.None?
       case _ => a.Step?
  }

  ghost function Next(s: State, d: int, a: Action): State
    requires Enabled(s, d, a)
  {
    match s.pc[d]
    case Absent => To(s, d, Joining)
    case Joining => To(s, d, JoiningLocked).(lock := Some(d))
    // wait for the section in progress to end, or join the set
    case JoiningLocked =>
      if s.leader.Some? then To(s, d, Joining).(lock := None)
      else To(s, d, Mutator).(lock := None, parts := s.parts + [d])
    case Mutator =>
      (match a
       case TryStw => if s.leader.Some? then s else To(s, d, SawNoLeader)
       case Poll => if d in s.pending then To(s, d, Ack) else s
       case Leave => To(s, d, WantExit)
       case Step => s)
    case SawNoLeader => if s.lock.None? then To(s, d, HoldsLock).(lock := Some(d)) else To(s, d, Mutator)
    case HoldsLock =>
      if s.leader.Some? then To(s, d, Mutator).(lock := None)
      else To(s, d, Prepare).(leader := Some(d), snapshot := [], started := {}, finished := {})
    case Prepare => To(s, d, Announce(0)).(running := 1, processing := |s.parts|)
    case Announce(i) =>
      if i < |s.parts| then
        To(s, d, Announce(i + 1)).(snapshot := s.snapshot + [s.parts[i]],
                                   pending := if s.parts[i] == d then s.pending else s.pending + {s.parts[i]})
      else To(s, d, Await(0)).(lock := None)
    case Await(i) =>
      if i < |s.snapshot| then To(s, d, Await(i + 1))
      else To(s, d, LeadCallback).(running := 0, started := s.started + {d})
    case Ack => To(s, d, Spin).(pending := s.pending - {d})
    case Spin => To(s, d, Callback).(started := s.started + {d})
    case LeadCallback => To(s, d, Decrement)
    case Callback => To(s, d, Decrement)
    case Decrement =>
      To(s, d, if s.processing == 1 then WantClear else Mutator)
        .(processing := s.processing - 1, finished := s.finished + {d})
    case WantClear => To(s, d, Clear).(lock := Some(d))
    case Clear => To(s, d, UnlockClear).(leader := None)
    case UnlockClear => To(s, d, Mutator).(lock := None)
    case WantExit => To(s, d, Exit).(lock := Some(d))
    case Exit =>
      if d in s.pending then To(s, d, Mutator).(lock := None)
      else To(s, d, Absent).(lock := None, parts := if d in s.parts then SwapOut(s.parts, d) else s.parts)
  }

  // ----- the invariant -----

  ghost predicate Holding(pc: Pc) {
    pc.JoiningLocked? || pc.HoldsLock? || pc.Prepare? || pc.Announce? || pc.Clear? || pc.UnlockClear? || pc.Exit?
  }

  /** The leader is still gathering the domains. */
  ghost predicate Gathering(pc: Pc) {
    pc.Prepare? || pc.Announce? || pc.Await?
  }

  /** Between the release of the spin barrier and the end of the section's callback. */
  ghost predicate Inside(pc: Pc) {
    pc.LeadCallback? || pc.Callback? || pc.Decrement?
  }

  ghost predicate Clearing(pc: Pc) {
    pc.WantClear? || pc.Clear?
  }

  /** Running OCaml code or about to: not servicing any section. */
  ghost predicate Outside(pc: Pc) {
    !Gathering(pc) && !Inside(pc) && !Clearing(pc) && !pc.Spin? && !pc.Ack?
  }

  ghost predicate LockOk(s: State) {
    && (forall d :: d in s.pc && Holding(s.pc[d]) ==> s.lock == Some(d))
    && (s.lock.Some? ==> s.lock.value in s.pc && Holding(s.pc[s.lock.value]))
  }

  ghost predicate Member(pc: Pc) {
    !pc.Absent? && !pc.Joining? && !pc.JoiningLocked?
  }

  ghost predicate PartsOk(s: State) {
    && NoDuplicates(s.parts) && NoDuplicates(s.snapshot)
    && (forall d :: d in s.parts <==> d in s.pc && Member(s.pc[d]))
  }

  ghost predicate Idle(s: State) {
    s.pending == {} && forall d :: d in s.pc ==> Outside(s.pc[d])
  }

  /** What domain `d` being at its program point says about the section in progress. */
  ghost predicate DomainOk(s: State, d: int)
    requires d in s.pc && s.leader.Some? && s.leader.value in s.pc
  {
    var pc := s.pc[d];
    && (Gathering(pc) ==> d == s.leader.value)
    && (pc.Ack? ==> d in s.pending)
    && (d in s.pending ==> d in s.snapshot && d != s.leader.value && Member(pc) && (Outside(pc) || pc.Ack?))
    && (pc.Spin? ==> d in s.snapshot && d != s.leader.value && d !in s.pending && d !in s.started)
    && (Inside(pc) ==> d in s.snapshot && s.running == 0 && d in s.started && d !in s.finished)
    && (Clearing(pc) ==> s.processing == 0 && s.running == 0 && !Gathering(s.pc[s.leader.value]))
    && (d in s.snapshot && d !in s.pending && Outside(pc) ==> d in s.finished)
    && (pc.LeadCallback? ==> d == s.leader.value)
  }

  ghost predicate SectionOk(s: State)
    requires s.leader.Some?
  {
    var l := s.leader.value;
    && l in s.pc
    && (forall d :: d in s.pc ==> DomainOk(s, d))
    && (forall d :: d in s.pending ==> d in s.pc)
    && (forall d :: d in s.snapshot ==> d in s.pc)
    && s.finished <= s.started && (forall d :: d in s.started ==> d in s.snapshot)
    && (Gathering(s.pc[l]) ==> s.started == {} && s.finished == {})
    && (s.pc[l].Prepare? ==> s.snapshot == [] && s.pending == {})
    && (!s.pc[l].Prepare? && Gathering(s.pc[l]) ==> s.running == 1)
    && (s.pc[l].Announce? ==> s.pc[l].i <= |s.parts| && s.snapshot == s.parts[..s.pc[l].i] && s.processing == |s.parts|)
    && (s.pc[l].Await? ==>
          && l in s.snapshot && s.processing == |s.snapshot| && s.pc[l].i <= |s.snapshot|
          && forall j :: 0 <= j < s.pc[l].i ==> s.snapshot[j] !in s.pending)
    && (!Gathering(s.pc[l]) ==>
          && s.running == 0 && s.pending == {} && l in s.snapshot
          && s.processing == |s.snapshot| - |s.finished|)
    && (s.pc[l].Await? || !Gathering(s.pc[l]) ==> forall d :: d in s.parts ==> d in s.snapshot)
  }

  ghost predicate ClearerOk(s: State) {
    forall d, e :: d in s.pc && e in s.pc && Clearing(s.pc[d]) && Clearing(s.pc[e]) ==> d == e
  }

  ghost predicate Inv(s: State) {
    LockOk(s) && PartsOk(s) && ClearerOk(s) && (if s.leader.None? then Idle(s) else SectionOk(s))
  }

  // ----- counting -----

  /** A duplicate-free list with some of its elements done: how many are left, and when none is. */
  lemma Remaining(q: seq<int>, done: set<int>)
    requires NoDuplicates(q) && forall d :: d in done ==> d in q
    ensures |done| <= |q|
    ensures |done| == |q| ==> forall d :: d in q ==> d in done
  {
    ElementsSize(q);
    var rest := Elements(q) - done;
    forall d | d in done ensures d in Elements(q) {
    }
    assert Elements(q) == done + rest;
    if |done| == |q| {
      assert rest == {};
    }
  }

  // ----- every step keeps the invariant -----

  /** Moves that no section can notice: the domain stays outside and in or out of the set. */
  lemma MoveOutside(s: State, s': State, d: int)
    requires Inv(s) && d in s.pc && Outside(s.pc[d])
    requires d in s'.pc && Outside(s'.pc[d]) && Member(s'.pc[d]) == Member(s.pc[d])
    requires s' == s.(pc := s.pc[d := s'.pc[d]], lock := s'.lock) && LockOk(s')
    ensures Inv(s')
  {
    hide NoDuplicates, LockOk, Holding, Member;
    if s.leader.Some? {
      forall e | e in s'.pc ensures DomainOk(s', e) {
        assert DomainOk(s, e);
      }
    }
  }

  lemma StepOutside(s: State, d: int, a: Action)
    requires Inv(s) && Enabled(s, d, a) && Outside(s.pc[d])
    requires var s' := Next(s, d, a); d in s'.pc && Outside(s'.pc[d])
    requires !(s.pc[d].JoiningLocked? && s.leader.None?) && !(s.pc[d].Exit? && d !in s.pending)
    ensures Inv(Next(s, d, a))
  {
    hide SectionOk, PartsOk, ClearerOk;
    MoveOutside(s, Next(s, d, a), d);
  }

  lemma StepJoin(s: State, d: int, a: Action)
    requires Inv(s) && Enabled(s, d, a) && s.pc[d].JoiningLocked? && s.leader.None?
    ensures Inv(Next(s, d, a))
  {
    hide SectionOk;
  }

  lemma StepExit(s: State, d: int, a: Action)
    requires Inv(s) && Enabled(s, d, a) && s.pc[d].Exit? && d !in s.pending
    ensures Inv(Next(s, d, a))
  {
    hide NoDuplicates, SwapOut;
    SwapOutIs(s.parts, d);
    var s' := Next(s, d, a);
    if s.leader.Some? {
      assert DomainOk(s, d) && DomainOk(s, s.leader.value);
      forall e | e in s'.pc ensures DomainOk(s', e) {
        assert DomainOk(s, e);
      }
    }
  }

  /** Noticing an interrupt, or taking the lock to clear the leader. */
  lemma StepPoll(s: State, d: int, a: Action)
    requires Inv(s) && Enabled(s, d, a)
    requires (s.pc[d].Mutator? && a.Poll? && d in s.pending) || s.pc[d].WantClear?
    ensures Inv(Next(s, d, a))
  {
    hide NoDuplicates;
    var s' := Next(s, d, a);
    if s.leader.Some? {
      forall e | e in s'.pc ensures DomainOk(s', e) {
        assert DomainOk(s, e);
      }
    }
  }

  /** Claiming the leader word: no domain is in any section. */
  lemma StepClaim(s: State, d: int, a: Action)
    requires Inv(s) && Enabled(s, d, a) && s.pc[d].HoldsLock? && s.leader.None?
    ensures Inv(Next(s, d, a))
  {
    hide SectionOk, NoDuplicates;
    var s' := Next(s, d, a);
    forall e | e in s'.pc ensures DomainOk(s', e) {
    }
    assert NoDuplicates(s'.snapshot) by { EmptyNoDuplicates(); }
    ClaimSection(s, d, a);
  }

  lemma EmptyNoDuplicates()
    ensures NoDuplicates([])
  {
  }

  lemma ClaimSection(s: State, d: int, a: Action)
    requires Inv(s) && Enabled(s, d, a) && s.pc[d].HoldsLock? && s.leader.None?
    ensures SectionOk(Next(s, d, a))
  {
    hide LockOk, PartsOk, ClearerOk;
  }

  lemma StepPrepare(s: State, d: int, a: Action)
    requires Inv(s) && Enabled(s, d, a) && s.pc[d].Prepare?
    ensures Inv(Next(s, d, a))
  {
    hide NoDuplicates;
    var s' := Next(s, d, a);
    assert s.leader.Some?;
    forall e | e in s'.pc ensures DomainOk(s', e) {
      assert DomainOk(s, e);
    }
  }

  lemma StepAnnounce(s: State, d: int, a: Action)
    requires Inv(s) && Enabled(s, d, a) && s.pc[d].Announce?
    ensures Inv(Next(s, d, a))
  {
    var s' := Next(s, d, a);
    assert s.leader.Some? && DomainOk(s, d);
    var i := s.pc[d].i;
    if i < |s.parts| {
      assert s.parts[..i + 1] == s.parts[..i] + [s.parts[i]];
      assert s.parts[i] in s.parts && s.parts[i] !in s.snapshot;
      assert DomainOk(s, s.parts[i]);
    } else {
      assert s.snapshot == s.parts;
    }
    hide NoDuplicates;
    forall e | e in s'.pc ensures DomainOk(s', e) {
      assert DomainOk(s, e);
    }
  }

  lemma StepAwait(s: State, d: int, a: Action)
    requires Inv(s) && Enabled(s, d, a) && s.pc[d].Await?
    ensures Inv(Next(s, d, a))
  {
    hide NoDuplicates;
    var s' := Next(s, d, a);
    assert s.leader.Some? && DomainOk(s, d);
    if s.pc[d].i == |s.snapshot| {
      forall e | e in s.pending ensures e in s.snapshot {
        assert DomainOk(s, e);
      }
      assert s.pending == {};
    }
    forall e | e in s'.pc ensures DomainOk(s', e) {
      assert DomainOk(s, e);
    }
  }

  lemma StepAck(s: State, d: int, a: Action)
    requires Inv(s) && Enabled(s, d, a) && s.pc[d].Ack?
    ensures Inv(Next(s, d, a))
  {
    hide NoDuplicates;
    var s' := Next(s, d, a);
    assert s.leader.Some? && DomainOk(s, d);
    forall e | e in s'.pc ensures DomainOk(s', e) {
      assert DomainOk(s, e);
    }
  }

  lemma StepCallbacks(s: State, d: int, a: Action)
    requires Inv(s) && Enabled(s, d, a) && (s.pc[d].Spin? || s.pc[d].LeadCallback? || s.pc[d].Callback?)
    ensures Inv(Next(s, d, a))
  {
    hide NoDuplicates;
    var s' := Next(s, d, a);
    assert s.leader.Some? && DomainOk(s, d) && DomainOk(s, s.leader.value);
    forall e | e in s'.pc ensures DomainOk(s', e) {
      assert DomainOk(s, e);
    }
  }

  /** A domain about to decrement is counted, so nobody is clearing the leader yet. */
  lemma StillCounted(s: State, d: int)
    requires Inv(s) && d in s.pc && s.pc[d].Decrement?
    ensures s.leader.Some? && s.leader.value in s.pc && !Gathering(s.pc[s.leader.value])
    ensures s.processing >= 1 && |s.finished + {d}| == |s.finished| + 1
    ensures forall e :: e in s.pc ==> !Clearing(s.pc[e])
  {
    hide NoDuplicates;
    assert s.leader.Some? && DomainOk(s, d) && DomainOk(s, s.leader.value);
    Remaining(s.snapshot, s.finished + {d});
    forall e | e in s.pc ensures !Clearing(s.pc[e]) {
      assert DomainOk(s, e);
    }
  }

  lemma StepDecrement(s: State, d: int, a: Action)
    requires Inv(s) && Enabled(s, d, a) && s.pc[d].Decrement?
    ensures Inv(Next(s, d, a))
  {
    hide NoDuplicates;
    StillCounted(s, d);
    var s' := Next(s, d, a);
    assert DomainOk(s, d);
    forall e | e in s'.pc ensures DomainOk(s', e) {
      assert DomainOk(s, e);
    }
  }

  /** The leader word is cleared only when every domain of the snapshot has finished. */
  lemma {:induction false} ClearedWhenFinished(s: State, d: int)
    requires Inv(s) && d in s.pc && Clearing(s.pc[d])
    ensures s.leader.Some? && s.pending == {}
    ensures forall e :: e in s.snapshot <==> e in s.finished
    ensures forall e :: e in s.pc && e != d ==> Outside(s.pc[e])
  {
    assert s.leader.Some? && DomainOk(s, d) && DomainOk(s, s.leader.value);
    Remaining(s.snapshot, s.finished);
    hide NoDuplicates;
    forall e | e in s.pc && e != d ensures Outside(s.pc[e]) {
      assert DomainOk(s, e);
    }
  }

  lemma StepClear(s: State, d: int, a: Action)
    requires Inv(s) && Enabled(s, d, a) && s.pc[d].Clear?
    ensures Inv(Next(s, d, a))
  {
    hide SectionOk, NoDuplicates;
    ClearedWhenFinished(s, d);
  }

  /** Whatever domain moves, the invariant is kept. */
  lemma {:induction false} StepKeepsInv(s: State, d: int, a: Action)
    requires Inv(s) && Enabled(s, d, a)
    ensures Inv(Next(s, d, a))
  {
    hide LockOk, PartsOk, ClearerOk, SectionOk, Idle;
    match s.pc[d]
    case Prepare => StepPrepare(s, d, a);
    case Announce(_) => StepAnnounce(s, d, a);
    case Await(_) => StepAwait(s, d, a);
    case Ack => StepAck(s, d, a);
    case Spin => StepCallbacks(s, d, a);
    case LeadCallback => StepCallbacks(s, d, a);
    case Callback => StepCallbacks(s, d, a);
    case Decrement => StepDecrement(s, d, a);
    case WantClear => StepPoll(s, d, a);
    case Clear => StepClear(s, d, a);
    case JoiningLocked => if s.leader.None? { StepJoin(s, d, a); } else { StepOutside(s, d, a); }
    case HoldsLock => if s.leader.None? { StepClaim(s, d, a); } else { StepOutside(s, d, a); }
    case Exit => if d !in s.pending { StepExit(s, d, a); } else { StepOutside(s, d, a); }
    case Mutator => if a.Poll? && d in s.pending { StepPoll(s, d, a); } else { StepOutside(s, d, a); }
    case _ => StepOutside(s, d, a);
  }

  // ----- runs -----

  ghost predicate Initial(s: State) {
    && (forall d :: d in s.pc ==> s.pc[d].Absent?)
    && s.leader.None? && s.lock.None? && s.parts == [] && s.pending == {} && s.snapshot == []
  }

  ghost predicate Run(states: seq<State>, moves: seq<(int, Action)>) {
    && |states| == |moves| + 1 && Initial(states[0])
    && forall i :: 0 <= i < |moves| ==>
         Enabled(states[i], moves[i].0, moves[i].1) && states[i + 1] == Next(states[i], moves[i].0, moves[i].1)
  }

  lemma {:induction false} RunInv(states: seq<State>, moves: seq<(int, Action)>, i: nat)
    requires Run(states, moves) && i < |states|
    ensures Inv(states[i])
  {
    if i == 0 {
      hide SectionOk;
    } else {
      hide Inv, Next, Enabled;
      RunInv(states, moves, i - 1);
      StepKeepsInv(states[i - 1], moves[i - 1].0, moves[i - 1].1);
    }
  }

  // ----- what the invariant means -----

  /** Sections never overlap: when a domain claims the leader word, no domain is in a section or owes one. */
  lemma {:induction false} NoOverlap(s: State, d: int, a: Action)
    requires Inv(s) && Enabled(s, d, a) && s.pc[d].HoldsLock? && Next(s, d, a).pc[d].Prepare?
    ensures s.leader.None? && s.pending == {}
    ensures forall e :: e in s.pc ==> Outside(s.pc[e])
  {
  }

  /** No callback starts before every domain of the snapshot has acknowledged its interrupt. */
  lemma {:induction false} CallbackAfterAll(s: State, d: int)
    requires Inv(s) && d in s.pc && (s.pc[d].Callback? || s.pc[d].LeadCallback?)
    ensures s.leader.Some? && s.running == 0 && s.pending == {}
    ensures forall e :: e in s.snapshot ==>
      e in s.pc && (e in s.finished || Inside(s.pc[e]) || s.pc[e].Spin? || Clearing(s.pc[e]))
  {
    hide NoDuplicates;
    assert s.leader.Some? && DomainOk(s, d) && DomainOk(s, s.leader.value);
    forall e | e in s.snapshot
      ensures e in s.pc && (e in s.finished || Inside(s.pc[e]) || s.pc[e].Spin? || Clearing(s.pc[e]))
    {
      assert DomainOk(s, e);
    }
  }

  /** A domain enters a section's callback only as a member of the snapshot, and only once. */
  lemma {:induction false} CallbackOnce(s: State, d: int, a: Action)
    requires Inv(s) && Enabled(s, d, a) && !Inside(s.pc[d]) && Inside(Next(s, d, a).pc[d])
    ensures s.leader.Some? && d in s.snapshot && d !in s.started && d in Next(s, d, a).started
  {
    hide Inv;
    BeforeCallback(s, d);
  }

  lemma BeforeCallback(s: State, d: int)
    requires Inv(s) && d in s.pc && (s.pc[d].Await? || s.pc[d].Spin?)
    ensures s.leader.Some? && d !in s.started && d in s.snapshot
  {
    hide NoDuplicates, LockOk, PartsOk, ClearerOk;
    assert s.leader.Some? && DomainOk(s, d);
  }

  /** The assertions of the source: no interrupt is pending when one is sent, for the leader, or for a new domain. */
  lemma {:induction false} NoPendingInterrupt(s: State, d: int)
    requires Inv(s) && d in s.pc
    ensures s.pc[d].Announce? && s.pc[d].i < |s.parts| ==> s.parts[s.pc[d].i] !in s.pending
    ensures s.pc[d].JoiningLocked? && s.leader.None? ==> d !in s.pending
  {
    if s.pc[d].Announce? && s.pc[d].i < |s.parts| {
      var i := s.pc[d].i;
      assert s.leader.Some? && DomainOk(s, d);
      assert s.parts[i] in s.parts;
      assert DomainOk(s, s.parts[i]);
    }
  }

  /** From release to the first finished callback, every domain of the set is held in the section. */
  lemma {:induction false} WorldStopped(s: State, d: int)
    requires Inv(s) && s.leader.Some? && s.leader.value in s.pc && !Gathering(s.pc[s.leader.value])
    requires d in s.parts && d !in s.finished
    ensures d in s.pc && (Inside(s.pc[d]) || s.pc[d].Spin?)
  {
    hide NoDuplicates;
    assert DomainOk(s, d) && DomainOk(s, s.leader.value);
    if Clearing(s.pc[d]) {
      ClearedWhenFinished(s, d);
    }
  }
}
