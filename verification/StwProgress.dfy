/** Stop-the-world sections come to an end: from every state of every run some run of the domains finishes the section
    in progress, and every request made with the lock and the leader word free becomes a section that all domains go
    through. */
module StwProgress {
  import opened Bytes
  import opened Lists
  import opened StwDomains
  import opened Stw

  // ----- somebody is at work on the section -----

  ghost predicate AtWork(s: State, d: int) {
    d in s.pc && (Gathering(s.pc[d]) || Clearing(s.pc[d]) || (d in s.snapshot && d !in s.finished))
  }

  ghost predicate Busy(s: State) {
    s.leader.Some? ==> exists d :: AtWork(s, d)
  }

  /** The last domain to finish goes on to clear the leader word; before it another one has yet to finish. */
  lemma DecrementBusy(s: State, d: int, a: Action)
    requires Inv(s) && Enabled(s, d, a) && s.pc[d].Decrement?
    ensures Busy(Next(s, d, a))
  {
    StillCounted(s, d);
    var t := Next(s, d, a);
    if s.processing == 1 {
      assert AtWork(t, d);
    } else {
      StepDecrement(s, d, a);
      assert DomainOk(s, d) && DomainOk(s, s.leader.value);
      Unfinished(t);
    }
  }

  lemma SomeLeft(q: seq<int>, done: set<int>)
    requires NoDuplicates(q) && forall d :: d in done ==> d in q
    ensures |done| < |q| ==> exists d :: d in q && d !in done
  {
    ElementsSize(q);
    if forall d :: d in q ==> d in done {
      assert forall d :: d in Elements(q) <==> d in done;
      assert Elements(q) == done;
    }
  }

  lemma Unfinished(s: State)
    requires Inv(s) && s.leader.Some? && s.leader.value in s.pc && !Gathering(s.pc[s.leader.value]) && s.processing > 0
    ensures exists d :: AtWork(s, d)
  {
    SomeLeft(s.snapshot, s.finished);
    hide NoDuplicates;
    var d :| d in s.snapshot && d !in s.finished;
    assert AtWork(s, d);
  }

  lemma NoSection(s: State, d: int)
    requires Inv(s) && d in s.pc
    ensures s.leader.None? ==> Outside(s.pc[d])
  {
  }

  lemma GatherFacts(s: State, e: int)
    requires Inv(s) && e in s.pc && Gathering(s.pc[e])
    ensures s.leader == Some(e) && s.finished == {} && (s.pc[e].Await? ==> e in s.snapshot)
  {
    hide NoDuplicates;
    NoSection(s, e);
    if s.leader.Some? {
      assert DomainOk(s, e);
    }
  }

  lemma OthersBusy(s: State, d: int, a: Action)
    requires Inv(s) && Busy(s) && Enabled(s, d, a) && !s.pc[d].Decrement?
    ensures Busy(Next(s, d, a))
  {
    hide Inv, SwapOut;
    var t := Next(s, d, a);
    if t.leader.Some? {
      if s.leader.None? {
        assert AtWork(t, d);
      } else {
        var e :| AtWork(s, e);
        if Gathering(s.pc[e]) {
          GatherFacts(s, e);
        }
        SnapshotStays(s, d, a);
        assert AtWork(t, e);
      }
    }
  }

  lemma SnapshotStays(s: State, d: int, a: Action)
    requires Enabled(s, d, a) && s.leader.Some? && !s.pc[d].Decrement?
    ensures Next(s, d, a).finished == s.finished && forall e :: e in s.snapshot ==> e in Next(s, d, a).snapshot
    ensures forall e :: e in s.pc && e != d ==> e in Next(s, d, a).pc && Next(s, d, a).pc[e] == s.pc[e]
  {
    hide SwapOut;
  }

  lemma {:induction false} RunBusy(states: seq<State>, moves: seq<(int, Action)>, i: nat)
    requires Run(states, moves) && i < |states|
    ensures Inv(states[i]) && Busy(states[i])
  {
    RunInv(states, moves, i);
    if i > 0 {
      hide Inv, Next, Enabled, Busy;
      RunBusy(states, moves, i - 1);
      StepBusy(states[i - 1], moves[i - 1].0, moves[i - 1].1);
    } else {
      hide Inv;
    }
  }

  lemma StepBusy(s: State, d: int, a: Action)
    requires Inv(s) && Busy(s) && Enabled(s, d, a)
    ensures Busy(Next(s, d, a))
  {
    hide Inv, Next, Busy;
    if s.pc[d].Decrement? {
      DecrementBusy(s, d, a);
    } else {
      OthersBusy(s, d, a);
    }
  }

  /** In every state of every run, as long as the leader word is set a domain gathers the others, has yet to finish the
      section, or clears the word. */
  lemma {:induction false} LeaderIsBusy(states: seq<State>, moves: seq<(int, Action)>, i: nat)
    requires Run(states, moves) && i < |states| && states[i].leader.Some?
    ensures exists d :: AtWork(states[i], d)
  {
    hide Inv, Run;
    RunBusy(states, moves, i);
  }

  // ----- runs that go on from a state -----

  type Moves = seq<(int, Action)>

  /** The moves are possible one after the other, from `s` to `t`. */
  ghost predicate Goes(s: State, moves: Moves, t: State)
    decreases |moves|
  {
    if moves == [] then s == t
    else Enabled(s, moves[0].0, moves[0].1) && Goes(Next(s, moves[0].0, moves[0].1), moves[1..], t)
  }

  lemma {:induction false} GoesOn(s: State, m1: Moves, t: State, m2: Moves, u: State)
    requires Goes(s, m1, t) && Goes(t, m2, u)
    ensures Goes(s, m1 + m2, u)
    decreases |m1|
  {
    hide Next, Enabled;
    if m1 == [] {
      assert m1 + m2 == m2;
    } else {
      GoesOn(Next(s, m1[0].0, m1[0].1), m1[1..], t, m2, u);
      assert (m1 + m2)[1..] == m1[1..] + m2;
    }
  }

  lemma {:induction false} GoesInv(s: State, moves: Moves, t: State)
    requires Inv(s) && Busy(s) && Goes(s, moves, t)
    ensures Inv(t) && Busy(t)
    decreases |moves|
  {
    hide Inv, Next, Enabled, Busy;
    if moves != [] {
      StepKeepsInv(s, moves[0].0, moves[0].1);
      StepBusy(s, moves[0].0, moves[0].1);
      GoesInv(Next(s, moves[0].0, moves[0].1), moves[1..], t);
    }
  }

  lemma One(s: State, d: int, a: Action)
    requires Enabled(s, d, a)
    ensures Goes(s, [(d, a)], Next(s, d, a))
  {
    hide Next, Enabled;
    assert [(d, a)][1..] == [];
    assert Goes(Next(s, d, a), [], Next(s, d, a));
  }

  /** One more move at the end. */
  lemma Then(s: State, moves: Moves, t: State, d: int, a: Action) returns (more: Moves)
    requires Goes(s, moves, t) && Enabled(t, d, a)
    ensures more == moves + [(d, a)] && Goes(s, more, Next(t, d, a))
  {
    hide Next, Enabled, Goes;
    One(t, d, a);
    GoesOn(s, moves, t, [(d, a)], Next(t, d, a));
    more := moves + [(d, a)];
  }

  lemma Stays(s: State)
    ensures Goes(s, [], s)
  {
  }

  // ----- a domain answers its interrupt -----

  /** What a move changes. */
  ghost predicate OnlyMoves(s: State, t: State, d: int, pc: Pc) {
    t == s.(pc := s.pc[d := pc], lock := t.lock, pending := t.pending)
  }

  /** From wherever it is, a domain with a pending interrupt comes to the barrier where sections start. */
  lemma Answers(s: State, e: int) returns (moves: Moves, t: State)
    requires e in s.pc && e in s.pending && s.lock.None? && s.leader.Some?
    requires s.pc[e].Mutator? || s.pc[e].SawNoLeader? || s.pc[e].WantExit? || s.pc[e].Ack?
    ensures Goes(s, moves, t) && t == s.(pc := s.pc[e := Spin], pending := s.pending - {e})
  {
    hide Goes;
    Stays(s);
    moves, t := [], s;
    if s.pc[e].SawNoLeader? || s.pc[e].WantExit? {
      moves := Then(s, moves, t, e, Step);
      t := Next(t, e, Step);
      moves := Then(s, moves, t, e, Step);
      t := Next(t, e, Step);
      assert t == s.(pc := s.pc[e := Mutator]);
    }
    if !s.pc[e].Ack? {
      moves := Then(s, moves, t, e, Poll);
      t := Next(t, e, Poll);
      assert t == s.(pc := s.pc[e := Ack]);
    }
    moves := Then(s, moves, t, e, Step);
    t := Next(t, e, Step);
  }

  /** A member of a section that has not answered can. */
  lemma CanAnswer(s: State, e: int)
    requires Inv(s) && s.leader.Some? && s.lock.None? && e in s.pending
    ensures e in s.pc && (s.pc[e].Mutator? || s.pc[e].SawNoLeader? || s.pc[e].WantExit? || s.pc[e].Ack?)
    ensures e != s.leader.value
  {
    hide NoDuplicates;
    assert DomainOk(s, e);
  }

  /** Whether the domain the leader waits for has yet to answer. */
  ghost function Owed(s: State): nat
    requires s.leader.Some? && s.leader.value in s.pc && s.pc[s.leader.value].Await?
  {
    var i := s.pc[s.leader.value].i;
    if i < |s.snapshot| && s.snapshot[i] in s.pending then 1 else 0
  }

  /** The leader waits for all of them, and goes on. */
  lemma {:induction false} Gathers(s: State) returns (moves: Moves, t: State)
    requires Inv(s) && Busy(s) && s.leader.Some? && s.lock.None? && s.leader.value in s.pc
    requires s.pc[s.leader.value].Await?
    ensures Goes(s, moves, t) && Inv(t) && Busy(t)
    ensures t.leader == s.leader && t.leader.value in t.pc && !Gathering(t.pc[t.leader.value]) && t.lock.None?
    ensures t.parts == s.parts && t.snapshot == s.snapshot
    decreases |s.snapshot| - s.pc[s.leader.value].i, Owed(s)
  {
    hide Inv, Busy, Goes;
    var l := s.leader.value;
    var i := s.pc[l].i;
    AwaitBound(s);
    if i < |s.snapshot| && s.snapshot[i] in s.pending {
      var e := s.snapshot[i];
      CanAnswer(s, e);
      var m1, u := Answers(s, e);
      GoesInv(s, m1, u);
      var m2;
      m2, t := Gathers(u);
      GoesOn(s, m1, u, m2, t);
      moves := m1 + m2;
    } else {
      One(s, l, Step);
      var u := Next(s, l, Step);
      GoesInv(s, [(l, Step)], u);
      if i < |s.snapshot| {
        var m2;
        m2, t := Gathers(u);
        GoesOn(s, [(l, Step)], u, m2, t);
        moves := [(l, Step)] + m2;
      } else {
        moves, t := [(l, Step)], u;
      }
    }
  }

  lemma AwaitBound(s: State)
    requires Inv(s) && s.leader.Some? && s.leader.value in s.pc && s.pc[s.leader.value].Await?
    ensures s.pc[s.leader.value].i <= |s.snapshot|
  {
  }

  // ----- callbacks finish, and the leader word is cleared -----

  /** A member that has not finished goes through its callback. */
  lemma Calls(s: State, e: int) returns (moves: Moves, t: State)
    requires e in s.pc && s.running == 0 && (s.pc[e].Spin? || Inside(s.pc[e]))
    ensures Goes(s, moves, t)
    ensures t.finished == s.finished + {e} && t.snapshot == s.snapshot && t.parts == s.parts
    ensures t.leader == s.leader && t.lock == s.lock
    ensures e in t.pc && t.pc == s.pc[e := t.pc[e]] && !Gathering(t.pc[e])
  {
    hide Goes;
    Stays(s);
    moves, t := [], s;
    if t.pc[e].Spin? {
      moves := Then(s, moves, t, e, Step);
      t := Next(t, e, Step);
    }
    if t.pc[e].Callback? || t.pc[e].LeadCallback? {
      moves := Then(s, moves, t, e, Step);
      t := Next(t, e, Step);
    }
    assert t.pc == s.pc[e := Decrement];
    moves := Then(s, moves, t, e, Step);
    t := Next(t, e, Step);
  }

  lemma CanCall(s: State, e: int)
    requires Inv(s) && s.leader.Some? && s.leader.value in s.pc && !Gathering(s.pc[s.leader.value])
    requires e in s.snapshot && e !in s.finished && forall d :: d in s.pc ==> !Clearing(s.pc[d])
    ensures e in s.pc && s.running == 0 && (s.pc[e].Spin? || Inside(s.pc[e])) && e !in s.finished
    ensures |s.finished| < |s.snapshot|
  {
    assert DomainOk(s, e) && DomainOk(s, s.leader.value);
    Remaining(s.snapshot, s.finished + {e});
    hide NoDuplicates;
  }

  lemma Clears(s: State, d: int) returns (moves: Moves, t: State)
    requires d in s.pc && s.pc[d].WantClear? && s.lock.None?
    ensures Goes(s, moves, t) && t == s.(pc := s.pc[d := Mutator], leader := None)
  {
    hide Goes;
    Stays(s);
    moves := Then(s, [], s, d, Step);
    t := Next(s, d, Step);
    moves := Then(s, moves, t, d, Step);
    t := Next(t, d, Step);
    moves := Then(s, moves, t, d, Step);
    t := Next(t, d, Step);
  }

  lemma ClearerWaits(s: State, d: int)
    requires Inv(s) && s.lock.None? && d in s.pc && Clearing(s.pc[d])
    ensures s.pc[d].WantClear? && s.leader.Some?
    ensures s.finished == Elements(s.snapshot)
  {
    ClearedWhenFinished(s, d);
    assert forall e :: e in Elements(s.snapshot) <==> e in s.finished;
  }

  lemma {:induction false} Finishes(s: State) returns (moves: Moves, t: State)
    requires Inv(s) && Busy(s) && s.lock.None?
    requires s.leader.Some? && s.leader.value in s.pc && !Gathering(s.pc[s.leader.value])
    ensures Goes(s, moves, t) && t.leader.None? && t.lock.None?
    ensures t.finished == Elements(s.snapshot) && t.parts == s.parts && t.snapshot == s.snapshot
    decreases |s.snapshot| - |s.finished|
  {
    hide Inv, Busy, Goes;
    if d :| d in s.pc && Clearing(s.pc[d]) {
      ClearerWaits(s, d);
      moves, t := Clears(s, d);
    } else {
      var e := SomeUnfinished(s);
      CanCall(s, e);
      var m1, u := Calls(s, e);
      GoesInv(s, m1, u);
      assert u.finished == s.finished + {e} && |u.finished| == |s.finished| + 1;
      var m2;
      m2, t := Finishes(u);
      GoesOn(s, m1, u, m2, t);
      moves := m1 + m2;
    }
  }

  lemma SomeUnfinished(s: State) returns (e: int)
    requires Inv(s) && Busy(s) && s.leader.Some? && s.leader.value in s.pc && !Gathering(s.pc[s.leader.value])
    requires forall d :: d in s.pc ==> !Clearing(s.pc[d])
    ensures e in s.snapshot && e !in s.finished
  {
    hide NoDuplicates;
    var d :| AtWork(s, d);
    assert DomainOk(s, d);
    e := d;
  }

  // ----- the lock is let go -----

  /** The leader announces the section to the domains left, and lets the lock go. */
  lemma {:induction false} Announces(s: State, l: int) returns (moves: Moves, t: State)
    requires l in s.pc && s.pc[l].Announce? && s.pc[l].i <= |s.parts| && s.snapshot == s.parts[..s.pc[l].i]
    ensures Goes(s, moves, t)
    ensures t.pc == s.pc[l := Await(0)] && t.leader == s.leader && t.lock.None?
    ensures t.parts == s.parts && t.snapshot == s.parts
    decreases |s.parts| - s.pc[l].i
  {
    hide Goes;
    var i := s.pc[l].i;
    One(s, l, Step);
    var u := Next(s, l, Step);
    moves := [(l, Step)];
    if i < |s.parts| {
      assert s.parts[..i + 1] == s.parts[..i] + [s.parts[i]];
      var m2;
      m2, t := Announces(u, l);
      GoesOn(s, moves, u, m2, t);
      moves := moves + m2;
    } else {
      t := u;
    }
  }

  lemma HolderIs(s: State)
    requires Inv(s) && s.lock.Some?
    ensures s.lock.value in s.pc && Holding(s.pc[s.lock.value])
    ensures s.pc[s.lock.value].Prepare? || s.pc[s.lock.value].Announce? || s.pc[s.lock.value].Clear? ==>
      s.leader.Some?
    ensures s.pc[s.lock.value].Prepare? ==> s.leader == s.lock && s.snapshot == []
    ensures s.pc[s.lock.value].Announce? ==>
      s.leader == s.lock && s.pc[s.lock.value].i <= |s.parts| && s.snapshot == s.parts[..s.pc[s.lock.value].i]
  {
    hide NoDuplicates;
    if s.leader.Some? {
      assert DomainOk(s, s.lock.value);
    }
    NoSection(s, s.lock.value);
  }

  /** Whoever holds the lock lets it go, the leader word as it is, unset, or set by the holder. */
  lemma LetsGo(s: State) returns (moves: Moves, t: State)
    requires Inv(s) && Busy(s)
    ensures Goes(s, moves, t) && Inv(t) && Busy(t) && t.lock.None?
  {
    hide Inv, Busy, Goes;
    Stays(s);
    moves, t := [], s;
    if s.lock.Some? {
      HolderIs(s);
      var x := s.lock.value;
      moves, t := Releases(s, x);
      GoesInv(s, moves, t);
    }
  }

  lemma Releases(s: State, x: int) returns (moves: Moves, t: State)
    requires s.lock == Some(x) && x in s.pc && Holding(s.pc[x])
    requires s.pc[x].Prepare? ==> s.snapshot == []
    requires s.pc[x].Announce? ==> s.pc[x].i <= |s.parts| && s.snapshot == s.parts[..s.pc[x].i]
    ensures Goes(s, moves, t) && t.lock.None?
  {
    hide Goes, SwapOut;
    Stays(s);
    moves, t := [], s;
    if s.pc[x].HoldsLock? {
      moves := Then(s, moves, t, x, Step);
      t := Next(t, x, Step);
    }
    if t.lock.Some? && t.pc[x].Prepare? {
      moves := Then(s, moves, t, x, Step);
      t := Next(t, x, Step);
    }
    if t.lock.Some? && t.pc[x].Announce? {
      var m2, u := Announces(t, x);
      GoesOn(s, moves, t, m2, u);
      moves, t := moves + m2, u;
    }
    if t.lock.Some? && t.pc[x].Clear? {
      moves := Then(s, moves, t, x, Step);
      t := Next(t, x, Step);
    }
    if t.lock.Some? {
      moves := Then(s, moves, t, x, Step);
      t := Next(t, x, Step);
    }
  }

  // ----- no state is a dead end -----

  /** From every state of every run there is a way to one without a section and with the lock free. */
  lemma {:induction false} AlwaysCanEnd(states: seq<State>, moves: seq<(int, Action)>, i: nat)
    returns (more: Moves, t: State)
    requires Run(states, moves) && i < |states|
    ensures Goes(states[i], more, t) && t.leader.None? && t.lock.None?
  {
    hide Inv, Busy, Goes, Run;
    RunBusy(states, moves, i);
    var s := states[i];
    var m1, u := LetsGo(s);
    more, t := m1, u;
    if u.leader.Some? {
      LeaderIn(u);
      if Gathering(u.pc[u.leader.value]) {
        var m2, v := Gathers(u);
        GoesOn(s, more, u, m2, v);
        more, t := more + m2, v;
      }
      var m3, w := Finishes(t);
      GoesOn(s, more, t, m3, w);
      more, t := more + m3, w;
    }
  }

  lemma LeaderIn(s: State)
    requires Inv(s) && s.leader.Some? && s.lock.None?
    ensures s.leader.value in s.pc && (Gathering(s.pc[s.leader.value]) ==> s.pc[s.leader.value].Await?)
  {
    hide NoDuplicates;
  }

  /** A request with the leader word and the lock free becomes a section: all domains of the set go through its
      callback, and word and lock are free again. */
  lemma {:induction false} RequestServed(s: State, d: int) returns (moves: Moves, t: State)
    requires Inv(s) && s.leader.None? && s.lock.None? && d in s.pc && s.pc[d].Mutator?
    ensures Goes(s, moves, t) && moves != [] && moves[0] == (d, TryStw)
    ensures t.leader.None? && t.lock.None? && t.parts == s.parts == t.snapshot && t.finished == Elements(s.parts)
  {
    hide Inv, Goes;
    Stays(s);
    assert Busy(s);
    moves := Then(s, [], s, d, TryStw);
    t := Next(s, d, TryStw);
    moves := Then(s, moves, t, d, Step);
    t := Next(t, d, Step);
    moves := Then(s, moves, t, d, Step);
    t := Next(t, d, Step);
    assert t.pc == s.pc[d := Prepare] && t.parts == s.parts;
    moves := Then(s, moves, t, d, Step);
    t := Next(t, d, Step);
    hide Busy;
    var m2, u := Announces(t, d);
    GoesOn(s, moves, t, m2, u);
    moves := moves + m2;
    GoesInv(s, moves, u);
    var m3, v := Gathers(u);
    GoesOn(s, moves, u, m3, v);
    moves := moves + m3;
    var m4;
    m4, t := Finishes(v);
    GoesOn(s, moves, v, m4, t);
    moves := moves + m4;
  }

  /** A new domain joins the set, and a domain without a pending interrupt leaves it. */
  lemma {:induction false} JoinsAndLeaves(s: State, d: int) returns (moves: Moves, t: State)
    requires d in s.pc && s.lock.None? && (s.pc[d].Absent? ==> s.leader.None?) && (s.pc[d].Mutator? ==> d !in s.pending)
    requires s.pc[d].Absent? || s.pc[d].Mutator?
    ensures Goes(s, moves, t) && t.lock.None? && t.leader == s.leader
    ensures s.pc[d].Absent? ==> t == s.(pc := s.pc[d := Mutator], parts := s.parts + [d])
    ensures s.pc[d].Mutator? && d in s.parts ==> t == s.(pc := s.pc[d := Absent], parts := SwapOut(s.parts, d))
  {
    hide Goes, SwapOut;
    Stays(s);
    moves := Then(s, [], s, d, if s.pc[d].Absent? then Step else Leave);
    t := Next(s, d, if s.pc[d].Absent? then Step else Leave);
    moves := Then(s, moves, t, d, Step);
    t := Next(t, d, Step);
    moves := Then(s, moves, t, d, Step);
    t := Next(t, d, Step);
  }
}
