/**
 The sense-reversing barrier of a stop-the-world section: one atomic word, any number of domains
 below the sense bit, any number of rounds, any interleaving.
 */
module Barrier {
  import opened Lists

  const SENSE_BIT := 0x100000

  /** word & BARRIER_SENSE_BIT, as 0 or 1 */
  function Sense(word: nat): nat {
    word / SENSE_BIT % 2
  }

  /** word & ~BARRIER_SENSE_BIT */
  function Count(word: nat): int {
    word - SENSE_BIT * Sense(word)
  }

  /** Before its next barrier, or inside one with the status returned by caml_global_barrier_begin. */
  datatype Domain = Ready(round: nat) | Entered(round: nat, status: nat)

  /** `round` and `order` are history: the round in progress and the domains that arrived in it, in order. */
  datatype State = State(word: nat, doms: map<int, Domain>, round: nat, order: seq<int>)

  ghost predicate Final(s: State, status: nat) {
    Count(status) == |s.doms|
  }

  ghost predicate Enabled(s: State, d: int) {
    && d in s.doms
    && (s.doms[d].Entered? && !Final(s, s.doms[d].status) ==> Sense(s.word) != Sense(s.doms[d].status))
  }

  /** Begin is a fetch-and-add; the final domain stores the flipped sense; the others leave when they see it. */
  ghost function Next(s: State, d: int): State
    requires Enabled(s, d)
  {
    match s.doms[d]
    case Ready(r) => State(s.word + 1, s.doms[d := Entered(r, s.word + 1)], s.round, s.order + [d])
    case Entered(r, b) =>
      var left := s.doms[d := Ready(r + 1)];
      if Final(s, b) then State(SENSE_BIT * (1 - Sense(b)), left, s.round + 1, [])
      else s.(doms := left)
  }

  ghost predicate Initial(s: State) {
    && 1 <= |s.doms| < SENSE_BIT && s.word == 0 && s.round == 0 && s.order == []
    && forall d :: d in s.doms ==> s.doms[d] == Ready(0)
  }

  // ----- the invariant -----

  ghost function Status(round: nat, i: nat): nat {
    i + 1 + SENSE_BIT * (round % 2)
  }

  ghost predicate Arrivals(s: State) {
    && NoDuplicates(s.order)
    && forall i :: 0 <= i < |s.order| ==>
         s.order[i] in s.doms && s.doms[s.order[i]] == Entered(s.round, Status(s.round, i))
  }

  ghost predicate Position(s: State, d: int)
    requires d in s.doms
  {
    match s.doms[d]
    case Ready(r) => r == s.round && d !in s.order
    case Entered(r, b) =>
      || (r == s.round && d in s.order)
      || (r + 1 == s.round && d !in s.order && Sense(b) == r % 2 && !Final(s, b))
  }

  ghost predicate Inv(s: State) {
    && 1 <= |s.doms| < SENSE_BIT
    && s.word == |s.order| + SENSE_BIT * (s.round % 2)
    && Arrivals(s)
    && forall d :: d in s.doms ==> Position(s, d)
  }

  lemma WordParts(n: nat, bit: nat)
    requires n < SENSE_BIT && bit < 2
    ensures Sense(n + SENSE_BIT * bit) == bit && Count(n + SENSE_BIT * bit) == n
  {
  }

  lemma Bounded(s: State)
    requires Inv(s)
    ensures |s.order| <= |s.doms| && Sense(s.word) == s.round % 2 && Count(s.word) == |s.order|
    ensures |s.order| == |s.doms| ==> forall d :: d in s.doms ==> d in s.order
    ensures forall i :: 0 <= i < |s.order| ==>
      Sense(Status(s.round, i)) == s.round % 2 && Count(Status(s.round, i)) == i + 1
  {
    FitsIn(s.order, s.doms.Keys);
    WordParts(|s.order|, s.round % 2);
    forall i | 0 <= i < |s.order|
      ensures Sense(Status(s.round, i)) == s.round % 2 && Count(Status(s.round, i)) == i + 1
    {
      WordParts(i + 1, s.round % 2);
    }
  }

  lemma StepBegin(s: State, d: int)
    requires Inv(s) && Enabled(s, d) && s.doms[d].Ready?
    ensures Inv(Next(s, d))
  {
    hide Sense, Count;
    var s' := Next(s, d);
    assert Position(s, d);
    assert s'.doms.Keys == s.doms.Keys;
    assert s'.order[|s.order|] == d;
    forall e | e in s'.doms ensures Position(s', e) {
      assert Position(s, e);
    }
  }

  /** The final domain resets the word exactly when all have arrived, so no arrival is lost. */
  lemma {:induction false} FinalSeesAll(s: State, d: int)
    requires Inv(s) && d in s.doms && s.doms[d].Entered? && Final(s, s.doms[d].status)
    ensures s.doms[d].round == s.round && s.word == s.doms[d].status
    ensures s.order != [] && s.order[|s.order| - 1] == d && |s.order| == |s.doms|
    ensures forall e :: e in s.doms ==> e in s.order && s.doms[e].Entered? && s.doms[e].round == s.round
  {
    Bounded(s);
    hide Sense, Count;
    assert Position(s, d);
    var i :| 0 <= i < |s.order| && s.order[i] == d;
    assert i + 1 == |s.doms|;
    forall e | e in s.doms ensures e in s.order && s.doms[e].Entered? && s.doms[e].round == s.round {
      assert Position(s, e);
    }
  }

  lemma StepFinal(s: State, d: int)
    requires Inv(s) && Enabled(s, d) && s.doms[d].Entered? && Final(s, s.doms[d].status)
    ensures Inv(Next(s, d))
  {
    FinalSeesAll(s, d);
    Bounded(s);
    var s' := Next(s, d);
    hide Sense, Count;
    assert s'.doms.Keys == s.doms.Keys;
    assert Sense(s.doms[d].status) == s.round % 2;
    forall e | e in s'.doms ensures Position(s', e) {
      if e != d {
        var i :| 0 <= i < |s.order| && s.order[i] == e;
        assert i + 1 < |s.doms|;
      }
    }
  }

  lemma StepLeave(s: State, d: int)
    requires Inv(s) && Enabled(s, d) && s.doms[d].Entered? && !Final(s, s.doms[d].status)
    ensures Inv(Next(s, d))
  {
    Bounded(s);
    hide Sense, Count;
    var s' := Next(s, d);
    assert Position(s, d);
    assert s'.doms.Keys == s.doms.Keys;
    assert d !in s.order;
    forall e | e in s'.doms ensures Position(s', e) {
      assert Position(s, e);
    }
  }

  lemma {:induction false} StepKeepsInv(s: State, d: int)
    requires Inv(s) && Enabled(s, d)
    ensures Inv(Next(s, d))
  {
    hide Inv, Sense, Count;
    if s.doms[d].Ready? {
      StepBegin(s, d);
    } else if Final(s, s.doms[d].status) {
      StepFinal(s, d);
    } else {
      StepLeave(s, d);
    }
  }

  // ----- runs -----

  ghost predicate Run(states: seq<State>, moves: seq<int>) {
    && |states| == |moves| + 1 && Initial(states[0])
    && forall i :: 0 <= i < |moves| ==> Enabled(states[i], moves[i]) && states[i + 1] == Next(states[i], moves[i])
  }

  lemma {:induction false} RunInv(states: seq<State>, moves: seq<int>, i: nat)
    requires Run(states, moves) && i < |states|
    ensures Inv(states[i])
  {
    if i > 0 {
      hide Inv, Next;
      RunInv(states, moves, i - 1);
      StepKeepsInv(states[i - 1], moves[i - 1]);
    }
  }

  /** Rounds entered so far by a domain. */
  ghost function Begun(dom: Domain): nat {
    match dom
    case Ready(r) => r
    case Entered(r, _) => r + 1
  }

  /** Rounds a domain has left. */
  ghost function Left(dom: Domain): nat {
    dom.round
  }

  /** A barrier: no domain has left round r unless every domain has entered it; nobody is two rounds ahead. */
  lemma {:induction false} NobodyLeavesEarly(states: seq<State>, moves: seq<int>, i: nat, d: int, e: int)
    requires Run(states, moves) && i < |states| && d in states[i].doms && e in states[i].doms
    ensures Left(states[i].doms[d]) <= Begun(states[i].doms[e])
    ensures Begun(states[i].doms[d]) <= Begun(states[i].doms[e]) + 1
  {
    RunInv(states, moves, i);
    assert Position(states[i], d) && Position(states[i], e);
  }

  /** At most one domain inside a round is final, and the last arrival is, once all have arrived. */
  lemma {:induction false} OneFinal(states: seq<State>, moves: seq<int>, i: nat, d: int, e: int)
    requires Run(states, moves) && i < |states| && d in states[i].doms && e in states[i].doms
    requires states[i].doms[d].Entered? && states[i].doms[e].Entered?
    requires Final(states[i], states[i].doms[d].status)
    ensures Final(states[i], states[i].doms[e].status) ==> d == e
  {
    RunInv(states, moves, i);
    hide Inv, Sense, Count;
    FinalSeesAll(states[i], d);
    if Final(states[i], states[i].doms[e].status) {
      FinalSeesAll(states[i], e);
    }
  }

  /** When every domain has arrived, one of them is final: the round always ends. */
  lemma {:induction false} SomeFinal(s: State)
    requires Inv(s) && forall d :: d in s.doms ==> s.doms[d].Entered? && s.doms[d].round == s.round
    ensures exists d :: d in s.doms && s.doms[d].Entered? && Final(s, s.doms[d].status)
  {
    Bounded(s);
    hide Sense, Count;
    forall d | d in s.doms ensures d in s.order {
      assert Position(s, d);
    }
    AllArrived(s.order, s.doms.Keys);
    var last := s.order[|s.order| - 1];
    assert s.doms[last] == Entered(s.round, Status(s.round, |s.order| - 1));
  }

  lemma AllArrived(order: seq<int>, all: set<int>)
    requires forall d :: d in all ==> d in order
    ensures |all| <= |order|
  {
    ElementsSize(order);
    forall d | d in all ensures d in Elements(order) {
    }
    assert Elements(order) == all + (Elements(order) - all);
  }

  // ----- rounds end -----

  /** A domain that waits in a round that is over can leave it. */
  lemma {:induction false} WaiterReleased(s: State, d: int)
    requires Inv(s) && d in s.doms && s.doms[d].Entered? && s.doms[d].round != s.round
    ensures Enabled(s, d) && Next(s, d).doms[d] == Ready(s.round)
  {
    Bounded(s);
    hide Sense, Count;
    assert Position(s, d);
  }

  ghost predicate Goes(s: State, moves: seq<int>, t: State)
    decreases |moves|
  {
    if moves == [] then s == t else Enabled(s, moves[0]) && Goes(Next(s, moves[0]), moves[1..], t)
  }

  /** Domains still in the last round. */
  ghost function Late(s: State): set<int> {
    set d | d in s.doms && s.doms[d].Entered? && s.doms[d].round != s.round
  }

  lemma GoesFirst(s: State, d: int, moves: seq<int>, t: State)
    requires Enabled(s, d) && Goes(Next(s, d), moves, t)
    ensures Goes(s, [d] + moves, t)
  {
    hide Enabled, Next;
    assert ([d] + moves)[1..] == moves;
  }

  /** From every state some run of the domains ends the round: those still in the last one leave it, all enter, and the
      final one resets the word. */
  lemma {:induction false} RoundEnds(s: State) returns (moves: seq<int>, t: State)
    requires Inv(s)
    ensures Goes(s, moves, t) && Inv(t) && t.round == s.round + 1 && t.doms.Keys == s.doms.Keys
    decreases |s.doms| - |s.order|, |Late(s)|
  {
    hide Inv, Enabled, Next, Goes, Sense, Count;
    var d := NextToMove(s);
    var u := Next(s, d);
    StepKeepsInv(s, d);
    MoveCounts(s, d);
    if u.round == s.round {
      Bounded(s);
      Bounded(u);
      moves, t := RoundEnds(u);
      GoesFirst(s, d, moves, t);
      moves := [d] + moves;
    } else {
      OneMove(s, d);
      moves, t := [d], u;
    }
  }

  lemma OneMove(s: State, d: int)
    requires Enabled(s, d)
    ensures Goes(s, [d], Next(s, d))
  {
    hide Enabled, Next;
    assert [d][1..] == [];
    assert Goes(Next(s, d), [], Next(s, d));
  }

  /** Somebody late, else somebody who has not entered, else the final domain. */
  lemma NextToMove(s: State) returns (d: int)
    requires Inv(s)
    ensures Enabled(s, d)
    ensures d in Late(s) || (Late(s) == {} && (s.doms[d].Ready? || Final(s, s.doms[d].status)))
  {
    if x :| x in Late(s) {
      d := x;
      WaiterReleased(s, d);
      return;
    }
    assert forall x :: x !in Late(s);
    if y :| y in s.doms && s.doms[y].Ready? {
      d := y;
    } else {
      forall x | x in s.doms
        ensures s.doms[x].round == s.round
      {
        assert x !in Late(s);
      }
      SomeFinal(s);
      d :| d in s.doms && s.doms[d].Entered? && Final(s, s.doms[d].status);
    }
  }

  lemma MoveCounts(s: State, d: int)
    requires Inv(s) && Enabled(s, d) && Inv(Next(s, d))
    requires d in Late(s) || (Late(s) == {} && (s.doms[d].Ready? || Final(s, s.doms[d].status)))
    ensures var u := Next(s, d); u.doms.Keys == s.doms.Keys && |u.doms| == |s.doms|
    ensures var u := Next(s, d);
      || u.round == s.round + 1
      || (u.round == s.round && |u.order| == |s.order| + 1)
      || (u.round == s.round && |u.order| == |s.order| && |Late(u)| < |Late(s)|)
  {
    var u := Next(s, d);
    assert u.doms.Keys == s.doms.Keys && |u.doms| == |u.doms.Keys| && |s.doms| == |s.doms.Keys|;
    if d in Late(s) {
      LateIsNotFinal(s, d);
      hide Sense, Count, Final;
      WaiterReleased(s, d);
      assert Late(u) == Late(s) - {d};
    }
  }

  lemma LateIsNotFinal(s: State, d: int)
    requires Inv(s) && d in Late(s)
    ensures !Final(s, s.doms[d].status)
  {
    hide Sense, Count;
    assert Position(s, d);
  }
}
