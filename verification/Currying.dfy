/** Currying: a function applied to its arguments in any grouping reaches its body in the same way. */
module Currying {
  import opened Bytecode

  /** Code of a function of `n` arguments at `entry`: RESTART; entry: GRAB n-1; body. */
  predicate FunctionAt(code: seq<int>, entry: int, n: int) {
    && n >= 1 && 1 <= entry && entry + 2 <= |code|
    && code[entry - 1] == RESTART && code[entry] == GRAB && code[entry + 1] == n - 1
  }

  /** `f` applied to the arguments `held`, not enough to run it: `f` itself when there are none. */
  function Partial(f: Word, held: seq<Word>): Word
    requires f.Closure?
  {
    if held == [] then f else Closure(f.entry - 1, [f] + held)
  }

  /** The body of `f` about to run: its arguments in order, those beyond its arity below them. */
  predicate AtBody(f: Word, args: seq<Word>, n: int, below: seq<Word>, trap: int, r: Regs)
    requires f.Closure?
  {
    && r.pc == f.entry + 2 && r.env == f && r.extra == |args| - n && r.trap == trap
    && r.words == args + below
  }

  function Restarts(held: seq<Word>): nat {
    if held == [] then 0 else 1
  }

  /** Enough arguments: the held ones and the new ones reach the body together. */
  lemma {:induction false} EnoughReachesBody(code: seq<int>, f: Word, n: int, held: seq<Word>, args: seq<Word>,
                                             below: seq<Word>, trap: int)
    requires f.Closure? && FunctionAt(code, f.entry, n)
    requires |args| >= 1 && |held| + |args| >= n
    ensures var out := Steps(code, Call(Partial(f, held), args, below, trap), Restarts(held) + 1);
      out.Next? && AtBody(f, held + args, n, below, trap, out.r)
  {
    var all := Call(f, held + args, below, trap);
    AfterRestart(code, f, n, held, args, below, trap);
    var r := Steps(code, Call(Partial(f, held), args, below, trap), Restarts(held)).r;
    assert Step(code, r) == Grabbed(r, n - 1);
    StepsAdd(code, Call(Partial(f, held), args, below, trap), Restarts(held), 1);
  }

  lemma {:induction false} StepsAdd(code: seq<int>, r: Regs, m: nat, n: nat)
    ensures Steps(code, r, m + n) ==
      match Steps(code, r, m)
      case Next(q) => Steps(code, q, n)
      case Leaves => Leaves
    decreases m
  {
    if m > 0 && Step(code, r).Next? {
      StepsAdd(code, Step(code, r).r, m - 1, n);
    }
  }

  /** RESTART makes a call of a partial application a call of the function, but for the dead accumulator. */
  lemma {:induction false} AfterRestart(code: seq<int>, f: Word, n: int, held: seq<Word>, args: seq<Word>,
                                        below: seq<Word>, trap: int)
    requires f.Closure? && FunctionAt(code, f.entry, n) && |args| >= 1
    ensures Steps(code, Call(Partial(f, held), args, below, trap), Restarts(held)) ==
      Next(Call(f, held + args, below, trap).(accu := Partial(f, held)))
  {
    var r := Call(Partial(f, held), args, below, trap);
    if held == [] {
      assert held + args == args;
    } else {
      assert Partial(f, held).vars[1..] == held;
      assert Step(code, r) == Restarted(r);
      assert held + (args + below) == (held + args) + below;
    }
  }

  lemma GrabFew(code: seq<int>, r: Regs, f: Word, n: int, args: seq<Word>, caller: Regs, ret: int)
    requires f.Closure? && FunctionAt(code, f.entry, n) && 1 <= |args| < n
    requires r == Applying(caller, f, args, ret).(accu := r.accu)
    ensures Step(code, r) == Next(caller.(pc := ret, accu := Partial(f, args)))
  {
    var below := Frame(ret, caller.env, caller.extra) + caller.words;
    assert r.words[..r.extra + 1] == args;
    assert r.words[r.extra + 1..] == below;
    assert below[3..] == caller.words;
  }

  /** Too few: the caller gets back a closure that holds them all, and everything else as it was. */
  lemma {:induction false} FewReturnPartial(code: seq<int>, f: Word, n: int, held: seq<Word>, args: seq<Word>,
                                            caller: Regs, ret: int)
    requires f.Closure? && FunctionAt(code, f.entry, n)
    requires |args| >= 1 && |held| + |args| < n
    ensures Steps(code, Applying(caller, Partial(f, held), args, ret), Restarts(held) + 1) ==
      Next(caller.(pc := ret, accu := Partial(f, held + args)))
  {
    hide Step;
    var below := Frame(ret, caller.env, caller.extra) + caller.words;
    AfterRestart(code, f, n, held, args, below, caller.trap);
    var r := Applying(caller, f, held + args, ret).(accu := Partial(f, held));
    GrabFew(code, r, f, n, held + args, caller, ret);
    StepsAdd(code, Applying(caller, Partial(f, held), args, ret), Restarts(held), 1);
  }

  /** A caller applies `f` to `args`, to come back at `ret`. */
  function Applying(caller: Regs, f: Word, args: seq<Word>, ret: int): Regs
    requires f.Closure?
  {
    Call(f, args, Frame(ret, caller.env, caller.extra) + caller.words, caller.trap)
  }

  // ----- any grouping -----

  /** Some of the arguments, and where the caller goes on after applying them. */
  datatype Group = Group(args: seq<Word>, ret: int)

  function Flat(groups: seq<Group>): seq<Word> {
    if groups == [] then [] else groups[0].args + Flat(groups[1..])
  }

  /** Runs a call through RESTART, if that is where it starts, and GRAB. */
  function Entry(code: seq<int>, r: Regs): Outcome {
    Steps(code, r, if 0 <= r.pc < |code| && code[r.pc] == RESTART then 2 else 1)
  }

  /** The caller applies `g` to the first group, what that returns to the next one, and so on. */
  function InTurn(code: seq<int>, caller: Regs, g: Word, groups: seq<Group>): Outcome
    decreases groups
  {
    if groups == [] || !g.Closure? then Leaves
    else
      var out := Entry(code, Applying(caller, g, groups[0].args, groups[0].ret));
      if |groups| == 1 || out.Leaves? then out else InTurn(code, out.r, out.r.accu, groups[1..])
  }

  ghost predicate Filled(groups: seq<Group>) {
    |groups| >= 1 && forall i :: 0 <= i < |groups| ==> |groups[i].args| >= 1
  }

  /** However the arguments are grouped, the body is reached with all of them in order. */
  lemma {:induction false} GroupsReachBody(code: seq<int>, caller: Regs, f: Word, n: int, held: seq<Word>,
                                           groups: seq<Group>)
    requires f.Closure? && FunctionAt(code, f.entry, n) && Filled(groups)
    requires |held| + |Flat(groups[..|groups| - 1])| < n <= |held| + |Flat(groups)|
    ensures var out := InTurn(code, caller, Partial(f, held), groups);
      var last := groups[|groups| - 1];
      out.Next? &&
      AtBody(f, held + Flat(groups), n, Frame(last.ret, caller.env, caller.extra) + caller.words, caller.trap, out.r)
    decreases groups
  {
    hide Step, AtBody, Steps;
    var g, rest := groups[0], groups[1..];
    EntryOfPartial(code, f, n, held, Applying(caller, Partial(f, held), g.args, g.ret));
    if |groups| == 1 {
      assert Flat(groups) == g.args;
      EnoughReachesBody(code, f, n, held, g.args, Frame(g.ret, caller.env, caller.extra) + caller.words, caller.trap);
    } else {
      assert groups[..|groups| - 1][1..] == rest[..|rest| - 1];
      FewReturnPartial(code, f, n, held, g.args, caller, g.ret);
      var next := caller.(pc := g.ret, accu := Partial(f, held + g.args));
      GroupsReachBody(code, next, f, n, held + g.args, rest);
      assert held + g.args + Flat(rest) == held + Flat(groups);
    }
  }

  lemma EntryOfPartial(code: seq<int>, f: Word, n: int, held: seq<Word>, r: Regs)
    requires f.Closure? && FunctionAt(code, f.entry, n) && r.pc == Partial(f, held).entry
    ensures Entry(code, r) == Steps(code, r, Restarts(held) + 1)
  {
  }

  /** Grouped application agrees with one full application in everything but the dead accumulator. */
  lemma {:induction false} AnyGrouping(code: seq<int>, caller: Regs, f: Word, n: int, groups: seq<Group>)
    requires f.Closure? && FunctionAt(code, f.entry, n) && Filled(groups)
    requires |Flat(groups[..|groups| - 1])| < n <= |Flat(groups)|
    ensures var out := InTurn(code, caller, f, groups);
      var whole := InTurn(code, caller, f, [Group(Flat(groups), groups[|groups| - 1].ret)]);
      out.Next? && whole.Next? && out.r == whole.r.(accu := out.r.accu)
  {
    hide InTurn;
    var one := [Group(Flat(groups), groups[|groups| - 1].ret)];
    assert Flat(one) == Flat(groups);
    assert one[..0] == [];
    assert [] + Flat(groups) == Flat(groups);
    GroupsReachBody(code, caller, f, n, [], groups);
    GroupsReachBody(code, caller, f, n, [], one);
  }

  /** Too few arguments in all: the caller holds one closure with every one of them. */
  lemma {:induction false} FewGroupsHeld(code: seq<int>, caller: Regs, f: Word, n: int, held: seq<Word>,
                                         groups: seq<Group>)
    requires f.Closure? && FunctionAt(code, f.entry, n) && Filled(groups) && |held| + |Flat(groups)| < n
    ensures InTurn(code, caller, Partial(f, held), groups) ==
      Next(caller.(pc := groups[|groups| - 1].ret, accu := Partial(f, held + Flat(groups))))
    decreases groups
  {
    hide Step, Steps;
    var g, rest := groups[0], groups[1..];
    EntryOfPartial(code, f, n, held, Applying(caller, Partial(f, held), g.args, g.ret));
    FewReturnPartial(code, f, n, held, g.args, caller, g.ret);
    if |groups| == 1 {
      assert Flat(groups) == g.args;
    } else {
      FewGroupsHeld(code, caller.(pc := g.ret, accu := Partial(f, held + g.args)), f, n, held + g.args, rest);
      assert held + g.args + Flat(rest) == held + Flat(groups);
    }
  }

  // ----- over-application -----

  /** A body at its RETURN: `locals` on the stack, `extra` arguments beyond its arity under them. */
  function Returning(pc: int, result: Word, env: Word, locals: seq<Word>, extra: seq<Word>, below: seq<Word>,
                     trap: int): Regs {
    Regs(pc, result, env, |extra|, trap, locals + (extra + below))
  }

  /** RETURN hands arguments beyond the arity to the function returned, as an application of it would. */
  lemma {:induction false} ReturnApplies(code: seq<int>, pc: int, g: Word, env: Word, locals: seq<Word>,
                                         extra: seq<Word>, below: seq<Word>, trap: int)
    requires 0 <= pc && pc + 1 < |code| && code[pc] == RETURN && code[pc + 1] == |locals|
    requires g.Closure? && |extra| > 0
    ensures Step(code, Returning(pc, g, env, locals, extra, below, trap)) == Next(Call(g, extra, below, trap))
  {
    assert (locals + (extra + below))[|locals|..] == extra + below;
  }

  lemma ReturnReturns(code: seq<int>, pc: int, result: Word, env: Word, locals: seq<Word>, caller: Regs, ret: int)
    requires 0 <= pc && pc + 1 < |code| && code[pc] == RETURN && code[pc + 1] == |locals|
    ensures Step(code,
        Returning(pc, result, env, locals, [], Frame(ret, caller.env, caller.extra) + caller.words, caller.trap)) ==
      Next(caller.(pc := ret, accu := result))
  {
    var below := Frame(ret, caller.env, caller.extra) + caller.words;
    assert (locals + ([] + below))[|locals|..] == below;
    assert below[3..] == caller.words;
  }

  /** Applying to all arguments at once, or to those of the arity and then the result to the others, comes to the same
      call. */
  lemma {:induction false} OverApplication(code: seq<int>, pc: int, g: Word, env: Word, locals: seq<Word>,
                                           others: seq<Word>, caller: Regs, ret1: int, ret2: int)
    requires 0 <= pc && pc + 1 < |code| && code[pc] == RETURN && code[pc + 1] == |locals|
    requires g.Closure? && |others| > 0
    ensures var whole := Step(code,
        Returning(pc, g, env, locals, others, Frame(ret2, caller.env, caller.extra) + caller.words, caller.trap));
      var first := Step(code,
          Returning(pc, g, env, locals, [], Frame(ret1, caller.env, caller.extra) + caller.words, caller.trap));
      first.Next? && whole == Next(Applying(first.r, first.r.accu, others, ret2))
  {
    ReturnApplies(code, pc, g, env, locals, others, Frame(ret2, caller.env, caller.extra) + caller.words, caller.trap);
    ReturnReturns(code, pc, g, env, locals, caller, ret1);
  }

  // ----- the instructions that apply -----

  lemma {:induction false} ApplyInstruction(code: seq<int>, r: Regs, k: nat)
    requires 0 <= r.pc < |code| && 1 <= k <= 3 && code[r.pc] == APPLY + k && |r.words| >= k && r.accu.Closure?
    ensures Step(code, r) == Next(Applying(r.(words := r.words[k..]), r.accu, r.words[..k], r.pc + 1))
  {
    assert r.words[..k] + Frame(r.pc + 1, r.env, r.extra) + r.words[k..] ==
      r.words[..k] + (Frame(r.pc + 1, r.env, r.extra) + r.words[k..]);
  }

  /** PUSH_RETADDR, pushing the arguments, then APPLY n. */
  lemma {:induction false} ApplyAfterRetaddr(code: seq<int>, r: Regs, args: seq<Word>, f: Word, pc: int)
    requires 0 <= r.pc && r.pc + 1 < |code| && code[r.pc] == PUSH_RETADDR
    requires 0 <= pc && pc + 1 < |code| && code[pc] == APPLY && code[pc + 1] == |args| && f.Closure?
    ensures var pushed := Step(code, r);
      pushed.Next? &&
      Step(code, pushed.r.(pc := pc, accu := f, words := args + pushed.r.words)) ==
      Next(Applying(r, f, args, r.pc + 1 + code[r.pc + 1]))
  {
  }

  /** A tail call takes over the arguments its caller was given beyond its arity. */
  lemma {:induction false} TailCallApplies(code: seq<int>, r: Regs, k: nat, args: seq<Word>, locals: seq<Word>,
                                           extra: seq<Word>, below: seq<Word>)
    requires 0 <= r.pc && r.pc + 2 < |code| && r.accu.Closure? && 1 <= |args| == k
    requires || (code[r.pc] == APPTERM && code[r.pc + 1] == k && code[r.pc + 2] == k + |locals|)
             || (k <= 3 && code[r.pc] == APPTERM + k && code[r.pc + 1] == k + |locals|)
    requires r.extra == |extra| && r.words == args + locals + (extra + below)
    ensures Step(code, r) == Next(Call(r.accu, args + extra, below, r.trap))
  {
    assert r.words[..k] == args;
    assert r.words[k + |locals|..] == extra + below;
    assert args + (extra + below) == args + extra + below;
    assert Step(code, r) == TailApplied(r, k, k + |locals|);
  }
}
