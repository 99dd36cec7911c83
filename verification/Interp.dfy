/** The interpreter loop on a real stack area: words pushed downwards in an array that is moved when it is too small. */
module Interp {
  import opened Bytecode

  const STACK_THRESHOLD := 16

  /** The room an instruction may take: the threshold, and for RESTART the arguments held. */
  function RoomFor(env: Word): nat {
    if env.Closure? then |env.vars| + STACK_THRESHOLD else STACK_THRESHOLD
  }

  class Machine {
    const code: seq<int>
    var pc: int
    var accu: Word
    var env: Word
    var extra: int
    var trap: int
    var area: array<Word>
    var sp: nat

    ghost predicate Valid()
      reads this
    {
      sp <= area.Length
    }

    /** The registers and the words in use: what a program can observe. */
    ghost function Observed(): Regs
      requires Valid()
      reads this, area
    {
      Regs(pc, accu, env, extra, trap, area[sp..])
    }

    constructor (code: seq<int>, size: nat)
      ensures Valid() && fresh(area) && this.code == code && area.Length == size
      ensures Observed() == Regs(0, Long(0), Long(0), 0, 1, [])
    {
      this.code := code;
      pc, accu, env, extra, trap := 0, Long(0), Long(0), 0, 1;
      area := new Word[size];
      sp := size;
    }

    // ----- growing -----

    /** Moves the words in use to the high end of an area at least twice as large: nothing observable changes. */
    method TryRealloc(required: nat, max: nat) returns (ok: bool)
      requires Valid() && area.Length > 0
      modifies this`area, this`sp
      ensures Valid() && Observed() == old(Observed())
      ensures ok ==> fresh(area) && sp >= required
      ensures !ok ==> area == old(area) && sp == old(sp)
      ensures !ok ==> area.Length >= max || required + (area.Length - sp) > max
    {
      var used := area.Length - sp;
      var size := area.Length;
      if size >= max {
        return false;
      }
      size := 2 * size;
      while size < used + required
        invariant size >= 2 * area.Length
        decreases used + required - size
      {
        if size >= max {
          return false;
        }
        size := 2 * size;
      }
      var bigger := new Word[size];
      for i := 0 to used
        invariant bigger[size - used..size - used + i] == area[sp..sp + i]
        invariant area == old(area) && sp == old(sp) && unchanged(area)
        modifies bigger
      {
        bigger[size - used + i] := area[sp + i];
      }
      assert bigger[size - used..] == bigger[size - used..size - used + used] == area[sp..sp + used] == area[sp..];
      area, sp := bigger, size - used;
      return true;
    }

    /** `check_stacks`, before the body of a function runs. */
    method CheckStacks(max: nat) returns (ok: bool)
      requires Valid() && area.Length > 0
      modifies this`area, this`sp
      ensures Valid() && Observed() == old(Observed())
      ensures ok ==> sp >= STACK_THRESHOLD
      ensures !ok ==> area == old(area) && area.Length + STACK_THRESHOLD > max
    {
      ok := true;
      if sp < STACK_THRESHOLD {
        ok := TryRealloc(STACK_THRESHOLD, max);
      }
    }

    // ----- applications -----

    /** Stores words at and above `sp`. */
    method Store(ws: seq<Word>)
      requires Valid() && sp + |ws| <= area.Length
      modifies area
      ensures area[sp..] == ws + old(area[sp + |ws|..])
    {
      for i := 0 to |ws|
        invariant area[sp..sp + i] == ws[..i]
        invariant area[sp + i..] == old(area[sp + i..])
      {
        area[sp + i] := ws[i];
        assert area[sp..sp + i + 1] == area[sp..sp + i] + [ws[i]];
        assert area[sp + i + 1..] == old(area[sp + i..])[1..];
      }
      assert area[sp..] == area[sp..sp + |ws|] + area[sp + |ws|..];
    }

    method PushRetaddr()
      requires Valid() && sp >= 3 && 0 <= pc && pc + 1 < |code| && code[pc] == PUSH_RETADDR
      modifies this, area
      ensures Valid() && area == old(area) && Next(Observed()) == Step(code, old(Observed()))
    {
      sp := sp - 3;
      Store(Frame(pc + 1 + code[pc + 1], env, extra));
      pc := pc + 2;
    }

    method Enter() returns (ok: bool)
      requires Valid()
      modifies this`pc, this`env
      ensures Valid() && Follows(Entered(old(Observed())), ok)
    {
      ok := accu.Closure?;
      if ok {
        pc, env := accu.entry, accu;
      }
    }

    /** A step succeeded with this outcome, or left. */
    ghost predicate Follows(out: Outcome, ok: bool)
      requires Valid()
      reads this, area
    {
      if ok then out == Next(Observed()) else out.Leaves?
    }

    method Apply() returns (ok: bool)
      requires Valid() && 0 <= pc && pc + 1 < |code| && code[pc] == APPLY
      modifies this
      ensures Valid() && area == old(area) && Follows(Step(code, old(Observed())), ok)
    {
      extra := code[pc + 1] - 1;
      ok := Enter();
    }

    /** APPLY1, APPLY2 and APPLY3: a return frame goes under the arguments. */
    method ApplyK(k: nat) returns (ok: bool)
      requires Valid() && sp >= 3 && 0 <= pc < |code| && 1 <= k <= 3 && code[pc] == APPLY + k
      modifies this, area
      ensures Valid() && area == old(area) && Follows(Step(code, old(Observed())), ok)
    {
      if area.Length - sp < k {
        return false;
      }
      var args := area[sp..sp + k];
      assert area[sp..][..k] == args && area[sp..][k..] == area[sp + k..];
      sp := sp - 3;
      Store(args + Frame(pc + 1, env, extra));
      extra := k - 1;
      ok := Enter();
    }

    /** Moves `k` words up to `to`, last word first since the two places may overlap. */
    method SlideUp(to: nat, k: nat)
      requires Valid() && sp <= to && to + k <= area.Length
      modifies area
      ensures area[to..] == old(area[sp..sp + k]) + old(area[to + k..])
    {
      for i := k downto 0
        invariant area[to + i..to + k] == old(area[sp + i..sp + k])
        invariant area[..to + i] == old(area[..to + i]) && area[to + k..] == old(area[to + k..])
      {
        assert area[..to + i + 1][sp + i] == old(area[..to + i + 1])[sp + i];
        area[to + i] := area[sp + i];
        assert area[to + i..to + k] == [area[to + i]] + area[to + i + 1..to + k];
        assert area[..to + i] == area[..to + i + 1][..to + i];
      }
      assert area[to..] == area[to..to + k] + area[to + k..];
    }

    /** APPTERM: the arguments take the place of the frame. */
    method TailApply(k: int, slots: int) returns (ok: bool)
      requires Valid()
      modifies this, area
      ensures Valid() && area == old(area) && Follows(TailApplied(old(Observed()), k, slots), ok)
    {
      if !(1 <= k <= slots <= area.Length - sp) {
        return false;
      }
      var to := sp + slots - k;
      assert area[sp..][..k] == area[sp..sp + k] && area[sp..][slots..] == area[to + k..];
      SlideUp(to, k);
      sp := to;
      extra := extra + k - 1;
      ok := Enter();
    }

    method Return() returns (ok: bool)
      requires Valid() && 0 <= pc && pc + 1 < |code| && code[pc] == RETURN
      modifies this
      ensures Valid() && area == old(area) && Follows(Step(code, old(Observed())), ok)
    {
      var slots := code[pc + 1];
      if !(0 <= slots <= area.Length - sp) {
        return false;
      }
      assert area[sp..][slots..] == area[sp + slots..];
      sp := sp + slots;
      if extra > 0 {
        extra := extra - 1;
        ok := Enter();
      } else {
        ok := DoReturn();
      }
    }

    /** Back to the caller on the same stack. */
    method DoReturn() returns (ok: bool)
      requires Valid()
      modifies this
      ensures Valid() && area == old(area) && Follows(PopFrame(old(Observed())), ok)
    {
      ok := area.Length - sp >= 3 && area[sp].Code? && area[sp + 2].Long?;
      if ok {
        assert area[sp..][3..] == area[sp + 3..];
        pc, env, extra := area[sp].addr, area[sp + 1], area[sp + 2].n;
        sp := sp + 3;
      }
    }

    method Restart() returns (ok: bool)
      requires Valid() && 0 <= pc < |code| && code[pc] == RESTART
      requires env.Closure? ==> |env.vars| <= sp
      modifies this, area
      ensures Valid() && area == old(area) && Follows(Step(code, old(Observed())), ok)
    {
      ok := env.Closure? && |env.vars| >= 1;
      if ok {
        var held := env.vars[1..];
        sp := sp - |held|;
        Store(held);
        env := env.vars[0];
        extra := extra + |held|;
        pc := pc + 1;
      }
    }

    method Grab() returns (ok: bool)
      requires Valid() && 0 <= pc && pc + 1 < |code| && code[pc] == GRAB
      modifies this
      ensures Valid() && area == old(area) && Follows(Step(code, old(Observed())), ok)
    {
      var required := code[pc + 1];
      if extra >= required {
        extra := extra - required;
        pc := pc + 2;
        return true;
      }
      if !(0 <= extra < area.Length - sp) {
        return false;
      }
      var count := extra + 1;
      assert area[sp..][..count] == area[sp..sp + count] && area[sp..][count..] == area[sp + count..];
      accu := Closure(pc - 1, [env] + area[sp..sp + count]);
      sp := sp + count;
      ok := DoReturn();
    }

    // ----- traps -----

    method PushTrap()
      requires Valid() && sp >= 4 && 0 <= pc && pc + 1 < |code| && code[pc] == PUSHTRAP
      modifies this, area
      ensures Valid() && area == old(area) && Next(Observed()) == Step(code, old(Observed()))
    {
      sp := sp - 4;
      Store(TrapFrame(pc + 1 + code[pc + 1], trap, env, extra));
      trap := sp - area.Length;
      pc := pc + 2;
    }

    method PopTrap() returns (ok: bool)
      requires Valid() && 0 <= pc < |code| && code[pc] == POPTRAP
      modifies this
      ensures Valid() && area == old(area) && Follows(Step(code, old(Observed())), ok)
    {
      ok := area.Length - sp >= 4 && area[sp + 1].Long?;
      if ok {
        assert area[sp..][4..] == area[sp + 4..];
        trap := area[sp + 1].n;
        sp := sp + 4;
        pc := pc + 1;
      }
    }

    /** RAISE with a handler on this stack. */
    method RaiseHere() returns (ok: bool)
      requires Valid() && 0 <= pc < |code| && code[pc] == RAISE_NOTRACE
      modifies this
      ensures Valid() && area == old(area) && Follows(Step(code, old(Observed())), ok)
    {
      if !(4 <= -trap <= area.Length - sp) {
        return false;
      }
      var at := area.Length + trap;
      assert area[sp..][area.Length - sp + trap..] == area[at..];
      ok := area[at].Code? && area[at + 1].Long? && area[at + 3].Long?;
      if ok {
        assert area[at..][4..] == area[at + 4..];
        sp := at;
        pc := area[sp].addr;
        trap := area[sp + 1].n;
        env := area[sp + 2];
        extra := area[sp + 3].n;
        sp := sp + 4;
      }
    }
  
    // ----- the loop -----

    /** Runs the instruction at `pc`. */
    method Dispatch() returns (ok: bool)
      requires Valid() && sp >= 4 && (env.Closure? ==> |env.vars| <= sp)
      modifies this, area
      ensures Valid() && area == old(area) && Follows(Step(code, old(Observed())), ok)
    {
      hide Restarted, Applied, TailApplied, Returned, Grabbed, TrapPopped, Raised;
      if !(0 <= pc < |code|) {
        return false;
      }
      var op := code[pc];
      if op == RESTART {
        ok := Restart();
      } else if APPLY1 <= op <= APPLY3 {
        ok := ApplyK(op - APPLY);
      } else if op == POPTRAP {
        ok := PopTrap();
      } else if op == RAISE_NOTRACE {
        ok := RaiseHere();
      } else if pc + 1 >= |code| {
        ok := false;
      } else if op == PUSH_RETADDR {
        PushRetaddr();
        ok := true;
      } else if op == APPLY {
        ok := Apply();
      } else if op == APPTERM && pc + 2 < |code| {
        ok := TailApply(code[pc + 1], code[pc + 2]);
      } else if APPTERM1 <= op <= APPTERM3 {
        ok := TailApply(op - APPTERM, code[pc + 1]);
      } else if op == RETURN {
        ok := Return();
      } else if op == GRAB {
        ok := Grab();
      } else if op == PUSHTRAP {
        PushTrap();
        ok := true;
      } else {
        ok := false;
      }
    }

    /** Runs `n` instructions, moving the stack to a larger area before any of them at will: the outcome is that of the
        instructions alone. */
    method Run(n: nat, grow: set<int>, max: nat) returns (ok: bool, overflow: bool)
      requires Valid() && area.Length > 0
      modifies this, area
      ensures Valid()
      ensures !overflow ==> Follows(Steps(code, old(Observed()), n), ok)
      ensures overflow ==> area.Length + RoomFor(env) > max
    {
      hide Step;
      var left: nat := n;
      while left > 0
        invariant Valid() && area.Length > 0 && left <= n && (area == old(area) || fresh(area))
        invariant Steps(code, Observed(), left) == Steps(code, old(Observed()), n)
      {
        var room := RoomFor(env);
        if left in grow || sp < room {
          var moved := TryRealloc(room, max);
          if !moved {
            return false, true;
          }
        }
        ok := Dispatch();
        if !ok {
          return false, false;
        }
        left := left - 1;
      }
      return true, false;
    }
  }
}
