/** Words, registers and the instructions of the bytecode machine that move arguments, frames and traps. */
module Bytecode {

  /** A closure's `vars` are its fields from number 2 on: the environment of a full closure,
      or the original closure and the arguments held by a partial application. */
  datatype Word =
    | Long(n: int)
    | Code(addr: int)
    | Stack(p: int)
    | Cont(c: int)
    | Closure(entry: int, vars: seq<Word>)
    | Other(id: int)

  /** `pc` is the address of the opcode about to run; `words` is the stack from `sp` up to its high end. */
  datatype Regs = Regs(pc: int, accu: Word, env: Word, extra: int, trap: int, words: seq<Word>)

  const PUSH_RETADDR := 31
  const APPLY := 32
  const APPLY1 := 33
  const APPLY2 := 34
  const APPLY3 := 35
  const APPTERM := 36
  const APPTERM1 := 37
  const APPTERM2 := 38
  const APPTERM3 := 39
  const RETURN := 40
  const RESTART := 41
  const GRAB := 42
  const PUSHTRAP := 89
  const POPTRAP := 90
  const RAISE_NOTRACE := 147

  function Frame(ret: int, env: Word, extra: int): seq<Word> {
    [Code(ret), env, Long(extra)]
  }

  /** The machine about to run closure `f` on `args`, with `below` under the arguments. */
  function Call(f: Word, args: seq<Word>, below: seq<Word>, trap: int): Regs
    requires f.Closure?
  {
    Regs(f.entry, f, f, |args| - 1, trap, args + below)
  }

  datatype Outcome = Next(r: Regs) | Leaves

  /** `Leaves` stands for what this model of one stack does not do: another instruction, a malformed stack,
      a return or raise that leaves the stack. */
  function Step(code: seq<int>, r: Regs): Outcome {
    if !(0 <= r.pc < |code|) then Leaves
    else
      var op := code[r.pc];
      if op == RESTART then Restarted(r)
      else if APPLY1 <= op <= APPLY3 then Applied(r, op - APPLY)
      else if op == POPTRAP then TrapPopped(r)
      else if op == RAISE_NOTRACE then Raised(r)
      else if r.pc + 1 >= |code| then Leaves
      else
        var arg := code[r.pc + 1];
        if op == PUSH_RETADDR then
          Next(r.(pc := r.pc + 2, words := Frame(r.pc + 1 + arg, r.env, r.extra) + r.words))
        else if op == APPLY then Entered(r.(extra := arg - 1))
        else if op == APPTERM && r.pc + 2 < |code| then TailApplied(r, arg, code[r.pc + 2])
        else if APPTERM1 <= op <= APPTERM3 then TailApplied(r, op - APPTERM, arg)
        else if op == RETURN then Returned(r, arg)
        else if op == GRAB then Grabbed(r, arg)
        else if op == PUSHTRAP then Next(TrapPushed(r, r.pc + 1 + arg))
        else Leaves
  }

  /** Jumps to the closure in the accumulator. */
  function Entered(r: Regs): Outcome {
    if r.accu.Closure? then Next(r.(pc := r.accu.entry, env := r.accu)) else Leaves
  }

  /** APPLY1-3: slides a return frame under `k` arguments. */
  function Applied(r: Regs, k: nat): Outcome {
    if |r.words| < k then Leaves
    else Entered(r.(extra := k - 1, words := r.words[..k] + Frame(r.pc + 1, r.env, r.extra) + r.words[k..]))
  }

  /** APPTERM: drops the frame of `slots` words but for the arguments on its top. */
  function TailApplied(r: Regs, k: int, slots: int): Outcome {
    if !(1 <= k <= slots <= |r.words|) then Leaves
    else Entered(r.(extra := r.extra + k - 1, words := r.words[..k] + r.words[slots..]))
  }

  function Returned(r: Regs, slots: int): Outcome {
    if !(0 <= slots <= |r.words|) then Leaves
    else if r.extra > 0 then Entered(r.(extra := r.extra - 1, words := r.words[slots..]))
    else PopFrame(r.(words := r.words[slots..]))
  }

  /** The part of `do_return` that stays on the stack. */
  function PopFrame(r: Regs): Outcome {
    if |r.words| >= 3 && r.words[0].Code? && r.words[2].Long? then
      Next(r.(pc := r.words[0].addr, env := r.words[1], extra := r.words[2].n, words := r.words[3..]))
    else Leaves
  }

  function Restarted(r: Regs): Outcome {
    if r.env.Closure? && |r.env.vars| >= 1 then
      var held := r.env.vars[1..];
      Next(r.(pc := r.pc + 1, env := r.env.vars[0], extra := r.extra + |held|, words := held + r.words))
    else Leaves
  }

  /** GRAB: goes on when there are arguments enough, else returns a closure that holds those there are. */
  function Grabbed(r: Regs, required: int): Outcome {
    if r.extra >= required then Next(r.(pc := r.pc + 2, extra := r.extra - required))
    else if 0 <= r.extra < |r.words| then
      var held := r.words[..r.extra + 1];
      PopFrame(r.(accu := Closure(r.pc - 1, [r.env] + held), words := r.words[r.extra + 1..]))
    else Leaves
  }

  // ----- traps -----

  /** PUSHTRAP: a trap frame holds the handler, the outer trap's offset, the environment and the extra arguments.
      Offsets count from the high end of the stack, so they are negative. */
  function TrapPushed(r: Regs, handler: int): Regs {
    r.(pc := r.pc + 2, trap := -|r.words| - 4, words := TrapFrame(handler, r.trap, r.env, r.extra) + r.words)
  }

  function TrapFrame(handler: int, link: int, env: Word, extra: int): seq<Word> {
    [Code(handler), Long(link), env, Long(extra)]
  }

  function TrapPopped(r: Regs): Outcome {
    if |r.words| >= 4 && r.words[1].Long? then
      Next(r.(pc := r.pc + 1, trap := r.words[1].n, words := r.words[4..]))
    else Leaves
  }

  /** RAISE when the trap offset points into the stack: cuts it back to the trap frame and takes everything from
      there. */
  function Raised(r: Regs): Outcome {
    if 4 <= -r.trap <= |r.words| then
      var w := r.words[|r.words| + r.trap..];
      if w[0].Code? && w[1].Long? && w[3].Long? then
        Next(r.(pc := w[0].addr, trap := w[1].n, env := w[2], extra := w[3].n, words := w[4..]))
      else Leaves
    else Leaves
  }

  /** `n` steps from `r`. */
  function Steps(code: seq<int>, r: Regs, n: nat): Outcome
    decreases n
  {
    if n == 0 then Next(r)
    else match Step(code, r)
      case Next(q) => Steps(code, q, n - 1)
      case Leaves => Leaves
  }
}
