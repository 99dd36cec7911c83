/** Exception traps: frames linked by offsets inside the stack, over every well-bracketed run. */
module Traps {
  import opened Bytecode

  /** What a PUSHTRAP saves: the handler, and the registers at that point. */
  datatype Saved = Saved(handler: int, at: Regs)

  /** The traps in force, innermost last, are laid out in the stack and linked from the trap offset. */
  ghost predicate Linked(words: seq<Word>, trap: int, saved: seq<Saved>)
    decreases |saved|
  {
    if saved == [] then trap > 0
    else
      var s := saved[|saved| - 1];
      && trap == -|s.at.words| - 4
      && -trap <= |words|
      && words[|words| + trap..] == TrapFrame(s.handler, s.at.trap, s.at.env, s.at.extra) + s.at.words
      && Linked(s.at.words, s.at.trap, saved[..|saved| - 1])
  }

  /** The trap offsets found by following the links in the stack, innermost last. */
  function Offsets(words: seq<Word>, trap: int): seq<int>
    decreases |words|
  {
    if 4 <= -trap <= |words| && words[|words| + trap + 1].Long? then
      Offsets(words[|words| + trap + 4..], words[|words| + trap + 1].n) + [trap]
    else []
  }

  function OffsetOf(s: Saved): int {
    -|s.at.words| - 4
  }

  function OffsetsOf(saved: seq<Saved>): seq<int> {
    if saved == [] then [] else OffsetsOf(saved[..|saved| - 1]) + [OffsetOf(saved[|saved| - 1])]
  }

  /** The offsets linked in memory are exactly those of the traps in force. */
  lemma {:induction false} LinkedOffsets(words: seq<Word>, trap: int, saved: seq<Saved>)
    requires Linked(words, trap, saved)
    ensures Offsets(words, trap) == OffsetsOf(saved)
    decreases |saved|
  {
    if saved != [] {
      var s := saved[|saved| - 1];
      var w := words[|words| + trap..];
      assert w[1] == Long(s.at.trap) == words[|words| + trap + 1];
      assert words[|words| + trap + 4..] == w[4..] == s.at.words;
      LinkedOffsets(s.at.words, s.at.trap, saved[..|saved| - 1]);
    }
  }

  // ----- runs -----

  /** An event of a run. `Work` is any instruction, or several, that leave the innermost trap frame and what is below it
      alone; `Grow` moves the stack to a larger area. */
  datatype Event = Push(handler: int) | Pop | Raise | Work(to: Regs) | Grow

  ghost predicate Does(e: Event, r: Regs, q: Regs) {
    match e
    case Push(handler) => q == TrapPushed(r, handler)
    case Pop => |r.words| == -r.trap && TrapPopped(r) == Next(q)
    case Raise => Raised(r) == Next(q)
    case Work(to) => q == to && q.trap == r.trap && Keeps(r.words, q.words, -r.trap)
    case Grow => q == r
  }

  ghost predicate Keeps(old_: seq<Word>, new_: seq<Word>, k: int) {
    0 <= k <= |old_| ==> k <= |new_| && new_[|new_| - k..] == old_[|old_| - k..]
  }

  /** The pushes not yet popped or raised to. */
  ghost function InForce(saved: seq<Saved>, e: Event, r: Regs): seq<Saved> {
    match e
    case Push(handler) => saved + [Saved(handler, r)]
    case Pop | Raise => if saved == [] then [] else saved[..|saved| - 1]
    case Work(_) | Grow => saved
  }

  lemma InnermostFrame(words: seq<Word>, trap: int, saved: seq<Saved>)
    requires Linked(words, trap, saved)
    ensures saved != [] ==>
      && 4 <= -trap <= |words|
      && var s, w := saved[|saved| - 1], words[|words| + trap..];
         w[0] == Code(s.handler) && w[1] == Long(s.at.trap) && w[2] == s.at.env && w[3] == Long(s.at.extra) &&
         w[4..] == s.at.words
  {
  }

  /** Undoing the innermost trap brings back the words and the trap offset of its push. */
  ghost predicate Undone(e: Event, r: Regs, q: Regs, s: Saved) {
    && q.words == s.at.words && q.trap == s.at.trap && q.accu == r.accu
    && (e.Raise? ==> q.pc == s.handler && q.env == s.at.env && q.extra == s.at.extra)
  }

  lemma UndoRestores(e: Event, r: Regs, q: Regs, saved: seq<Saved>)
    requires Linked(r.words, r.trap, saved) && (e.Pop? || e.Raise?) && Does(e, r, q)
    ensures saved != [] && Undone(e, r, q, saved[|saved| - 1])
  {
    InnermostFrame(r.words, r.trap, saved);
    if e.Pop? {
      assert r.words[|r.words| + r.trap..] == r.words;
    }
  }

  lemma EventKeepsLinked(e: Event, r: Regs, q: Regs, saved: seq<Saved>)
    requires Linked(r.words, r.trap, saved) && Does(e, r, q)
    ensures Linked(q.words, q.trap, InForce(saved, e, r))
    ensures e.Pop? || e.Raise? ==> saved != [] && Undone(e, r, q, saved[|saved| - 1])
  {
    if e.Push? {
      var after := saved + [Saved(e.handler, r)];
      assert after[..|after| - 1] == saved;
    } else if e.Pop? || e.Raise? {
      hide TrapPopped, Raised;
      UndoRestores(e, r, q, saved);
    }
  }

  ghost predicate Run(rs: seq<Regs>, es: seq<Event>) {
    |rs| == |es| + 1 && forall i :: 0 <= i < |es| ==> Does(es[i], rs[i], rs[i + 1])
  }

  ghost function InForceAfter(rs: seq<Regs>, es: seq<Event>): seq<Saved>
    requires |rs| == |es| + 1
    decreases |es|
  {
    if es == [] then []
    else
      var n := |es| - 1;
      InForce(InForceAfter(rs[..n + 1], es[..n]), es[n], rs[n])
  }

  /** Over every run from a stack without traps, the linked offsets are those of the pushes not yet undone. */
  lemma {:induction false} RunLinked(rs: seq<Regs>, es: seq<Event>)
    requires Run(rs, es) && rs[0].trap > 0
    ensures Linked(rs[|es|].words, rs[|es|].trap, InForceAfter(rs, es))
    ensures Offsets(rs[|es|].words, rs[|es|].trap) == OffsetsOf(InForceAfter(rs, es))
    decreases |es|
  {
    if es != [] {
      var n := |es| - 1;
      RunLinked(rs[..n + 1], es[..n]);
      EventKeepsLinked(es[n], rs[n], rs[n + 1], InForceAfter(rs[..n + 1], es[..n]));
    }
    LinkedOffsets(rs[|es|].words, rs[|es|].trap, InForceAfter(rs, es));
  }

  /** A raise anywhere in a run goes to the innermost push not yet undone, with the registers of that moment. */
  lemma {:induction false} RaiseRestores(rs: seq<Regs>, es: seq<Event>, q: Regs)
    requires Run(rs, es) && rs[0].trap > 0 && Raised(rs[|es|]) == Next(q)
    ensures var saved := InForceAfter(rs, es);
      saved != [] &&
      var s := saved[|saved| - 1];
      q == s.at.(pc := s.handler, accu := rs[|es|].accu)
  {
    RunLinked(rs, es);
    EventKeepsLinked(Raise, rs[|es|], q, InForceAfter(rs, es));
  }

  /** A raise finds no handler on the stack exactly when every push has been undone. */
  lemma {:induction false} RaiseCaught(rs: seq<Regs>, es: seq<Event>)
    requires Run(rs, es) && rs[0].trap > 0
    ensures Raised(rs[|es|]).Next? <==> InForceAfter(rs, es) != []
    ensures rs[|es|].trap > 0 <==> InForceAfter(rs, es) == []
  {
    RunLinked(rs, es);
    var saved, r := InForceAfter(rs, es), rs[|es|];
    InnermostFrame(r.words, r.trap, saved);
  }
}
