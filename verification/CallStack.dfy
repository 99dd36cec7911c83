/** The calls in progress, as the frames on the bytecode machine's stack show them. */
module CallStack {
  import opened Bytecode
  import Attribution
  import Profiler

  /** A return frame or a trap frame on the stack, and what is below it. A return frame belongs to the function it was
      pushed for, or to the last one that took over by a tail call. */
  datatype Mark =
    | CallMark(func: int, ret: int, env: Word, extra: int, below: seq<Word>)
    | TrapMark(handler: int, link: int, env: Word, extra: int, below: seq<Word>)

  function FrameOf(m: Mark): seq<Word> {
    match m
    case CallMark(_, ret, env, extra, _) => Frame(ret, env, extra)
    case TrapMark(handler, link, env, extra, _) => TrapFrame(handler, link, env, extra)
  }

  function Top(marks: seq<Mark>): Mark
    requires marks != []
  {
    marks[|marks| - 1]
  }

  /** Words from the innermost frame to the high end. */
  function Height(marks: seq<Mark>): (h: int)
    ensures h >= 0
  {
    if marks == [] then 0 else |FrameOf(Top(marks))| + |Top(marks).below|
  }

  /** The trap offset that belongs to some frames; `outer` without a trap. */
  function TrapOf(outer: int, marks: seq<Mark>): int
    decreases |marks|
  {
    if marks == [] then outer
    else if Top(marks).TrapMark? then -Height(marks)
    else TrapOf(outer, marks[..|marks| - 1])
  }

  /** The frames are on the stack, one below the other, and the traps are linked. */
  ghost predicate Laid(words: seq<Word>, outer: int, marks: seq<Mark>)
    decreases |marks|
  {
    marks != [] ==>
      && Height(marks) <= |words| && words[|words| - Height(marks)..] == FrameOf(Top(marks)) + Top(marks).below
      && (Top(marks).TrapMark? ==> Top(marks).link == TrapOf(outer, marks[..|marks| - 1]))
      && Laid(Top(marks).below, outer, marks[..|marks| - 1])
  }

  ghost predicate Inv(r: Regs, outer: int, marks: seq<Mark>) {
    outer > 0 && Laid(r.words, outer, marks) && r.trap == TrapOf(outer, marks)
  }

  // ----- the instructions -----

  function OpAt(code: seq<int>, r: Regs): nat {
    if 0 <= r.pc < |code| && code[r.pc] >= 0 then code[r.pc] else 0
  }

  function ArgAt(code: seq<int>, r: Regs): int {
    if 0 <= r.pc && r.pc + 1 < |code| then code[r.pc + 1] else 0
  }

  /** What the instruction at `r`, which goes to `q`, does to the calls in progress. */
  function ControlOf(code: seq<int>, r: Regs, q: Regs): Attribution.Control {
    var op := OpAt(code, r);
    if APPLY <= op <= APPLY3 then Attribution.Call(q.pc)
    else if APPTERM <= op <= APPTERM3 then Attribution.TailCall(q.pc)
    else if op == RETURN then if r.extra > 0 then Attribution.OverReturn(q.pc) else Attribution.Return
    else if op == GRAB && r.extra < ArgAt(code, r) then Attribution.PartialReturn
    else if op == PUSHTRAP then Attribution.PushTrap
    else if op == POPTRAP then Attribution.PopTrap
    else if op == RAISE_NOTRACE then Attribution.Raise
    else Attribution.Stay
  }

  /** The stack of `q` ends as that of `r` does, from the innermost frame on. */
  ghost predicate Keeps(r: Regs, q: Regs, marks: seq<Mark>) {
    Height(marks) <= |r.words| && Height(marks) <= |q.words| &&
    q.words[|q.words| - Height(marks)..] == r.words[|r.words| - Height(marks)..]
  }

  /** The frame under the arguments of a call. */
  ghost predicate FrameUnder(q: Regs) {
    0 <= q.extra && q.extra + 4 <= |q.words| && q.words[q.extra + 1].Code? && q.words[q.extra + 3].Long?
  }

  ghost function MarkUnder(q: Regs): Mark
    requires FrameUnder(q)
  {
    CallMark(q.pc, q.words[q.extra + 1].addr, q.words[q.extra + 2], q.words[q.extra + 3].n, q.words[q.extra + 4..])
  }

  /** Code as the compiler makes it: a function keeps to the part of the stack above its frame, and leaves when it has
      dropped all of it, its traps included. */
  ghost predicate Bracketed(code: seq<int>, r: Regs, q: Regs, marks: seq<Mark>) {
    match ControlOf(code, r, q)
    case Call(_) => FrameUnder(q) && Keeps(r, q, marks) && |q.words| - q.extra - 4 >= Height(marks)
    case TailCall(_) => marks != [] && Top(marks).CallMark? && Keeps(r, q, marks)
    case OverReturn(_) => marks != [] && Top(marks).CallMark? && Keeps(r, q, marks)
    case Return => marks != [] && Top(marks).CallMark? && |r.words| - ArgAt(code, r) == Height(marks)
    case PartialReturn => marks != [] && Top(marks).CallMark? && |r.words| - r.extra - 1 == Height(marks)
    case PopTrap => marks != [] && Top(marks).TrapMark? && |r.words| == Height(marks)
    case Stay => Keeps(r, q, marks) && q.trap == r.trap
    case _ => true
  }

  /** An instruction of the model, or any other that is bracketed. */
  ghost predicate Does(code: seq<int>, r: Regs, q: Regs, marks: seq<Mark>) {
    && 0 <= r.pc < |code| && code[r.pc] >= 0
    && (Step(code, r) == Next(q) || (Step(code, r).Leaves? && ControlOf(code, r, q).Stay?))
    && Bracketed(code, r, q, marks)
  }

  /** The frames below the innermost trap. */
  function BelowTrap(marks: seq<Mark>): seq<Mark>
    decreases |marks|
  {
    if marks == [] then []
    else if Top(marks).TrapMark? then marks[..|marks| - 1]
    else BelowTrap(marks[..|marks| - 1])
  }

  ghost function Moved(code: seq<int>, r: Regs, q: Regs, marks: seq<Mark>): seq<Mark>
    requires Bracketed(code, r, q, marks)
  {
    var n := |marks| - 1;
    match ControlOf(code, r, q)
    case Call(_) => marks + [MarkUnder(q)]
    case TailCall(pc) => marks[..n] + [marks[n].(func := pc)]
    case OverReturn(pc) => marks[..n] + [marks[n].(func := pc)]
    case Return => marks[..n]
    case PartialReturn => marks[..n]
    case PushTrap => marks + [TrapMark(r.pc + 1 + ArgAt(code, r), r.trap, r.env, r.extra, r.words)]
    case PopTrap => marks[..n]
    case Raise => BelowTrap(marks)
    case _ => marks
  }

  lemma LaidKept(words: seq<Word>, later: seq<Word>, outer: int, marks: seq<Mark>)
    requires Laid(words, outer, marks) && Height(marks) <= |words| && Height(marks) <= |later|
    requires later[|later| - Height(marks)..] == words[|words| - Height(marks)..]
    ensures Laid(later, outer, marks)
  {
  }

  lemma StayLaid(r: Regs, q: Regs, outer: int, marks: seq<Mark>)
    requires Inv(r, outer, marks) && Keeps(r, q, marks) && q.trap == r.trap
    ensures Inv(q, outer, marks)
  {
    LaidKept(r.words, q.words, outer, marks);
  }

  /** The innermost frame, found from the high end. */
  lemma FrameFound(words: seq<Word>, outer: int, marks: seq<Mark>)
    requires Laid(words, outer, marks) && marks != []
    ensures Height(marks) <= |words|
    ensures Top(marks).CallMark? ==> TrapOf(outer, marks[..|marks| - 1]) == TrapOf(outer, marks)
    ensures var m, w := Top(marks), words[|words| - Height(marks)..];
      && w == FrameOf(m) + m.below && w[|FrameOf(m)|..] == m.below && Laid(m.below, outer, marks[..|marks| - 1])
  {
  }

  lemma CallLaid(r: Regs, q: Regs, outer: int, marks: seq<Mark>)
    requires Laid(r.words, outer, marks) && FrameUnder(q) && Keeps(r, q, marks)
    requires |q.words| - q.extra - 4 >= Height(marks)
    ensures Laid(q.words, outer, marks + [MarkUnder(q)])
    ensures TrapOf(outer, marks + [MarkUnder(q)]) == TrapOf(outer, marks)
  {
    var m := MarkUnder(q);
    assert (marks + [m])[..|marks|] == marks;
    assert m.below[|m.below| - Height(marks)..] == q.words[|q.words| - Height(marks)..];
    LaidKept(r.words, m.below, outer, marks);
    assert q.words[q.extra + 1..] == FrameOf(m) + m.below;
  }

  lemma TakeOver(words: seq<Word>, outer: int, marks: seq<Mark>, pc: int)
    requires Laid(words, outer, marks) && marks != [] && Top(marks).CallMark?
    ensures var after := marks[..|marks| - 1] + [Top(marks).(func := pc)];
      Laid(words, outer, after) && TrapOf(outer, after) == TrapOf(outer, marks)
  {
    var after := marks[..|marks| - 1] + [Top(marks).(func := pc)];
    assert after[..|marks| - 1] == marks[..|marks| - 1];
  }

  /** Leaving by RETURN or by GRAB with too few arguments goes back to the caller: its code address, its environment,
      its extra arguments and its words, as they were at the call. */
  lemma {:induction false} BackInCaller(code: seq<int>, r: Regs, q: Regs, outer: int, marks: seq<Mark>)
    requires Inv(r, outer, marks) && Does(code, r, q, marks)
    requires ControlOf(code, r, q).Return? || ControlOf(code, r, q).PartialReturn?
    ensures marks != [] && Top(marks).CallMark?
    ensures var m := Top(marks);
      q.pc == m.ret && q.env == m.env && q.extra == m.extra && q.words == m.below && q.trap == r.trap
  {
    FrameFound(r.words, outer, marks);
    if code[r.pc] == RETURN {
      assert r.words[ArgAt(code, r)..] == r.words[|r.words| - Height(marks)..];
    } else {
      assert r.words[r.extra + 1..] == r.words[|r.words| - Height(marks)..];
    }
  }

  lemma PushLaid(r: Regs, q: Regs, outer: int, marks: seq<Mark>, handler: int)
    requires Inv(r, outer, marks) && q == TrapPushed(r, handler)
    ensures Inv(q, outer, marks + [TrapMark(handler, r.trap, r.env, r.extra, r.words)])
  {
    var m := TrapMark(handler, r.trap, r.env, r.extra, r.words);
    assert (marks + [m])[..|marks|] == marks;
    assert q.words[|q.words| - Height(marks + [m])..] == q.words;
  }

  lemma PopLaid(r: Regs, q: Regs, outer: int, marks: seq<Mark>)
    requires Inv(r, outer, marks) && marks != [] && Top(marks).TrapMark? && |r.words| == Height(marks)
    requires TrapPopped(r) == Next(q)
    ensures Inv(q, outer, marks[..|marks| - 1])
  {
    FrameFound(r.words, outer, marks);
    assert r.words[|r.words| - Height(marks)..] == r.words;
  }

  // ----- exceptions -----

  predicate HasTrap(marks: seq<Mark>)
    decreases |marks|
  {
    marks != [] && (Top(marks).TrapMark? || HasTrap(marks[..|marks| - 1]))
  }

  function InnermostTrap(marks: seq<Mark>): (m: Mark)
    requires HasTrap(marks)
    ensures m.TrapMark?
    decreases |marks|
  {
    if Top(marks).TrapMark? then Top(marks) else InnermostTrap(marks[..|marks| - 1])
  }

  /** The trap offset leads to the innermost trap frame, over the frames of the calls inside it. */
  lemma {:induction false} TrapFound(words: seq<Word>, outer: int, marks: seq<Mark>)
    requires Laid(words, outer, marks) && outer > 0 && TrapOf(outer, marks) <= 0
    ensures HasTrap(marks) && 4 <= -TrapOf(outer, marks) <= |words|
    ensures var m, below := InnermostTrap(marks), BelowTrap(marks);
      && words[|words| + TrapOf(outer, marks)..] == FrameOf(m) + m.below
      && m.link == TrapOf(outer, below) && Laid(m.below, outer, below)
    decreases |marks|
  {
    if Top(marks).CallMark? {
      var m, t := Top(marks), TrapOf(outer, marks);
      FrameFound(words, outer, marks);
      TrapFound(m.below, outer, marks[..|marks| - 1]);
      assert words[|words| + t..] == words[|words| - Height(marks)..][Height(marks) + t..];
      assert (FrameOf(m) + m.below)[Height(marks) + t..] == m.below[|m.below| + t..];
    }
  }

  /** RAISE goes to the handler of the innermost trap with the stack as it was at its PUSHTRAP, and the calls since then
      are no longer in progress. */
  lemma {:induction false} RaiseLaid(r: Regs, q: Regs, outer: int, marks: seq<Mark>)
    requires Inv(r, outer, marks) && Raised(r) == Next(q)
    ensures Inv(q, outer, BelowTrap(marks)) && HasTrap(marks)
    ensures var m := InnermostTrap(marks);
      q.pc == m.handler && q.env == m.env && q.extra == m.extra && q.words == m.below
  {
    TrapFound(r.words, outer, marks);
    var m := InnermostTrap(marks);
    var w := r.words[|r.words| + r.trap..];
    assert w[4..] == m.below;
  }

  // ----- the calls in progress -----

  function Calls(marks: seq<Mark>): seq<int>
    decreases |marks|
  {
    if marks == [] then []
    else Calls(marks[..|marks| - 1]) + if Top(marks).CallMark? then [Top(marks).func] else []
  }

  function Depths(marks: seq<Mark>): seq<nat>
    decreases |marks|
  {
    if marks == [] then []
    else Depths(marks[..|marks| - 1]) + if Top(marks).TrapMark? then [|Calls(marks[..|marks| - 1])|] else []
  }

  function View(marks: seq<Mark>): Attribution.Running {
    Attribution.Running(Calls(marks), Depths(marks))
  }

  lemma ViewSnoc(marks: seq<Mark>, m: Mark)
    ensures Calls(marks + [m]) == Calls(marks) + if m.CallMark? then [m.func] else []
    ensures Depths(marks + [m]) == Depths(marks) + if m.TrapMark? then [|Calls(marks)|] else []
  {
    assert (marks + [m])[..|marks|] == marks;
  }

  lemma {:induction false} ViewBelowTrap(marks: seq<Mark>)
    requires HasTrap(marks)
    ensures Depths(marks) != []
    ensures var d := Depths(marks)[|Depths(marks)| - 1];
      d <= |Calls(marks)| && Calls(BelowTrap(marks)) == Calls(marks)[..d]
    ensures Depths(BelowTrap(marks)) == Attribution.Popped(Depths(marks))
    decreases |marks|
  {
    if Top(marks).CallMark? {
      ViewBelowTrap(marks[..|marks| - 1]);
    }
  }

  /** What the machine does at each kind of instruction. */
  lemma StepDoes(code: seq<int>, r: Regs, q: Regs, marks: seq<Mark>)
    requires Does(code, r, q, marks)
    ensures Bracketed(code, r, q, marks)
    ensures match ControlOf(code, r, q)
      case PushTrap => q == TrapPushed(r, r.pc + 1 + ArgAt(code, r))
      case PopTrap => TrapPopped(r) == Next(q)
      case Raise => Raised(r) == Next(q)
      case Call(pc) => pc == q.pc && q.trap == r.trap
      case Switch(_, _) => false
      case _ => q.trap == r.trap
  {
    hide Keeps, Height;
  }

  /** Frames and calls in progress after one instruction. */
  lemma StepView(code: seq<int>, r: Regs, q: Regs, outer: int, marks: seq<Mark>)
    requires Inv(r, outer, marks) && Does(code, r, q, marks)
    ensures Bracketed(code, r, q, marks) && Inv(q, outer, Moved(code, r, q, marks))
    ensures View(Moved(code, r, q, marks)) == Attribution.After(View(marks), ControlOf(code, r, q))
  {
    hide Does, ControlOf, Step, Laid, TrapOf, Calls, Depths, Raised, TrapPopped, TrapPushed, BelowTrap, Height;
    StepDoes(code, r, q, marks);
    match ControlOf(code, r, q)
    case Call(_) =>
      CallLaid(r, q, outer, marks);
      CallView(marks, MarkUnder(q));
    case TailCall(pc) => Takes(r, q, outer, marks, pc);
    case OverReturn(pc) => Takes(r, q, outer, marks, pc);
    case Return => Leaving(code, r, q, outer, marks);
    case PartialReturn => Leaving(code, r, q, outer, marks);
    case PushTrap =>
      PushLaid(r, q, outer, marks, r.pc + 1 + ArgAt(code, r));
      ViewSnoc(marks, TrapMark(r.pc + 1 + ArgAt(code, r), r.trap, r.env, r.extra, r.words));
    case PopTrap =>
      PopLaid(r, q, outer, marks);
      ViewSnoc(marks[..|marks| - 1], Top(marks));
      assert marks == marks[..|marks| - 1] + [Top(marks)];
    case Raise =>
      RaiseLaid(r, q, outer, marks);
      ViewBelowTrap(marks);
    case Stay => StayLaid(r, q, outer, marks);
  }

  lemma CallView(marks: seq<Mark>, m: Mark)
    requires m.CallMark?
    ensures View(marks + [m]) == View(marks).(calls := Calls(marks) + [m.func])
  {
    ViewSnoc(marks, m);
  }

  lemma Takes(r: Regs, q: Regs, outer: int, marks: seq<Mark>, pc: int)
    requires Inv(r, outer, marks) && marks != [] && Top(marks).CallMark? && Keeps(r, q, marks) && q.trap == r.trap
    ensures var after := marks[..|marks| - 1] + [Top(marks).(func := pc)];
      && Inv(q, outer, after)
      && View(after) == View(marks).(calls := Attribution.Popped(Calls(marks)) + [pc])
  {
    LaidKept(r.words, q.words, outer, marks);
    TakeOver(q.words, outer, marks, pc);
    ViewSnoc(marks[..|marks| - 1], Top(marks));
    ViewSnoc(marks[..|marks| - 1], Top(marks).(func := pc));
    assert marks == marks[..|marks| - 1] + [Top(marks)];
  }

  lemma Leaving(code: seq<int>, r: Regs, q: Regs, outer: int, marks: seq<Mark>)
    requires Inv(r, outer, marks) && Does(code, r, q, marks)
    requires ControlOf(code, r, q).Return? || ControlOf(code, r, q).PartialReturn?
    ensures Inv(q, outer, marks[..|marks| - 1])
    ensures View(marks[..|marks| - 1]) == View(marks).(calls := Attribution.Popped(Calls(marks)))
  {
    hide Does, ControlOf, Step, Laid, TrapOf, Calls, Depths;
    BackInCaller(code, r, q, outer, marks);
    FrameFound(r.words, outer, marks);
    ViewSnoc(marks[..|marks| - 1], Top(marks));
    assert marks == marks[..|marks| - 1] + [Top(marks)];
  }

  // ----- runs -----

  /** A run from a stack without frames; `ms` are the frames at each point. */
  ghost predicate Run(code: seq<int>, rs: seq<Regs>, ms: seq<seq<Mark>>) {
    && |rs| == |ms| >= 1 && ms[0] == [] && rs[0].trap > 0
    && forall i :: 0 <= i < |rs| - 1 ==> Goes(code, rs[i], ms[i], rs[i + 1], ms[i + 1])
  }

  ghost predicate Goes(code: seq<int>, r: Regs, m: seq<Mark>, r': Regs, m': seq<Mark>) {
    Does(code, r, r', m) && m' == Moved(code, r, r', m)
  }

  /** The instructions of a run, as the profiler and the calls in progress see them. */
  function Events(code: seq<int>, rs: seq<Regs>): (es: seq<Attribution.Event>)
    requires |rs| >= 1
  {
    seq(|rs| - 1, i requires 0 <= i < |rs| - 1 =>
      Attribution.Event(OpAt(code, rs[i]), ControlOf(code, rs[i], rs[i + 1])))
  }

  /** Over any bracketed run of the machine, the calls in progress are those whose return frames are on its stack. */
  lemma {:induction false} FramesAreCalls(code: seq<int>, rs: seq<Regs>, ms: seq<seq<Mark>>, i: nat)
    requires Run(code, rs, ms) && i < |rs|
    ensures Inv(rs[i], rs[0].trap, ms[i]) && View(ms[i]) == Attribution.RunningAfter(Events(code, rs)[..i])
  {
    hide Does, Moved, Bracketed, ControlOf, View, OpAt, Attribution.After, Attribution.Kept, Attribution.Counted,
         Attribution.Ran;
    var es := Events(code, rs);
    if i == 0 {
      assert es[..0] == [];
      EmptyView();
    } else {
      FramesAreCalls(code, rs, ms, i - 1);
      assert Goes(code, rs[i - 1], ms[i - 1], rs[i], ms[i]);
      StepView(code, rs[i - 1], rs[i], rs[0].trap, ms[i - 1]);
      assert es[..i] == es[..i - 1] + [es[i - 1]];
      Attribution.Snoc(es[..i - 1], es[i - 1]);
    }
  }

  lemma EmptyView()
    ensures View([]) == Attribution.Running([], [])
  {
  }

  /** The profiler's function stack holds the functions of the return frames on the machine's stack throughout a run, if
      and only if every instruction of the run is harmless. */
  lemma {:induction false} ProfiledIff(code: seq<int>, rs: seq<Regs>, ms: seq<seq<Mark>>)
    requires Run(code, rs, ms)
    ensures var es := Events(code, rs);
      (forall i :: 0 <= i < |rs| ==> Attribution.Kept(es[..i]) == Calls(ms[i])) <==> Attribution.AllHarmless(es)
  {
    hide Goes, Inv, ControlOf, OpAt, Calls, Depths, Attribution.Kept, Attribution.RunningAfter, Attribution.Harmless;
    var es := Events(code, rs);
    Attribution.StackIff(es);
    forall i | 0 <= i < |rs|
      ensures Calls(ms[i]) == Attribution.RunningAfter(es[..i]).calls
    {
      FramesAreCalls(code, rs, ms, i);
    }
    if forall i :: 0 <= i < |rs| ==> Attribution.Kept(es[..i]) == Calls(ms[i]) {
      assert Attribution.SameThroughout(es);
    }
  }

  // ----- a run of the machine that is counted wrongly -----

  const ACC0 := 0

  /** At 0 a call; at 2 a function that tail calls its argument; at 5 another function. */
  const PROGRAM := [APPLY1, ACC0, ACC0, APPTERM1, 1, ACC0]

  function TailCallRun(): seq<Regs> {
    var f, g := Closure(2, []), Closure(5, []);
    var words := [g] + Frame(1, Long(0), 0);
    [Regs(0, f, Long(0), 0, 1, [g]), Regs(2, f, f, 0, 1, words), Regs(3, g, f, 0, 1, words), Regs(5, g, g, 0, 1, words),
     Regs(6, g, g, 0, 1, words)]
  }

  function TailCallFrames(): seq<seq<Mark>> {
    var f, g := CallMark(2, 1, Long(0), 0, []), CallMark(5, 1, Long(0), 0, []);
    [[], [f], [f], [g], [g]]
  }

  lemma TailCallRuns()
    ensures Run(PROGRAM, TailCallRun(), TailCallFrames())
  {
    var rs, ms := TailCallRun(), TailCallFrames();
    var f, g := Closure(2, []), Closure(5, []);
    var words := [g] + Frame(1, Long(0), 0);
    assert [g][..1] + Frame(1, Long(0), 0) + [g][1..] == words;
    assert Goes(PROGRAM, rs[0], ms[0], rs[1], ms[1]);
    assert Goes(PROGRAM, rs[1], ms[1], rs[2], ms[2]);
    assert words[..1] + words[1..] == words;
    assert Goes(PROGRAM, rs[2], ms[2], rs[3], ms[3]);
    assert Goes(PROGRAM, rs[3], ms[3], rs[4], ms[4]);
  }

  lemma TailCallEvents()
    ensures Events(PROGRAM, TailCallRun()) ==
      [Attribution.Event(APPLY1, Attribution.Call(2)), Attribution.Event(ACC0, Attribution.Stay),
       Attribution.Event(APPTERM1, Attribution.TailCall(5)), Attribution.Event(ACC0, Attribution.Stay)]
  {
  }

  /** After its tail call the machine runs the function at 5, by its frames; the profiler counts for the one at 2. */
  lemma {:induction false} MachineMiscounts()
    ensures Run(PROGRAM, TailCallRun(), TailCallFrames())
    ensures Attribution.CountedFor(Events(PROGRAM, TailCallRun())[..3], 2, 5)
  {
    hide Run, Events, Attribution.Kept, Attribution.RunningAfter, Attribution.Counted, Attribution.Ran, TailCallRun,
         TailCallFrames;
    TailCallRuns();
    TailCallEvents();
    var e1, e2 := Attribution.Event(APPLY1, Attribution.Call(2)), Attribution.Event(ACC0, Attribution.Stay);
    Attribution.Start(e1);
    Attribution.Snoc([], e1);
    Attribution.Snoc([e1], e2);
    Attribution.TailCallCounted([e1] + [e2], APPTERM1, 5);
    assert Events(PROGRAM, TailCallRun())[..3] == [e1] + [e2] + [Attribution.Event(APPTERM1, Attribution.TailCall(5))];
  }
}
