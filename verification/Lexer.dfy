/** The table-driven lexer: maximal munch, however refills cut the input. */
module Lexer {

  const END := 256

  /** The five tables; `check` and `trans` are indexed by base plus character. */
  datatype Tables = Tables(base: int -> int, backtrk: int -> int, fallback: int -> int, trans: int -> int,
                           check: int -> int)

  function Successor(t: Tables, state: int, c: int): int {
    var i := t.base(state) + c;
    if t.check(i) == state then t.trans(i) else t.fallback(state)
  }

  const ROW := 257

  /** Tables for an automaton, a row of its own for each state: entries that differ from the state's default successor
      are in `trans` and marked in `check`. Without overlaps, but otherwise as the generator lays them out. */
  function RowTables(next: (int, int) -> int, default: int -> int, backtrk: int -> int): Tables {
    Tables(
      q => ROW * q, backtrk, default, i => next(i / ROW, i % ROW),
      i => if next(i / ROW, i % ROW) == default(i / ROW) then -1 else i / ROW)
  }

  /** The tables of an automaton give its transitions back. */
  lemma {:induction false} TablesEncode(next: (int, int) -> int, default: int -> int, backtrk: int -> int, q: int,
                                        c: int)
    requires 0 <= q && 0 <= c < ROW
    ensures Successor(RowTables(next, default, backtrk), q, c) == next(q, c)
  {
    var i := ROW * q + c;
    assert i / ROW == q && i % ROW == c;
  }

  datatype Result = Token(action: int, end: int) | EmptyToken | Unfinished

  /** Characters among symbols; the others are end-of-input marks. */
  function Chars(syms: seq<int>): nat {
    if syms == [] then 0 else (if syms[0] == END then 0 else 1) + Chars(syms[1..])
  }

  // ----- maximal munch -----

  /** The states of the automaton's run, up to an accepting end, a dead end or the end of the symbols. */
  function Path(t: Tables, state: int, syms: seq<int>): seq<int>
    decreases |syms|
  {
    if t.base(state) < 0 || syms == [] || Successor(t, state, syms[0]) < 0 then [state]
    else [state] + Path(t, Successor(t, state, syms[0]), syms[1..])
  }

  /** The state stops the run at once, with an action of its own. */
  predicate Accepts(t: Tables, state: int) {
    t.base(state) < 0
  }

  /** The last place on the path where the lexer may go back to. */
  predicate LastBacktrack(t: Tables, path: seq<int>, j: int) {
    && 0 <= j < |path| && t.backtrk(path[j]) >= 0
    && forall i :: j < i < |path| ==> t.backtrk(path[i]) < 0
  }

  /** Maximal munch from position `start`: an accepting state decides; else, when no transition is left, the last
      backtrack state on the path; it is unfinished only when all symbols are read. */
  ghost predicate Munched(t: Tables, state: int, syms: seq<int>, start: int, r: Result) {
    PathLength(t, state, syms);
    var path := Path(t, state, syms);
    var n := |path| - 1;
    if Accepts(t, path[n]) then r == Token(-t.base(path[n]) - 1, start + Chars(syms[..n]))
    else if n >= |syms| then r == Unfinished
    else if exists j :: LastBacktrack(t, path, j) then
      exists j ::
        0 <= j < |syms| && LastBacktrack(t, path, j) && r == Token(t.backtrk(path[j]), start + Chars(syms[..j]))
    else r == EmptyToken
  }

  lemma PathLength(t: Tables, state: int, syms: seq<int>)
    ensures 1 <= |Path(t, state, syms)| <= |syms| + 1
    decreases |syms|
  {
    if !(t.base(state) < 0 || syms == [] || Successor(t, state, syms[0]) < 0) {
      PathLength(t, Successor(t, state, syms[0]), syms[1..]);
    }
  }

  // ----- the run with a memory of the last backtrack -----

  datatype Memory = Memory(action: int, pos: int)

  function Noted(t: Tables, state: int, pos: int, last: Memory): Memory {
    if t.backtrk(state) >= 0 then Memory(t.backtrk(state), pos) else last
  }

  function Munch(t: Tables, state: int, syms: seq<int>, pos: int, last: Memory): Result
    decreases |syms|
  {
    if t.base(state) < 0 then Token(-t.base(state) - 1, pos)
    else
      var noted := Noted(t, state, pos, last);
      if syms == [] then Unfinished
      else
        var next := Successor(t, state, syms[0]);
        if next >= 0 then Munch(t, next, syms[1..], pos + (if syms[0] == END then 0 else 1), noted)
        else if noted.action == -1 then EmptyToken
        else Token(noted.action, noted.pos)
  }

  lemma MunchAccepts(t: Tables, state: int, syms: seq<int>, pos: int, last: Memory)
    requires t.base(state) < 0
    ensures Munch(t, state, syms, pos, last) == Token(-t.base(state) - 1, pos)
  {
  }

  /** Noting a backtrack state once more changes nothing. */
  lemma MunchNoted(t: Tables, state: int, syms: seq<int>, pos: int, last: Memory)
    requires t.base(state) >= 0
    ensures Munch(t, state, syms, pos, last) == Munch(t, state, syms, pos, Noted(t, state, pos, last))
  {
  }

  lemma MunchStep(t: Tables, state: int, syms: seq<int>, pos: int, last: Memory)
    requires t.base(state) >= 0 && last == Noted(t, state, pos, last) && syms != []
    ensures var next := Successor(t, state, syms[0]);
      Munch(t, state, syms, pos, last) ==
      if next >= 0 then Munch(t, next, syms[1..], pos + (if syms[0] == END then 0 else 1), last)
      else if last.action == -1 then EmptyToken
      else Token(last.action, last.pos)
  {
  }

  // ----- the engine -----

  datatype Answer = Action(n: int) | Failed | NeedsRefill(code: int)

  function Unread(buffer: seq<int>, curr: int, eof: bool): seq<int>
    requires 0 <= curr <= |buffer|
  {
    buffer[curr..] + if eof then [END] else []
  }

  lemma ReadMoves(buffer: seq<int>, curr: int, eof: bool, rest: seq<int>)
    requires 0 <= curr <= |buffer| && (curr < |buffer| || eof)
    ensures (Unread(buffer, curr, eof) + rest)[1..] ==
      if curr < |buffer| then Unread(buffer, curr + 1, eof) + rest else Unread(buffer, curr, false) + rest
  {
    assert curr < |buffer| ==> buffer[curr..] == [buffer[curr]] + buffer[curr + 1..];
  }

  class Lexbuf {
    var buffer: seq<int>
    var start: int
    var curr: int
    var last_pos: int
    var last_action: int
    var eof: bool

    predicate Valid()
      reads this
    {
      0 <= curr <= |buffer| && 0 <= last_pos <= |buffer| && forall i :: 0 <= i < |buffer| ==> 0 <= buffer[i] < END
    }

    /** The symbols that can be read before a refill. */
    function Pending(): seq<int>
      requires Valid()
      reads this
    {
      Unread(buffer, curr, eof)
    }

    function Last(): Memory
      reads this
    {
      Memory(last_action, last_pos)
    }

    /** What the engine returns fits the run on the pending symbols followed by any `rest`. */
    ghost predicate Fits(t: Tables, a: Answer, whole: Result, rest: seq<int>)
      requires Valid()
      reads this
    {
      match a
      case Action(n) => whole == Token(n, curr)
      case Failed => whole == EmptyToken
      case NeedsRefill(code) =>
        code < 0 && t.base(-code - 1) >= 0 && Pending() == [] && whole == Munch(t, -code - 1, rest, curr, Last())
    }

    method Note(t: Tables, state: int)
      requires Valid()
      modifies this`last_pos, this`last_action
      ensures Valid() && Last() == Noted(t, state, curr, old(Last()))
    {
      var backtrk := t.backtrk(state);
      if backtrk >= 0 {
        last_pos := curr;
        last_action := backtrk;
      }
    }

    /** The next symbol. */
    method Read() returns (c: int)
      requires Valid() && Pending() != []
      modifies this`curr
      ensures Valid() && c == old(Pending())[0] && curr == old(curr) + (if c == END then 0 else 1)
      ensures c == END <==> old(curr) == |buffer|
    {
      if curr >= |buffer| {
        c := END;
      } else {
        c := buffer[curr];
        curr := curr + 1;
      }
    }

    /** `rest` stands for whatever refills will bring. */
    method Engine(t: Tables, start_state: int, ghost rest: seq<int>) returns (a: Answer)
      requires Valid()
      modifies this
      ensures Valid() && buffer == old(buffer)
      ensures start_state >= 0 ==>
        Fits(t, a, Munch(t, start_state, old(Pending()) + rest, old(curr), Memory(-1, old(curr))), rest) &&
        start == old(curr)
      ensures start_state < 0 ==>
        Fits(t, a, Munch(t, -start_state - 1, old(Pending()) + rest, old(curr), old(Last())), rest) &&
        start == old(start)
    {
      var state := start_state;
      if state >= 0 {
        last_pos, start := curr, curr;
        last_action := -1;
      } else {
        state := -state - 1;
      }
      a := Run(t, state, rest);
    }

    method Run(t: Tables, state0: int, ghost rest: seq<int>) returns (a: Answer)
      requires Valid() && state0 >= 0
      modifies this`curr, this`last_pos, this`last_action, this`eof
      ensures Valid() && Fits(t, a, Munch(t, state0, old(Pending()) + rest, old(curr), old(Last())), rest)
    {
      hide Munch;
      var state := state0;
      ghost var whole := Munch(t, state, Pending() + rest, curr, Last());
      while true
        invariant Valid() && state >= 0
        invariant whole == Munch(t, state, Pending() + rest, curr, Last())
        decreases |Pending()|
      {
        var base := t.base(state);
        if base < 0 {
          MunchAccepts(t, state, Pending() + rest, curr, Last());
          return Action(-base - 1);
        }
        ghost var syms := Pending() + rest;
        MunchNoted(t, state, syms, curr, Last());
        Note(t, state);
        if curr >= |buffer| && !eof {
          assert syms == rest;
          return NeedsRefill(-state - 1);
        }
        MunchStep(t, state, syms, curr, Last());
        ReadMoves(buffer, curr, eof, rest);
        var c := Read();
        state := if t.check(base + c) == state then t.trans(base + c) else t.fallback(state);
        if state < 0 {
          curr := last_pos;
          return if last_action == -1 then Failed else Action(last_action);
        } else if c == END {
          eof := false;
        }
        assert Pending() + rest == syms[1..];
      }
      return Failed;
    }

    /** What a refill brings: characters, or none at the end of the input. */
    method Refill(chars: seq<int>)
      requires Valid() && Pending() == [] && forall i :: 0 <= i < |chars| ==> 0 <= chars[i] < END
      modifies this`buffer, this`eof
      ensures Valid() && Pending() == Symbols([chars])
    {
      buffer := buffer + chars;
      if chars == [] {
        eof := true;
      }
      assert chars != [] ==> buffer[curr..] == chars;
      assert Symbols([chars]) == if chars == [] then [END] else chars;
    }

    /** The lexer with its refills: the answer is the munch of the unread input and all that the refills bring. */
    method Lex(t: Tables, state: int, refills: seq<seq<int>>) returns (r: Result)
      requires Valid() && state >= 0
      requires forall k, i :: 0 <= k < |refills| && 0 <= i < |refills[k]| ==> 0 <= refills[k][i] < END
      modifies this
      ensures Valid() && r == Munch(t, state, old(Pending()) + Symbols(refills), old(curr), Memory(-1, old(curr)))
      ensures r.Token? ==> curr == r.end && start == old(curr)
    {
      var a := Engine(t, state, Symbols(refills));
      ghost var whole := Munch(t, state, old(Pending()) + Symbols(refills), old(curr), Memory(-1, old(curr)));
      var i := 0;
      while a.NeedsRefill?
        invariant 0 <= i <= |refills| && Valid() && start == old(curr) && Fits(t, a, whole, Symbols(refills[i..]))
        decreases |refills| - i
      {
        if i == |refills| {
          assert refills[i..] == [];
          return Unfinished;
        }
        SymbolsSplit(refills, i);
        Refill(refills[i]);
        i := i + 1;
        a := Engine(t, a.code, Symbols(refills[i..]));
      }
      r := if a.Failed? then EmptyToken else Token(a.n, curr);
    }
  }

  // ----- refills -----

  /** The symbols that refills bring: an empty one brings the end-of-input mark. */
  function Symbols(refills: seq<seq<int>>): seq<int> {
    if refills == [] then [] else (if refills[0] == [] then [END] else refills[0]) + Symbols(refills[1..])
  }

  lemma SymbolsSplit(refills: seq<seq<int>>, i: nat)
    requires i < |refills|
    ensures Symbols(refills[i..]) == Symbols([refills[i]]) + Symbols(refills[i + 1..])
  {
    assert refills[i..][1..] == refills[i + 1..];
    assert [refills[i]][1..] == [];
    assert Symbols([]) == [];
    var x := if refills[i] == [] then [END] else refills[i];
    assert x + [] == x;
  }

  function Flat(chunks: seq<seq<int>>): seq<int> {
    if chunks == [] then [] else chunks[0] + Flat(chunks[1..])
  }

  /** Cutting the same characters in other places, the end marks left where they are, brings the same symbols. */
  lemma {:induction false} CuttingKeepsSymbols(chunks: seq<seq<int>>, after: seq<seq<int>>)
    requires forall k :: 0 <= k < |chunks| ==> chunks[k] != []
    ensures Symbols(chunks + after) == Flat(chunks) + Symbols(after)
  {
    if chunks == [] {
      assert chunks + after == after;
    } else {
      CuttingKeepsSymbols(chunks[1..], after);
      assert (chunks + after)[1..] == chunks[1..] + after;
    }
  }

  /** Two ways to cut the same input give the same token. */
  lemma {:induction false} CuttingKeepsToken(t: Tables, state: int, unread: seq<int>, c1: seq<seq<int>>,
                                             c2: seq<seq<int>>, after: seq<seq<int>>, pos: int)
    requires (forall k :: 0 <= k < |c1| ==> c1[k] != []) && (forall k :: 0 <= k < |c2| ==> c2[k] != [])
    requires Flat(c1) == Flat(c2)
    ensures Munch(t, state, unread + Symbols(c1 + after), pos, Memory(-1, pos)) ==
      Munch(t, state, unread + Symbols(c2 + after), pos, Memory(-1, pos))
  {
    CuttingKeepsSymbols(c1, after);
    CuttingKeepsSymbols(c2, after);
  }

  // ----- the memory finds the last backtrack state -----

  ghost predicate Decides(t: Tables, state: int, syms: seq<int>, pos: int, last: Memory, r: Result) {
    PathLength(t, state, syms);
    var path := Path(t, state, syms);
    var n := |path| - 1;
    if Accepts(t, path[n]) then r == Token(-t.base(path[n]) - 1, pos + Chars(syms[..n]))
    else if n >= |syms| then r == Unfinished
    else
      && (forall j :: LastBacktrack(t, path, j) ==> r == Token(t.backtrk(path[j]), pos + Chars(syms[..j])))
      && ((forall j :: 0 <= j < |path| ==> t.backtrk(path[j]) < 0) ==>
            r == if last.action == -1 then EmptyToken else Token(last.action, last.pos))
  }

  lemma {:induction false} MunchDecides(t: Tables, state: int, syms: seq<int>, pos: int, last: Memory)
    ensures Decides(t, state, syms, pos, last, Munch(t, state, syms, pos, last))
    decreases |syms|
  {
    if !(t.base(state) < 0 || syms == [] || Successor(t, state, syms[0]) < 0) {
      var next, step := Successor(t, state, syms[0]), if syms[0] == END then 0 else 1;
      var noted := Noted(t, state, pos, last);
      MunchDecides(t, next, syms[1..], pos + step, noted);
      DecidesBack(t, state, syms, pos, last, Munch(t, state, syms, pos, last));
    } else {
      assert Path(t, state, syms) == [state];
      assert Chars(syms[..0]) == 0;
    }
  }

  lemma DecidesBack(t: Tables, state: int, syms: seq<int>, pos: int, last: Memory, r: Result)
    requires t.base(state) >= 0 && syms != [] && Successor(t, state, syms[0]) >= 0
    requires Decides(t, Successor(t, state, syms[0]), syms[1..], pos + (if syms[0] == END then 0 else 1),
                     Noted(t, state, pos, last), r)
    ensures Decides(t, state, syms, pos, last, r)
  {
    hide Path, Successor, Chars, Noted;
    var next := Successor(t, state, syms[0]);
    PathLength(t, next, syms[1..]);
    PathStep(t, state, syms);
    var path, tail := Path(t, state, syms), Path(t, next, syms[1..]);
    CharsFront(syms, |tail|);
    assert path[|path| - 1] == tail[|tail| - 1];
    if !Accepts(t, tail[|tail| - 1]) && |tail| <= |syms| - 1 {
      forall j | LastBacktrack(t, path, j)
        ensures r == Token(t.backtrk(path[j]), pos + Chars(syms[..j]))
      {
        TokenBack(t, state, syms, pos, last, r, j);
      }
      LastlyNone(t, state, tail, pos, last);
    }
  }

  lemma PathStep(t: Tables, state: int, syms: seq<int>)
    requires t.base(state) >= 0 && syms != [] && Successor(t, state, syms[0]) >= 0
    ensures Path(t, state, syms) == [state] + Path(t, Successor(t, state, syms[0]), syms[1..])
  {
  }

  lemma LastlyNone(t: Tables, state: int, tail: seq<int>, pos: int, last: Memory)
    ensures (forall j :: 0 <= j < |[state] + tail| ==> t.backtrk(([state] + tail)[j]) < 0) ==>
      (forall j :: 0 <= j < |tail| ==> t.backtrk(tail[j]) < 0) && Noted(t, state, pos, last) == last
  {
    NoneLater(t, state, tail);
    assert ([state] + tail)[0] == state;
  }

  lemma TokenBack(t: Tables, state: int, syms: seq<int>, pos: int, last: Memory, r: Result, j: nat)
    requires t.base(state) >= 0 && syms != [] && Successor(t, state, syms[0]) >= 0
    requires Decides(t, Successor(t, state, syms[0]), syms[1..], pos + (if syms[0] == END then 0 else 1),
                     Noted(t, state, pos, last), r)
    requires var tail := Path(t, Successor(t, state, syms[0]), syms[1..]);
      && !Accepts(t, tail[|tail| - 1]) && |tail| <= |syms| - 1 && LastBacktrack(t, [state] + tail, j)
    ensures r == Token(t.backtrk(Path(t, state, syms)[j]), pos + Chars(syms[..j]))
  {
    hide Path, Successor, Chars;
    PathStep(t, state, syms);
    var tail := Path(t, Successor(t, state, syms[0]), syms[1..]);
    if j > 0 {
      BacktrackBack(t, state, tail, j);
      CharsFront(syms, j);
    } else {
      NoneBack(t, state, tail);
      NoChars(syms);
    }
  }

  lemma NoChars(syms: seq<int>)
    ensures Chars(syms[..0]) == 0
  {
  }

  lemma BacktrackBack(t: Tables, state: int, tail: seq<int>, j: int)
    requires LastBacktrack(t, [state] + tail, j) && j > 0
    ensures LastBacktrack(t, tail, j - 1)
  {
    var path := [state] + tail;
    forall i | j - 1 < i < |tail|
      ensures t.backtrk(tail[i]) < 0
    {
      assert tail[i] == path[i + 1];
    }
  }

  lemma NoneBack(t: Tables, state: int, tail: seq<int>)
    requires LastBacktrack(t, [state] + tail, 0)
    ensures forall i :: 0 <= i < |tail| ==> t.backtrk(tail[i]) < 0
  {
    var path := [state] + tail;
    forall i | 0 <= i < |tail|
      ensures t.backtrk(tail[i]) < 0
    {
      assert tail[i] == path[i + 1];
    }
  }

  lemma NoneLater(t: Tables, state: int, tail: seq<int>)
    ensures (forall i :: 0 <= i < |[state] + tail| ==> t.backtrk(([state] + tail)[i]) < 0) ==>
      t.backtrk(state) < 0 && forall i :: 0 <= i < |tail| ==> t.backtrk(tail[i]) < 0
  {
    var path := [state] + tail;
    if forall i :: 0 <= i < |path| ==> t.backtrk(path[i]) < 0 {
      assert path[0] == state;
      forall i | 0 <= i < |tail|
        ensures t.backtrk(tail[i]) < 0
      {
        assert tail[i] == path[i + 1];
      }
    }
  }

  lemma CharsFront(syms: seq<int>, k: int)
    requires 1 <= k <= |syms|
    ensures Chars(syms[..k]) == (if syms[0] == END then 0 else 1) + Chars(syms[1..][..k - 1])
  {
    assert syms[..k][1..] == syms[1..][..k - 1];
  }

  lemma {:induction false} SomeBacktrack(t: Tables, path: seq<int>)
    ensures (exists j :: LastBacktrack(t, path, j)) || (forall j :: 0 <= j < |path| ==> t.backtrk(path[j]) < 0)
  {
    if path != [] {
      var n := |path| - 1;
      SomeBacktrack(t, path[..n]);
      if t.backtrk(path[n]) >= 0 {
        assert LastBacktrack(t, path, n);
      } else if j :| LastBacktrack(t, path[..n], j) {
        assert LastBacktrack(t, path, j);
      }
    }
  }

  /** The engine's answer is maximal munch. */
  lemma {:induction false} MunchIsMaximal(t: Tables, state: int, syms: seq<int>, pos: int)
    ensures Munched(t, state, syms, pos, Munch(t, state, syms, pos, Memory(-1, pos)))
  {
    MunchDecides(t, state, syms, pos, Memory(-1, pos));
    PathLength(t, state, syms);
    SomeBacktrack(t, Path(t, state, syms));
  }
}
