/** First-order, acyclic OCaml values as the polymorphic primitives see them, and their structural order. */
module OcamlValue {
  import opened Bytes

  const FORWARD_TAG := 250
  const OBJECT_TAG := 248
  const STRING_TAG := 252
  const DOUBLE_TAG := 253
  const DOUBLE_ARRAY_TAG := 254

  /** Blocks carry their address `id`; doubles are their 64 bits. */
  datatype Value =
    | Long(n: int)
    | Forward(id: int, target: Value)
    | Str(id: int, s: seq<byte>)
    | Dbl(id: int, bits: int)
    | Dbls(id: int, ds: seq<int>)
    | Object(id: int, oid: int)
    | Block(id: int, tag: int, fs: seq<Value>)

  predicate LongRange(n: int) {
    -0x4000_0000_0000_0000 <= n < 0x4000_0000_0000_0000
  }

  predicate Bits64(b: int) {
    0 <= b < 0x1_0000_0000_0000_0000
  }

  /** Machine ranges; plain blocks have tags below the special ones. */
  predicate WellFormed(v: Value) {
    match v
    case Long(n) => LongRange(n)
    case Forward(_, t) => WellFormed(t)
    case Str(_, s) => |s| < 0x200_0000_0000_0000
    case Dbl(_, b) => Bits64(b)
    case Dbls(_, ds) => |ds| < 0x40_0000_0000_0000 && forall i :: 0 <= i < |ds| ==> Bits64(ds[i])
    case Object(_, oid) => LongRange(oid)
    case Block(_, tag, fs) =>
      0 <= tag < 244 && |fs| < 0x40_0000_0000_0000 && forall i :: 0 <= i < |fs| ==> WellFormed(fs[i])
  }

  function Tag(v: Value): int
    requires !v.Long?
  {
    match v
    case Forward(_, _) => FORWARD_TAG
    case Str(_, _) => STRING_TAG
    case Dbl(_, _) => DOUBLE_TAG
    case Dbls(_, _) => DOUBLE_ARRAY_TAG
    case Object(_, _) => OBJECT_TAG
    case Block(_, tag, _) => tag
  }

  // ----- the order -----

  datatype Order = Less | Equal | Greater | Unordered

  function OfInt(n: int): Order {
    if n < 0 then Less else if n > 0 then Greater else Equal
  }

  function Then(o: Order, next: Order): Order {
    if o == Equal then next else o
  }

  predicate IsNaN(b: int) {
    b / 0x10_0000_0000_0000 % 0x800 == 0x7FF && b % 0x10_0000_0000_0000 != 0
  }

  /** Sign and magnitude: orders all doubles that are not NaN, with -0 equal to +0. */
  function Key(b: int): int {
    if b >= 0x8000_0000_0000_0000 then 0x8000_0000_0000_0000 - b else b
  }

  /** IEEE comparison; with `total`, NaN equals NaN and is below every other float. */
  function CompareDouble(a: int, b: int, total: bool): Order {
    if !IsNaN(a) && !IsNaN(b) then OfInt(Key(a) - Key(b))
    else if !total then Unordered
    else if !IsNaN(a) then Greater
    else if !IsNaN(b) then Less
    else Equal
  }

  function CompareBytes(s: seq<byte>, t: seq<byte>): Order {
    if s == [] || t == [] then OfInt(|s| - |t|)
    else Then(OfInt(s[0] as int - t[0] as int), CompareBytes(s[1..], t[1..]))
  }

  function CompareDoubles(s: seq<int>, t: seq<int>, total: bool): Order
    requires |s| == |t|
  {
    if s == [] then Equal else Then(CompareDouble(s[0], t[0], total), CompareDoubles(s[1..], t[1..], total))
  }

  /** The recursive meaning of structural comparison. */
  function Compare(v: Value, w: Value, total: bool): Order
    decreases v, w, 1
  {
    if v.Forward? then Compare(v.target, w, total)
    else if w.Forward? then Compare(v, w.target, total)
    else if v.Long? && w.Long? then OfInt(v.n - w.n)
    else if v.Long? then Less
    else if w.Long? then Greater
    else if Tag(v) != Tag(w) then OfInt(Tag(v) - Tag(w))
    else
      match (v, w)
      case (Str(_, s), Str(_, t)) => CompareBytes(s, t)
      case (Dbl(_, a), Dbl(_, b)) => CompareDouble(a, b, total)
      case (Dbls(_, s), Dbls(_, t)) =>
        if |s| != |t| then OfInt(|s| - |t|) else CompareDoubles(s, t, total)
      case (Object(_, a), Object(_, b)) => OfInt(a - b)
      case (Block(_, _, fs), Block(_, _, gs)) =>
        if |fs| != |gs| then OfInt(|fs| - |gs|) else CompareAll(fs, gs, total)
      case _ => Equal
  }

  function CompareAll(fs: seq<Value>, gs: seq<Value>, total: bool): Order
    requires |fs| == |gs|
    decreases fs, gs, 0
  {
    if fs == [] then Equal else Then(Compare(fs[0], gs[0], total), CompareAll(fs[1..], gs[1..], total))
  }

  // ----- a total preorder -----

  function Flip(o: Order): Order {
    match o
    case Less => Greater
    case Greater => Less
    case _ => o
  }

  lemma FlipBytes(s: seq<byte>, t: seq<byte>)
    ensures CompareBytes(t, s) == Flip(CompareBytes(s, t))
  {
  }

  lemma FlipDoubles(s: seq<int>, t: seq<int>, total: bool)
    requires |s| == |t|
    ensures CompareDoubles(t, s, total) == Flip(CompareDoubles(s, t, total))
  {
  }

  /** Swapping the arguments flips the result, in total and in partial mode. */
  lemma {:induction false} CompareFlips(v: Value, w: Value, total: bool)
    requires WellFormed(v) && WellFormed(w)
    ensures Compare(w, v, total) == Flip(Compare(v, w, total))
    decreases v, w, 1
  {
    if v.Forward? {
      CompareFlips(v.target, w, total);
      UnwrapRight(w, v, total);
    } else if w.Forward? {
      CompareFlips(v, w.target, total);
    } else if v.Block? && w.Block? && v.tag == w.tag && |v.fs| == |w.fs| {
      CompareAllFlips(v.fs, w.fs, total);
    } else if v.Str? && w.Str? {
      FlipBytes(v.s, w.s);
    } else if v.Dbls? && w.Dbls? && |v.ds| == |w.ds| {
      FlipDoubles(v.ds, w.ds, total);
    }
  }

  lemma {:induction false} UnwrapRight(v: Value, w: Value, total: bool)
    requires w.Forward?
    ensures Compare(v, w, total) == Compare(v, w.target, total)
  {
    if v.Forward? {
      UnwrapRight(v.target, w, total);
    }
  }

  lemma {:induction false} CompareAllFlips(fs: seq<Value>, gs: seq<Value>, total: bool)
    requires |fs| == |gs|
    requires forall i :: 0 <= i < |fs| ==> WellFormed(fs[i])
    requires forall i :: 0 <= i < |gs| ==> WellFormed(gs[i])
    ensures CompareAll(gs, fs, total) == Flip(CompareAll(fs, gs, total))
    decreases fs, gs, 0
  {
    if fs != [] {
      CompareFlips(fs[0], gs[0], total);
      CompareAllFlips(fs[1..], gs[1..], total);
    }
  }

  /** Composition of two comparisons neither of which is Greater. */
  function Chain(a: Order, b: Order): Order {
    if a == Equal then b else a
  }

  predicate AtMost(o: Order) {
    o == Less || o == Equal
  }

  lemma TransitiveBytes(s: seq<byte>, t: seq<byte>, r: seq<byte>)
    requires AtMost(CompareBytes(s, t)) && AtMost(CompareBytes(t, r))
    ensures CompareBytes(s, r) == Chain(CompareBytes(s, t), CompareBytes(t, r))
  {
    if s != [] && t != [] && r != [] && s[0] == t[0] == r[0] {
      TransitiveBytes(s[1..], t[1..], r[1..]);
    }
  }

  lemma TransitiveDoubles(s: seq<int>, t: seq<int>, r: seq<int>)
    requires |s| == |t| == |r|
    requires AtMost(CompareDoubles(s, t, true)) && AtMost(CompareDoubles(t, r, true))
    ensures CompareDoubles(s, r, true) == Chain(CompareDoubles(s, t, true), CompareDoubles(t, r, true))
  {
    if s != [] {
      hide IsNaN, Key;
      if CompareDouble(s[0], t[0], true) == Equal && CompareDouble(t[0], r[0], true) == Equal {
        TransitiveDoubles(s[1..], t[1..], r[1..]);
      }
    }
  }

  /** Total comparison is transitive; with CompareFlips and TotalDecides it is a total preorder. */
  lemma {:induction false} CompareTransitive(u: Value, v: Value, w: Value)
    requires WellFormed(u) && WellFormed(v) && WellFormed(w)
    requires AtMost(Compare(u, v, true)) && AtMost(Compare(v, w, true))
    ensures Compare(u, w, true) == Chain(Compare(u, v, true), Compare(v, w, true))
    decreases u, v, w, 1
  {
    if u.Forward? {
      CompareTransitive(u.target, v, w);
    } else if v.Forward? {
      UnwrapRight(u, v, true);
      CompareTransitive(u, v.target, w);
    } else if w.Forward? {
      UnwrapRight(u, w, true);
      UnwrapRight(v, w, true);
      CompareTransitive(u, v, w.target);
    } else {
      PlainTransitive(u, v, w);
    }
  }

  lemma {:induction false} PlainTransitive(u: Value, v: Value, w: Value)
    requires WellFormed(u) && WellFormed(v) && WellFormed(w)
    requires !u.Forward? && !v.Forward? && !w.Forward?
    requires AtMost(Compare(u, v, true)) && AtMost(Compare(v, w, true))
    ensures Compare(u, w, true) == Chain(Compare(u, v, true), Compare(v, w, true))
    decreases u, v, w, 0
  {
    if u.Block? && v.Block? && w.Block? && u.tag == v.tag == w.tag && |u.fs| == |v.fs| == |w.fs| {
      AllTransitive(u.fs, v.fs, w.fs);
    } else if u.Str? && v.Str? && w.Str? {
      TransitiveBytes(u.s, v.s, w.s);
    } else if u.Dbls? && v.Dbls? && w.Dbls? && |u.ds| == |v.ds| == |w.ds| {
      TransitiveDoubles(u.ds, v.ds, w.ds);
    }
  }

  lemma {:induction false} AllTransitive(us: seq<Value>, vs: seq<Value>, ws: seq<Value>)
    requires |us| == |vs| == |ws|
    requires forall i :: 0 <= i < |us| ==> WellFormed(us[i]) && WellFormed(vs[i]) && WellFormed(ws[i])
    requires AtMost(CompareAll(us, vs, true)) && AtMost(CompareAll(vs, ws, true))
    ensures CompareAll(us, ws, true) == Chain(CompareAll(us, vs, true), CompareAll(vs, ws, true))
    decreases us, vs, ws, 0
  {
    if us != [] {
      hide Compare;
      CompareTransitive(us[0], vs[0], ws[0]);
      if Compare(us[0], vs[0], true) == Equal && Compare(vs[0], ws[0], true) == Equal {
        AllTransitive(us[1..], vs[1..], ws[1..]);
      }
    }
  }

  lemma DoublesDecide(s: seq<int>, t: seq<int>, total: bool)
    requires |s| == |t|
    ensures CompareDoubles(s, t, true) != Unordered
    ensures CompareDoubles(s, t, total) != Unordered ==> CompareDoubles(s, t, total) == CompareDoubles(s, t, true)
    ensures CompareDoubles(s, s, true) == Equal
  {
    hide IsNaN, Key;
  }

  lemma {:induction false} BytesReflexive(s: seq<byte>)
    ensures CompareBytes(s, s) == Equal
  {
    if s != [] {
      BytesReflexive(s[1..]);
    }
  }

  lemma BytesDecide(s: seq<byte>, t: seq<byte>)
    ensures CompareBytes(s, t) != Unordered
  {
  }

  /** Total comparison always decides, and a partial result other than Unordered is the total one. */
  lemma {:induction false} TotalDecides(v: Value, w: Value)
    ensures Compare(v, w, true) != Unordered
    ensures Compare(v, w, false) != Unordered ==> Compare(v, w, false) == Compare(v, w, true)
    decreases v, w, 1
  {
    if v.Forward? {
      TotalDecides(v.target, w);
    } else if w.Forward? {
      TotalDecides(v, w.target);
    } else if v.Block? && w.Block? && v.tag == w.tag && |v.fs| == |w.fs| {
      AllDecide(v.fs, w.fs);
    } else if v.Str? && w.Str? {
      BytesDecide(v.s, w.s);
    } else if v.Dbls? && w.Dbls? && |v.ds| == |w.ds| {
      DoublesDecide(v.ds, w.ds, false);
    }
  }

  lemma {:induction false} AllDecide(fs: seq<Value>, gs: seq<Value>)
    requires |fs| == |gs|
    ensures CompareAll(fs, gs, true) != Unordered
    ensures CompareAll(fs, gs, false) != Unordered ==> CompareAll(fs, gs, false) == CompareAll(fs, gs, true)
    decreases fs, gs, 0
  {
    if fs != [] {
      TotalDecides(fs[0], gs[0]);
      AllDecide(fs[1..], gs[1..]);
    }
  }

  lemma {:induction false} CompareReflexive(v: Value)
    ensures Compare(v, v, true) == Equal
    decreases v, 1
  {
    match v
    case Forward(_, t) =>
      CompareReflexive(t);
      UnwrapRight(t, v, true);
    case Block(_, _, fs) => AllReflexive(fs);
    case Str(_, s) => BytesReflexive(s);
    case Dbls(_, ds) => DoublesDecide(ds, ds, true);
    case _ =>
  }

  lemma {:induction false} AllReflexive(fs: seq<Value>)
    ensures CompareAll(fs, fs, true) == Equal
    decreases fs, 0
  {
    if fs != [] {
      CompareReflexive(fs[0]);
      AllReflexive(fs[1..]);
    }
  }
}
