/** What the structural order says about two values, without its recursion: numbers, bytes, tags, sizes, first
    difference. */
module ValueOrder {
  import opened Bytes
  import opened OcamlValue
  import opened FloatRounding

  // ----- doubles -----

  const SIGN_BIT := 0x8000_0000_0000_0000

  function WithoutSign(b: int): (a: nat)
    requires Bits64(b)
    ensures a < SIGN_BIT
  {
    if b >= SIGN_BIT then b - SIGN_BIT else b
  }

  /** The number that exponent and significand denote, in units of the least double; infinity stands for 2^1024. */
  function Magnitude(a: nat): nat
    requires ExpOf(a) >= MIN_EXP
  {
    SigOf(a) * Pow2(ExpOf(a) - MIN_EXP)
  }

  function Number(b: int): int
    requires Bits64(b)
  {
    ExponentFits(WithoutSign(b));
    var m: int := Magnitude(WithoutSign(b));
    if b >= SIGN_BIT then -m else m
  }

  lemma ExponentFits(a: nat)
    ensures ExpOf(a) >= MIN_EXP
  {
    if a >= P52 {
      assert a / P52 >= 1;
    }
  }

  lemma {:induction false} PowerGrows(i: nat, j: nat)
    requires i < j
    ensures 2 * Pow2(i) <= Pow2(j)
    decreases j
  {
    if i + 1 < j {
      PowerGrows(i, j - 1);
    }
  }

  lemma Products(a: nat, b: nat, p: nat, q: nat)
    requires (a < b && 0 < p <= q) || (a < 2 * b && 2 * p <= q && 0 < p)
    ensures a * p < b * q
  {
    if a < b && p <= q {
      assert b * q - a * p == (b - a) * q + a * (q - p);
      assert (b - a) * q > 0;
      assert a * (q - p) >= 0;
    } else {
      assert b * q == (2 * b) * p + b * (q - 2 * p);
      assert b * (q - 2 * p) >= 0;
      assert (2 * b) * p - a * p == (2 * b - a) * p > 0;
    }
  }

  lemma MagnitudeGrows(a: nat, b: nat)
    requires a < b
    ensures ExpOf(a) >= MIN_EXP && ExpOf(b) >= MIN_EXP && Magnitude(a) < Magnitude(b)
  {
    hide Pow2;
    ExponentFits(a);
    ExponentFits(b);
    var i, j := ExpOf(a) - MIN_EXP, ExpOf(b) - MIN_EXP;
    assert a == P52 * (a / P52) + a % P52 && b == P52 * (b / P52) + b % P52;
    if i < j {
      PowerGrows(i, j);
    }
    assert i <= j && (i == j ==> SigOf(a) < SigOf(b)) && SigOf(a) < 2 * SigOf(b) by {
      if a >= P52 && a / P52 == b / P52 {
      }
    }
    Products(SigOf(a), SigOf(b), Pow2(i), Pow2(j));
  }

  /** NaN is what is beyond infinity. */
  lemma BeyondInfinity(b: int)
    requires Bits64(b)
    ensures IsNaN(b) <==> WithoutSign(b) > INFINITY
  {
    var a := WithoutSign(b);
    assert b / P52 == (if b >= SIGN_BIT then 2048 else 0) + a / P52 && b % P52 == a % P52;
    assert a == P52 * (a / P52) + a % P52 && a / P52 < 2048;
  }

  /** Doubles compare as the numbers they denote; NaN compares with nothing, or in total mode is equal to itself and
      below all others. */
  lemma {:induction false} DoublesMean(a: int, b: int, total: bool)
    requires Bits64(a) && Bits64(b)
    ensures var o := CompareDouble(a, b, total);
      if !IsNaN(a) && !IsNaN(b)
      then (o == Less <==> Number(a) < Number(b)) && (o == Equal <==> Number(a) == Number(b)) && o != Unordered
      else if total then (o == Less <==> IsNaN(a) && !IsNaN(b)) && (o == Equal <==> IsNaN(a) && IsNaN(b)) &&
        o != Unordered
      else o == Unordered
  {
    hide Magnitude, IsNaN;
    var x, y := WithoutSign(a), WithoutSign(b);
    ExponentFits(x);
    ExponentFits(y);
    ExponentFits(0);
    assert Magnitude(0) == 0 by { ZeroMagnitude(); }
    if x < y {
      MagnitudeGrows(x, y);
    } else if y < x {
      MagnitudeGrows(y, x);
    }
    if x > 0 {
      MagnitudeGrows(0, x);
    }
    if y > 0 {
      MagnitudeGrows(0, y);
    }
  }

  lemma ZeroMagnitude()
    ensures ExpOf(0) >= MIN_EXP && Magnitude(0) == 0
  {
  }

  ghost predicate DoubleBelow(a: int, b: int, total: bool)
    requires Bits64(a) && Bits64(b)
  {
    if !IsNaN(a) && !IsNaN(b) then Number(a) < Number(b) else total && IsNaN(a) && !IsNaN(b)
  }

  ghost predicate DoubleSame(a: int, b: int, total: bool)
    requires Bits64(a) && Bits64(b)
  {
    if !IsNaN(a) && !IsNaN(b) then Number(a) == Number(b) else total && IsNaN(a) && IsNaN(b)
  }

  // ----- strings -----

  /** Below by the smaller byte where they first differ, or as a proper prefix. */
  ghost predicate BytesBelow(s: seq<byte>, t: seq<byte>) {
    exists i :: BytesBelowAt(s, t, i)
  }

  ghost predicate BytesBelowAt(s: seq<byte>, t: seq<byte>, i: int) {
    && 0 <= i <= |s| && i < |t|
    && (forall j :: 0 <= j < i ==> s[j] == t[j])
    && (i < |s| ==> s[i] < t[i])
  }

  lemma {:induction false} StringsMean(s: seq<byte>, t: seq<byte>)
    ensures CompareBytes(s, t) == Less <==> BytesBelow(s, t)
    ensures CompareBytes(s, t) == Equal <==> s == t
    ensures CompareBytes(s, t) != Unordered
  {
    if s == [] {
      assert t != [] ==> BytesBelowAt(s, t, 0);
    } else if t != [] {
      StringsMean(s[1..], t[1..]);
      if s[0] < t[0] {
        assert BytesBelowAt(s, t, 0);
      } else if s[0] == t[0] {
        assert s == [s[0]] + s[1..] && t == [t[0]] + t[1..];
        if BytesBelow(s, t) {
          var i :| BytesBelowAt(s, t, i);
          assert BytesBelowAt(s[1..], t[1..], i - 1);
        }
        if BytesBelow(s[1..], t[1..]) {
          var i :| BytesBelowAt(s[1..], t[1..], i);
          assert BytesBelowAt(s, t, i + 1);
        }
      }
    }
  }

  // ----- the first difference -----

  ghost predicate FieldsDifferAt(fs: seq<Value>, gs: seq<Value>, total: bool, o: Order, i: int)
    requires |fs| == |gs|
  {
    0 <= i < |fs| && Compare(fs[i], gs[i], total) == o && forall j :: 0 <= j < i ==>
      Compare(fs[j], gs[j], total) == Equal
  }

  ghost predicate DoublesDifferAt(s: seq<int>, t: seq<int>, total: bool, o: Order, i: int)
    requires |s| == |t|
  {
    0 <= i < |s| && CompareDouble(s[i], t[i], total) == o &&
    forall j :: 0 <= j < i ==> CompareDouble(s[j], t[j], total) == Equal
  }

  /** The first pair of fields that is not equal decides; without one the blocks are equal. */
  lemma {:induction false} FirstFieldDecides(fs: seq<Value>, gs: seq<Value>, total: bool, o: Order)
    requires |fs| == |gs|
    ensures o != Equal ==> (CompareAll(fs, gs, total) == o <==> exists i :: FieldsDifferAt(fs, gs, total, o, i))
    ensures CompareAll(fs, gs, total) == Equal <==> forall i :: 0 <= i < |fs| ==> Compare(fs[i], gs[i], total) == Equal
  {
    hide Compare;
    if fs != [] {
      FirstFieldDecides(fs[1..], gs[1..], total, o);
      var first := Compare(fs[0], gs[0], total);
      assert forall i :: 1 <= i < |fs| ==> fs[i] == fs[1..][i - 1] && gs[i] == gs[1..][i - 1];
      if first == o && o != Equal {
        assert FieldsDifferAt(fs, gs, total, o, 0);
      }
      forall i | FieldsDifferAt(fs, gs, total, o, i) && i > 0
        ensures FieldsDifferAt(fs[1..], gs[1..], total, o, i - 1)
      {
        forall j | 0 <= j < i - 1
          ensures Compare(fs[1..][j], gs[1..][j], total) == Equal
        {
          assert fs[1..][j] == fs[j + 1] && gs[1..][j] == gs[j + 1];
        }
      }
      forall i | FieldsDifferAt(fs[1..], gs[1..], total, o, i) && first == Equal
        ensures FieldsDifferAt(fs, gs, total, o, i + 1)
      {
        forall j | 0 <= j < i + 1
          ensures Compare(fs[j], gs[j], total) == Equal
        {
          if j > 0 {
            assert fs[1..][j - 1] == fs[j] && gs[1..][j - 1] == gs[j];
          }
        }
      }
    }
  }

  lemma {:induction false} FirstDoubleDecides(s: seq<int>, t: seq<int>, total: bool, o: Order)
    requires |s| == |t|
    ensures o != Equal ==> (CompareDoubles(s, t, total) == o <==> exists i :: DoublesDifferAt(s, t, total, o, i))
    ensures CompareDoubles(s, t, total) == Equal <==>
      forall i :: 0 <= i < |s| ==> CompareDouble(s[i], t[i], total) == Equal
  {
    hide CompareDouble;
    if s != [] {
      FirstDoubleDecides(s[1..], t[1..], total, o);
      var first := CompareDouble(s[0], t[0], total);
      assert forall i :: 1 <= i < |s| ==> s[i] == s[1..][i - 1] && t[i] == t[1..][i - 1];
      if first == o && o != Equal {
        assert DoublesDifferAt(s, t, total, o, 0);
      }
      forall i | DoublesDifferAt(s, t, total, o, i) && i > 0
        ensures DoublesDifferAt(s[1..], t[1..], total, o, i - 1)
      {
        forall j | 0 <= j < i - 1
          ensures CompareDouble(s[1..][j], t[1..][j], total) == Equal
        {
          assert s[1..][j] == s[j + 1] && t[1..][j] == t[j + 1];
        }
      }
      forall i | DoublesDifferAt(s[1..], t[1..], total, o, i) && first == Equal
        ensures DoublesDifferAt(s, t, total, o, i + 1)
      {
        forall j | 0 <= j < i + 1
          ensures CompareDouble(s[j], t[j], total) == Equal
        {
          if j > 0 {
            assert s[1..][j - 1] == s[j] && t[1..][j - 1] == t[j];
          }
        }
      }
    }
  }

  // ----- values -----

  /** Forward links do not count. */
  lemma {:induction false} LinksDoNotCount(id: int, v: Value, w: Value, total: bool)
    ensures Compare(Forward(id, v), w, total) == Compare(v, w, total)
    ensures Compare(v, Forward(id, w), total) == Compare(v, w, total)
  {
    UnwrapRight(v, Forward(id, w), total);
  }

  /** When one value is below another, links aside: integers before blocks and by size, then smaller tags, then by what
      is in the blocks. Only fields are compared in turn. */
  ghost predicate Below(v: Value, w: Value, total: bool)
    requires WellFormed(v) && WellFormed(w) && !v.Forward? && !w.Forward?
  {
    if v.Long? then w.Long? ==> v.n < w.n
    else if w.Long? then false
    else if Tag(v) != Tag(w) then Tag(v) < Tag(w)
    else
      match v
      case Str(_, s) => BytesBelow(s, w.s)
      case Dbl(_, b) => DoubleBelow(b, w.bits, total)
      case Dbls(_, ds) => |ds| < |w.ds| || (|ds| == |w.ds| && exists i :: DoublesDifferAt(ds, w.ds, total, Less, i))
      case Object(_, oid) => oid < w.oid
      case Block(_, _, fs) => |fs| < |w.fs| || (|fs| == |w.fs| && exists i :: FieldsDifferAt(fs, w.fs, total, Less, i))
  }

  /** When two values are equal. */
  ghost predicate Same(v: Value, w: Value, total: bool)
    requires WellFormed(v) && WellFormed(w) && !v.Forward? && !w.Forward?
  {
    if v.Long? || w.Long? then v == w
    else
      Tag(v) == Tag(w) &&
      match v
      case Str(_, s) => s == w.s
      case Dbl(_, b) => DoubleSame(b, w.bits, total)
      case Dbls(_, ds) =>
        |ds| == |w.ds| && forall i :: 0 <= i < |ds| ==> CompareDouble(ds[i], w.ds[i], total) == Equal
      case Object(_, oid) => oid == w.oid
      case Block(_, _, fs) => |fs| == |w.fs| && forall i :: 0 <= i < |fs| ==> Compare(fs[i], w.fs[i], total) == Equal
  }

  /** The order is what it says. */
  lemma {:induction false} OrderMeans(v: Value, w: Value, total: bool)
    requires WellFormed(v) && WellFormed(w) && !v.Forward? && !w.Forward?
    ensures Compare(v, w, total) == Less <==> Below(v, w, total)
    ensures Compare(v, w, total) == Equal <==> Same(v, w, total)
    ensures Compare(v, w, total) == Greater <==> Below(w, v, total)
  {
    CompareFlips(v, w, total);
    LessMeans(v, w, total);
    LessMeans(w, v, total);
  }

  lemma LessMeans(v: Value, w: Value, total: bool)
    requires WellFormed(v) && WellFormed(w) && !v.Forward? && !w.Forward?
    ensures Compare(v, w, total) == Less <==> Below(v, w, total)
    ensures Compare(v, w, total) == Equal <==> Same(v, w, total)
  {
    if !v.Long? && !w.Long? && Tag(v) == Tag(w) {
      hide Number, CompareAll, CompareBytes, CompareDouble, CompareDoubles, BytesBelow, FieldsDifferAt, DoublesDifferAt;
      match v
      case Str(_, s) => StringsMean(s, w.s);
      case Dbl(_, b) => DoublesMean(b, w.bits, total);
      case Dbls(_, ds) => if |ds| == |w.ds| { FirstDoubleDecides(ds, w.ds, total, Less); }
      case Object(_, oid) =>
      case Block(_, _, fs) => if |fs| == |w.fs| { FirstFieldDecides(fs, w.fs, total, Less); }
    }
  }
}
