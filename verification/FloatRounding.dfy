/** Round to nearest, ties to even: integers to 53 bits, and scaling by a power of two, as binary64 does them. */
module FloatRounding {
  import opened Bytes

  const P52 := 0x10_0000_0000_0000
  const P53 := 0x20_0000_0000_0000

  lemma {:induction false} Pow2Add(a: nat, b: nat)
    ensures Pow2(a + b) == Pow2(a) * Pow2(b)
    decreases b
  {
    if b > 0 {
      Pow2Add(a, b - 1);
      Pow2Double(a + b);
      Pow2Double(b);
      MulTwo(Pow2(a), Pow2(b - 1));
    }
  }

  lemma Pow2Double(n: nat)
    requires n > 0
    ensures Pow2(n) == 2 * Pow2(n - 1)
  {
  }

  lemma MulTwo(x: nat, y: nat)
    ensures x * (2 * y) == 2 * (x * y)
  {
  }

  // ----- division, kept apart from its arithmetic -----

  function Quot(n: nat, p: nat): nat
    requires p > 0
  {
    n / p
  }

  function Rem(n: nat, p: nat): (r: nat)
    requires p > 0
    ensures r < p
  {
    n % p
  }

  lemma Division(n: nat, p: nat)
    requires p > 0
    ensures n == Quot(n, p) * p + Rem(n, p)
  {
  }

  lemma DivisionIs(n: nat, p: nat, q: nat, r: nat)
    requires p > 0 && n == q * p + r && r < p
    ensures Quot(n, p) == q && Rem(n, p) == r
  {
    ModUnique(n, p, q, r);
  }

  lemma MulNat(a: nat, p: nat)
    ensures a * p >= 0
  {
  }

  /** Multiples of `p` around `q * p`. */
  lemma Multiples(q: nat, w: nat, p: nat)
    ensures (q + 1) * p == q * p + p
    ensures w < q ==> w * p <= q * p - p
    ensures w > q + 1 ==> w * p >= q * p + 2 * p
  {
    if w < q {
      assert q * p == w * p + p + (q - w - 1) * p;
      MulNat(q - w - 1, p);
    } else if w > q + 1 {
      assert w * p == q * p + 2 * p + (w - q - 2) * p;
      MulNat(w - q - 2, p);
    }
  }

  // ----- rounding -----

  /** The quotient `q`, or the next one, by the remainder `r` of division by `p`. */
  function Rounded(q: nat, r: nat, p: nat): nat {
    if 2 * r > p || (2 * r == p && q % 2 == 1) then q + 1 else q
  }

  /** `n / p` rounded to the nearest integer, ties to the even one. */
  function RoundDiv(n: nat, p: nat): nat
    requires p > 0
  {
    Rounded(Quot(n, p), Rem(n, p), p)
  }

  /** Bits of `n` beyond the 53 of a significand. */
  function Excess(n: nat): nat {
    if n < P53 then 0 else 1 + Excess(n / 2)
  }

  function Unit(n: nat): (p: nat)
    ensures p > 0
  {
    Pow2(Excess(n))
  }

  /** The integer rounded to 53 significant bits: what converting it to a double gives. */
  function Round53(n: nat): nat {
    RoundDiv(n, Unit(n)) * Unit(n)
  }

  function Dist(a: int, b: int): nat {
    if a < b then b - a else a - b
  }

  /** No other multiple of the unit is nearer, and of two equally near the even one is taken. */
  lemma {:induction false} RoundDivNearest(n: nat, p: nat, w: nat)
    requires p > 0
    ensures Dist(n, RoundDiv(n, p) * p) <= Dist(n, w * p)
    ensures w != RoundDiv(n, p) && Dist(n, RoundDiv(n, p) * p) == Dist(n, w * p) ==> RoundDiv(n, p) % 2 == 0
  {
    hide Quot, Rem, Rounded;
    Division(n, p);
    NearestMultiple(n, p, Quot(n, p), Rem(n, p), w);
  }

  lemma NearestMultiple(n: nat, p: nat, q: nat, r: nat, w: nat)
    requires n == q * p + r && r < p
    ensures var v := Rounded(q, r, p);
      && Dist(n, v * p) <= Dist(n, w * p)
      && (w != v && Dist(n, v * p) == Dist(n, w * p) ==> v % 2 == 0)
  {
    Multiples(q, w, p);
    var base, at, next := q * p, w * p, (q + 1) * p;
    assert Rounded(q, r, p) * p == if Rounded(q, r, p) == q then base else next;
    NearestOf(n, p, q, r, base, w, at);
  }

  lemma NearestOf(n: nat, p: nat, q: nat, r: nat, base: int, w: nat, at: int)
    requires n == base + r && r < p
    requires (w == q ==> at == base) && (w == q + 1 ==> at == base + p)
    requires (w < q ==> at <= base - p) && (w > q + 1 ==> at >= base + 2 * p)
    ensures var v := Rounded(q, r, p);
      var there := if v == q then base else base + p;
      && Dist(n, there) <= Dist(n, at)
      && (w != v && Dist(n, there) == Dist(n, at) ==> v % 2 == 0)
  {
  }

  lemma {:induction false} UnitBounds(n: nat)
    ensures Quot(n, Unit(n)) < P53
    ensures n >= P52 ==> Quot(n, Unit(n)) >= P52
  {
    if n >= P53 {
      UnitBounds(n / 2);
      Halves(n, Unit(n / 2));
    } else {
      DivisionIs(n, 1, n, 0);
    }
  }

  lemma Halves(n: nat, p: nat)
    requires p > 0
    ensures Quot(n, 2 * p) == Quot(n / 2, p)
  {
    hide Quot, Rem;
    Division(n / 2, p);
    var q, r := Quot(n / 2, p), Rem(n / 2, p);
    assert n == q * (2 * p) + (2 * r + n % 2) by {
      assert q * (2 * p) == 2 * (q * p);
    }
    DivisionIs(n, 2 * p, q, 2 * r + n % 2);
  }

  // ----- a sticky bit -----

  /** The leading bits, with the low one set if any bit is lost. */
  function Sticky(lead: nat, lost: bool): nat {
    if lost && lead % 2 == 0 then lead + 1 else lead
  }

  /** Division in two steps. */
  lemma DivisionTwice(n: nat, p: nat, x: nat)
    requires p > 0 && x > 0
    ensures p * x > 0 && Quot(n, p * x) == Quot(Quot(n, x), p)
    ensures Rem(n, p * x) == Rem(Quot(n, x), p) * x + Rem(n, x)
  {
    hide Quot, Rem;
    var lead, r := Quot(n, x), Rem(n, x);
    var q, a := Quot(lead, p), Rem(lead, p);
    Division(n, x);
    Division(lead, p);
    assert n == q * (p * x) + (a * x + r) by {
      assert (q * p + a) * x == q * (p * x) + a * x;
    }
    assert a * x + r < p * x by {
      Multiples(p, a, x);
    }
    MulNat(a, x);
    DivisionIs(n, p * x, q, a * x + r);
  }

  /** Rounding after cutting bits off with a sticky bit is rounding the whole, as long as two more bits go. */
  lemma StickyRounds(n: nat, h: nat, x: nat)
    requires h > 0 && h % 2 == 0 && x > 0
    ensures RoundDiv(Sticky(Quot(n, x), Rem(n, x) != 0), 2 * h) == RoundDiv(n, 2 * h * x)
  {
    hide Quot, Rem, Rounded, Sticky;
    DivisionTwice(n, 2 * h, x);
    StickyMod(Quot(n, x), h, Rem(n, x) != 0);
    var q, a := Quot(Quot(n, x), 2 * h), Rem(Quot(n, x), 2 * h);
    MulNat(a, x);
    StickyRounded(q, a, h, Rem(n, x), x);
  }

  lemma StickyRounded(q: nat, a: nat, h: nat, r: nat, x: nat)
    requires h % 2 == 0 && r < x && a * x >= 0
    ensures Rounded(q, Sticky(a, r != 0), 2 * h) == Rounded(q, a * x + r, 2 * h * x)
  {
    StickyCompare(a, h, r, x);
  }

  /** Setting the low bit changes neither the quotient nor, but for that bit, the remainder. */
  lemma StickyMod(lead: nat, h: nat, lost: bool)
    requires h > 0
    ensures Quot(Sticky(lead, lost), 2 * h) == Quot(lead, 2 * h)
    ensures Rem(Sticky(lead, lost), 2 * h) == Sticky(Rem(lead, 2 * h), lost)
  {
    hide Quot, Rem;
    Division(lead, 2 * h);
    var q, a := Quot(lead, 2 * h), Rem(lead, 2 * h);
    assert q * (2 * h) == 2 * (q * h);
    assert lead % 2 == a % 2;
    DivisionIs(Sticky(lead, lost), 2 * h, q, Sticky(a, lost));
  }

  /** Against the half, an inexact remainder and one with its sticky bit compare alike. */
  lemma StickyCompare(a: nat, h: nat, r: nat, x: nat)
    requires h % 2 == 0 && r < x
    ensures 2 * Sticky(a, r != 0) > 2 * h <==> 2 * (a * x + r) > 2 * h * x
    ensures 2 * Sticky(a, r != 0) == 2 * h <==> 2 * (a * x + r) == 2 * h * x
  {
    if a < h {
      Multiples(h, a, x);
    } else if a > h {
      Multiples(a, h, x);
    }
    assert 2 * h * x == 2 * (h * x);
  }

  lemma {:induction false} ExcessCut(n: nat, x: nat)
    requires Quot(n, Pow2(x)) >= P53
    ensures Excess(n) == Excess(Quot(n, Pow2(x))) + x
    decreases x
  {
    hide Quot, Rem;
    Division(n, Pow2(x));
    if x == 0 {
      DivisionIs(n, 1, n, 0);
    } else {
      Halves(n, Pow2(x - 1));
      ExcessCut(n / 2, x - 1);
      Multiples(Quot(n, Pow2(x)), 0, Pow2(x));
      AtLeast(Quot(n, Pow2(x)), Pow2(x), Rem(n, Pow2(x)));
    }
  }

  lemma AtLeast(q: nat, p: nat, r: nat)
    requires p > 0
    ensures q * p + r >= q
  {
    assert q * p == q + q * (p - 1);
    MulNat(q, p - 1);
  }

  lemma ExcessSticky(lead: nat, lost: bool)
    requires lead >= 2 * P53
    ensures Excess(Sticky(lead, lost)) == Excess(lead) >= 2
  {
    assert Sticky(lead, lost) / 2 == lead / 2;
    assert Excess(lead) == 1 + Excess(lead / 2);
  }

  /** Cutting an integer to at least 55 bits with a sticky bit, then rounding it to 53, is rounding the whole to 53. */
  lemma {:induction false} StickyRound53(n: nat, x: nat)
    requires Quot(n, Pow2(x)) >= 2 * P53
    ensures Round53(Sticky(Quot(n, Pow2(x)), Rem(n, Pow2(x)) != 0)) * Pow2(x) == Round53(n)
  {
    hide Quot, Rem, Rounded, Sticky, RoundDiv, Round53, Excess;
    var lead, lost := Quot(n, Pow2(x)), Rem(n, Pow2(x)) != 0;
    ExcessSticky(lead, lost);
    ExcessCut(n, x);
    var k := Excess(lead);
    Pow2Double(k);
    Pow2Double(k - 1);
    Pow2Add(k, x);
    Round53Is(n, Pow2(k) * Pow2(x));
    Round53Is(Sticky(lead, lost), Pow2(k));
    StickyScaled(n, Pow2(k - 1), Pow2(x));
  }

  lemma Round53Is(n: nat, p: nat)
    requires p == Unit(n)
    ensures Round53(n) == RoundDiv(n, p) * p
  {
  }

  lemma StickyScaled(n: nat, h: nat, x: nat)
    requires h > 0 && h % 2 == 0 && x > 0 && 2 * h * x > 0
    ensures RoundDiv(Sticky(Quot(n, x), Rem(n, x) != 0), 2 * h) * (2 * h) * x == RoundDiv(n, 2 * h * x) * (2 * h * x)
  {
    hide Quot, Rem, Sticky, RoundDiv;
    StickyRounds(n, h, x);
    MulAssoc(RoundDiv(n, 2 * h * x), 2 * h, x);
  }

  lemma MulAssoc(a: nat, b: nat, c: nat)
    ensures a * b * c == a * (b * c)
  {
  }

  // ----- scaling -----

  const INFINITY := 0x7FF0_0000_0000_0000
  const MIN_EXP := -1074
  const MAX_EXP := 971

  /** A nonzero number `n * 2^e` with a significand of 53 bits exactly. */
  function Normalised(n: nat, e: int): (r: (nat, int))
    requires n > 0
    ensures P52 <= r.0 < P53
    decreases if n < P52 then P53 - n else if n >= P53 then n else 0
  {
    if n < P52 then Normalised(2 * n, e - 1)
    else if n >= P53 then Normalised(n / 2, e + 1)
    else (n, e)
  }

  /** The bits of the double nearest to `q * 2^e`, for a significand `q` of 53 bits. */
  function Packed(q: nat, e: int): nat
    requires P52 <= q < P53
  {
    if e > MAX_EXP then INFINITY
    else if e >= MIN_EXP then (e + 1075) * P52 + (q - P52)
    else RoundDiv(q, Pow2(MIN_EXP - e))
  }

  /** The bits of `n * 2^e`, for `n` of at most 53 significant bits: exact unless it overflows or is subnormal. */
  function Ldexp(n: nat, e: int): nat {
    if n == 0 then 0
    else
      var (q, f) := Normalised(n, e);
      Packed(q, f)
  }

  lemma LdexpTwice(n: nat, e: int)
    ensures Ldexp(2 * n, e) == Ldexp(n, e + 1)
  {
  }

  lemma {:induction false} LdexpShift(n: nat, x: nat, e: int)
    ensures Ldexp(n * Pow2(x), e) == Ldexp(n, e + x)
    decreases x
  {
    if x > 0 {
      LdexpShift(n, x - 1, e + 1);
      LdexpTwice(n * Pow2(x - 1), e);
      Pow2Double(x);
      MulTwo(n, Pow2(x - 1));
    }
  }

  // ----- far out of range -----

  lemma Powers()
    ensures Pow2(52) == P52 && Pow2(56) == 16 * P52 && Pow2(60) == 256 * P52
  {
    assert Pow2(4) == 16;
    Pow2Add(4, 4);
    Pow2Add(8, 4);
    assert Pow2(12) == 0x1000 && Pow2(13) == 0x2000;
    hide Pow2;
    Pow2Add(13, 13);
    Pow2Add(26, 26);
    Pow2Add(52, 4);
    Pow2Add(56, 4);
  }

  lemma {:induction false} NormalisedRange(n: nat, e: int, k: nat)
    requires 0 < n < Pow2(k) * P53
    ensures e - 52 <= Normalised(n, e).1 <= e + k
    decreases k
  {
    if n >= P53 {
      if k == 0 {
        assert false;
      }
      NormalisedRange(n / 2, e + 1, k - 1);
    } else if n < P52 {
      Powers();
      AtLeast(P52, n, 0);
      SmallNormalised(n, e, 52);
    }
  }

  lemma {:induction false} SmallNormalised(n: nat, e: int, j: nat)
    requires 0 < n < P53 && j <= 52 && n * Pow2(j) >= P52
    ensures e - j <= Normalised(n, e).1 <= e
    decreases j
  {
    if n < P52 {
      if j == 0 {
        assert false;
      }
      Pow2Double(j);
      MulTwo(n, Pow2(j - 1));
      assert 2 * n * Pow2(j - 1) == 2 * (n * Pow2(j - 1));
      SmallNormalised(2 * n, e - 1, j - 1);
    }
  }

  lemma LdexpHuge(n: nat, e: int)
    requires n > 0 && e >= 2000
    ensures Ldexp(n, e) == INFINITY
  {
    hide Normalised;
    Bounded(n);
    NormalisedRange(n, e, n);
  }

  lemma {:induction false} Bounded(n: nat)
    ensures n < Pow2(n) * P53
  {
    if n > 0 {
      Bounded(n - 1);
      MulAssoc(2, Pow2(n - 1), P53);
    }
  }

  lemma LdexpTiny(n: nat, e: int)
    requires n < 256 * P53 && e <= -2000
    ensures Ldexp(n, e) == 0
  {
    hide Normalised;
    if n > 0 {
      assert Pow2(8) == 256;
      NormalisedRange(n, e, 8);
      var (q, f) := Normalised(n, e);
      BigPower(MIN_EXP - f);
      DivisionIs(q, Pow2(MIN_EXP - f), 0, q);
    }
  }

  lemma {:induction false} BigPower(k: nat)
    requires k >= 54
    ensures Pow2(k) >= 2 * P53
  {
    if k == 54 {
      Powers();
      Pow2Add(52, 2);
    } else {
      BigPower(k - 1);
    }
  }

  // ----- what the bits denote -----

  /** Significand and exponent of a finite nonnegative double. */
  function SigOf(b: nat): nat {
    if b < P52 then b else P52 + b % P52
  }

  function ExpOf(b: nat): int {
    if b < P52 then MIN_EXP else b / P52 - 1075
  }

  /** Scaling by a power of two of at most 53 significant bits is exact when the result is normal. */
  lemma PackedDenotes(q: nat, e: int)
    requires P52 <= q < P53 && MIN_EXP <= e <= MAX_EXP
    ensures P52 <= Packed(q, e) < INFINITY && SigOf(Packed(q, e)) == q && ExpOf(Packed(q, e)) == e
  {
    ModUnique(Packed(q, e), P52, e + 1075, q - P52);
  }

  /** Packing what the bits denote gives the bits back: for normal and for subnormal doubles. */
  lemma {:induction false} LdexpOfBits(b: nat)
    requires b < INFINITY
    ensures Ldexp(SigOf(b), ExpOf(b)) == b
  {
    if b < P52 {
      SubnormalExact(b);
    } else {
      assert b == P52 * (b / P52) + b % P52;
    }
  }

  lemma SubnormalExact(n: nat)
    requires n < P52
    ensures Ldexp(n, MIN_EXP) == n
  {
    if n > 0 {
      var j := NormalisedUp(n, MIN_EXP);
      hide Normalised;
      if j > 0 {
        DivisionIs(n * Pow2(j), Pow2(j), n, 0);
      }
    }
  }

  lemma {:induction false} NormalisedUp(n: nat, e: int) returns (j: nat)
    requires 0 < n < P53
    ensures Normalised(n, e) == (n * Pow2(j), e - j) && (n < P52 ==> j > 0)
    decreases P53 - n
  {
    j := 0;
    if n < P52 {
      var i := NormalisedUp(2 * n, e - 1);
      j := i + 1;
      MulTwo(n, Pow2(i));
      assert 2 * n * Pow2(i) == 2 * (n * Pow2(i));
    }
  }

  // ----- the nearest of all doubles -----

  /** No number of 53 significant bits is nearer to `n`, and a tie goes to the even significand. */
  lemma {:induction false} Round53Nearest(n: nat, w: nat, j: nat)
    requires w < P53
    ensures Dist(n, Round53(n)) <= Dist(n, w * Pow2(j))
    ensures w * Pow2(j) != Round53(n) && Dist(n, Round53(n)) == Dist(n, w * Pow2(j)) ==> RoundDiv(n, Unit(n)) % 2 == 0
  {
    hide Quot, Rem, RoundDiv, Excess, Pow2, Dist, Unit;
    var x := w * Pow2(j);
    if j >= Excess(n) {
      AsMultiple(n, w, j);
      NearestUnit(n, Unit(n), w * Pow2(j - Excess(n)), x);
    } else {
      InFinerUnit(n, w, j);
      Finer(n, x, Unit(n));
    }
  }

  lemma AsMultiple(n: nat, w: nat, j: nat)
    requires j >= Excess(n)
    ensures w * Pow2(j) == w * Pow2(j - Excess(n)) * Unit(n)
  {
    hide Excess, Pow2;
    Pow2Add(j - Excess(n), Excess(n));
    MulAssoc(w, Pow2(j - Excess(n)), Pow2(Excess(n)));
  }

  lemma InFinerUnit(n: nat, w: nat, j: nat)
    requires w < P53 && j < Excess(n)
    ensures w * Pow2(j) < P52 * Unit(n) && Quot(n, Unit(n)) >= P52
  {
    hide Quot, Pow2;
    Below(w, j, Excess(n));
    LargeWhenCut(n);
    UnitBounds(n);
  }

  lemma NearestUnit(n: nat, u: nat, v: nat, x: nat)
    requires u > 0 && x == v * u
    ensures Dist(n, RoundDiv(n, u) * u) <= Dist(n, x)
    ensures x != RoundDiv(n, u) * u && Dist(n, RoundDiv(n, u) * u) == Dist(n, x) ==> RoundDiv(n, u) % 2 == 0
  {
    hide RoundDiv, Dist;
    RoundDivNearest(n, u, v);
  }

  /** Numbers below the significands of 53 bits are farther from `n` than the least of these. */
  lemma Finer(n: nat, x: nat, u: nat)
    requires u > 0 && Quot(n, u) >= P52 && x < P52 * u
    ensures Dist(n, RoundDiv(n, u) * u) < Dist(n, x)
  {
    hide Quot, Rem, RoundDiv;
    Division(n, u);
    RoundDivNearest(n, u, P52);
    Multiples(Quot(n, u), P52, u);
  }

  lemma LargeWhenCut(n: nat)
    requires Excess(n) > 0
    ensures n >= P53
  {
  }

  lemma Below(w: nat, j: nat, k: nat)
    requires w < P53 && j < k
    ensures w * Pow2(j) < P52 * Pow2(k)
  {
    Pow2Add(j, k - j);
    Pow2Double(k - j);
    var x, y := Pow2(j), Pow2(k - j - 1);
    assert P52 * (x * (2 * y)) == P53 * x * y by {
      MulTwo(x, y);
      MulAssoc(P53, x, y);
    }
    AtLeast(P53 * x, y, 0);
    Multiples(P53, w, x);
  }

  /** At most 53 significant bits. */
  predicate Fits53(n: nat) {
    n < P53 || (n % 2 == 0 && Fits53(n / 2))
  }

  lemma {:induction false} FitsScaled(v: nat, k: nat)
    requires v <= P53
    ensures Fits53(v * Pow2(k))
    decreases k
  {
    if k == 0 {
      assert Fits53(P53 / 2);
    } else {
      FitsScaled(v, k - 1);
      MulTwo(v, Pow2(k - 1));
      assert 2 * (v * Pow2(k - 1)) / 2 == v * Pow2(k - 1);
    }
  }

  lemma Round53Fits(n: nat)
    ensures Fits53(Round53(n))
  {
    hide Quot, Rem, Fits53;
    UnitBounds(n);
    FitsScaled(RoundDiv(n, Unit(n)), Excess(n));
  }

  /** Normalising keeps the number: compared in units of any `2^m` fine enough for both. */
  lemma {:induction false} NormalisedValue(n: nat, e: int, m: int)
    requires n > 0 && Fits53(n) && m <= e && m <= Normalised(n, e).1
    ensures Normalised(n, e).0 * Pow2(Normalised(n, e).1 - m) == n * Pow2(e - m)
  {
    if n >= P53 {
      NormalisedValue(n / 2, e + 1, m);
      Pow2Double(e + 1 - m);
      MulTwo(n / 2, Pow2(e - m));
      assert 2 * (n / 2 * Pow2(e - m)) == 2 * (n / 2) * Pow2(e - m);
    } else {
      var j := NormalisedUp(n, e);
      hide Normalised;
      Pow2Add(j, e - j - m);
      MulAssoc(n, Pow2(j), Pow2(e - j - m));
    }
  }

  /** A normal result of rounding and scaling denotes the 53-bit number nearest to `n`, times `2^e`. */
  lemma {:induction false} RoundedDenotes(n: nat, e: int, m: int)
    requires n > 0 && Round53(n) > 0
    requires var f := Normalised(Round53(n), e).1; MIN_EXP <= f <= MAX_EXP && m <= e && m <= f
    ensures var b := Ldexp(Round53(n), e);
      P52 <= b < INFINITY && m <= ExpOf(b) && SigOf(b) * Pow2(ExpOf(b) - m) == Round53(n) * Pow2(e - m)
  {
    hide Round53, Packed, Normalised, SigOf, ExpOf;
    Round53Fits(n);
    NormalisedValue(Round53(n), e, m);
    var (q, f) := Normalised(Round53(n), e);
    PackedDenotes(q, f);
  }

  // ----- correct rounding -----

  lemma RoundedScales(q: nat, r: nat, p: nat, x: nat)
    requires x > 0 && r * x >= 0 && p * x >= 0
    ensures Rounded(q, r * x, p * x) == Rounded(q, r, p)
  {
    assert 2 * (r * x) == 2 * r * x;
    if 2 * r < p {
      Multiples(p, 2 * r, x);
    } else if 2 * r > p {
      Multiples(2 * r, p, x);
    }
  }

  lemma UnitScales(n: nat, i: nat)
    requires n >= P53
    ensures Unit(n * Pow2(i)) == Unit(n) * Pow2(i)
    ensures RoundDiv(n * Pow2(i), Unit(n * Pow2(i))) == RoundDiv(n, Unit(n))
  {
    hide Quot, Rem, Rounded, Excess, Pow2;
    var x, u := Pow2(i), Unit(n);
    DivisionIs(n * x, x, n, 0);
    ExcessCut(n * x, i);
    Pow2Add(Excess(n), i);
    DivisionTwice(n * x, u, x);
    MulNat(Rem(n, u), x);
    MulNat(u, x);
    RoundedScales(Quot(n, u), Rem(n, u), u, x);
  }

  /** Rounding to 53 bits commutes with powers of two. */
  lemma Round53Scales(n: nat, i: nat)
    ensures Round53(n * Pow2(i)) == Round53(n) * Pow2(i)
  {
    if n < P53 {
      DivisionIs(n, 1, n, 0);
      Round53Nearest(n * Pow2(i), n, i);
    } else {
      hide RoundDiv, Unit;
      UnitScales(n, i);
      MulAssoc(RoundDiv(n, Unit(n)), Unit(n), Pow2(i));
    }
  }

  lemma {:induction false} NormalisedDown(v: nat, k: nat, e: int)
    requires P52 <= v <= P53
    ensures v * Pow2(k) > 0 && Normalised(v * Pow2(k), e) == if v < P53 then (v, e + k) else (P52, e + k + 1)
    decreases k
  {
    if k > 0 {
      NormalisedDown(v, k - 1, e + 1);
      MulTwo(v, Pow2(k - 1));
      AtLeast(v, Pow2(k - 1), 0);
      var n := v * Pow2(k - 1);
      assert v * Pow2(k) == 2 * n && 2 * n >= P53 && 2 * n / 2 == n;
    }
  }

  /** A tie leaves an even significand in the bits. */
  lemma TieIsEven(n: nat, e: int)
    requires n >= P53 && RoundDiv(n, Unit(n)) % 2 == 0
    ensures Round53(n) > 0 && Normalised(Round53(n), e).0 % 2 == 0
  {
    hide Quot, Rem, Normalised;
    UnitBounds(n);
    NormalisedDown(RoundDiv(n, Unit(n)), Excess(n), e);
  }

  /** A normal result is the double nearest to `n * 2^e`, ties to even, measured in units of any fine enough `2^m`. */
  lemma {:induction false} NearestDouble(n: nat, e: int, m: int, w: nat, j: nat)
    requires n > 0 && Round53(n) > 0 && w < P53
    requires var f := Normalised(Round53(n), e).1; MIN_EXP <= f <= MAX_EXP && m <= e && m <= f
    ensures var b := Ldexp(Round53(n), e);
      && P52 <= b < INFINITY && m <= ExpOf(b)
      && var exact, got, other := n * Pow2(e - m), SigOf(b) * Pow2(ExpOf(b) - m), w * Pow2(j);
         Dist(exact, got) <= Dist(exact, other) &&
         (other != got && Dist(exact, got) == Dist(exact, other) ==> SigOf(b) % 2 == 0)
  {
    hide Round53, Packed, Normalised, SigOf, ExpOf, Pow2, RoundDiv, Unit, Excess;
    RoundedDenotes(n, e, m);
    var x := Pow2(e - m);
    Round53Scales(n, e - m);
    Round53Nearest(n * x, w, j);
    if n >= P53 {
      UnitScales(n, e - m);
      var (q, f) := Normalised(Round53(n), e);
      PackedDenotes(q, f);
      if RoundDiv(n, Unit(n)) % 2 == 0 {
        TieIsEven(n, e);
      }
    } else {
      SmallExact(n);
    }
  }

  lemma SmallExact(n: nat)
    requires n < P53
    ensures Round53(n) == n
  {
    DivisionIs(n, 1, n, 0);
  }

  // ----- subnormal results are rounded twice -----

  lemma RoundDivScales(n: nat, p: nat, x: nat)
    requires p > 0 && x > 0
    ensures p * x > 0 && RoundDiv(n * x, p * x) == RoundDiv(n, p)
  {
    hide Quot, Rem, Rounded;
    DivisionIs(n * x, x, n, 0);
    DivisionTwice(n * x, p, x);
    MulNat(Rem(n, p), x);
    MulNat(p, x);
    RoundedScales(Quot(n, p), Rem(n, p), p, x);
  }

  /** A subnormal result is the rounded integer, rounded again to a multiple of the least double. */
  lemma {:induction false} SubnormalResult(n: nat, e: int)
    requires n > 0 && Fits53(n) && Normalised(n, e).1 < MIN_EXP && e < MIN_EXP
    ensures Ldexp(n, e) == RoundDiv(n, Pow2(MIN_EXP - e))
    decreases n
  {
    if n >= P53 {
      if e + 1 < MIN_EXP {
        SubnormalResult(n / 2, e + 1);
        Pow2Double(MIN_EXP - e);
        RoundDivScales(n / 2, Pow2(MIN_EXP - e - 1), 2);
      } else {
        NormalisedGrows(n / 2, e + 1);
      }
    } else {
      var j := NormalisedUp(n, e);
      hide Normalised;
      Pow2Add(MIN_EXP - e, j);
      RoundDivScales(n, Pow2(MIN_EXP - e), Pow2(j));
    }
  }

  lemma {:induction false} NormalisedGrows(n: nat, e: int)
    requires n >= P52
    ensures Normalised(n, e).1 >= e
    decreases n
  {
    if n >= P53 {
      NormalisedGrows(n / 2, e + 1);
    }
  }

  /** Rounding keeps an integer on its side of every multiple of the unit. */
  lemma RoundKeepsSide(n: nat, u: nat, w: nat)
    requires u > 0
    ensures n >= w * u ==> RoundDiv(n, u) * u >= w * u
    ensures n <= w * u ==> RoundDiv(n, u) * u <= w * u
    ensures n == w * u ==> RoundDiv(n, u) * u == w * u
  {
    hide Quot, Rem;
    Division(n, u);
    var q, r, v := Quot(n, u), Rem(n, u), RoundDiv(n, u);
    Multiples(q, w, u);
    Multiples(q, v, u);
    if n >= w * u && w > q {
      Multiples(w, q, u);
    }
    if w > q + 1 {
      Multiples(w, q + 1, u);
    }
  }

  /** An integer within half a unit of a multiple rounds to it. */
  lemma RoundDivIn(n: nat, h: nat, q: nat)
    requires h > 0 && q * (2 * h) - h < n < q * (2 * h) + h
    ensures RoundDiv(n, 2 * h) == q
  {
    hide Quot, Rem;
    if n >= q * (2 * h) {
      DivisionIs(n, 2 * h, q, n - q * (2 * h));
    } else {
      Multiples(q - 1, q, 2 * h);
      DivisionIs(n, 2 * h, q - 1, n - (q - 1) * (2 * h));
    }
  }

  /** The two roundings disagree: the first lands on a midpoint that the integer was not on, and the tie goes the other
      way. */
  predicate Misled(n: nat, r: nat, h: nat)
    requires h > 0
  {
    Rem(r, 2 * h) == h && ((n > r && Quot(r, 2 * h) % 2 == 0) || (n < r && Quot(r, 2 * h) % 2 == 1))
  }

  /** Rounding to a multiple of `u` and then to one of `2 * h`, where `h` is itself a multiple of `u`. */
  lemma TwiceIsOnceIff(n: nat, u: nat, h: nat, c: nat)
    requires u > 0 && h > 0 && h == c * u
    ensures RoundDiv(RoundDiv(n, u) * u, 2 * h) == RoundDiv(n, 2 * h) <==> !Misled(n, RoundDiv(n, u) * u, h)
  {
    hide Quot, Rem, RoundDiv;
    var r := RoundDiv(n, u) * u;
    Division(r, 2 * h);
    var q, d := Quot(r, 2 * h), Rem(r, 2 * h);
    Grid(n, u, h, c, q);
    var base := q * (2 * h);
    assert (q + 1) * (2 * h) == base + 2 * h;
    if d < h {
      RoundDivIn(r, h, q);
      RoundDivIn(n, h, q);
    } else if d > h {
      RoundDivIn(r, h, q + 1);
      RoundDivIn(n, h, q + 1);
    } else {
      Tie(r, h, q);
      if n > r {
        RoundDivIn(n, h, q + 1);
      } else if n < r {
        RoundDivIn(n, h, q);
      }
    }
  }

  lemma Tie(r: nat, h: nat, q: nat)
    requires h > 0 && r == q * (2 * h) + h
    ensures RoundDiv(r, 2 * h) == if q % 2 == 0 then q else q + 1
  {
    DivisionIs(r, 2 * h, q, h);
    hide Quot, Rem;
  }

  /** The midpoints next to `q * 2h` are multiples of the unit, so rounding does not cross them. */
  lemma Grid(n: nat, u: nat, h: nat, c: nat, q: nat)
    requires u > 0 && h > 0 && h == c * u
    ensures var r, base := RoundDiv(n, u) * u, q * (2 * h);
      && (n <= base - h ==> r <= base - h) && (n >= base - h ==> r >= base - h)
      && (n <= base + h ==> r <= base + h) && (n >= base + h ==> r >= base + h)
      && (n >= base + 3 * h ==> r >= base + 3 * h)
  {
    hide RoundDiv;
    var r := RoundDiv(n, u) * u;
    var x := q * c;
    assert q * (2 * h) == 2 * x * u by {
      assert q * (2 * (c * u)) == 2 * (q * (c * u));
      MulAssoc(q, c, u);
      MulAssoc(2, x, u);
    }
    var y := 2 * x;
    assert y * u + c * u == (y + c) * u;
    assert y * u + 3 * (c * u) == (y + 3 * c) * u;
    RoundKeepsSide(n, u, y + c);
    RoundKeepsSide(n, u, y + 3 * c);
    if q > 0 {
      BelowGrid(y, c, u, q);
      RoundKeepsSide(n, u, y - c);
    }
  }

  lemma BelowGrid(y: nat, c: nat, u: nat, q: nat)
    requires q > 0 && y == 2 * (q * c)
    ensures y >= c && y * u - c * u == (y - c) * u
  {
    AtLeast(c, q, 0);
    assert c * q == q * c;
  }

  lemma Round53Positive(n: nat)
    requires n > 0
    ensures Round53(n) > 0
  {
    if n < P53 {
      SmallExact(n);
    } else {
      hide Quot, Rem;
      UnitBounds(n);
      AtLeast(RoundDiv(n, Unit(n)), Unit(n), 0);
    }
  }

  /** The unit of an integer whose scaled value is subnormal divides half of the least double. */
  lemma UnitDivides(n: nat, e: int) returns (c: nat)
    requires n > 0 && e < MIN_EXP && Round53(n) > 0 && Normalised(Round53(n), e).1 < MIN_EXP
    ensures Pow2(MIN_EXP - e - 1) == c * Unit(n)
  {
    hide Quot, Rem, Normalised;
    if n < P53 {
      c := Pow2(MIN_EXP - e - 1);
      assert Unit(n) == 1;
    } else {
      UnitBounds(n);
      NormalisedDown(RoundDiv(n, Unit(n)), Excess(n), e);
      c := Pow2(MIN_EXP - e - 1 - Excess(n));
      Pow2Add(MIN_EXP - e - 1 - Excess(n), Excess(n));
    }
  }

  /** A subnormal result is the exact value correctly rounded, if and only if rounding to 53 bits first does not
      mislead. */
  lemma {:induction false} SubnormalIff(n: nat, e: int)
    requires n > 0 && e < MIN_EXP && Round53(n) > 0 && Normalised(Round53(n), e).1 < MIN_EXP
    ensures Ldexp(Round53(n), e) == RoundDiv(n, Pow2(MIN_EXP - e)) <==> !Misled(n, Round53(n), Pow2(MIN_EXP - e - 1))
  {
    hide Quot, Rem, RoundDiv, Normalised, Ldexp, Excess, Pow2, Fits53;
    Round53Fits(n);
    SubnormalResult(Round53(n), e);
    var c := UnitDivides(n, e);
    Pow2Double(MIN_EXP - e);
    TwiceIsOnceIff(n, Unit(n), Pow2(MIN_EXP - e - 1), c);
  }

  /** The least value above half of the least double, to 57 bits: zero instead of the least double. */
  lemma {:induction false} MisledBelow()
    ensures var n := 16 * P52 + 1;
      && Ldexp(Round53(n), -1131) == 0 && RoundDiv(n, Pow2(57)) == 1
      && Round53(n) == 16 * P52 && Misled(n, Round53(n), Pow2(56))
  {
    var n := 16 * P52 + 1;
    Powers();
    Pow2Double(57);
    assert Excess(n) == 4 by {
      assert n / 2 == 8 * P52 && n / 2 / 2 == 4 * P52 && n / 2 / 2 / 2 == 2 * P52;
    }
    assert Pow2(4) == 16;
    DivisionIs(n, 16, P52, 1);
    assert Round53(n) == 16 * P52;
    DivisionIs(n, 32 * P52, 0, n);
    DivisionIs(16 * P52, 32 * P52, 0, 16 * P52);
    NormalisedDown(P52, 4, -1131);
    hide Quot, Rem;
    SubnormalIff(n, -1131);
    SubnormalResult(16 * P52, -1131);
  }

  /** A subnormal result is exact when the value is a multiple of the least double. */
  lemma {:induction false} SubnormalWhole(n: nat, e: int)
    requires n > 0 && e >= MIN_EXP && Round53(n) > 0 && Normalised(Round53(n), e).1 < MIN_EXP
    ensures Ldexp(Round53(n), e) == n * Pow2(e - MIN_EXP)
  {
    hide Quot, Rem, RoundDiv;
    if n >= P53 {
      LargeStaysLarge(n);
      NormalisedGrows(Round53(n), e);
    } else {
      SmallExact(n);
      if n >= P52 {
        NormalisedGrows(n, e);
      }
      var j := NormalisedUp(n, e);
      hide Normalised;
      var k := e - MIN_EXP;
      Pow2Add(k, j - k);
      MulAssoc(n, Pow2(k), Pow2(j - k));
      WholeRounds(n * Pow2(k), Pow2(j - k));
    }
  }

  lemma LargeStaysLarge(n: nat)
    requires n >= P53
    ensures Round53(n) >= P52
  {
    hide Quot, Rem;
    UnitBounds(n);
    AtLeast(RoundDiv(n, Unit(n)), Unit(n), 0);
  }

  lemma WholeRounds(n: nat, p: nat)
    requires p > 0
    ensures RoundDiv(n * p, p) == n
  {
    DivisionIs(n * p, p, n, 0);
  }
}
