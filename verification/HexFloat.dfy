/** Hexadecimal floats: the parser that keeps 60 bits and a sticky bit, against rounding and scaling all the digits. */
module HexFloat {
  import opened Bytes
  import opened FloatRounding

  const INT_MAX := 0x7FFF_FFFF
  const INT_MIN := -0x8000_0000

  function HexDigit(c: char): Option<nat> {
    if '0' <= c <= '9' then Some((c - '0') as int)
    else if 'A' <= c <= 'F' then Some((c - 'A') as int + 10)
    else if 'a' <= c <= 'f' then Some((c - 'a') as int + 10)
    else None
  }

  // ----- the exponent -----

  predicate Space(c: char) {
    c == ' ' || '\t' <= c <= '\r'
  }

  /** Decimal digits, at least one, up to the end. */
  function Decimal(s: string): Option<nat> {
    if s == [] || !('0' <= s[|s| - 1] <= '9') then None
    else if |s| == 1 then Some((s[0] - '0') as int)
    else match Decimal(s[..|s| - 1])
      case Some(n) => Some(10 * n + (s[|s| - 1] - '0') as int)
      case None => None
  }

  /** What strtol reads, when it reads the whole string. */
  function Strtol(s: string): Option<int> {
    if s == [] then None
    else if Space(s[0]) then Strtol(s[1..])
    else
      var digits := if s[0] == '-' || s[0] == '+' then s[1..] else s;
      match Decimal(digits)
      case Some(n) => Some(if s[0] == '-' then -(n as int) else n as int)
      case None => None
  }

  // ----- the exact value, rounded to 53 bits and scaled -----

  /** All digits as one integer, scaled by the exponent and the place of the point. */
  function Exactly(n: nat, bits: int, point: int, e: int): Option<nat> {
    if bits == 0 && INT_MIN < e < INT_MAX then None
    else Some(Ldexp(Round53(n), e - (if point >= 0 then bits - point else 0)))
  }

  /** Reads on after digits worth `n`, of `bits` bits, with a point after `point` of them unless that is -1. */
  function Reference(s: string, n: nat, bits: int, point: int): Option<nat>
    decreases |s|
  {
    if s == [] then Exactly(n, bits, point, 0)
    else if s[0] == '.' then (if point >= 0 then None else Reference(s[1..], n, bits, bits))
    else if s[0] == 'p' || s[0] == 'P' then
      match Strtol(s[1..])
      case Some(e) => Exactly(n, bits, point, e)
      case None => None
    else
      match HexDigit(s[0])
      case Some(d) => Reference(s[1..], 16 * n + d, bits + 4, point)
      case None => None
  }

  /** What a text denotes: an integer and a power of two; None if it is malformed. */
  function ValueOf(s: string, n: nat, bits: int, point: int): Option<(nat, int)>
    decreases |s|
  {
    if s == [] then (if bits == 0 then None else Some((n, Places(bits, point))))
    else if s[0] == '.' then (if point >= 0 then None else ValueOf(s[1..], n, bits, bits))
    else if s[0] == 'p' || s[0] == 'P' then
      match Strtol(s[1..])
      case Some(e) => if bits == 0 && INT_MIN < e < INT_MAX then None else Some((n, e + Places(bits, point)))
      case None => None
    else
      match HexDigit(s[0])
      case Some(d) => ValueOf(s[1..], 16 * n + d, bits + 4, point)
      case None => None
  }

  /** The power of two that the place of the point stands for. */
  function Places(bits: int, point: int): int {
    if point >= 0 then point - bits else 0
  }

  lemma {:induction false} ReferenceIsValue(s: string, n: nat, bits: int, point: int)
    ensures Reference(s, n, bits, point) ==
      match ValueOf(s, n, bits, point)
      case Some((m, e)) => Some(Ldexp(Round53(m), e))
      case None => None
    decreases |s|
  {
    hide Ldexp, Round53, Strtol;
    if s != [] && s[0] == '.' {
      ReferenceIsValue(s[1..], n, bits, bits);
    } else if s != [] && s[0] != 'p' && s[0] != 'P' && HexDigit(s[0]).Some? {
      ReferenceIsValue(s[1..], 16 * n + HexDigit(s[0]).value, bits + 4, point);
    }
  }

  /** Where the result of rounding to 53 bits and scaling lies. */
  datatype Range = Nothing | Subnormal | Normal | Overflow

  function RangeOf(n: nat, e: int): Range {
    if Round53(n) == 0 then Nothing
    else
      var f := Normalised(Round53(n), e).1;
      if f > MAX_EXP then Overflow else if f >= MIN_EXP then Normal else Subnormal
  }

  /**
   The parser's result for a text that denotes `n * 2^e`. A normal result is the nearest double, ties to even: no number
   of 53 bits is nearer, in units of any fine enough `2^m`. A subnormal one is the nearest multiple of the least double
   if and only if the first rounding does not mislead.
   */
  lemma {:induction false} ParsedCorrectly(s: string, n: nat, e: int, b: nat, m: int, w: nat, j: nat)
    requires Reference(s, 0, 0, -1) == Some(b) && ValueOf(s, 0, 0, -1) == Some((n, e))
    ensures match RangeOf(n, e)
      case Nothing => b == 0 && n == 0
      case Overflow => b == INFINITY
      case Normal =>
        && P52 <= b < INFINITY
        && (m <= e && m <= ExpOf(b) && w < P53 ==>
              var exact, got, other := n * Pow2(e - m), SigOf(b) * Pow2(ExpOf(b) - m), w * Pow2(j);
              Dist(exact, got) <= Dist(exact, other) &&
              (other != got && Dist(exact, got) == Dist(exact, other) ==> SigOf(b) % 2 == 0))
      case Subnormal =>
        if e < MIN_EXP then b == RoundDiv(n, Pow2(MIN_EXP - e)) <==> !Misled(n, Round53(n), Pow2(MIN_EXP - e - 1))
        else b == n * Pow2(e - MIN_EXP)
  {
    hide Ldexp, Round53, Normalised, Packed, SigOf, ExpOf, Pow2, RoundDiv, Reference, ValueOf;
    ReferenceIsValue(s, 0, 0, -1);
    if n > 0 {
      Round53Positive(n);
    }
    match RangeOf(n, e)
    case Nothing =>
      ZeroRounds();
      LdexpZero(e);
    case Overflow => LdexpOver(Round53(n), e);
    case Normal =>
      var f := Normalised(Round53(n), e).1;
      ZeroRounds();
      RoundedDenotes(n, e, if e < f then e else f);
      NormalExp(Round53(n), e);
      if m <= e && m <= ExpOf(b) && w < P53 {
        NearestDouble(n, e, m, w, j);
      }
    case Subnormal =>
      ZeroRounds();
      if e < MIN_EXP {
        SubnormalIff(n, e);
      } else {
        SubnormalWhole(n, e);
      }
  }

  lemma ZeroRounds()
    ensures Round53(0) == 0
  {
    SmallExact(0);
  }

  lemma LdexpOver(n: nat, e: int)
    requires n > 0 && Normalised(n, e).1 > MAX_EXP
    ensures Ldexp(n, e) == INFINITY
  {
  }

  lemma NormalExp(n: nat, e: int)
    requires n > 0 && MIN_EXP <= Normalised(n, e).1 <= MAX_EXP
    ensures ExpOf(Ldexp(n, e)) == Normalised(n, e).1
  {
    hide Normalised, Packed, ExpOf, SigOf;
    var (q, f) := Normalised(n, e);
    PackedDenotes(q, f);
  }

  lemma {:induction false} ZeroDigits(k: nat, rest: string, n: nat, bits: int, point: int)
    ensures ValueOf(seq(k, _ => '0') + rest, n, bits, point) == ValueOf(rest, n * Pow2(4 * k), bits + 4 * k, point)
    decreases k
  {
    hide Strtol;
    var text := seq(k, _ => '0') + rest;
    if k == 0 {
      assert text == rest;
    } else {
      assert text[0] == '0' && text[1..] == seq(k - 1, _ => '0') + rest;
      ZeroDigits(k - 1, rest, 16 * n, bits + 4, point);
      Sixteen(4 * k - 4);
      MulSixteen(n, Pow2(4 * k - 4));
      MulAssoc(16, n, Pow2(4 * k - 4));
    }
  }

  function TinyText(): string {
    ['1', '.'] + (seq(13, _ => '0') + "1p-1075")
  }

  lemma TinyEnd()
    ensures ValueOf("1p-1075", P52, 56, 4) == Some((16 * P52 + 1, -1131))
  {
    hide Strtol;
    MinusExponent();
    assert "1p-1075"[1..] == "p-1075" && "p-1075"[1..] == "-1075";
    assert ValueOf("p-1075", 16 * P52 + 1, 60, 4) == Some((16 * P52 + 1, -1131));
  }

  lemma TinyStart(rest: string)
    ensures ValueOf(['1', '.'] + rest, 0, 0, -1) == ValueOf(rest, 1, 4, 4)
  {
    hide Strtol;
    var text := ['1', '.'] + rest;
    assert text[1..] == ['.'] + rest && (['.'] + rest)[1..] == rest;
  }

  /** `0x1.00000000000001p-1075`, just above half of the least double, is read as zero. */
  lemma {:induction false} ReadAsZero()
    ensures ValueOf(TinyText(), 0, 0, -1) == Some((16 * P52 + 1, -1131)) && Reference(TinyText(), 0, 0, -1) == Some(0)
    ensures RoundDiv(16 * P52 + 1, Pow2(MIN_EXP + 1131)) == 1
  {
    hide Round53, Ldexp, Pow2, Reference, ValueOf, RoundDiv;
    TinyStart(seq(13, _ => '0') + "1p-1075");
    ZeroDigits(13, "1p-1075", 1, 4, 4);
    Powers();
    TinyEnd();
    ReferenceIsValue(TinyText(), 0, 0, -1);
    MisledBelow();
  }

  lemma MinusExponent()
    ensures Strtol("-1075") == Some(-1075)
  {
    assert "-1075"[1..] == "1075";
    assert "1075"[..3] == "107" && "107"[..2] == "10" && "10"[..1] == "1";
    assert Decimal("10") == Some(10) && Decimal("107") == Some(107) && Decimal("1075") == Some(1075);
  }

  // ----- sixty bits -----

  /** `m` is the integer `n` cut to at most 60 bits with a sticky bit; `extra` bits were cut off. */
  ghost predicate Cut(n: nat, m: nat, mbits: nat, extra: nat) {
    var lead := Quot(n, Pow2(extra));
    && m == Sticky(lead, Rem(n, Pow2(extra)) != 0)
    && mbits <= 60 && (extra > 0 ==> mbits == 60)
    && lead < Pow2(mbits) && (mbits > 0 ==> mbits % 4 == 0 && lead * 16 >= Pow2(mbits))
  }

  lemma CutStart()
    ensures Cut(0, 0, 0, 0)
  {
    DivisionIs(0, 1, 0, 0);
  }

  lemma CutZero(n: nat, m: nat, mbits: nat, extra: nat)
    requires Cut(n, m, mbits, extra) && m == 0
    ensures n == 0 && extra == 0 && mbits == 0
  {
    hide Quot, Rem;
    Division(n, Pow2(extra));
  }

  /** Another digit while there is room. */
  lemma CutDigit(n: nat, m: nat, mbits: nat, d: nat)
    requires Cut(n, m, mbits, 0) && mbits < 60 && d < 16 && (m > 0 || d > 0)
    ensures m == n && Cut(16 * n + d, 16 * m + d, mbits + 4, 0)
  {
    hide Quot, Rem;
    DivisionIs(n, 1, n, 0);
    DivisionIs(16 * n + d, 1, 16 * n + d, 0);
    Sixteen(mbits);
    hide Pow2;
    if mbits > 0 {
      assert mbits <= 56;
    }
  }

  /** A digit beyond the sixtieth bit. */
  lemma CutLost(n: nat, m: nat, extra: nat, d: nat)
    requires Cut(n, m, 60, extra) && d < 16
    ensures Cut(16 * n + d, Sticky(m, d != 0), 60, extra + 4)
  {
    hide Quot, Rem, Pow2, Sticky;
    Sixteen(extra);
    var x := Pow2(extra);
    Division(n, x);
    var q, r := Quot(n, x), Rem(n, x);
    MulSixteen(q, x);
    DivisionIs(16 * n + d, 16 * x, q, 16 * r + d);
    StickyTwice(q, r != 0, d != 0);
  }

  lemma Sixteen(extra: nat)
    ensures Pow2(extra + 4) == 16 * Pow2(extra)
  {
    assert Pow2(4) == 16;
    Pow2Add(extra, 4);
  }

  lemma MulSixteen(q: nat, x: nat)
    ensures q * (16 * x) == 16 * (q * x)
  {
  }

  lemma StickyTwice(a: nat, l1: bool, l2: bool)
    ensures Sticky(Sticky(a, l1), l2) == Sticky(a, l1 || l2)
  {
  }

  /** Rounding the sixty bits is rounding all the digits. */
  lemma {:induction false} CutRounds(n: nat, m: nat, mbits: nat, extra: nat, e: int)
    requires Cut(n, m, mbits, extra)
    ensures Ldexp(Round53(m), e + extra) == Ldexp(Round53(n), e)
  {
    hide Quot, Rem, Ldexp, Round53, Pow2;
    if extra == 0 {
      assert Pow2(0) == 1 by { PowZero(); }
      DivisionIs(n, 1, n, 0);
    } else {
      Powers();
      StickyRound53(n, extra);
      LdexpShift(Round53(m), extra, e);
    }
  }

  lemma PowZero()
    ensures Pow2(0) == 1
  {
  }

  // ----- the parser -----

  /** Scales with exponents saturating at those of a C int, which are far out of range. */
  method Scale(m: nat, e: int, adj: int) returns (r: nat)
    requires m < 256 * P52 && INT_MIN < e < INT_MAX && -0x4000_0000 <= adj <= 0x4000_0000
    ensures r == Ldexp(Round53(m), e + adj)
  {
    hide Ldexp, Round53;
    var f := Round53(m);
    var exp;
    if adj > 0 && e > INT_MAX - adj {
      exp := INT_MAX;
    } else if adj < 0 && e < INT_MIN - adj {
      exp := INT_MIN;
    } else {
      exp := e + adj;
    }
    Round53Range(m);
    if f == 0 {
      LdexpZero(exp);
      LdexpZero(e + adj);
    } else if exp == INT_MAX {
      LdexpHuge(f, exp);
      LdexpHuge(f, e + adj);
    } else if exp == INT_MIN {
      LdexpTiny(f, exp);
      LdexpTiny(f, e + adj);
    }
    r := Ldexp(f, exp);
  }

  lemma LdexpZero(e: int)
    ensures Ldexp(0, e) == 0
  {
  }

  /** Exponents beyond a C int give zero or infinity without scaling. */
  method FarExponent(m: nat, e: int, ghost adj: int) returns (r: nat)
    requires m < 256 * P52 && (e <= INT_MIN || e >= INT_MAX) && -0x4000_0000 <= adj <= 0x4000_0000
    ensures r == Ldexp(Round53(m), e + adj)
  {
    hide Ldexp, Round53;
    Round53Range(m);
    if m == 0 {
      LdexpZero(e + adj);
      return 0;
    } else if e <= INT_MIN {
      LdexpTiny(Round53(m), e + adj);
      return 0;
    } else {
      LdexpHuge(Round53(m), e + adj);
      return INFINITY;
    }
  }

  /** `caml_float_of_hex`: the digits after the prefix. */
  method FloatOfHex(s: string) returns (r: Option<nat>)
    requires |s| < 0x1000_0000
    ensures r == Reference(s, 0, 0, -1)
  {
    hide Ldexp, Round53, Cut, Strtol;
    CutStart();
    var m: nat, nbits, mbits: nat, xbits: nat, point, exp := 0, 0, 0, 0, -1, 0;
    ghost var n: nat := 0;
    var i := 0;
    while i < |s|
      invariant 0 <= i <= |s| && 0 <= nbits <= 4 * i && 0 <= xbits <= nbits && -1 <= point <= nbits
      invariant Cut(n, m, mbits, xbits) && exp == 0
      invariant Reference(s[i..], n, nbits, point) == Reference(s, 0, 0, -1)
    {
      var c := s[i];
      assert s[i..][0] == c && s[i..][1..] == s[i + 1..];
      i := i + 1;
      if c == '.' {
        if point >= 0 {
          return None;
        }
        point := nbits;
      } else if c == 'p' || c == 'P' {
        var e := Strtol(s[i..]);
        if e.None? {
          return None;
        }
        r := Finish(m, n, nbits, mbits, xbits, point, e.value);
        return;
      } else {
        var d := HexDigit(c);
        if d.None? {
          return None;
        }
        if d.value == 0 && m == 0 {
          CutZero(n, m, mbits, xbits);
        } else if mbits < 60 {
          RoomMeansAll(n, m, mbits, xbits);
          CutDigit(n, m, mbits, d.value);
          m := 16 * m + d.value;
          mbits := mbits + 4;
        } else {
          RoomMeansAll(n, m, mbits, xbits);
          CutLost(n, m, xbits, d.value);
          m := Sticky(m, d.value != 0);
          xbits := xbits + 4;
        }
        nbits := nbits + 4;
        n := 16 * n + d.value;
      }
    }
    assert s[i..] == [];
    r := Finish(m, n, nbits, mbits, xbits, point, 0);
  }

  method Finish(m: nat, ghost n: nat, nbits: nat, ghost mbits: nat, xbits: nat, point: int, e: int)
    returns (r: Option<nat>)
    requires Cut(n, m, mbits, xbits) && nbits < 0x4000_0000 && xbits <= nbits && -1 <= point <= nbits
    ensures r == Exactly(n, nbits, point, e)
  {
    hide Ldexp, Round53, Cut;
    var adj := if point >= 0 then xbits + (point - nbits) else xbits;
    CutSmall(n, m, mbits, xbits);
    CutRounds(n, m, mbits, xbits, e + adj - xbits);
    var v;
    if e <= INT_MIN || e >= INT_MAX {
      v := FarExponent(m, e, adj);
      return Some(v);
    }
    if nbits == 0 {
      return None;
    }
    v := Scale(m, e, adj);
    return Some(v);
  }

  lemma RoomMeansAll(n: nat, m: nat, mbits: nat, extra: nat)
    requires Cut(n, m, mbits, extra)
    ensures mbits < 60 ==> extra == 0
    ensures mbits <= 60
  {
  }

  lemma CutSmall(n: nat, m: nat, mbits: nat, extra: nat)
    requires Cut(n, m, mbits, extra)
    ensures m < 256 * P52
  {
    hide Quot, Rem;
    Powers();
    Pow2Add(mbits, 60 - mbits);
    var lead := Quot(n, Pow2(extra));
    EvenPower(mbits);
    assert Pow2(mbits) <= Pow2(60) by {
      AtLeast(Pow2(mbits), Pow2(60 - mbits), 0);
    }
  }

  lemma EvenPower(k: nat)
    ensures k > 0 ==> Pow2(k) % 2 == 0
  {
  }

  lemma Round53Range(m: nat)
    requires m < 256 * P52
    ensures Round53(m) < 256 * P53 && (Round53(m) == 0 <==> m == 0)
  {
    if m < P53 {
      DivisionIs(m, 1, m, 0);
    } else {
      hide Quot, Rem, Unit;
      UnitBounds(m);
      Division(m, Unit(m));
      var q, u := Quot(m, Unit(m)), Unit(m);
      Multiples(q, 0, u);
      AtLeast(q, u, 0);
      AtLeast(u, q, 0);
      assert u * q == q * u;
      assert Round53(m) == if RoundDiv(m, u) == q then q * u else (q + 1) * u;
    }
  }
}
