/** Printing doubles in hexadecimal, and reading them back. */
module HexPrint {
  import opened Bytes
  import opened FloatRounding
  import opened HexFloat

  const SIGN_BIT := 0x8000_0000_0000_0000

  function Digit(d: nat): char
    requires d < 16
  {
    if d < 10 then '0' + d as char else 'a' + (d - 10) as char
  }

  lemma DigitReads(d: nat)
    requires d < 16
    ensures HexDigit(Digit(d)) == Some(d) && Digit(d) !in {'.', 'p', 'P', '_'}
  {
  }

  // ----- the exponent -----

  function Show(n: nat): (s: string)
    ensures |s| > 0
  {
    if n < 10 then ['0' + n as char] else Show(n / 10) + ['0' + (n % 10) as char]
  }

  lemma {:induction false} ShowReads(n: nat)
    ensures Decimal(Show(n)) == Some(n)
    ensures forall i :: 0 <= i < |Show(n)| ==> '0' <= Show(n)[i] <= '9'
  {
    if n >= 10 {
      ShowReads(n / 10);
      var s := Show(n);
      assert s[..|s| - 1] == Show(n / 10);
    }
  }

  /** As %+d prints it. */
  function ShowSigned(e: int): string {
    if e < 0 then ['-'] + Show(-e) else ['+'] + Show(e)
  }

  lemma SignedReads(e: int)
    ensures Strtol(ShowSigned(e)) == Some(e)
  {
    var n: nat := if e < 0 then -e else e;
    ShowReads(n);
    assert ShowSigned(e)[1..] == Show(n);
  }

  // ----- the text -----

  /** The digits of a fraction held in the low 56 bits of a word, at most `k` of them, up to the last nonzero one. */
  function Fraction(m: nat, k: nat): string
    requires m < 16 * P52
    decreases k
  {
    if m == 0 || k == 0 then [] else [Digit(m / P52)] + Fraction(m % P52 * 16, k - 1)
  }

  /** The text after the prefix, for the significand `sig` (53 bits, 52 of them after the point) and an exponent. */
  function Body(sig: nat, e: int): string
    requires sig < P53
  {
    var m := sig % P52 * 16;
    [Digit(sig / P52)] + (if m == 0 then [] else ['.'] + Fraction(m, 13)) + ['p'] + ShowSigned(e)
  }

  /** The exponent printed: zero for zero. */
  function PrintedExp(b: nat): int {
    if b == 0 then 0 else ExpOf(b) + 52
  }

  /** `m` is a fraction of `k` digits, left-aligned in 56 bits. */
  ghost predicate Aligned(m: nat, k: nat, f: nat) {
    k <= 13 && f < Pow2(4 * k) && m == f * Pow2(56 - 4 * k)
  }

  lemma AlignedStart(f: nat)
    requires f < P52
    ensures Aligned(f * 16, 13, f)
  {
    Powers();
    assert Pow2(4) == 16;
  }

  /** One digit more: the fraction loses it. */
  lemma AlignedStep(m: nat, k: nat, f: nat)
    requires Aligned(m, k, f) && k > 0
    ensures m / P52 < 16 && m < 16 * P52
    ensures var p := Pow2(4 * k - 4);
      f == m / P52 * p + Rem(f, p) && Aligned(m % P52 * 16, k - 1, Rem(f, p))
  {
    hide Quot, Rem, Pow2;
    var p, x := Pow2(4 * k - 4), Pow2(56 - 4 * k);
    Powers();
    Pow2Add(4 * k - 4, 56 - 4 * k);
    Sixteen(4 * k - 4);
    Sixteen(56 - 4 * k);
    Division(f, p);
    var d, r := Quot(f, p), Rem(f, p);
    assert m == d * P52 + r * x by {
      MulAssoc(d, p, x);
      assert (d * p + r) * x == d * p * x + r * x;
    }
    assert r * x < P52 by {
      Multiples(p, r, x);
    }
    MulNat(r, x);
    ModUnique(m, P52, d, r * x);
    assert d < 16 by {
      if d >= 16 {
        Multiples(d, 15, p);
      }
    }
    MulSixteen(r, x);
  }

  lemma AlignedEnd(m: nat, f: nat)
    requires Aligned(m, 0, f)
    ensures m == 0
  {
  }

  // ----- reading it back -----

  /** Reading the remaining digits: with `n` read and the fraction `f` to come, the whole is `sig`. */
  lemma {:induction false} FractionReads(m: nat, k: nat, f: nat, n: nat, sig: nat, e: int)
    requires Aligned(m, k, f) && m < 16 * P52 && sig < P53 && sig == n * Pow2(4 * k) + f && INT_MIN < e < INT_MAX
    ensures Reference(Fraction(m, k) + (['p'] + ShowSigned(e)), n, 56 - 4 * k, 4) == Some(Ldexp(sig, e - 52))
    decreases k
  {
    hide Ldexp, Pow2, ShowSigned, Quot, Rem, Reference, Digit, Round53;
    var tail := ['p'] + ShowSigned(e);
    if m == 0 {
      FractionDone(m, k, f, n, sig);
      assert Fraction(m, k) + tail == tail;
      EndReads(n, 56 - 4 * k, 4, e);
      SmallExact(n);
      LdexpShift(n, 4 * k, e - 52);
    } else if k == 0 {
      AlignedEnd(m, f);
    } else {
      AlignedStep(m, k, f);
      var d, rest := m / P52, m % P52 * 16;
      var p := Pow2(4 * k - 4);
      Sixteen(4 * k - 4);
      OneDigitMore(n, p, d, Rem(f, p));
      FractionReads(rest, k - 1, Rem(f, p), 16 * n + d, sig, e);
      assert Fraction(m, k) + tail == [Digit(d)] + (Fraction(rest, k - 1) + tail);
      DigitStep(d, Fraction(rest, k - 1) + tail, n, 56 - 4 * k, 4);
    }
  }

  lemma OneDigitMore(n: nat, p: nat, d: nat, r: nat)
    ensures n * (16 * p) + (d * p + r) == (16 * n + d) * p + r
  {
    MulSixteen(n, p);
    assert (16 * n + d) * p == 16 * n * p + d * p;
    MulAssoc(16, n, p);
  }

  lemma DigitStep(d: nat, text: string, n: nat, bits: int, point: int)
    requires d < 16
    ensures Reference([Digit(d)] + text, n, bits, point) == Reference(text, 16 * n + d, bits + 4, point)
  {
    hide Exactly, Strtol;
    DigitReads(d);
    assert ([Digit(d)] + text)[1..] == text;
  }

  lemma FractionDone(m: nat, k: nat, f: nat, n: nat, sig: nat)
    requires Aligned(m, k, f) && m == 0 && sig == n * Pow2(4 * k) + f
    ensures f == 0 && sig == n * Pow2(4 * k) && n <= sig
  {
    if f > 0 {
      AtLeast(f, Pow2(56 - 4 * k), 0);
    }
    AtLeast(n, Pow2(4 * k), 0);
  }

  lemma EndReads(n: nat, bits: int, point: int, e: int)
    requires bits > 0 && INT_MIN < e < INT_MAX
    ensures Reference(['p'] + ShowSigned(e), n, bits, point) ==
      Some(Ldexp(Round53(n), e - if point >= 0 then bits - point else 0))
  {
    hide Ldexp, Round53;
    SignedReads(e);
    var text := ['p'] + ShowSigned(e);
    assert text[1..] == ShowSigned(e);
  }

  lemma BodyReads(sig: nat, e: int)
    requires sig < P53 && INT_MIN < e < INT_MAX
    ensures Reference(Body(sig, e), 0, 0, -1) == Some(Ldexp(sig, e - 52))
  {
    hide Ldexp, Pow2, ShowSigned, Fraction, Round53;
    var lead, f := sig / P52, sig % P52;
    var m := f * 16;
    var tail := ['p'] + ShowSigned(e);
    DigitReads(lead);
    Powers();
    if m == 0 {
      var text := [Digit(lead)] + tail;
      assert Body(sig, e) == text && text[1..] == tail;
      EndReads(lead, 4, -1, e);
      SmallExact(lead);
      LdexpShift(lead, 52, e - 52);
    } else {
      AlignedStart(f);
      FractionReads(m, 13, f, lead, sig, e);
      var rest := Fraction(m, 13) + tail;
      var text := [Digit(lead)] + (['.'] + rest);
      assert Body(sig, e) == text;
      assert text[1..] == ['.'] + rest && (['.'] + rest)[1..] == rest;
    }
  }

  /** The text of a finite nonnegative double reads back as that double. */
  lemma FiniteReads(b: nat)
    requires b < INFINITY
    ensures SigOf(b) < P53 && Reference(Body(SigOf(b), PrintedExp(b)), 0, 0, -1) == Some(b)
  {
    hide Ldexp, Body, Reference;
    BodyReads(SigOf(b), PrintedExp(b));
    LdexpOfBits(b);
    if b == 0 {
      LdexpZero(-52);
      LdexpZero(MIN_EXP);
    }
  }

  // ----- the printer -----

  /** The sign as the style asks for it. */
  function SignText(negative: bool, style: char): string {
    if negative then ['-'] else if style == '+' || style == ' ' then [style] else []
  }

  /** What is printed for the 64 bits of a double, no precision being given. */
  function Printed(bits: nat, style: char): string
    requires bits < 2 * SIGN_BIT
  {
    var b := bits % SIGN_BIT;
    SignText(bits >= SIGN_BIT, style) +
    if b == INFINITY then "infinity"
    else if b > INFINITY then "nan"
    else ['0', 'x'] + Body(SigOf(b), PrintedExp(b))
  }

  method HexString(bits: nat, style: char) returns (text: string)
    requires bits < 2 * SIGN_BIT
    ensures text == Printed(bits, style)
  {
    hide ShowSigned, Digit;
    var b := bits % SIGN_BIT;
    var exp, m := b / P52, b % P52;
    var sign := SignText(bits >= SIGN_BIT, style);
    Fields(b, exp, m);
    if exp == 0x7FF {
      return sign + if m == 0 then "infinity" else "nan";
    }
    if exp == 0 {
      if m != 0 {
        exp := -1022;
      }
    } else {
      exp := exp - 1023;
      m := m + P52;
    }
    ghost var sig := m;
    assert sig == SigOf(b) && exp == PrintedExp(b);
    var digits := [Digit(m / P52)];
    m := m % P52 * 16;
    if m != 0 {
      AlignedStart(sig % P52);
      var fraction := FractionDigits(m, sig % P52);
      digits := digits + (['.'] + fraction);
    }
    assert digits + ['p'] + ShowSigned(exp) == Body(sig, exp);
    text := sign + (['0', 'x'] + (digits + ['p'] + ShowSigned(exp)));
  }

  lemma Fields(b: nat, exp: nat, m: nat)
    requires b < SIGN_BIT && exp == b / P52 && m == b % P52
    ensures exp <= 0x7FF && (exp == 0x7FF <==> b >= INFINITY) && (exp == 0x7FF ==> (m == 0 <==> b == INFINITY))
    ensures exp == 0 <==> b < P52
    ensures exp == 0 ==> m == b
  {
    assert b == P52 * exp + m;
  }

  /** The loop that prints digits until none is left. */
  method FractionDigits(m0: nat, ghost f0: nat) returns (text: string)
    requires Aligned(m0, 13, f0) && m0 < 16 * P52
    ensures text == Fraction(m0, 13)
  {
    hide Digit, Aligned;
    var m: nat := m0;
    ghost var k: nat, f: nat := 13, f0;
    text := [];
    while m != 0
      invariant Aligned(m, k, f) && m < 16 * P52
      invariant text + Fraction(m, k) == Fraction(m0, 13)
      decreases k
    {
      if k == 0 {
        AlignedEnd(m, f);
      }
      AlignedStep(m, k, f);
      ghost var p := Pow2(4 * k - 4);
      assert text + Fraction(m, k) == text + [Digit(m / P52)] + Fraction(m % P52 * 16, k - 1);
      text := text + [Digit(m / P52)];
      m := m % P52 * 16;
      k, f := k - 1, Rem(f, p);
    }
    assert text + Fraction(m, k) == text;
  }

  // ----- the reader -----

  function Clean(s: string): string {
    if s == [] then [] else Clean(s[..|s| - 1]) + if s[|s| - 1] == '_' then [] else [s[|s| - 1]]
  }

  datatype Read = Bits(bits: nat) | Malformed | NotHexadecimal

  /** The meaning of a text with a hexadecimal prefix: sign, then the exact value rounded to 53 bits and scaled. */
  function Meaning(s: string): Read {
    var t := Clean(s);
    var signed := t != [] && (t[0] == '-' || t[0] == '+');
    var u := if signed then t[1..] else t;
    if t == [] then Malformed
    else if |u| >= 2 && u[0] == '0' && (u[1] == 'x' || u[1] == 'X') then
      match Reference(u[2..], 0, 0, -1)
      case None => Malformed
      case Some(b) => Bits(if t[0] == '-' then SIGN_BIT + b else b)
    else NotHexadecimal
  }

  method FloatOfString(s: string) returns (r: Read)
    requires |s| < 0x1000_0000
    ensures r == Meaning(s)
  {
    var t := [];
    for i := 0 to |s|
      invariant t == Clean(s[..i]) && |t| <= i
    {
      assert s[..i + 1][..i] == s[..i];
      if s[i] != '_' {
        t := t + [s[i]];
      }
    }
    assert s[..|s|] == s;
    if t == [] {
      return Malformed;
    }
    var u := if t[0] == '-' || t[0] == '+' then t[1..] else t;
    if |u| >= 2 && u[0] == '0' && (u[1] == 'x' || u[1] == 'X') {
      var v := FloatOfHex(u[2..]);
      if v.None? {
        return Malformed;
      }
      return Bits(if t[0] == '-' then SIGN_BIT + v.value else v.value);
    }
    return NotHexadecimal;
  }

  // ----- the round trip -----

  lemma {:induction false} CleanSame(s: string)
    requires '_' !in s
    ensures Clean(s) == s
  {
    if s != [] {
      CleanSame(s[..|s| - 1]);
    }
  }

  lemma {:induction false} FractionClean(m: nat, k: nat)
    requires m < 16 * P52
    ensures '_' !in Fraction(m, k)
    decreases k
  {
    if m != 0 && k != 0 {
      FractionClean(m % P52 * 16, k - 1);
      DigitReads(m / P52);
    }
  }

  lemma BodyClean(sig: nat, e: int)
    requires sig < P53
    ensures '_' !in Body(sig, e)
  {
    hide Digit, Fraction, ShowSigned;
    DigitReads(sig / P52);
    var m := sig % P52 * 16;
    FractionClean(m, 13);
    SignedClean(e);
    var fraction := if m == 0 then [] else ['.'] + Fraction(m, 13);
    assert '_' !in fraction;
    assert Body(sig, e) == [Digit(sig / P52)] + fraction + ['p'] + ShowSigned(e);
  }

  lemma SignedClean(e: int)
    ensures '_' !in ShowSigned(e)
  {
    ShowReads(if e < 0 then -e else e);
  }

  /** Printing any finite double and reading the text gives the same bits, the sign of zero included. */
  lemma {:induction false} RoundTrip(bits: nat, style: char)
    requires bits < 2 * SIGN_BIT && bits % SIGN_BIT < INFINITY && style != ' '
    ensures Meaning(Printed(bits, style)) == Bits(bits)
  {
    hide Reference, Body, Meaning, SigOf, ExpOf;
    var b := bits % SIGN_BIT;
    FiniteReads(b);
    BodyClean(SigOf(b), PrintedExp(b));
    var sign := SignText(bits >= SIGN_BIT, style);
    MeaningOf(sign, Body(SigOf(b), PrintedExp(b)), b);
  }

  lemma MeaningOf(sign: string, body: string, b: nat)
    requires sign in {"", "-", "+"} && '_' !in body && Reference(body, 0, 0, -1) == Some(b)
    ensures Meaning(sign + (['0', 'x'] + body)) == Bits(if sign == "-" then SIGN_BIT + b else b)
  {
    hide Reference, Clean;
    var u := ['0', 'x'] + body;
    var text := sign + u;
    CleanSame(text);
    assert u[2..] == body;
    if sign == "" {
      assert text == u;
    } else {
      assert text[1..] == u;
    }
  }

  /** Neither a hexadecimal digit nor an exponent mark. */
  ghost predicate Digitless(text: string) {
    forall i :: 0 <= i < |text| ==> HexDigit(text[i]) == None && text[i] != 'p' && text[i] != 'P'
  }

  lemma DotThen(rest: string)
    ensures Reference(['.'] + rest, 0, 0, -1) == Reference(rest, 0, 0, 0)
    ensures Reference(['.'] + rest, 0, 0, 0) == None
  {
    hide Strtol, Exactly;
    assert (['.'] + rest)[1..] == rest;
  }

  lemma MarkThen(mark: char, rest: string, point: int)
    requires mark == 'p' || mark == 'P'
    ensures Reference([mark] + rest, 0, 0, point) ==
      if Strtol(rest).Some? && !(INT_MIN < Strtol(rest).value < INT_MAX) then Some(0) else None
  {
    hide Round53, Strtol;
    assert ([mark] + rest)[1..] == rest;
    SmallExact(0);
  }

  /** Before the mark, a digitless text can only be nothing or a point. */
  lemma NothingOrPoint(text: string, rest: string)
    requires Digitless(text)
    ensures Reference(text + rest, 0, 0, -1) ==
      if text == [] then Reference(rest, 0, 0, -1) else if text == ['.'] then Reference(rest, 0, 0, 0) else None
  {
    hide Strtol, Exactly;
    if text == [] {
      assert text + rest == rest;
    } else if text[0] == '.' {
      var more := text[1..] + rest;
      assert text + rest == ['.'] + more;
      DotThen(more);
      if text == ['.'] {
        assert more == rest;
      } else if text[1] == '.' {
        assert more == ['.'] + (text[2..] + rest);
        DotThen(text[2..] + rest);
      } else {
        assert more[0] == text[1];
      }
    } else {
      assert (text + rest)[0] == text[0];
    }
  }

  /** A text without digits is refused, but for an exponent beyond a C int after nothing or a point: that is read as
      zero. */
  lemma {:induction false} NoDigits(text: string, mark: char, rest: string)
    requires Digitless(text) && (mark == 'p' || mark == 'P')
    ensures Reference(text, 0, 0, -1) == None
    ensures Reference(text + ([mark] + rest), 0, 0, -1) ==
      if (text == [] || text == ['.']) && Strtol(rest).Some? && !(INT_MIN < Strtol(rest).value < INT_MAX) then Some(0)
        else None
  {
    hide Strtol, Reference;
    NothingOrPoint(text, [mark] + rest);
    MarkThen(mark, rest, -1);
    MarkThen(mark, rest, 0);
    NothingOrPoint(text, []);
    assert text + [] == text;
    Nothing();
  }

  lemma Nothing()
    ensures Reference([], 0, 0, -1) == None && Reference([], 0, 0, 0) == None
  {
  }
}
