/** What the hexadecimal texts look like, and what they stand for. */
module HexTexts {
  import opened Bytes
  import opened FloatRounding
  import opened HexFloat
  import opened HexPrint

  // ----- printing -----

  const DIGITS := "0123456789abcdef"
  const UPPER := "0123456789ABCDEF"

  /** The digits are the usual ones, in lower case when printed, in either case when read. */
  lemma {:induction false} UsualDigits(d: nat)
    requires d < 16
    ensures Digit(d) == DIGITS[d] && HexDigit(DIGITS[d]) == Some(d) && HexDigit(UPPER[d]) == Some(d)
  {
  }

  /** Numbers are printed in base ten without leading zeros. */
  lemma {:induction false} UsualNumber(n: nat)
    ensures n < 10 ==> Show(n) == [DIGITS[n]]
    ensures n >= 10 ==> Show(n) == Show(n / 10) + [DIGITS[n % 10]] && Show(n)[0] != '0'
  {
    hide Show;
    DecimalDigit(n % 10);
    ShowParts(n);
    if n >= 10 {
      FirstNotZero(n);
    }
  }

  lemma DecimalDigit(d: nat)
    requires d < 10
    ensures '0' + d as char == DIGITS[d]
  {
  }

  lemma ShowParts(n: nat)
    ensures Show(n) == if n < 10 then ['0' + n as char] else Show(n / 10) + ['0' + (n % 10) as char]
  {
  }

  lemma {:induction false} FirstNotZero(n: nat)
    requires n > 0
    ensures Show(n)[0] != '0'
  {
    if n >= 10 {
      FirstNotZero(n / 10);
    }
  }

  /** The fraction has hexadecimal digits only, and does not end with a zero. */
  lemma {:induction false} FractionShape(m: nat, k: nat, f: nat)
    requires Aligned(m, k, f) && m < 16 * P52
    ensures var t := Fraction(m, k);
      && |t| <= k && (t == [] <==> m == 0) && (t != [] ==> t[|t| - 1] != '0')
      && forall i :: 0 <= i < |t| ==> t[i] in DIGITS
    decreases k
  {
    hide Aligned, Digit;
    if m != 0 && k != 0 {
      AlignedStep(m, k, f);
      UsualDigits(m / P52);
      FractionShape(m % P52 * 16, k - 1, Rem(f, Pow2(4 * k - 4)));
      var t, rest := Fraction(m, k), Fraction(m % P52 * 16, k - 1);
      assert t == [Digit(m / P52)] + rest;
      if rest == [] {
        LastDigit(m);
      }
    } else if m != 0 {
      AlignedEnd(m, f);
    }
  }

  lemma LastDigit(m: nat)
    requires 0 < m < 16 * P52 && m % P52 * 16 == 0
    ensures 0 < m / P52 < 16 && Digit(m / P52) != '0'
  {
    assert m == P52 * (m / P52) + m % P52;
  }

  /** A finite double: 0x, the digit 1 before the point or 0 for zero and subnormals, the fraction if there is one, and
      the exponent with its sign. */
  lemma {:induction false} TextShape(bits: nat, style: char)
    requires bits % SIGN_BIT < INFINITY && bits < 2 * SIGN_BIT
    ensures var b := bits % SIGN_BIT;
      var fraction := Fraction(b % P52 * 16, 13);
      && Printed(bits, style) ==
         SignText(bits >= SIGN_BIT, style) +
         (['0', 'x'] + ([if b < P52 then '0' else '1'] + (if fraction == [] then [] else ['.'] + fraction) + ['p'] +
                        ShowSigned(PrintedExp(b))))
      && |fraction| <= 13 && (fraction != [] ==> fraction[|fraction| - 1] != '0')
  {
    hide ShowSigned, Fraction, SignText;
    var b := bits % SIGN_BIT;
    SignificandParts(b);
    AlignedStart(b % P52);
    FractionShape(b % P52 * 16, 13, b % P52);
  }

  lemma SignificandParts(b: nat)
    requires b < INFINITY
    ensures SigOf(b) < P53 && SigOf(b) / P52 == (if b < P52 then 0 else 1) && SigOf(b) % P52 == b % P52
  {
    if b < P52 {
      ModUnique(b, P52, 0, b);
    } else {
      ModUnique(SigOf(b), P52, 1, b % P52);
    }
  }

  /** Infinities, in either sign, and every NaN. */
  lemma {:induction false} SpecialTexts(bits: nat)
    requires INFINITY <= bits < SIGN_BIT
    ensures Printed(bits, '-') == if bits == INFINITY then "infinity" else "nan"
    ensures Printed(bits, '+') == if bits == INFINITY then "+infinity" else "+nan"
    ensures Printed(SIGN_BIT + bits, '-') == if bits == INFINITY then "-infinity" else "-nan"
  {
    ModUnique(bits, SIGN_BIT, 0, bits);
    ModUnique(SIGN_BIT + bits, SIGN_BIT, 1, bits);
    assert ['+'] + "infinity" == "+infinity" && ['+'] + "nan" == "+nan";
    assert ['-'] + "infinity" == "-infinity" && ['-'] + "nan" == "-nan";
    assert [] + "infinity" == "infinity" && [] + "nan" == "nan";
  }

  lemma Zero()
    ensures Printed(0, '-') == "0x0p+0" && Printed(SIGN_BIT, '-') == "-0x0p+0"
  {
    assert Show(0) == "0";
    assert Body(0, 0) == "0p+0";
    assert ['0', 'x'] + "0p+0" == "0x0p+0";
    assert ['-'] + "0x0p+0" == "-0x0p+0";
  }

  /** One, two and a half, and minus one. */
  lemma {:induction false} KnownTexts()
    ensures Printed(0x3FF0_0000_0000_0000, '-') == "0x1p+0"
    ensures Printed(0x4004_0000_0000_0000, ' ') == " 0x1.4p+1"
    ensures Printed(SIGN_BIT + 0x3FF0_0000_0000_0000, '-') == "-0x1p+0"
    ensures Printed(0, '-') == "0x0p+0" && Printed(SIGN_BIT, '-') == "-0x0p+0"
  {
    hide Body;
    Zero();
    BodyOne();
    BodyTwoAndAHalf();
    assert SigOf(0x3FF0_0000_0000_0000) == P52 && PrintedExp(0x3FF0_0000_0000_0000) == 0;
    assert SigOf(0x4004_0000_0000_0000) == P52 + 0x4_0000_0000_0000 && PrintedExp(0x4004_0000_0000_0000) == 1;
    assert ['0', 'x'] + "1p+0" == "0x1p+0" && ['-'] + "0x1p+0" == "-0x1p+0" && [] + "0x1p+0" == "0x1p+0";
    assert ['0', 'x'] + "1.4p+1" == "0x1.4p+1" && [' '] + "0x1.4p+1" == " 0x1.4p+1";
  }

  lemma BodyOne()
    ensures Body(P52, 0) == "1p+0"
  {
    assert Show(0) == "0";
  }

  lemma BodyTwoAndAHalf()
    ensures Body(P52 + 0x4_0000_0000_0000, 1) == "1.4p+1"
  {
    var m := 0x40_0000_0000_0000;
    assert (P52 + 0x4_0000_0000_0000) % P52 * 16 == m && (P52 + 0x4_0000_0000_0000) / P52 == 1;
    assert m / P52 == 4 && m % P52 * 16 == 0;
    assert Fraction(0, 12) == [];
    assert Fraction(m, 13) == ['4'] + [] == "4";
    assert Show(1) == "1";
  }

  // ----- what a text stands for -----

  /** The number that hexadecimal digits write: each stands for its value times sixteen to the digits after it. */
  function Weight(k: nat): (p: nat)
    ensures p > 0
  {
    if k == 0 then 1 else 16 * Weight(k - 1)
  }

  ghost predicate HexDigits(s: string) {
    forall i :: 0 <= i < |s| ==> HexDigit(s[i]).Some?
  }

  function HexNumber(s: string): nat {
    if s == [] then 0
    else (match HexDigit(s[0]) case Some(d) => d case None => 0) * Weight(|s| - 1) + HexNumber(s[1..])
  }

  lemma {:induction false} DigitsRead(a: string, rest: string, n: nat, bits: nat, point: int)
    requires HexDigits(a)
    ensures ValueOf(a + rest, n, bits, point) == ValueOf(rest, n * Weight(|a|) + HexNumber(a), bits + 4 * |a|, point)
    decreases |a|
  {
    if a == [] {
      assert a + rest == rest;
    } else {
      hide HexDigit, Weight, ValueOf;
      DigitIsNoMark(a[0]);
      var d := HexDigit(a[0]).value;
      assert (a + rest)[1..] == a[1..] + rest;
      OneRead(a + rest, n, bits, point);
      DigitsRead(a[1..], rest, 16 * n + d, bits + 4, point);
      WeightStep(n, d, |a| - 1);
    }
  }

  lemma DigitIsNoMark(c: char)
    requires HexDigit(c).Some?
    ensures c !in {'.', 'p', 'P'}
  {
  }

  lemma OneRead(s: string, n: nat, bits: int, point: int)
    requires s != [] && HexDigit(s[0]).Some?
    ensures ValueOf(s, n, bits, point) == ValueOf(s[1..], 16 * n + HexDigit(s[0]).value, bits + 4, point)
  {
    hide Strtol;
    DigitIsNoMark(s[0]);
  }

  lemma WeightStep(n: nat, d: nat, k: nat)
    ensures (16 * n + d) * Weight(k) == n * Weight(k + 1) + d * Weight(k)
  {
    assert Weight(k + 1) == 16 * Weight(k);
    MulAssoc(n, 16, Weight(k));
    assert (16 * n + d) * Weight(k) == 16 * n * Weight(k) + d * Weight(k);
  }

  /** Digits, a point, digits and an exponent: all the digits as one integer, with four binary places for each digit
      after the point. */
  lemma {:induction false} TextMeans(a: string, b: string, mark: char, t: string)
    requires HexDigits(a) && HexDigits(b) && a + b != [] && (mark == 'p' || mark == 'P') && Strtol(t).Some?
    ensures ValueOf(a + (['.'] + (b + ([mark] + t))), 0, 0, -1) ==
      Some((HexNumber(a) * Weight(|b|) + HexNumber(b), Strtol(t).value - 4 * |b|))
  {
    hide Strtol, HexNumber, Weight, ValueOf, HexDigit;
    var tail := [mark] + t;
    DigitsRead(a, ['.'] + (b + tail), 0, 0, -1);
    PointRead(b + tail, 0 * Weight(|a|) + HexNumber(a), 4 * |a|);
    DigitsRead(b, tail, HexNumber(a), 4 * |a|, 4 * |a|);
    MarkRead(mark, t, HexNumber(a) * Weight(|b|) + HexNumber(b), 4 * |a| + 4 * |b|, 4 * |a|);
    assert |a + b| == |a| + |b| > 0;
  }

  lemma PointRead(rest: string, n: nat, bits: nat)
    ensures ValueOf(['.'] + rest, n, bits, -1) == ValueOf(rest, n, bits, bits)
  {
    assert (['.'] + rest)[1..] == rest;
  }

  lemma MarkRead(mark: char, t: string, n: nat, bits: int, point: int)
    requires (mark == 'p' || mark == 'P') && Strtol(t).Some? && bits > 0
    ensures ValueOf([mark] + t, n, bits, point) ==
      Some((n, Strtol(t).value + if point >= 0 then point - bits else 0))
  {
    hide Strtol;
    assert ([mark] + t)[1..] == t;
  }

  /** 0x1.8p1 stands for 24/8. */
  lemma {:induction false} KnownValue()
    ensures ValueOf("1.8p1", 0, 0, -1) == Some((24, -3))
  {
    var a, b := "1", "8";
    assert Decimal("1") == Some(1) && Strtol("1") == Some(1);
    TextMeans(a, b, 'p', "1");
    assert a + (['.'] + (b + (['p'] + "1"))) == "1.8p1";
    assert HexNumber(a) == 1 && HexNumber(b) == 8 by {
      assert a[1..] == [] && b[1..] == [];
    }
    assert Weight(1) == 16;
  }

  // ----- sign, prefix and underscores -----

  lemma {:induction false} CleanAdd(a: string, b: string)
    ensures Clean(a + b) == Clean(a) + Clean(b)
    decreases |b|
  {
    if b == [] {
      assert a + b == a;
    } else {
      assert (a + b)[..|a + b| - 1] == a + b[..|b| - 1];
      CleanAdd(a, b[..|b| - 1]);
    }
  }

  /** Underscores do not count, wherever they are, and nothing else is dropped. */
  lemma {:induction false} Underscores(a: string, b: string)
    ensures Meaning(a + (['_'] + b)) == Meaning(a + b)
    ensures '_' !in a ==> Clean(a) == a
  {
    hide Clean, Reference;
    CleanAdd(a, ['_'] + b);
    CleanAdd(['_'], b);
    CleanAdd(a, b);
    assert Clean(['_']) == [] by { CleanOne(); }
    assert Clean(a + (['_'] + b)) == Clean(a + b);
    if '_' !in a {
      CleanSame(a);
    }
  }

  lemma CleanOne()
    ensures Clean(['_']) == []
  {
    assert ['_'][..0] == [];
  }

  /** A sign or none, the prefix in either case, and the rest as it stands. */
  lemma {:induction false} SignAndPrefix(sign: string, x: char, body: string)
    requires sign in {"", "-", "+"} && (x == 'x' || x == 'X') && '_' !in body
    ensures Meaning(sign + (['0', x] + body)) ==
      match Reference(body, 0, 0, -1)
      case None => Malformed
      case Some(b) => Bits(if sign == "-" then SIGN_BIT + b else b)
  {
    hide Reference, Clean;
    var u := ['0', x] + body;
    var text := sign + u;
    CleanSame(text);
    assert u[2..] == body;
    if sign == "" {
      assert text == u;
    } else {
      assert text[1..] == u;
    }
  }

  // ----- malformed texts -----

  /** Digits, with a point somewhere or not. */
  ghost predicate Form(body: string) {
    HexDigits(body) || exists i :: PointAt(body, i)
  }

  ghost predicate PointAt(body: string, i: int) {
    0 <= i < |body| && body[i] == '.' && HexDigits(body[..i]) && HexDigits(body[i + 1..])
  }

  ghost predicate NoMark(body: string) {
    forall i :: 0 <= i < |body| ==> body[i] != 'p' && body[i] != 'P'
  }

  /** What comes before the exponent must be digits with at most one point. */
  lemma {:induction false} MalformedBody(body: string, tail: string, n: nat, bits: int, point: int)
    requires bits >= 0 && NoMark(body) && (tail == [] || tail[0] == 'p' || tail[0] == 'P')
    requires if point >= 0 then !HexDigits(body) else !Form(body)
    ensures ValueOf(body + tail, n, bits, point) == None
    decreases |body|
  {
    assert body != [];
    var text, rest := body + tail, body[1..];
    assert text[1..] == rest + tail && body == [body[0]] + rest;
    hide Strtol;
    if body[0] == '.' {
      if point < 0 {
        PointFirst(body);
        MalformedBody(rest, tail, n, bits, bits);
      }
    } else if HexDigit(body[0]).Some? {
      if point < 0 {
        DigitFirst(body);
      }
      MalformedBody(rest, tail, 16 * n + HexDigit(body[0]).value, bits + 4, point);
    }
  }

  lemma PointFirst(body: string)
    requires body != [] && body[0] == '.'
    ensures HexDigits(body[1..]) ==> Form(body)
  {
    if HexDigits(body[1..]) {
      assert PointAt(body, 0);
    }
  }

  lemma DigitFirst(body: string)
    requires body != [] && HexDigit(body[0]).Some?
    ensures Form(body[1..]) ==> Form(body)
  {
    hide HexDigit;
    var rest := body[1..];
    if HexDigits(rest) {
      assert HexDigits(body);
    }
    if i :| PointAt(rest, i) {
      assert body[..i + 1] == [body[0]] + rest[..i] && body[i + 2..] == rest[i + 1..];
      assert PointAt(body, i + 1);
    }
  }
}
