/** Bitwise operations on words, and bit vectors packed in 64-bit words. */
module Bitvect {
  import opened Bytes

  function BitAnd(x: nat, y: nat): nat
    decreases y, x
  {
    if x == 0 || y == 0 then 0 else (if x % 2 == 1 && y % 2 == 1 then 1 else 0) + 2 * BitAnd(x / 2, y / 2)
  }

  function BitOr(x: nat, y: nat): nat
    decreases y, x
  {
    if x == 0 then y else if y == 0 then x
    else (if x % 2 == 1 || y % 2 == 1 then 1 else 0) + 2 * BitOr(x / 2, y / 2)
  }

  /** One shifted left `p` times. */
  function Mask(p: nat): nat {
    Pow2(p)
  }

  lemma MaskHalves(p: nat)
    requires p > 0
    ensures Mask(p) > 1 && Mask(p) % 2 == 0 && Mask(p) / 2 == Mask(p - 1)
  {
  }

  /** Setting one bit of a word and testing another. */
  lemma {:induction false} OrThenAnd(w: nat, b: nat, c: nat)
    ensures BitAnd(BitOr(w, Mask(b)), Mask(c)) != 0 <==> b == c || BitAnd(w, Mask(c)) != 0
    decreases b + c
  {
    var v := BitOr(w, Mask(b));
    if b > 0 {
      MaskHalves(b);
    }
    if c > 0 {
      MaskHalves(c);
    }
    hide Mask;
    assert Mask(0) == 1 by { MaskZero(); }
    OrHalves(w, Mask(b));
    AndHalves(v, Mask(c));
    AndHalves(w, Mask(c));
    if b > 0 && c > 0 {
      OrThenAnd(w / 2, b - 1, c - 1);
    } else if c > 0 {
      OrZero(w / 2);
    } else if b > 0 {
      AndZero(w / 2);
      AndZero(v / 2);
    }
  }

  lemma MaskZero()
    ensures Mask(0) == 1
  {
  }

  lemma OrZero(w: nat)
    ensures BitOr(w, 0) == w
  {
  }

  lemma AndZero(w: nat)
    ensures BitAnd(w, 0) == 0
  {
  }

  lemma OrHalves(x: nat, y: nat)
    ensures BitOr(x, y) / 2 == BitOr(x / 2, y / 2) && (BitOr(x, y) % 2 == 1 <==> x % 2 == 1 || y % 2 == 1)
  {
  }

  lemma AndHalves(x: nat, y: nat)
    ensures BitAnd(x, y) != 0 <==> (x % 2 == 1 && y % 2 == 1) || BitAnd(x / 2, y / 2) != 0
  {
  }

  /** Words stay words. */
  lemma {:induction false} OrFits(x: nat, y: nat, k: nat)
    requires x < Pow2(k) && y < Pow2(k)
    ensures BitOr(x, y) < Pow2(k)
    decreases k
  {
    if k > 0 && x > 0 && y > 0 {
      OrFits(x / 2, y / 2, k - 1);
    }
  }

  // ----- vectors -----

  const BITS_WORD := 64

  /** Words for `n` bits. */
  function Size(n: nat): nat {
    (n + BITS_WORD - 1) / BITS_WORD
  }

  /** The word and the place of bit `i`. */
  function Word(i: nat): nat {
    i / BITS_WORD
  }

  function Place(i: nat): (p: nat)
    ensures p < BITS_WORD
  {
    i % BITS_WORD
  }

  lemma SameBit(i: nat, j: nat)
    ensures Word(i) == Word(j) && Place(i) == Place(j) <==> i == j
  {
  }

  predicate Test(words: seq<nat>, i: nat)
    requires Word(i) < |words|
  {
    BitAnd(words[Word(i)], Mask(Place(i))) != 0
  }

  function Set(words: seq<nat>, i: nat): seq<nat>
    requires Word(i) < |words|
  {
    words[Word(i) := BitOr(words[Word(i)], Mask(Place(i)))]
  }

  /** Setting a bit changes that one. */
  lemma {:induction false} SetTest(words: seq<nat>, i: nat, j: nat)
    requires Word(i) < |words| && Word(j) < |words|
    ensures Test(Set(words, i), j) <==> i == j || Test(words, j)
  {
    hide BitAnd, BitOr, Mask, Word, Place;
    SameBit(i, j);
    OrThenAnd(words[Word(i)], Place(i), Place(j));
  }

  /** Setting a bit keeps 64-bit words. */
  lemma {:induction false} SetFits(words: seq<nat>, i: nat)
    requires Word(i) < |words| && forall j :: 0 <= j < |words| ==> words[j] < TWO64
    ensures forall j :: 0 <= j < |words| ==> Set(words, i)[j] < TWO64
  {
    hide BitOr;
    WordSize();
    MaskFits(Place(i), BITS_WORD);
    OrFits(words[Word(i)], Mask(Place(i)), BITS_WORD);
  }

  lemma {:induction false} MaskFits(p: nat, k: nat)
    requires p < k
    ensures Mask(p) < Pow2(k)
    decreases k
  {
    if p < k - 1 {
      MaskFits(p, k - 1);
    }
  }

  lemma EightMore(n: nat)
    ensures Pow2(n + 8) == 256 * Pow2(n)
  {
    assert Pow2(n + 2) == 4 * Pow2(n);
    assert Pow2(n + 4) == 4 * Pow2(n + 2);
    assert Pow2(n + 6) == 4 * Pow2(n + 4);
  }

  lemma SevenBytes()
    ensures Pow2(56) == 0x100_0000_0000_0000
  {
    EightMore(0);
    EightMore(8);
    EightMore(16);
    EightMore(24);
    EightMore(32);
    EightMore(40);
    EightMore(48);
  }

  lemma WordSize()
    ensures Pow2(BITS_WORD) == TWO64
  {
    SevenBytes();
    EightMore(56);
  }

  lemma WordIn(n: nat, i: nat)
    requires i < n
    ensures Word(i) < Size(n)
  {
  }

  /** No bit is set in a vector just allocated. */
  lemma ClearTest(n: nat, i: nat)
    requires i < n
    ensures Word(i) < Size(n) && !Test(seq(Size(n), _ => 0), i)
  {
    hide Mask, Word, Place, Size;
    WordIn(n, i);
  }
}
