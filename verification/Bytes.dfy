/** Big-endian machine words: the store16/32/64 writers and the readNNu/readNNs readers. */
module Bytes {

  type byte = n: int | 0 <= n < 256

  const TWO32 := 0x1_0000_0000
  const TWO64 := 0x1_0000_0000_0000_0000

  datatype Option<+T> = None | Some(value: T) {
    predicate IsFailure() { None? }
    function PropagateFailure<U>(): Option<U> requires None? { None }
    function Extract(): T requires Some? { value }
  }

  function Pow2(n: nat): (p: nat)
    ensures p > 0
  {
    if n == 0 then 1 else 2 * Pow2(n - 1)
  }

  ghost function Pow256(w: nat): (p: nat)
    ensures p > 0
  {
    if w == 0 then 1 else 256 * Pow256(w - 1)
  }

  /** The low `w` bytes of `n`, most significant first. Flooring division is the arithmetic shift. */
  function BigEndian(n: int, w: nat): (s: seq<byte>)
    ensures |s| == w
    decreases w, n < 0
  {
    if w == 0 then [] else BigEndian(n / 256, w - 1) + [n % 256]
  }

  function FromBigEndian(s: seq<byte>): nat {
    if s == [] then 0 else 256 * FromBigEndian(s[..|s| - 1]) + s[|s| - 1]
  }

  /** Reading back a stored word gives the number modulo the word size. */
  lemma {:induction false} FromToBigEndian(n: int, w: nat)
    ensures FromBigEndian(BigEndian(n, w)) == n % Pow256(w)
    decreases w
  {
    if w > 0 {
      FromToBigEndian(n / 256, w - 1);
      assert BigEndian(n, w)[..w - 1] == BigEndian(n / 256, w - 1);
      ModSplit(n, Pow256(w - 1));
    }
  }

  lemma ModSplit(n: int, p: nat)
    requires p > 0
    ensures 256 * ((n / 256) % p) + n % 256 == n % (256 * p)
  {
    var q := n / 256;
    var k, r := q / p, q % p;
    var low := 256 * r + n % 256;
    assert n == (256 * p) * k + low by {
      assert q == p * k + r;
    }
    assert 0 <= low < 256 * p;
    ModUnique(n, 256 * p, k, low);
  }

  lemma ModUnique(n: int, m: nat, k: int, r: int)
    requires m > 0 && n == m * k + r && 0 <= r < m
    ensures n % m == r && n / m == k
  {
    var d := k - n / m;
    assert m * d == n % m - r by {
      assert n == m * (n / m) + n % m;
      assert m * k - m * (n / m) == m * d;
    }
    if d >= 1 {
      MulGrows(m, d);
    } else if d <= -1 {
      MulGrows(m, -d); // gives m * d <= -m
    }
  }

  lemma MulGrows(m: nat, d: int)
    requires d >= 1
    ensures m * d >= m && m * -d + m <= 0
  {
    assert m * d == m + m * (d - 1);
    assert m * -d == -(m * d);
  }

  lemma PowerValues()
    ensures Pow256(1) == 0x100 && Pow256(2) == 0x1_0000
    ensures Pow256(4) == 0x1_0000_0000 && Pow256(8) == 0x1_0000_0000_0000_0000
  {
    assert Pow256(3) == 0x100_0000;
    assert Pow256(5) == 0x100_0000_0000;
    assert Pow256(6) == 0x1_0000_0000_0000;
    assert Pow256(7) == 0x100_0000_0000_0000;
  }

  /** Reinterprets an unsigned word of modulus `m` as a signed one. */
  function Signed(u: nat, m: nat): int {
    if 2 * u >= m then u - m else u
  }

  lemma UnsignedWord(n: int, w: nat)
    requires 0 <= n < Pow256(w)
    ensures FromBigEndian(BigEndian(n, w)) == n
  {
    FromToBigEndian(n, w);
    ModUnique(n, Pow256(w), 0, n);
  }

  lemma SignedWord(n: int, w: nat)
    requires 0 <= 2 * n + Pow256(w) && 2 * n < Pow256(w)
    ensures Signed(FromBigEndian(BigEndian(n, w)), Pow256(w)) == n
  {
    FromToBigEndian(n, w);
    if n >= 0 {
      ModUnique(n, Pow256(w), 0, n);
    } else {
      ModUnique(n, Pow256(w), -1, n + Pow256(w));
    }
  }

  /** Reads an unsigned word at the reading pointer and advances it. */
  function Read(src: seq<byte>, w: nat): Option<(nat, seq<byte>)> {
    if |src| < w then None else Some((FromBigEndian(src[..w]), src[w..]))
  }

  lemma ReadField(n: nat, w: nat, rest: seq<byte>)
    requires n < Pow256(w)
    ensures Read(BigEndian(n, w) + rest, w) == Some((n, rest))
  {
    hide BigEndian, FromBigEndian;
    var src := BigEndian(n, w) + rest;
    assert src[..w] == BigEndian(n, w) && src[w..] == rest;
    UnsignedWord(n, w);
  }

  function Reversed<T>(s: seq<T>): (r: seq<T>)
    ensures |r| == |s|
    ensures forall i :: 0 <= i < |s| ==> r[i] == s[|s| - 1 - i]
  {
    seq(|s|, i requires 0 <= i < |s| => s[|s| - 1 - i])
  }

  lemma Parts2<T>(c: T, b: seq<T>, rest: seq<T>)
    ensures |[c] + b + rest| == 1 + |b| + |rest| && ([c] + b + rest)[0] == c
    ensures ([c] + b + rest)[1..1 + |b|] == b
  {
  }

  lemma Parts3<T>(c: T, b: seq<T>, s: seq<T>, rest: seq<T>)
    ensures |[c] + b + s + rest| == 1 + |b| + |s| + |rest| && ([c] + b + s + rest)[0] == c
    ensures ([c] + b + s + rest)[1..1 + |b|] == b
    ensures ([c] + b + s + rest)[1 + |b|..1 + |b| + |s|] == s
  {
    var front, all := [c] + b, [c] + b + s + rest;
    assert all[..|front|] == front;
    assert front[1..] == b;
    assert all[1..1 + |b|] == all[..|front|][1..];
  }
}
