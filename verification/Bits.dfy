/** Optional values, standing for the source's NULL results and early exits. */
module Wrappers {
  datatype Option<+T> = None | Some(value: T)
}

/**
 Machine integers over unbounded `int`: ranges, 64-bit wrap-around, two's-complement bitwise
 operators, C's truncating division, and little-endian bytes.
 */
module Bits {
  type byte = x: int | 0 <= x < 256

  predicate Int32(x: int) {
    -0x8000_0000 <= x < 0x8000_0000
  }

  predicate Int64(x: int) {
    -0x8000_0000_0000_0000 <= x < 0x8000_0000_0000_0000
  }

  /** The 64-bit two's-complement value with the same low 64 bits as `x`. */
  function Wrap64(x: int): (w: int)
    ensures Int64(w)
    ensures Int64(x) ==> w == x
  {
    (x + 0x8000_0000_0000_0000) % 0x1_0000_0000_0000_0000 - 0x8000_0000_0000_0000
  }

  /** The unsigned reading of a 64-bit pattern that is held as a signed value. */
  function U64(x: int): int {
    if x < 0 then x + 0x1_0000_0000_0000_0000 else x
  }

  function Pow2(n: nat): (p: int)
    ensures p >= 1
  {
    if n == 0 then 1 else 2 * Pow2(n - 1)
  }

  function Bool(b: bool): int {
    if b then 1 else 0
  }

  /** Division that truncates toward zero, as C and `idivq` do. */
  function TruncDiv(a: int, b: int): int
    requires b != 0
  {
    var q := (if a < 0 then -a else a) / (if b < 0 then -b else b);
    if (a < 0) == (b < 0) then q else -q
  }

  function TruncMod(a: int, b: int): int
    requires b != 0
  {
    a - TruncDiv(a, b) * b
  }

  function Abs(x: int): int {
    if x < 0 then -x else x
  }

  /** Quotient and remainder as C99 section 6.5.5 has them: the fraction is discarded, and `a == (a/b)*b + a%b`. */
  predicate Truncated(a: int, b: int, q: int, r: int) {
    b != 0 && a == q * b + r && Abs(r) < Abs(b) && (r == 0 || (r < 0) == (a < 0))
  }

  lemma TruncDivides(a: int, b: int)
    requires b != 0
    ensures Truncated(a, b, TruncDiv(a, b), TruncMod(a, b))
  {
    var m, n := Abs(a), Abs(b);
    assert m == n * (m / n) + m % n;
  }

  /** No other quotient and remainder do. */
  lemma TruncatedIs(a: int, b: int, q: int, r: int)
    requires Truncated(a, b, q, r)
    ensures q == TruncDiv(a, b) && r == TruncMod(a, b)
  {
    var q1, r1 := TruncDiv(a, b), TruncMod(a, b);
    TruncDivides(a, b);
    hide TruncDiv, TruncMod;
    assert (q - q1) * b == r1 - r;
    MultipleApart(q - q1, b);
  }

  lemma MultipleApart(d: int, b: int)
    requires b != 0
    ensures d != 0 ==> Abs(d * b) >= Abs(b)
  {
    if d != 0 {
      MulAtLeast(Abs(b), d);
      assert Abs(b) * d == d * b || Abs(b) * d == -(d * b);
    }
  }

  /** Only the least value by -1 has a quotient that does not fit. */
  lemma TruncatedFits(a: int, b: int, q: int, r: int, m: int)
    requires Truncated(a, b, q, r) && -m <= a < m && -m <= b < m
    ensures -m < r < m && (-m <= q < m <==> !(a == -m && b == -1))
  {
    if Abs(b) == 1 {
      assert r == 0;
    } else if q != 0 {
      TwiceApart(q, b);
    }
  }

  lemma TwiceApart(q: int, b: int)
    requires Abs(b) >= 2 && q != 0
    ensures Abs(q * b) >= 2 * Abs(q) && Abs(q * b) >= Abs(b)
  {
    MulAtLeast(Abs(b), q);
    MulAtLeast(Abs(q), b);
    TwiceLeast(Abs(q), Abs(b));
    assert Abs(q * b) == Abs(q) * Abs(b);
  }

  lemma TwiceLeast(m: int, n: int)
    requires m >= 1 && n >= 2
    ensures m * n >= 2 * m && m * n >= n
  {
  }

  // ----- bitwise operators -----

  datatype Bitop = BitAnd | BitOr | BitXor

  function Bit(op: Bitop, x: bool, y: bool): bool {
    match op
    case BitAnd => x && y
    case BitOr => x || y
    case BitXor => x != y
  }

  /** `op` on the two's-complement patterns of `a` and `b`, with `n` bits below the sign. */
  function Bitwise(op: Bitop, n: nat, a: int, b: int): (r: int)
    ensures -Pow2(n) <= r < Pow2(n)
  {
    if n == 0 then
      if Bit(op, a < 0, b < 0) then -1 else 0
    else
      2 * Bitwise(op, n - 1, a / 2, b / 2) + Bool(Bit(op, a % 2 == 1, b % 2 == 1))
  }

  /** Sign extension commutes with the bitwise operators: a wider word computes the same value. */
  lemma {:induction false} BitwiseWiden(op: Bitop, n: nat, k: nat, a: int, b: int)
    requires -Pow2(n) <= a < Pow2(n) && -Pow2(n) <= b < Pow2(n)
    ensures Bitwise(op, n + k, a, b) == Bitwise(op, n, a, b)
    decreases n + k
  {
    if n > 0 {
      BitwiseWiden(op, n - 1, k, a / 2, b / 2);
    } else if k > 0 {
      BitwiseWiden(op, 0, k - 1, a / 2, b / 2);
    }
  }

  /** Rounding up with a mask, as in `(x + al - 1) & ~(al - 1)`; `~(al - 1)` is `-al`. */
  function AlignUp(x: int, al: int): int {
    Bitwise(BitAnd, 63, x + al - 1, -al)
  }

  lemma {:induction false} MaskRoundsDown(n: nat, k: nat, x: int)
    requires k <= n && -Pow2(n) <= x < Pow2(n)
    ensures Bitwise(BitAnd, n, x, -Pow2(k)) == x - x % Pow2(k)
    decreases n
  {
    hide Bitwise, Pow2;
    PowStep(n);
    PowStep(k);
    if n == 0 {
      MaskNothing(x);
    } else if k == 0 {
      MaskRoundsDown(n - 1, 0, x / 2);
      PowStep(0);
      MaskHalves(n, x, -1);
    } else {
      MaskRoundsDown(n - 1, k - 1, x / 2);
      MaskHalves(n, x, -(2 * Pow2(k - 1)));
      HalveMod(x, Pow2(k - 1));
    }
  }

  lemma PowStep(k: nat)
    ensures Pow2(k) == if k == 0 then 1 else 2 * Pow2(k - 1)
  {
  }

  lemma MaskNothing(x: int)
    requires -1 <= x < 1
    ensures Bitwise(BitAnd, 0, x, -1) == x && x % 1 == 0
  {
  }

  lemma MaskHalves(n: nat, x: int, m: int)
    requires n > 0
    ensures Bitwise(BitAnd, n, x, m)
            == 2 * Bitwise(BitAnd, n - 1, x / 2, m / 2) + (if x % 2 == 1 && m % 2 == 1 then 1 else 0)
  {
  }

  lemma HalveMod(x: int, m: int)
    requires m >= 1
    ensures x % (2 * m) == 2 * ((x / 2) % m) + x % 2
  {
    var q, r := (x / 2) / m, (x / 2) % m;
    assert x == 2 * (q * m + r) + x % 2;
    assert x == (2 * m) * q + (2 * r + x % 2);
    DivModUnique(x, 2 * m, q, 2 * r + x % 2);
  }

  lemma MulAtLeast(m: int, d: int)
    requires m > 0
    ensures d >= 1 ==> m * d >= m
    ensures d <= -1 ==> m * d <= -m
  {
  }

  lemma DivModUnique(x: int, m: int, q: int, r: int)
    requires m > 0 && x == m * q + r && 0 <= r < m
    ensures x / m == q && x % m == r
  {
    var q1, r1 := x / m, x % m;
    assert m * q + r == m * q1 + r1;
    MulAtLeast(m, q - q1);
    assert m * (q - q1) == m * q - m * q1;
  }

  predicate PowerOf2(al: int) {
    exists k: nat {:trigger Pow2(k)} :: k <= 32 && al == Pow2(k)
  }

  /** Two multiples of `m` are equal or at least `m` apart. */
  lemma MultiplesApart(x: int, y: int, m: int)
    requires m > 0 && x % m == 0 && y % m == 0 && y < x
    ensures y + m <= x
  {
    var d := x / m - y / m;
    assert x == m * (x / m) && y == m * (y / m);
    assert x - y == m * d;
    MulAtLeast(m, d);
    assert m * 0 == 0;
  }

  lemma RoundDown(z: int, m: int)
    requires m > 0
    ensures (z - z % m) % m == 0
  {
    assert z - z % m == m * (z / m) + 0;
    DivModUnique(z - z % m, m, z / m, 0);
  }

  /** For a power-of-two alignment the mask gives the least multiple of `al` that is at least `x`. */
  lemma AlignUpLeast(x: nat, al: int)
    requires PowerOf2(al) && x + al <= Pow2(63)
    ensures AlignUp(x, al) % al == 0
    ensures x <= AlignUp(x, al) < x + al
    ensures forall y :: x <= y && y % al == 0 ==> AlignUp(x, al) <= y
  {
    hide AlignUp;
    AlignUpIs(x, al);
    LeastAbove(x, al);
  }

  lemma AlignUpIs(x: nat, al: int)
    requires PowerOf2(al) && x + al <= Pow2(63)
    ensures AlignUp(x, al) == x + al - 1 - (x + al - 1) % al
  {
    var k: nat :| k <= 32 && al == Pow2(k);
    MaskRoundsDown(63, k, x + al - 1);
  }

  lemma LeastAbove(x: nat, al: int)
    requires al > 0
    ensures var z := x + al - 1; var r := z - z % al;
            r % al == 0 && x <= r < x + al && forall y :: x <= y && y % al == 0 ==> r <= y
  {
    var z := x + al - 1;
    var r := z - z % al;
    RoundDown(z, al);
    forall y | x <= y && y % al == 0
      ensures r <= y
    {
      if y < r {
        MultiplesApart(r, y, al);
      }
    }
  }

  lemma Pow63()
    ensures Pow2(63) == 0x8000_0000_0000_0000
  {
    assert Pow2(8) == 256;
    assert Pow2(16) == 0x1_0000;
    assert Pow2(24) == 0x100_0000;
    assert Pow2(32) == 0x1_0000_0000;
    assert Pow2(40) == 0x100_0000_0000;
    assert Pow2(48) == 0x1_0000_0000_0000;
    assert Pow2(56) == 0x100_0000_0000_0000;
  }

  // ----- little-endian bytes -----

  function Encode(n: nat, x: int): (bs: seq<byte>)
    ensures |bs| == n
  {
    if n == 0 then [] else [x % 256] + Encode(n - 1, x / 256)
  }

  function DecodeU(bs: seq<byte>): nat {
    if bs == [] then 0 else bs[0] + 256 * DecodeU(bs[1..])
  }

  function DecodeS(bs: seq<byte>): int {
    if bs == [] then 0
    else if |bs| == 1 then if bs[0] < 128 then bs[0] else bs[0] - 256
    else bs[0] + 256 * DecodeS(bs[1..])
  }

  /** `movs` when `signed`, `movz` otherwise. */
  function Extend(signed: bool, bs: seq<byte>): int {
    if signed then DecodeS(bs) else DecodeU(bs)
  }

  function Pow256(n: nat): (p: int)
    ensures p >= 1
  {
    if n == 0 then 1 else 256 * Pow256(n - 1)
  }

  lemma {:induction false} DecodeSEncode(n: nat, x: int)
    requires n >= 1 && -128 * Pow256(n - 1) <= x < 128 * Pow256(n - 1)
    ensures DecodeS(Encode(n, x)) == x
  {
    if n > 1 {
      var p := Pow256(n - 2);
      assert Pow256(n - 1) == 256 * p;
      assert -128 * p <= x / 256 < 128 * p;
      DecodeSEncode(n - 1, x / 256);
      assert Encode(n, x)[1..] == Encode(n - 1, x / 256);
    }
  }

  lemma {:induction false} DecodeUEncode(n: nat, x: int)
    requires 0 <= x < Pow256(n)
    ensures DecodeU(Encode(n, x)) == x
  {
    if n >= 1 {
      assert x / 256 < Pow256(n - 1);
      DecodeUEncode(n - 1, x / 256);
      assert Encode(n, x)[1..] == Encode(n - 1, x / 256);
    }
  }

  lemma {:induction false} DecodeRange(bs: seq<byte>)
    ensures 0 <= DecodeU(bs) < Pow256(|bs|)
    ensures |bs| >= 1 ==> -128 * Pow256(|bs| - 1) <= DecodeS(bs) < 128 * Pow256(|bs| - 1)
  {
    if |bs| >= 1 {
      DecodeRange(bs[1..]);
    }
  }

  lemma Decode32(x: int)
    requires Int32(x)
    ensures DecodeS(Encode(4, x)) == x
  {
    assert Pow256(3) == 256 * 256 * 256;
    DecodeSEncode(4, x);
  }

  lemma Decode64(x: int)
    requires Int64(x)
    ensures DecodeS(Encode(8, x)) == x
  {
    assert Pow256(4) == 0x1_0000_0000;
    assert Pow256(7) == 256 * 256 * 256 * Pow256(4);
    DecodeSEncode(8, x);
  }

  // ----- byte-addressed memory -----

  type Mem = map<int, byte>

  predicate InBounds(mem: Mem, a: int, n: nat) {
    forall i :: a <= i < a + n ==> i in mem
  }

  function Read(mem: Mem, a: int, n: nat): (bs: seq<byte>)
    requires InBounds(mem, a, n)
    ensures |bs| == n
  {
    seq(n, i requires 0 <= i < n => mem[a + i])
  }

  function Write(mem: Mem, a: int, bs: seq<byte>): (mem': Mem)
    ensures mem'.Keys == mem.Keys
  {
    map x | x in mem :: if a <= x < a + |bs| then bs[x - a] else mem[x]
  }

  lemma ReadBack(mem: Mem, a: int, bs: seq<byte>)
    requires InBounds(mem, a, |bs|)
    ensures InBounds(Write(mem, a, bs), a, |bs|)
    ensures Read(Write(mem, a, bs), a, |bs|) == bs
  {
  }

  lemma ReadElsewhere(mem: Mem, a: int, bs: seq<byte>, b: int, n: nat)
    requires InBounds(mem, b, n)
    requires b + n <= a || a + |bs| <= b
    ensures InBounds(Write(mem, a, bs), b, n)
    ensures Read(Write(mem, a, bs), b, n) == Read(mem, b, n)
  {
  }
}
