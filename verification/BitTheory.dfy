/** Integers as bits: what the bitwise operators, the shifts and the byte encoding do to each bit. */
module BitTheory {
  import opened Bits

  /** Bit `i` of the two's-complement pattern of `x`. */
  predicate BitAt(x: int, i: nat)
    decreases i
  {
    if i == 0 then x % 2 == 1 else BitAt(x / 2, i - 1)
  }

  lemma {:induction false} SignBit(n: nat, x: int, i: nat)
    requires -Pow2(n) <= x < Pow2(n) && i >= n
    ensures BitAt(x, i) == (x < 0)
    decreases i
  {
    if i > 0 {
      SignBit(if n > 0 then n - 1 else 0, x / 2, i - 1);
    }
  }

  lemma {:induction false} BitwiseBit(op: Bitop, n: nat, a: int, b: int, i: nat)
    requires -Pow2(n) <= a < Pow2(n) && -Pow2(n) <= b < Pow2(n)
    ensures BitAt(Bitwise(op, n, a, b), i) == Bit(op, BitAt(a, i), BitAt(b, i))
    decreases n, i
  {
    if n == 0 {
      SignBit(0, a, i);
      SignBit(0, b, i);
      SignBit(0, Bitwise(op, 0, a, b), i);
    } else {
      var r := Bitwise(op, n - 1, a / 2, b / 2);
      assert Bitwise(op, n, a, b) / 2 == r;
      if i > 0 {
        BitwiseBit(op, n - 1, a / 2, b / 2, i - 1);
      }
    }
  }

  lemma DivideTwice(a: int, p: int)
    requires p >= 1
    ensures a / (2 * p) == (a / 2) / p
  {
    var q, r := (a / 2) / p, (a / 2) % p;
    assert a / 2 == p * q + r;
    assert a == (2 * p) * q + (2 * r + a % 2);
    DivModUnique(a, 2 * p, q, 2 * r + a % 2);
  }

  lemma {:induction false} ShrBit(a: int, k: nat, i: nat)
    ensures BitAt(a / Pow2(k), i) == BitAt(a, i + k)
    decreases k
  {
    if k > 0 {
      DivideTwice(a, Pow2(k - 1));
      ShrBit(a / 2, k - 1, i);
    }
  }

  lemma {:induction false} ShlBit(a: int, k: nat, i: nat)
    ensures BitAt(a * Pow2(k), i) == (i >= k && BitAt(a, i - k))
    decreases k
  {
    if k > 0 {
      Doubled(a, Pow2(k - 1));
      if i > 0 {
        ShlBit(a, k - 1, i - 1);
      }
    }
  }

  lemma Doubled(a: int, p: int)
    ensures (a * (2 * p)) % 2 == 0 && (a * (2 * p)) / 2 == a * p
  {
    assert a * (2 * p) == 2 * (a * p);
  }

  /** The bits of a low part below a high part. */
  lemma {:induction false} CatBits(n: nat, x: int, q: int, i: nat)
    requires 0 <= x < Pow2(n)
    ensures BitAt(x + Pow2(n) * q, i) == if i < n then BitAt(x, i) else BitAt(q, i - n)
    decreases n
  {
    if n > 0 {
      HalfSum(x, Pow2(n - 1), q);
      if i > 0 {
        CatBits(n - 1, x / 2, q, i - 1);
      }
    }
  }

  lemma HalfSum(x: int, p: int, q: int)
    ensures (x + (2 * p) * q) / 2 == x / 2 + p * q && (x + (2 * p) * q) % 2 == x % 2
  {
    assert (2 * p) * q == 2 * (p * q);
  }

  /** Reducing modulo a power of two keeps the bits below it and clears the others. */
  lemma ModBits(n: nat, x: int, i: nat)
    ensures BitAt(x % Pow2(n), i) == (i < n && BitAt(x, i))
  {
    var p := Pow2(n);
    var r := x % p;
    CatBits(n, r, x / p, i);
    assert x == r + p * (x / p);
    if i >= n {
      SignBit(n, r, i);
    }
  }

  lemma {:induction false} ComplementBit(x: int, i: nat)
    ensures BitAt(-x - 1, i) == !BitAt(x, i)
    decreases i
  {
    if i > 0 {
      assert (-x - 1) / 2 == -(x / 2) - 1;
      ComplementBit(x / 2, i - 1);
    }
  }

  lemma {:induction false} MaskBit(n: nat, i: nat)
    ensures BitAt(Pow2(n) - 1, i) == (i < n)
    decreases n
  {
    if n == 0 {
      SignBit(0, 0, i);
    } else {
      assert (Pow2(n) - 1) / 2 == Pow2(n - 1) - 1;
      if i > 0 {
        MaskBit(n - 1, i - 1);
      }
    }
  }

  /** Values of at most `n` bits and a sign are determined by their bits. */
  lemma {:induction false} SameBits(n: nat, x: int, y: int)
    requires -Pow2(n) <= x < Pow2(n) && -Pow2(n) <= y < Pow2(n)
    requires forall i: nat :: i <= n ==> BitAt(x, i) == BitAt(y, i)
    ensures x == y
    decreases n
  {
    assert BitAt(x, n) == BitAt(y, n);
    SignBit(n, x, n);
    SignBit(n, y, n);
    if n > 0 {
      forall i: nat | i <= n - 1
        ensures BitAt(x / 2, i) == BitAt(y / 2, i)
      {
        assert BitAt(x, i + 1) == BitAt(y, i + 1);
      }
      SameBits(n - 1, x / 2, y / 2);
      assert BitAt(x, 0) == BitAt(y, 0);
    }
  }

  lemma Pow64()
    ensures Pow2(64) == 0x1_0000_0000_0000_0000
  {
    Pow63();
  }

  /** Wrapping to 64 bits keeps the low 64 bits. */
  lemma WrapBits(x: int, i: nat)
    requires i < 64
    ensures BitAt(Wrap64(x), i) == BitAt(x, i)
  {
    Pow64();
    var w := Wrap64(x);
    ModBits(64, w, i);
    ModBits(64, x, i);
    assert w % Pow2(64) == x % Pow2(64) by { WrapMod(x); }
  }

  lemma WrapMod(x: int)
    ensures Wrap64(x) % 0x1_0000_0000_0000_0000 == x % 0x1_0000_0000_0000_0000
  {
  }

  // ----- bytes -----

  lemma {:induction false} EncodeBit(n: nat, x: int, j: nat, b: nat)
    requires j < n && b < 8
    ensures BitAt(Encode(n, x)[j], b) == BitAt(x, 8 * j + b)
    decreases n
  {
    if j == 0 {
      ModBits(8, x, b);
    } else {
      EncodeBit(n - 1, x / 256, j - 1, b);
      ShrBit(x, 8, 8 * (j - 1) + b);
    }
  }

  lemma {:induction false} DecodeUBit(bs: seq<byte>, i: nat)
    requires i < 8 * |bs|
    ensures BitAt(DecodeU(bs), i) == BitAt(bs[i / 8], i % 8)
    decreases bs
  {
    CatBits(8, bs[0], DecodeU(bs[1..]), i);
    if i >= 8 {
      DecodeUBit(bs[1..], i - 8);
      assert (i - 8) / 8 == i / 8 - 1 && (i - 8) % 8 == i % 8;
    }
  }

  lemma {:induction false} DecodeSBit(bs: seq<byte>, i: nat)
    requires i < 8 * |bs|
    ensures BitAt(DecodeS(bs), i) == BitAt(bs[i / 8], i % 8)
    decreases bs
  {
    if |bs| == 1 {
      CatBits(8, bs[0], if bs[0] < 128 then 0 else -1, i);
    } else {
      CatBits(8, bs[0], DecodeS(bs[1..]), i);
      if i >= 8 {
        DecodeSBit(bs[1..], i - 8);
        assert (i - 8) / 8 == i / 8 - 1 && (i - 8) % 8 == i % 8;
      }
    }
  }

  /** Bit `i` of memory, counted from the byte at `base`. */
  predicate MemBit(mem: Mem, base: int, i: nat) {
    base + i / 8 in mem && BitAt(mem[base + i / 8], i % 8)
  }
}
