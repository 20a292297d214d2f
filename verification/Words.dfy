/**
 Unsigned 64-bit words as bounded naturals: bitwise exclusive or, right shift and
 the wrapping arithmetic of the source's `wrapping_add` and `wrapping_mul`.
 */
module Words {

  const TWO_64 := 0x1_0000_0000_0000_0000
  const U64_MAX := 0xFFFF_FFFF_FFFF_FFFF

  type u64 = x: int | 0 <= x < 0x1_0000_0000_0000_0000
  type u32 = x: int | 0 <= x < 0x1_0000_0000
  type u8 = x: int | 0 <= x < 256

  /** Bitwise exclusive or. */
  function Xor(a: nat, b: nat): nat
    decreases a
  {
    if a == 0 then b
    else (if a % 2 == b % 2 then 0 else 1) + 2 * Xor(a / 2, b / 2)
  }

  function Shr(a: nat, k: nat): nat {
    if k == 0 then a else Shr(a / 2, k - 1)
  }

  function Pow2(k: nat): nat {
    if k == 0 then 1 else 2 * Pow2(k - 1)
  }

  function Wrap(x: int): u64 {
    x % TWO_64
  }

  lemma {:induction false} XorZero(a: nat)
    ensures Xor(a, 0) == a
  {
    if a > 0 {
      XorZero(a / 2);
    }
  }

  lemma {:induction false} XorCommutes(a: nat, b: nat)
    ensures Xor(a, b) == Xor(b, a)
  {
    if a == 0 {
      XorZero(b);
    } else if b == 0 {
      XorZero(a);
    } else {
      XorCommutes(a / 2, b / 2);
    }
  }

  /** The lowest bit and the remaining bits of an exclusive or. */
  lemma XorParts(a: nat, b: nat)
    ensures Xor(a, b) % 2 == (if a % 2 == b % 2 then 0 else 1)
    ensures Xor(a, b) / 2 == Xor(a / 2, b / 2)
  {
    if a == 0 {
      assert Xor(0, b / 2) == b / 2;
    } else {
      JoinParts(if a % 2 == b % 2 then 0 else 1, Xor(a / 2, b / 2));
    }
  }

  lemma JoinParts(bit: nat, rest: nat)
    requires bit < 2
    ensures (bit + 2 * rest) % 2 == bit && (bit + 2 * rest) / 2 == rest
  {}

  lemma SameParts(x: nat, y: nat)
    requires x % 2 == y % 2 && x / 2 == y / 2
    ensures x == y
  {}

  lemma {:induction false} XorAssociates(a: nat, b: nat, c: nat)
    ensures Xor(Xor(a, b), c) == Xor(a, Xor(b, c))
    decreases a
  {
    if a > 0 {
      XorAssociates(a / 2, b / 2, c / 2);
      XorParts(a, b);
      XorParts(b, c);
      XorParts(Xor(a, b), c);
      XorParts(a, Xor(b, c));
      SameParts(Xor(Xor(a, b), c), Xor(a, Xor(b, c)));
    }
  }

  lemma {:induction false} XorSelf(a: nat)
    ensures Xor(a, a) == 0
  {
    if a > 0 {
      XorSelf(a / 2);
    }
  }

  /** Absorbing the same word twice restores the original. */
  lemma XorTwice(a: nat, b: nat)
    ensures Xor(Xor(a, b), b) == a
  {
    XorAssociates(a, b, b);
    XorSelf(b);
    XorZero(a);
  }

  lemma XorCancels(a: nat, b: nat, h: nat)
    ensures Xor(a, h) == Xor(b, h) <==> a == b
    ensures Xor(h, a) == Xor(h, b) <==> a == b
  {
    XorTwice(a, h);
    XorTwice(b, h);
    XorCommutes(a, h);
    XorCommutes(b, h);
  }

  lemma {:induction false} XorBound(a: nat, b: nat, k: nat)
    requires a < Pow2(k) && b < Pow2(k)
    ensures Xor(a, b) < Pow2(k)
    decreases k
  {
    if a > 0 {
      XorBound(a / 2, b / 2, k - 1);
    }
  }

  lemma {:induction false} Pow2Adds(i: nat, j: nat)
    ensures Pow2(i + j) == Pow2(i) * Pow2(j)
  {
    if i > 0 {
      Pow2Adds(i - 1, j);
      MulAssociates(2, Pow2(i - 1), Pow2(j));
    }
  }

  lemma Pow2Of64()
    ensures Pow2(64) == TWO_64
  {
    assert Pow2(4) == 16;
    Pow2Adds(4, 4);
    Pow2Adds(8, 8);
    Pow2Adds(16, 16);
    Pow2Adds(32, 32);
  }

  lemma XorIsWord(a: u64, b: u64)
    ensures Xor(a, b) < TWO_64
  {
    Pow2Of64();
    XorBound(a, b, 64);
  }

  function XorWord(a: u64, b: u64): u64 {
    XorIsWord(a, b);
    Xor(a, b)
  }

  lemma {:induction false} ShrXor(a: nat, b: nat, k: nat)
    ensures Shr(Xor(a, b), k) == Xor(Shr(a, k), Shr(b, k))
    decreases k
  {
    if k > 0 {
      assert Xor(a, b) / 2 == Xor(a / 2, b / 2);
      ShrXor(a / 2, b / 2, k - 1);
    }
  }

  lemma {:induction false} ShrAdds(a: nat, i: nat, j: nat)
    ensures Shr(Shr(a, i), j) == Shr(a, i + j)
    decreases i
  {
    if i > 0 {
      ShrAdds(a / 2, i - 1, j);
    }
  }

  /** Quotient and remainder of a number built from its parts. */
  lemma Parts(high: nat, low: nat, p: nat)
    requires low < p
    ensures (high * p + low) / p == high && (high * p + low) % p == low
  {
    var x := high * p + low;
    assert x == x / p * p + x % p;
    SmallMultiple(x / p - high, p, low - x % p);
  }

  lemma SmallMultiple(t: int, p: nat, d: int)
    requires t * p == d && -(p as int) < d < p
    ensures t == 0
  {
    MultipleAtLeast(t, p);
  }

  lemma MultipleAtLeast(t: int, p: nat)
    ensures t >= 1 ==> t * p >= p
    ensures t <= -1 ==> t * p <= -(p as int)
  {}

  /** A right shift is a division by a power of two. */
  lemma {:induction false} ShrDivides(a: nat, k: nat)
    ensures Pow2(k) > 0 && Shr(a, k) == a / Pow2(k)
    decreases k
  {
    if k > 0 {
      ShrDivides(a / 2, k - 1);
      HalvesDivide(a, Pow2(k - 1));
    }
  }

  lemma HalvesDivide(a: nat, p: nat)
    requires p > 0
    ensures a / 2 / p == a / (2 * p)
  {
    var q, r := a / 2 / p, a / 2 % p;
    var rest := 2 * r + a % 2;
    assert a / 2 == q * p + r;
    assert a == q * (2 * p) + rest && 0 <= rest < 2 * p;
    Parts(q, rest, 2 * p);
  }

  lemma {:induction false} ShrBound(a: nat, k: nat)
    ensures Shr(a, k) <= a
    ensures a < Pow2(k) ==> Shr(a, k) == 0
    decreases k
  {
    if k > 0 {
      ShrBound(a / 2, k - 1);
    }
  }

  lemma ShrWordVanishes(a: u64, k: nat)
    requires k >= 64
    ensures Shr(a, k) == 0
  {
    Pow2Of64();
    ShrBound(a, 64);
    ShrAdds(a, 64, k - 64);
    ShrBound(0, k - 64);
  }

  /** Multiplication by a constant with a known inverse modulo 2^64 can be undone. */
  lemma WrapMulInverse(x: u64, c: nat, d: nat)
    requires c * d % TWO_64 == 1
    ensures Wrap(Wrap(x * c) * d) == x
  {
    var q, k := x * c / TWO_64, c * d / TWO_64;
    Regroup(x, c, d, q, k, Wrap(x * c));
    WrapShift(x, x * k - q * d);
  }

  lemma Regroup(x: int, c: int, d: int, q: int, k: int, r: int)
    requires x * c == q * TWO_64 + r && c * d == k * TWO_64 + 1
    ensures r * d == x + (x * k - q * d) * TWO_64
  {
    MulAssociates(x, c, d);
    assert r * d == x * (c * d) - q * TWO_64 * d;
  }

  lemma MulAssociates(x: int, y: int, z: int)
    ensures x * y * z == x * (y * z)
  {}

  lemma WrapShift(x: int, t: int)
    ensures Wrap(x + t * TWO_64) == Wrap(x)
  {}
}
