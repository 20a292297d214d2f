/** The derivation of an account's 32-byte owner hash from its id, and how far it keeps ids apart. */
module OwnerHash {
  import opened Collections
  import opened Envelope
  import opened Words

  // ---------------------------------------------------------------- bytes

  function XorByte(a: u8, b: u8): u8 {
    XorIsByte(a, b);
    Xor(a, b)
  }

  lemma XorIsByte(a: u8, b: u8)
    ensures Xor(a, b) < 256
  {
    Pow2Adds(4, 4);
    assert Pow2(4) == 16;
    XorBound(a, b, 8);
  }

  lemma XorUndone(a: u8, b: u8)
    ensures XorByte(XorByte(a, b), b) == a
    ensures XorByte(0, a) == a && XorByte(a, 0) == a
  {
    XorTwice(a, b);
    XorZero(a);
  }

  lemma XorSeparates(a: u8, m: u8, n: u8, s: u8)
    ensures XorByte(a, XorByte(m, s)) == XorByte(a, XorByte(n, s)) <==> m == n
  {
    XorCancels(XorByte(m, s), XorByte(n, s), a);
    XorCancels(m, n, s);
  }

  lemma XorSwap(a: u8, r: u8, t: u8)
    ensures XorByte(XorByte(a, r), t) == XorByte(XorByte(a, t), r)
  {
    XorAssociates(a, r, t);
    XorAssociates(a, t, r);
    XorCommutes(r, t);
  }

  /** How two bytes folded into one slot meet a third, or each other again. */
  lemma XorExchange(a: u8, r: u8, s: u8, t: u8)
    ensures XorByte(XorByte(XorByte(a, r), r), s) == XorByte(a, s)
    ensures XorByte(XorByte(XorByte(a, r), s), t) == XorByte(XorByte(XorByte(a, t), r), s)
    ensures XorByte(XorByte(XorByte(a, r), s), r) == XorByte(a, s)
  {
    hide XorByte;
    XorUndone(a, r);
    XorSwap(XorByte(a, r), s, t);
    XorSwap(a, r, t);
    XorSwap(XorByte(a, r), s, r);
  }

  function Bit(k: nat): nat
    requires k <= 8
  {
    [1, 2, 4, 8, 16, 32, 64, 128, 256][k]
  }

  /** The low bits move up by `k`, the top `k` bits come down. */
  function RotateLeft(b: u8, k: nat): u8
    requires k < 8
  {
    RotatesWithin(b, k);
    b % Bit(8 - k) * Bit(k) + b / Bit(8 - k)
  }

  function RotateRight(b: u8, k: nat): u8
    requires k < 8
  {
    RotatesWithin(b, k);
    b % Bit(k) * Bit(8 - k) + b / Bit(k)
  }

  lemma RotatesWithin(b: u8, k: nat)
    requires k < 8
    ensures Bit(k) > 0 && Bit(8 - k) > 0 && Bit(k) * Bit(8 - k) == 256
    ensures 0 <= b % Bit(8 - k) * Bit(k) + b / Bit(8 - k) < 256
    ensures 0 <= b % Bit(k) * Bit(8 - k) + b / Bit(k) < 256
  {
    match k {
      case 0 => case 1 => case 2 => case 3 => case 4 => case 5 => case 6 => case 7 =>
    }
  }

  lemma ProductMonotone(h: nat, p: nat, q: nat)
    ensures h >= p ==> h * q >= p * q
  {
    MultipleAtLeast(h - p, q);
    assert (h - p) * q == h * q - p * q;
  }

  /** Splitting a byte at `p` and putting the two parts back the other way round, there and back. */
  lemma SplitUndone(b: u8, p: nat, q: nat)
    requires p > 0 && q > 0 && p * q == 256
    ensures b / q < p
    ensures var r := b % q * p + b / q; r % p * q + r / p == b
  {
    var high, low := b / q, b % q;
    assert b == high * q + low;
    ProductMonotone(high, p, q);
    Parts(low, high, p);
  }

  lemma RotationUndone(b: u8, k: nat)
    requires k < 8
    ensures RotateRight(RotateLeft(b, k), k) == b
    ensures RotateLeft(RotateRight(b, k), k) == b
  {
    RotatesWithin(b, k);
    hide Bit;
    SplitUndone(b, Bit(k), Bit(8 - k));
    SplitUndone(b, Bit(8 - k), Bit(k));
  }

  lemma RotatedZero(k: nat)
    requires k < 8
    ensures RotateLeft(0, k) == 0
  {
    RotatesWithin(0, k);
    hide Bit;
    assert 0 % Bit(8 - k) == 0 && 0 / Bit(8 - k) == 0;
  }

  // ---------------------------------------------------------------- the derivation

  /** One id byte folded into its slot. */
  function Absorb(bytes: Hash32, i: nat, b: u8): Hash32 {
    bytes[i % 32 := XorByte(bytes[i % 32], RotateLeft(b, i % 8))]
  }

  function Absorbed(id: seq<u8>, n: nat): Hash32
    requires n <= |id|
  {
    if n == 0 then Repeated(0) else Absorb(Absorbed(id, n - 1), n - 1, id[n - 1])
  }

  function Stirred(b: u8, length: u8, slot: u8): u8 {
    XorByte(b, XorByte(length, slot))
  }

  /** Stirs every slot with its index and the id length. */
  function Stir(bytes: Hash32, length: nat): Hash32 {
    seq(32, slot requires 0 <= slot < 32 => Stirred(bytes[slot], length % 256, slot))
  }

  function Owner(id: seq<u8>): Hash32 {
    Stir(Absorbed(id, |id|), |id|)
  }

  method DeriveOwner(id: seq<u8>) returns (owner: Hash32)
    ensures owner == Owner(id)
  {
    hide XorByte, RotateLeft;
    var bytes := new u8[32](_ => 0);
    for index := 0 to |id|
      invariant bytes[..] == Absorbed(id, index)
    {
      var slot := index % 32;
      bytes[slot] := XorByte(bytes[slot], RotateLeft(id[index], index % 8));
    }
    var lengthByte := (|id| % 256);
    ghost var absorbed := bytes[..];
    for index := 0 to 32
      invariant forall j :: 0 <= j < index ==> bytes[j] == Stirred(absorbed[j], lengthByte, j)
      invariant forall j :: index <= j < 32 ==> bytes[j] == absorbed[j]
    {
      bytes[index] := XorByte(bytes[index], XorByte(lengthByte, index));
    }
    owner := bytes[..];
  }

  // ---------------------------------------------------------------- ids of at most 31 bytes

  lemma AbsorbsAt(bytes: Hash32, i: nat, b: u8, slot: nat)
    requires i < 32 && slot < 32
    ensures Absorb(bytes, i, b)[slot] == if slot == i then XorByte(bytes[i], RotateLeft(b, i % 8)) else bytes[slot]
  {
    assert i % 32 == i;
    hide XorByte, RotateLeft;
  }

  /** Within the first 32 bytes every byte has a slot of its own. */
  lemma {:induction false} AbsorbedShort(id: seq<u8>, n: nat, slot: nat)
    requires n <= |id| && n <= 32 && slot < 32
    ensures Absorbed(id, n)[slot] == if slot < n then RotateLeft(id[slot], slot % 8) else 0
  {
    hide RotateLeft, XorByte, Absorb;
    if n > 0 {
      AbsorbedShort(id, n - 1, slot);
      AbsorbsAt(Absorbed(id, n - 1), n - 1, id[n - 1], slot);
      XorUndone(RotateLeft(id[n - 1], (n - 1) % 8), 0);
    }
  }

  function RecoveredByte(owner: Hash32, length: u8, i: nat): u8
    requires i < 32
  {
    RotateRight(XorByte(owner[i], XorByte(length, i)), i % 8)
  }

  /** What an owner hash says its id was: slot 31 holds the length, the other slots the bytes. */
  function Recovered(owner: Hash32): seq<u8> {
    var length := XorByte(owner[31], 31);
    var n := if length <= 31 then length else 0;
    seq(n, i requires 0 <= i < n => RecoveredByte(owner, length, i))
  }

  lemma LastSlotHoldsLength(id: seq<u8>)
    requires |id| <= 31
    ensures Owner(id)[31] == XorByte(|id|, 31)
    ensures XorByte(Owner(id)[31], 31) == |id|
  {
    hide XorByte, Absorbed;
    AbsorbedShort(id, |id|, 31);
    assert |id| % 256 == |id|;
    XorUndone(|id|, 31);
    XorUndone(XorByte(|id|, 31), 0);
  }

  lemma ByteRecovered(id: seq<u8>, i: nat)
    requires |id| <= 31 && i < |id|
    ensures RecoveredByte(Owner(id), (|id| % 256), i) == id[i]
  {
    hide XorByte, RotateLeft, RotateRight, Absorbed;
    AbsorbedShort(id, |id|, i);
    var stir := XorByte(|id| % 256, i);
    assert Owner(id)[i] == XorByte(RotateLeft(id[i], i % 8), stir);
    XorUndone(RotateLeft(id[i], i % 8), stir);
    RotationUndone(id[i], i % 8);
  }

  /** The derivation has a left inverse on every id of at most 31 bytes. */
  lemma RecoveredFromOwner(id: seq<u8>)
    requires |id| <= 31
    ensures Recovered(Owner(id)) == id
  {
    hide RecoveredByte, Owner, XorByte;
    LastSlotHoldsLength(id);
    assert |Recovered(Owner(id))| == |id|;
    forall i | 0 <= i < |id| ensures Recovered(Owner(id))[i] == id[i] {
      ByteRecovered(id, i);
    }
  }

  /** Distinct ids of at most 31 bytes never share an owner hash, and none has the market maker's. */
  lemma OwnersDistinct(a: seq<u8>, b: seq<u8>)
    requires |a| <= 31 && |b| <= 31
    ensures Owner(a) == Owner(b) <==> a == b
    ensures Owner(a) != MARKET_MAKER_OWNER
  {
    RecoveredFromOwner(a);
    RecoveredFromOwner(b);
    NotMarketMaker(a);
    hide Owner, Recovered;
  }

  lemma SmallXor(length: u8)
    requires length <= 31
    ensures XorByte(length, 31) < 32
  {
    assert Pow2(5) == 32;
    XorBound(length, 31, 5);
    hide Xor;
  }

  /** The last slot mixes two numbers below 32, so it stays below 32. */
  lemma NotMarketMaker(id: seq<u8>)
    requires |id| <= 31
    ensures Owner(id) != MARKET_MAKER_OWNER
  {
    hide Owner, XorByte;
    LastSlotHoldsLength(id);
    SmallXor(|id|);
    assert MARKET_MAKER_OWNER[31] == 0xEE;
  }

  // ---------------------------------------------------------------- the slots of short ids

  /** Rotating a byte multiplies it by a power of two modulo 255. */
  lemma RotationIsMultiplication(b: u8, k: nat)
    requires k < 8 && b < 255
    ensures Bit(k) == [1, 2, 4, 8, 16, 32, 64, 128][k]
    ensures RotateLeft(b, k) == b * Bit(k) % 255
  {
    RotatesWithin(b, k);
    TurnedProduct(b, Bit(k), Bit(8 - k));
  }

  /** Turned parts stay within a byte, and only those of the full byte make 255. */
  lemma TurnedBound(high: nat, low: nat, p: nat, q: nat)
    requires high < p && low < q && p * q == 256
    ensures low * p + high <= 255
    ensures low * p + high == 255 ==> high * q + low == 255
  {
    var gap := q - 1 - low;
    assert gap * p == p * q - p - low * p;
    MultipleAtLeast(gap, p);
    if gap == 0 && high == p - 1 {
      assert high * q == p * q - q;
    }
  }

  lemma TurnedProduct(b: u8, p: nat, q: nat)
    requires b < 255 && p > 0 && q > 0 && p * q == 256
    ensures b % q * p + b / q == b * p % 255
  {
    var high, low := b / q, b % q;
    SplitUndone(b, p, q);
    assert b == high * q + low;
    assert b * p == high * (p * q) + low * p;
    TurnedBound(high, low, p, q);
    Parts(high, low * p + high, 255);
  }

  /** Without the slot index and the length, slot `i` of a short id's owner holds byte `i`, moved up by `i` modulo 8. */
  lemma OwnerOfShort(id: seq<u8>, i: nat)
    requires |id| <= 32 && i < 32
    ensures Xor(Xor(Owner(id)[i], i), |id|)
         == if i >= |id| then 0
            else if id[i] == 255 then 255
            else id[i] * Bit(i % 8) % 255
  {
    hide RotateLeft, Absorbed, Xor;
    AbsorbedShort(id, |id|, i);
    var folded := Absorbed(id, |id|)[i];
    assert Owner(id)[i] == Xor(folded, Xor(|id|, i));
    hide Owner;
    XorAssociates(folded, |id|, i);
    XorTwice(Xor(folded, |id|), i);
    XorTwice(folded, |id|);
    if i < |id| {
      if id[i] < 255 {
        RotationIsMultiplication(id[i], i % 8);
      } else {
        FullByteRotated(i % 8);
      }
    }
  }

  lemma FullByteRotated(k: nat)
    requires k < 8
    ensures RotateLeft(255, k) == 255
  {
    match k {
      case 0 => case 1 => case 2 => case 3 => case 4 => case 5 => case 6 => case 7 =>
    }
  }

  // ---------------------------------------------------------------- longer ids

  /** A 32-byte string with the same owner as a given shorter id: slot 31 no longer holds only the length. */
  function Disguised(id: seq<u8>): seq<u8> {
    seq(32, i requires 0 <= i < 32 => RotateRight(XorByte(Owner(id)[i], XorByte(32, i)), i % 8))
  }

  lemma DisguisedOwner(id: seq<u8>)
    ensures |Disguised(id)| == 32 && Owner(Disguised(id)) == Owner(id)
  {
    var other := Disguised(id);
    hide XorByte, RotateLeft, RotateRight;
    forall i: nat | i < 32 ensures Owner(other)[i] == Owner(id)[i] {
      var stir := XorByte(32, i);
      AbsorbedShort(other, 32, i);
      RotationUndone(XorByte(Owner(id)[i], stir), i % 8);
      XorUndone(Owner(id)[i], stir);
    }
  }

  lemma ByteOfThirtyTwo(a: seq<u8>, b: seq<u8>, i: nat)
    requires |a| == |b| == 32 && i < 32 && Owner(a) == Owner(b)
    ensures a[i] == b[i]
  {
    hide XorByte, RotateLeft, RotateRight, Absorbed;
    AbsorbedShort(a, 32, i);
    AbsorbedShort(b, 32, i);
    var stir := XorByte(32, i);
    assert Owner(a)[i] == XorByte(RotateLeft(a[i], i % 8), stir);
    assert Owner(b)[i] == XorByte(RotateLeft(b[i], i % 8), stir);
    XorUndone(RotateLeft(a[i], i % 8), stir);
    XorUndone(RotateLeft(b[i], i % 8), stir);
    RotationUndone(a[i], i % 8);
    RotationUndone(b[i], i % 8);
  }

  /**
   Two ids of 32 bytes share an owner only if they are the same. An id of 32 bytes and
   any other id share one exactly when the former is the disguise of the latter.
   */
  lemma ThirtyTwoCollidesIff(a: seq<u8>, b: seq<u8>)
    requires |a| == 32
    ensures Owner(a) == Owner(b) <==> a == Disguised(b)
    ensures |b| == 32 ==> Disguised(b) == b
  {
    DisguisedOwner(b);
    hide Owner, Disguised;
    if Owner(a) == Owner(b) {
      forall i | 0 <= i < 32 ensures a[i] == Disguised(b)[i] {
        ByteOfThirtyTwo(a, Disguised(b), i);
      }
    }
    if |b| == 32 {
      forall i | 0 <= i < 32 ensures b[i] == Disguised(b)[i] {
        ByteOfThirtyTwo(b, Disguised(b), i);
      }
    }
  }

  lemma {:induction false} AbsorbedAppend(a: seq<u8>, b: seq<u8>, n: nat)
    requires n <= |a|
    ensures Absorbed(a + b, n) == Absorbed(a, n)
  {
    if n > 0 {
      AbsorbedAppend(a, b, n - 1);
    }
  }

  lemma AbsorbZero(bytes: Hash32, i: nat)
    ensures Absorb(bytes, i, 0) == bytes
  {
    hide XorByte, RotateLeft;
    RotatedZero(i % 8);
    XorUndone(bytes[i % 32], 0);
  }

  function Zeros(k: nat): seq<u8> { seq(k, _ => 0) }

  lemma {:induction false} ZerosAbsorbNothing(id: seq<u8>, k: nat)
    ensures Absorbed(id + Zeros(k), |id| + k) == Absorbed(id, |id|)
  {
    hide Absorbed;
    if k == 0 {
      assert id + Zeros(0) == id;
    } else {
      var shorter := id + Zeros(k - 1);
      ZerosAbsorbNothing(id, k - 1);
      assert id + Zeros(k) == shorter + [0];
      hide Zeros;
      OneZeroAbsorbsNothing(shorter);
    }
  }

  lemma OneZeroAbsorbsNothing(id: seq<u8>)
    ensures Absorbed(id + [0], |id| + 1) == Absorbed(id, |id|)
  {
    AbsorbedAppend(id, [0], |id|);
    AbsorbZero(Absorbed(id, |id|), |id|);
    hide Absorb;
  }

  /**
   Mixing in the length separates ids that differ only by trailing zero bytes, but only
   modulo 256: they share an owner exactly when their lengths agree modulo 256.
   */
  lemma LengthSeparatesIff(id: seq<u8>, k: nat)
    ensures Owner(id + Zeros(k)) == Owner(id) <==> k % 256 == 0
  {
    hide Absorbed, Stir;
    var padded := id + Zeros(k);
    assert |padded| == |id| + k;
    hide Zeros;
    ZerosAbsorbNothing(id, k);
    StirSeparates(Absorbed(id, |id|), |padded|, |id|);
    ModuloShift(|id|, k);
  }

  lemma ModuloShift(n: nat, k: nat)
    ensures (n + k) % 256 == n % 256 <==> k % 256 == 0
  {}

  /** Slots filled alike give owners that differ exactly by their length bytes. */
  lemma StirSeparates(bytes: Hash32, m: nat, n: nat)
    ensures Stir(bytes, m) == Stir(bytes, n) <==> m % 256 == n % 256
  {
    hide XorByte;
    forall slot: nat | slot < 32 ensures Stir(bytes, m)[slot] == Stir(bytes, n)[slot] <==> m % 256 == n % 256 {
      XorSeparates(bytes[slot], m % 256, n % 256, slot);
    }
    assert Stir(bytes, m)[0] == Stir(bytes, n)[0] <==> m % 256 == n % 256;
  }

  function Exchanged(id: seq<u8>, i: nat): seq<u8>
    requires i + 32 < |id|
  {
    id[i := id[i + 32]][i + 32 := id[i]]
  }

  /** From 33 bytes on, exchanging two bytes 32 apart never changes the owner, so distinct ids of any such length collide. */
  lemma ExchangeCollides(id: seq<u8>, i: nat)
    requires i + 32 < |id|
    ensures Owner(Exchanged(id, i)) == Owner(id)
    ensures Exchanged(id, i) != id <==> id[i] != id[i + 32]
  {
    if Exchanged(id, i) == id {
      assert id[i] == Exchanged(id, i)[i];
    }
    ExchangeAbsorbed(id, i, |id|);
    hide XorByte, Absorbed;
  }

  /** What the slot of the exchanged bytes holds while only one of them has been folded in. */
  function Half(bytes: Hash32, id: seq<u8>, i: nat): Hash32
    requires i + 32 < |id|
  {
    bytes[i % 32 := XorByte(XorByte(bytes[i % 32], RotateLeft(id[i], i % 8)), RotateLeft(id[i + 32], i % 8))]
  }

  lemma {:induction false} ExchangeAbsorbed(id: seq<u8>, i: nat, n: nat)
    requires i + 32 < |id| && n <= |id|
    ensures Absorbed(Exchanged(id, i), n) == if i < n <= i + 32 then Half(Absorbed(id, n), id, i) else Absorbed(id, n)
  {
    hide XorByte, RotateLeft;
    if n > 0 {
      ExchangeAbsorbed(id, i, n - 1);
      ExchangeStep(Absorbed(id, n - 1), id, i, n - 1);
    }
  }

  lemma ExchangeStep(bytes: Hash32, id: seq<u8>, i: nat, k: nat)
    requires i + 32 < |id| && k < |id|
    ensures var before := if i < k <= i + 32 then Half(bytes, id, i) else bytes;
            var after := Absorb(bytes, k, id[k]);
            Absorb(before, k, Exchanged(id, i)[k]) == if i < k + 1 <= i + 32 then Half(after, id, i) else after
  {
    hide Absorb, Half;
    if k == i {
      FirstExchanged(bytes, id, i);
    } else if k == i + 32 {
      SecondExchanged(bytes, id, i);
    } else if i < k < i + 32 {
      SlotsApart(i, k);
      OtherSlot(bytes, id, i, k);
    }
  }

  lemma FirstExchanged(bytes: Hash32, id: seq<u8>, i: nat)
    requires i + 32 < |id|
    ensures Absorb(bytes, i, id[i + 32]) == Half(Absorb(bytes, i, id[i]), id, i)
  {
    hide XorByte, RotateLeft;
    XorExchange(bytes[i % 32], RotateLeft(id[i], i % 8), RotateLeft(id[i + 32], i % 8), 0);
  }

  lemma SecondExchanged(bytes: Hash32, id: seq<u8>, i: nat)
    requires i + 32 < |id|
    ensures Absorb(Half(bytes, id, i), i + 32, id[i]) == Absorb(bytes, i + 32, id[i + 32])
  {
    hide XorByte, RotateLeft;
    assert (i + 32) % 32 == i % 32 && (i + 32) % 8 == i % 8;
    XorExchange(bytes[i % 32], RotateLeft(id[i], i % 8), RotateLeft(id[i + 32], i % 8), 0);
  }

  lemma OtherSlot(bytes: Hash32, id: seq<u8>, i: nat, k: nat)
    requires i + 32 < |id| && k < |id| && k % 32 != i % 32
    ensures Absorb(Half(bytes, id, i), k, id[k]) == Half(Absorb(bytes, k, id[k]), id, i)
  {
    hide XorByte, RotateLeft;
  }

  lemma SlotsApart(i: nat, k: nat)
    requires i < k < i + 32
    ensures k % 32 != i % 32
  {}
}
