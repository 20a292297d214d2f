/**
 How far the owner derivation keeps the ids of a configuration apart: ids are strings,
 so their bytes are UTF-8, and in practice ASCII.
 */
module OwnerIds {
  import opened Envelope
  import opened OwnerHash
  import opened Words

  // ---------------------------------------------------------------- ASCII ids

  predicate Ascii(id: seq<u8>) {
    forall i :: 0 <= i < |id| ==> id[i] < 128
  }

  lemma ShrIsQuotient(x: nat)
    ensures Shr(x, 5) == x / 32 && Shr(x, 6) == x / 64
  {
    ShrAdds(x, 1, 1);
    ShrAdds(x, 2, 1);
    ShrAdds(x, 3, 1);
    ShrAdds(x, 4, 1);
    ShrAdds(x, 5, 1);
  }

  /** Bits five and six of an exclusive or. */
  lemma XorBits(a: u8, b: u8)
    ensures XorByte(a, b) / 32 % 2 == (if a / 32 % 2 == b / 32 % 2 then 0 else 1)
    ensures XorByte(a, b) / 64 % 2 == (if a / 64 % 2 == b / 64 % 2 then 0 else 1)
  {
    hide Shr, Xor;
    ShrIsQuotient(a);
    ShrIsQuotient(b);
    ShrIsQuotient(Xor(a, b));
    ShrXor(a, b, 5);
    ShrXor(a, b, 6);
    XorParts(a / 32, b / 32);
    XorParts(a / 64, b / 64);
  }

  lemma AsciiRotated(b: u8)
    requires b < 128
    ensures RotateLeft(b, 6) / 32 % 2 == 0 && RotateLeft(b, 7) / 64 % 2 == 0
  {
    assert RotateLeft(b, 6) == b % 4 * 64 + b / 4;
    assert RotateLeft(b, 7) == b % 2 * 128 + b / 2;
  }

  /** The rotation of slot 6 brings the top bit of a byte to bit 5: for ASCII only the length decides it. */
  lemma SlotSixHoldsLength(id: seq<u8>)
    requires |id| <= 32 && Ascii(id)
    ensures Owner(id)[6] / 32 % 2 == (if |id| == 32 then 1 else 0)
  {
    hide XorByte, Absorbed, RotateLeft;
    var folded := Absorbed(id, |id|)[6];
    AbsorbedShort(id, |id|, 6);
    if 6 < |id| {
      AsciiRotated(id[6]);
    }
    assert Owner(id)[6] == XorByte(folded, XorByte(|id|, 6));
    hide Owner;
    XorBits(|id|, 6);
    XorBits(folded, XorByte(|id|, 6));
  }

  /** In slot 31 the top bit of an ASCII byte would come to bit 6, which the market maker's owner has set. */
  lemma AsciiIsNotMarketMaker(id: seq<u8>)
    requires |id| == 32 && Ascii(id)
    ensures Owner(id) != MARKET_MAKER_OWNER
  {
    hide XorByte, Absorbed, RotateLeft;
    var folded := Absorbed(id, 32)[31];
    AbsorbedShort(id, 32, 31);
    AsciiRotated(id[31]);
    assert Owner(id)[31] == XorByte(folded, XorByte(32, 31));
    hide Owner;
    XorBits(32, 31);
    XorBits(folded, XorByte(32, 31));
    assert Owner(id)[31] / 64 % 2 == 0;
    assert MARKET_MAKER_OWNER[31] == 0xEE;
  }

  /** ASCII ids of at most 32 bytes never share an owner hash, and none has the market maker's. */
  lemma AsciiOwnersDistinct(a: seq<u8>, b: seq<u8>)
    requires |a| <= 32 && |b| <= 32 && Ascii(a) && Ascii(b)
    ensures Owner(a) == Owner(b) <==> a == b
    ensures Owner(a) != MARKET_MAKER_OWNER
  {
    hide Owner, Disguised;
    if |a| == 32 {
      AsciiIsNotMarketMaker(a);
    } else {
      NotMarketMaker(a);
    }
    if |a| == 32 && |b| == 32 {
      ThirtyTwoCollidesIff(a, b);
    } else if |a| == 32 || |b| == 32 {
      SlotSixHoldsLength(a);
      SlotSixHoldsLength(b);
    } else {
      OwnersDistinct(a, b);
    }
  }

  /** 32 is the exact bound for ASCII: of every greater length there are two such ids with one owner. */
  lemma LongerAsciiCollide(n: nat) returns (a: seq<u8>, b: seq<u8>)
    requires n > 32
    ensures |a| == |b| == n && Ascii(a) && Ascii(b) && a != b && Owner(a) == Owner(b)
  {
    a := seq(n, i => if i == 0 then 97 else 98);
    b := Exchanged(a, 0);
    ExchangeCollides(a, 0);
  }

  // ---------------------------------------------------------------- UTF-8 ids

  predicate Continues(b: u8) {
    0x80 <= b <= 0xBF
  }

  /** The length of the well-formed UTF-8 character at `i`, or zero; the table of RFC 3629, section 4. */
  function CharLength(bytes: seq<u8>, i: nat): (n: nat)
    requires i < |bytes|
    ensures i + n <= |bytes|
  {
    var lead := bytes[i];
    var left := |bytes| - i;
    if lead < 0x80 then 1
    else if left >= 2 && 0xC2 <= lead <= 0xDF && Continues(bytes[i + 1]) then 2
    else if left >= 3 && 0xE0 <= lead <= 0xEF && Continues(bytes[i + 1]) && Continues(bytes[i + 2])
            && (lead == 0xE0 ==> bytes[i + 1] >= 0xA0) && (lead == 0xED ==> bytes[i + 1] <= 0x9F) then 3
    else if left >= 4 && 0xF0 <= lead <= 0xF4
            && Continues(bytes[i + 1]) && Continues(bytes[i + 2]) && Continues(bytes[i + 3])
            && (lead == 0xF0 ==> bytes[i + 1] >= 0x90) && (lead == 0xF4 ==> bytes[i + 1] <= 0x8F) then 4
    else 0
  }

  /** Well-formed UTF-8 from index `i` on. */
  predicate Utf8From(bytes: seq<u8>, i: nat)
    requires i <= |bytes|
    decreases |bytes| - i
  {
    i == |bytes| || (CharLength(bytes, i) > 0 && Utf8From(bytes, i + CharLength(bytes, i)))
  }

  /** Eight bytes of UTF-8, two of them an accented letter, and eight that the derivation takes for the same. */
  function ShortByte(k: nat): u8
    requires k < 8
  {
    [0x61, 0x5C, 0x61, 0xC3, 0xA9, 0x3A, 0x55, 0x4D][k]
  }

  function LongByte(k: nat): u8
    requires k < 8
  {
    [0x5E, 0xC3, 0xAE, 0x24, 0x5A, 0xC3, 0xA9, 0x33][k]
  }

  function ShortId(): (id: seq<u8>)
    ensures |id| == 31 && forall i :: 0 <= i < 31 ==> id[i] == ShortByte(i % 8)
  {
    seq(31, i requires 0 <= i < 31 => ShortByte(i % 8))
  }

  function LongId(): (id: seq<u8>)
    ensures |id| == 32 && id[31] == 126 && forall i :: 0 <= i < 31 ==> id[i] == LongByte(i % 8)
  {
    seq(31, i requires 0 <= i < 31 => LongByte(i % 8)) + [126]
  }

  lemma FlipsLowest(x: nat, mask: nat)
    ensures Xor(x, 2 * mask + 1) == 2 * Xor(x / 2, mask) + 1 - x % 2
  {
    hide Xor;
    XorParts(x, 2 * mask + 1);
    assert (2 * mask + 1) / 2 == mask && (2 * mask + 1) % 2 == 1;
  }

  lemma FlipsThree(x: nat, mask: nat)
    ensures Xor(x, 8 * mask + 7) == 8 * Xor(x / 8, mask) + 7 - x % 8
  {
    hide Xor;
    FlipsLowest(x, 4 * mask + 3);
    FlipsLowest(x / 2, 2 * mask + 1);
    FlipsLowest(x / 4, mask);
  }

  /** Meeting 63 flips the low six bits. */
  lemma FlipsLowBits(x: nat)
    ensures Xor(x, 63) == x + 63 - 2 * (x % 64)
  {
    hide Xor;
    FlipsThree(x, 7);
    FlipsThree(x / 8, 0);
    XorZero(x / 64);
  }

  lemma ShortRotated(k: nat)
    requires k < 8
    ensures RotateLeft(ShortByte(k), k) == [0x61, 0xB8, 0x85, 0x1E, 0x9A, 0x47, 0x55, 0xA6][k]
  {
    match k {
      case 0 => case 1 => case 2 => case 3 => case 4 => case 5 => case 6 => case 7 =>
    }
  }

  lemma LongRotated(k: nat)
    requires k < 8
    ensures RotateLeft(LongByte(k), k) == [0x5E, 0x87, 0xBA, 0x21, 0xA5, 0x78, 0x6A, 0x99][k]
  {
    match k {
      case 0 => case 1 => case 2 => case 3 => case 4 => case 5 => case 6 => case 7 =>
    }
  }

  lemma ByteMeets(k: nat)
    requires k < 8
    ensures XorByte(RotateLeft(ShortByte(k), k), 63) == RotateLeft(LongByte(k), k)
  {
    hide Xor, RotateLeft, ShortByte, LongByte;
    ShortRotated(k);
    LongRotated(k);
    FlipsLowBits(RotateLeft(ShortByte(k), k));
  }

  /** A slot that differs by 63 makes up for the length 32 in place of 31. */
  lemma LengthsMeet(x: u8, i: u8)
    ensures XorByte(XorByte(x, 63), XorByte(32, i)) == XorByte(x, XorByte(31, i))
  {
    hide Xor;
    FlipsLowBits(32);
    XorCommutes(63, 32);
    XorAssociates(x, 63, XorByte(32, i));
    XorAssociates(63, 32, i);
  }

  /**
   For strings beyond ASCII 31 bytes is the exact bound: here are one of 31 bytes and
   one of 32 bytes, both well-formed UTF-8, with the same owner.
   */
  lemma Utf8PairCollides()
    ensures |ShortId()| == 31 && |LongId()| == 32 && Owner(ShortId()) == Owner(LongId())
    ensures Utf8From(ShortId(), 0) && Utf8From(LongId(), 0)
  {
    PairOwners();
    ShortIsUtf8(0);
    LongIsUtf8(0);
  }

  lemma PairOwners()
    ensures Owner(ShortId()) == Owner(LongId())
  {
    hide XorByte, RotateLeft, Absorbed, ShortId, LongId, ShortByte, LongByte;
    forall i: nat | i < 32 ensures Owner(ShortId())[i] == Owner(LongId())[i] {
      PairSlot(i);
    }
  }

  lemma PairSlot(i: nat)
    requires i < 32
    ensures Owner(ShortId())[i] == Owner(LongId())[i]
  {
    hide XorByte, Absorbed, ShortId, LongId, ShortByte, LongByte;
    AbsorbedShort(ShortId(), 31, i);
    AbsorbedShort(LongId(), 32, i);
    if i < 31 {
      hide RotateLeft;
      ByteMeets(i % 8);
      LengthsMeet(RotateLeft(ShortByte(i % 8), i % 8), i);
    } else {
      LastSlots();
    }
  }

  lemma LastSlots()
    ensures RotateLeft(126, 7) == 63
    ensures XorByte(0, XorByte(31, 31)) == XorByte(63, XorByte(32, 31)) == 0
  {
    hide Xor;
    LengthsMeet(0, 31);
    XorSelf(31);
    XorZero(0);
    FlipsLowBits(0);
    FlipsLowBits(32);
    XorTwice(63, 32);
    XorCommutes(63, 32);
    XorCommutes(31, 32);
    XorSelf(63);
  }

  lemma OneByteChar(bytes: seq<u8>, i: nat)
    requires i < |bytes| && bytes[i] < 0x80 && Utf8From(bytes, i + 1)
    ensures Utf8From(bytes, i)
  {}

  lemma TwoByteChar(bytes: seq<u8>, i: nat)
    requires i + 1 < |bytes| && 0xC2 <= bytes[i] <= 0xDF && Continues(bytes[i + 1]) && Utf8From(bytes, i + 2)
    ensures Utf8From(bytes, i)
  {
    assert CharLength(bytes, i) == 2;
  }

  lemma ShortBytes()
    ensures ShortByte(0) < 0x80 && ShortByte(1) < 0x80 && ShortByte(2) < 0x80
    ensures ShortByte(3) == 0xC3 && Continues(ShortByte(4))
    ensures ShortByte(5) < 0x80 && ShortByte(6) < 0x80 && ShortByte(7) < 0x80
  {}

  lemma LongBytes()
    ensures LongByte(0) < 0x80 && LongByte(1) == 0xC3 && Continues(LongByte(2)) && LongByte(3) < 0x80
    ensures LongByte(4) < 0x80 && LongByte(5) == 0xC3 && Continues(LongByte(6)) && LongByte(7) < 0x80
  {}

  lemma ShortAt(g: nat, k: nat)
    requires k < 8 && 8 * g + k < 31
    ensures ShortId()[8 * g + k] == ShortByte(k)
  {
    assert (8 * g + k) % 8 == k;
    hide ShortId, ShortByte;
  }

  lemma LongAt(g: nat, k: nat)
    requires k < 8 && 8 * g + k < 32
    ensures LongId()[8 * g + k] == if 8 * g + k < 31 then LongByte(k) else 126
  {
    assert (8 * g + k) % 8 == k;
    hide LongId, LongByte;
  }

  lemma {:induction false} ShortIsUtf8(g: nat)
    requires g < 4
    ensures Utf8From(ShortId(), 8 * g)
    decreases 4 - g
  {
    hide ShortId, ShortByte, CharLength;
    ShortBytes();
    var id, at := ShortId(), 8 * g;
    if g < 3 {
      ShortIsUtf8(g + 1);
      ShortAt(g, 7);
      OneByteChar(id, at + 7);
    }
    assert Utf8From(id, at + 7);
    hide Utf8From;
    ShortAt(g, 0);
    ShortAt(g, 1);
    ShortAt(g, 2);
    ShortAt(g, 3);
    ShortAt(g, 4);
    ShortAt(g, 5);
    ShortAt(g, 6);
    OneByteChar(id, at + 6);
    OneByteChar(id, at + 5);
    TwoByteChar(id, at + 3);
    OneByteChar(id, at + 2);
    OneByteChar(id, at + 1);
    OneByteChar(id, at);
  }

  lemma {:induction false} LongIsUtf8(g: nat)
    requires g < 4
    ensures Utf8From(LongId(), 8 * g)
    decreases 4 - g
  {
    hide LongId, LongByte, CharLength;
    LongBytes();
    var id, at := LongId(), 8 * g;
    if g < 3 {
      LongIsUtf8(g + 1);
    }
    assert Utf8From(id, at + 8);
    hide Utf8From;
    LongAt(g, 0);
    LongAt(g, 1);
    LongAt(g, 2);
    LongAt(g, 3);
    LongAt(g, 4);
    LongAt(g, 5);
    LongAt(g, 6);
    LongAt(g, 7);
    OneByteChar(id, at + 7);
    TwoByteChar(id, at + 5);
    OneByteChar(id, at + 4);
    OneByteChar(id, at + 3);
    TwoByteChar(id, at + 1);
    OneByteChar(id, at);
  }
}
