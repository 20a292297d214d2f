/**
 The deterministic seeded-stream substrate: an FNV-1a key hash, the SplitMix64
 finaliser, domain-tagged seeding, and a generator whose state advances by an odd
 constant modulo 2^64.
 */
module SplitMix {
  import opened Words

  const FNV_OFFSET_BASIS: u64 := 0xcbf2_9ce4_8422_2325
  const FNV_PRIME: u64 := 0x0000_0100_0000_01B3
  const SPLITMIX_GAMMA: u64 := 0x9E37_79B9_7F4A_7C15
  const MIX_FIRST: u64 := 0xBF58_476D_1CE4_E5B9
  const MIX_SECOND: u64 := 0x94D0_49BB_1331_11EB

  // Inverses of the odd constants modulo 2^64.
  const FNV_PRIME_INVERSE: u64 := 0xce96_5057_aff6_957b
  const GAMMA_INVERSE: u64 := 0xf1de_83e1_9937_733d
  const FIRST_INVERSE: u64 := 0x96de_1b17_3f11_9089
  const SECOND_INVERSE: u64 := 0x3196_42b2_d24d_8ec3

  // ---------------------------------------------------------------- FNV-1a

  function FnvStep(hash: u64, byte: u8): u64 {
    Wrap(XorWord(hash, byte) * FNV_PRIME)
  }

  function FnvFrom(hash: u64, bytes: seq<u8>): u64
    decreases |bytes|
  {
    if bytes == [] then hash else FnvFrom(FnvStep(hash, bytes[0]), bytes[1..])
  }

  function Fnv1a(bytes: seq<u8>): u64 {
    FnvFrom(FNV_OFFSET_BASIS, bytes)
  }

  method Fnv1a64(bytes: seq<u8>) returns (hash: u64)
    ensures hash == Fnv1a(bytes)
  {
    hash := FNV_OFFSET_BASIS;
    for i := 0 to |bytes|
      invariant FnvFrom(hash, bytes[i..]) == Fnv1a(bytes)
    {
      assert bytes[i..][1..] == bytes[i + 1..];
      hash := XorWord(hash, bytes[i]);
      hash := Wrap(hash * FNV_PRIME);
    }
  }

  /** A step loses neither the running hash nor the byte it absorbs. */
  lemma FnvStepInjective(h1: u64, h2: u64, a: u8, b: u8)
    ensures FnvStep(h1, a) == FnvStep(h2, a) <==> h1 == h2
    ensures FnvStep(h1, a) == FnvStep(h1, b) <==> a == b
  {
    WrapMulInverse(XorWord(h1, a), FNV_PRIME, FNV_PRIME_INVERSE);
    WrapMulInverse(XorWord(h2, a), FNV_PRIME, FNV_PRIME_INVERSE);
    WrapMulInverse(XorWord(h1, b), FNV_PRIME, FNV_PRIME_INVERSE);
    XorCancels(h1, h2, a);
    XorCancels(a, b, h1);
  }

  lemma FnvOneMore(bytes: seq<u8>, b: u8)
    ensures Fnv1a(bytes + [b]) == FnvStep(Fnv1a(bytes), b)
    ensures Fnv1a([]) == FNV_OFFSET_BASIS
  {
    hide FnvStep;
    FnvFromAppend(FNV_OFFSET_BASIS, bytes, [b]);
    assert [b][1..] == [];
  }

  /**
   What fixes the hash: the empty text hashes to the offset basis, and undoing the prime on
   the hash of a longer text and meeting the hash of the shorter one gives its last byte.
   */
  lemma FnvDetermined(bytes: seq<u8>, b: u8)
    ensures Fnv1a([]) == 0xcbf2_9ce4_8422_2325
    ensures Xor(Fnv1a(bytes + [b]) * 0xce96_5057_aff6_957b % 0x1_0000_0000_0000_0000, Fnv1a(bytes)) == b
  {
    hide Xor, FnvFrom;
    var h := Fnv1a(bytes);
    FnvOneMore(bytes, b);
    WrapMulInverse(XorWord(h, b), FNV_PRIME, FNV_PRIME_INVERSE);
    XorCommutes(h, b);
    XorTwice(b, h);
  }

  lemma {:induction false} FnvFromInjective(h1: u64, h2: u64, bytes: seq<u8>)
    ensures FnvFrom(h1, bytes) == FnvFrom(h2, bytes) <==> h1 == h2
    decreases |bytes|
  {
    if bytes != [] {
      FnvStepInjective(h1, h2, bytes[0], bytes[0]);
      FnvFromInjective(FnvStep(h1, bytes[0]), FnvStep(h2, bytes[0]), bytes[1..]);
    }
  }

  lemma {:induction false} FnvFromAppend(hash: u64, left: seq<u8>, right: seq<u8>)
    ensures FnvFrom(hash, left + right) == FnvFrom(FnvFrom(hash, left), right)
    decreases |left|
  {
    if left == [] {
      assert left + right == right;
    } else {
      assert (left + right)[1..] == left[1..] + right;
      FnvFromAppend(FnvStep(hash, left[0]), left[1..], right);
    }
  }

  /** Two keys that differ in exactly one byte never hash alike. */
  lemma FnvSeparatesOneByte(prefix: seq<u8>, a: u8, b: u8, suffix: seq<u8>)
    ensures Fnv1a(prefix + [a] + suffix) == Fnv1a(prefix + [b] + suffix) <==> a == b
  {
    var h := FnvFrom(FNV_OFFSET_BASIS, prefix);
    forall c: u8 ensures Fnv1a(prefix + [c] + suffix) == FnvFrom(FnvStep(h, c), suffix) {
      FnvFromAppend(FNV_OFFSET_BASIS, prefix + [c], suffix);
      FnvFromAppend(FNV_OFFSET_BASIS, prefix, [c]);
      assert FnvFrom(h, [c]) == FnvFrom(FnvStep(h, c), [c][1..]);
    }
    FnvFromInjective(FnvStep(h, a), FnvStep(h, b), suffix);
    FnvStepInjective(h, h, a, b);
  }

  // ---------------------------------------------------------------- mix64

  /** `x ^ (x >> k)`. */
  function XorShift(x: u64, k: nat): u64 {
    ShrBound(x, k);
    XorWord(x, Shr(x, k))
  }

  /** Undoes `XorShift` by `k` for any `k` with `3 * k >= 64`. */
  function UnXorShift(y: u64, k: nat): u64 {
    ShrBound(y, k);
    ShrBound(y, k + k);
    XorWord(XorWord(y, Shr(y, k)), Shr(y, k + k))
  }

  function Mix64(z: u64): u64 {
    var first := Wrap(XorShift(z, 30) * MIX_FIRST);
    var second := Wrap(XorShift(first, 27) * MIX_SECOND);
    XorShift(second, 31)
  }

  /** Undoes the rounds of `Mix64`, last to first. */
  function Unmix64(y: u64): u64 {
    var second := Wrap(UnXorShift(y, 31) * SECOND_INVERSE);
    var first := Wrap(UnXorShift(second, 27) * FIRST_INVERSE);
    UnXorShift(first, 30)
  }

  lemma XorShiftInverse(x: u64, k: nat)
    requires 3 * k >= 64
    ensures UnXorShift(XorShift(x, k), k) == x
  {
    var s, t := Shr(x, k), Shr(x, k + k);
    ShrBound(x, k);
    ShrXor(x, s, k);
    ShrAdds(x, k, k);
    ShrXor(x, s, k + k);
    ShrAdds(x, k, k + k);
    ShrWordVanishes(x, k + k + k);
    XorZero(t);
    // The shifted copies telescope: (x ^ s) ^ (s ^ t) ^ t.
    XorAssociates(Xor(x, s), s, t);
    XorTwice(x, s);
    XorTwice(x, t);
  }

  lemma UnXorShiftInverse(y: u64, k: nat)
    requires 3 * k >= 64
    ensures XorShift(UnXorShift(y, k), k) == y
  {
    var s, t := Shr(y, k), Shr(y, k + k);
    ShrBound(y, k);
    ShrBound(y, k + k);
    ShrXor(Xor(y, s), t, k);
    ShrXor(y, s, k);
    ShrAdds(y, k, k);
    ShrAdds(y, k + k, k);
    ShrWordVanishes(y, k + k + k);
    XorZero(Xor(s, t));
    // ((y ^ s) ^ t) ^ (s ^ t) telescopes to y.
    XorAssociates(y, s, t);
    XorTwice(y, Xor(s, t));
  }

  /** `Mix64` is a bijection on the 64-bit words, with `Unmix64` its two-sided inverse. */
  lemma MixBijective(z: u64)
    ensures Unmix64(Mix64(z)) == z
    ensures Mix64(Unmix64(z)) == z
  {
    hide XorShift, UnXorShift, Wrap;
    var first := Wrap(XorShift(z, 30) * MIX_FIRST);
    var second := Wrap(XorShift(first, 27) * MIX_SECOND);
    XorShiftInverse(second, 31);
    WrapMulInverse(XorShift(first, 27), MIX_SECOND, SECOND_INVERSE);
    XorShiftInverse(first, 27);
    WrapMulInverse(XorShift(z, 30), MIX_FIRST, FIRST_INVERSE);
    XorShiftInverse(z, 30);

    var undone2 := Wrap(UnXorShift(z, 31) * SECOND_INVERSE);
    var undone1 := Wrap(UnXorShift(undone2, 27) * FIRST_INVERSE);
    UnXorShiftInverse(undone1, 30);
    WrapMulInverse(UnXorShift(undone2, 27), FIRST_INVERSE, MIX_FIRST);
    UnXorShiftInverse(undone2, 27);
    WrapMulInverse(UnXorShift(z, 31), SECOND_INVERSE, MIX_SECOND);
    UnXorShiftInverse(z, 31);
  }

  lemma ShiftAmounts()
    ensures Pow2(27) == 0x800_0000 && Pow2(54) == 0x40_0000_0000_0000
    ensures Pow2(30) == 0x4000_0000 && Pow2(60) == 0x1000_0000_0000_0000
    ensures Pow2(31) == 0x8000_0000 && Pow2(62) == 0x4000_0000_0000_0000
  {
    assert Pow2(3) == 8;
    Pow2Adds(3, 3);
    Pow2Adds(6, 6);
    Pow2Adds(12, 12);
    Pow2Adds(24, 3);
    Pow2Adds(27, 27);
    Pow2Adds(27, 3);
    Pow2Adds(30, 30);
    Pow2Adds(30, 1);
    Pow2Adds(31, 31);
  }

  /**
   What fixes the finaliser: from its output, shifting by 31 and 62 and undoing the second
   factor, by 27 and 54 and undoing the first, and by 30 and 60 leads back to the input.
   */
  lemma MixDetermined(z: u64)
    ensures var y := Mix64(z);
            var second := Xor(Xor(y, y / 0x8000_0000), y / 0x4000_0000_0000_0000) * 0x3196_42b2_d24d_8ec3 % 0x1_0000_0000_0000_0000;
            var first := Xor(Xor(second, second / 0x800_0000), second / 0x40_0000_0000_0000) * 0x96de_1b17_3f11_9089 % 0x1_0000_0000_0000_0000;
            Xor(Xor(first, first / 0x4000_0000), first / 0x1000_0000_0000_0000) == z
  {
    hide XorShift, Xor, Pow2, Mix64, Shr;
    MixBijective(z);
    ShiftAmounts();
    var y := Mix64(z);
    ShrDivides(y, 31);
    ShrDivides(y, 62);
    var second := Wrap(UnXorShift(y, 31) * SECOND_INVERSE);
    ShrDivides(second, 27);
    ShrDivides(second, 54);
    var first := Wrap(UnXorShift(second, 27) * FIRST_INVERSE);
    ShrDivides(first, 30);
    ShrDivides(first, 60);
  }

  lemma MixInjective(x: u64, y: u64)
    ensures Mix64(x) == Mix64(y) <==> x == y
  {
    MixBijective(x);
    MixBijective(y);
  }

  // ---------------------------------------------------------------- keyed seeding

  function MixKey(acc: u64, key: seq<u8>): u64 {
    Mix64(XorWord(acc, Fnv1a(key)))
  }

  function FoldKeys(acc: u64, keys: seq<seq<u8>>): u64
    decreases |keys|
  {
    if keys == [] then acc else FoldKeys(MixKey(acc, keys[0]), keys[1..])
  }

  function KeyedState(runSeed: u64, domain: u64, keys: seq<seq<u8>>): u64 {
    FoldKeys(Mix64(XorWord(runSeed, domain)), keys)
  }

  /** Seeding mixes seed and domain, and then each further key into what the earlier ones gave. */
  lemma KeyedFoldsInOrder(runSeed: u64, domain: u64, keys: seq<seq<u8>>, key: seq<u8>)
    ensures KeyedState(runSeed, domain, []) == Mix64(XorWord(runSeed, domain))
    ensures KeyedState(runSeed, domain, keys + [key]) == Mix64(XorWord(KeyedState(runSeed, domain, keys), Fnv1a(key)))
  {
    FoldKeysAppend(Mix64(XorWord(runSeed, domain)), keys, [key]);
    var acc := KeyedState(runSeed, domain, keys);
    assert FoldKeys(acc, [key]) == FoldKeys(MixKey(acc, key), [key][1..]);
  }

  lemma MixKeyInjective(a: u64, b: u64, key1: seq<u8>, key2: seq<u8>)
    ensures MixKey(a, key1) == MixKey(b, key1) <==> a == b
    ensures MixKey(a, key1) == MixKey(a, key2) <==> Fnv1a(key1) == Fnv1a(key2)
  {
    XorCancels(a, b, Fnv1a(key1));
    XorCancels(Fnv1a(key1), Fnv1a(key2), a);
    MixInjective(XorWord(a, Fnv1a(key1)), XorWord(b, Fnv1a(key1)));
    MixInjective(XorWord(a, Fnv1a(key1)), XorWord(a, Fnv1a(key2)));
  }

  lemma {:induction false} FoldKeysInjective(a: u64, b: u64, keys: seq<seq<u8>>)
    ensures FoldKeys(a, keys) == FoldKeys(b, keys) <==> a == b
    decreases |keys|
  {
    if keys != [] {
      MixKeyInjective(a, b, keys[0], keys[0]);
      FoldKeysInjective(MixKey(a, keys[0]), MixKey(b, keys[0]), keys[1..]);
    }
  }

  lemma {:induction false} FoldKeysAppend(acc: u64, left: seq<seq<u8>>, right: seq<seq<u8>>)
    ensures FoldKeys(acc, left + right) == FoldKeys(FoldKeys(acc, left), right)
    decreases |left|
  {
    if left == [] {
      assert left + right == right;
    } else {
      assert (left + right)[1..] == left[1..] + right;
      FoldKeysAppend(MixKey(acc, left[0]), left[1..], right);
    }
  }

  /** For one key tuple, two seedings collide exactly when seed and domain have the same XOR. */
  lemma KeyedCollidesIff(seed1: u64, domain1: u64, seed2: u64, domain2: u64, keys: seq<seq<u8>>)
    ensures KeyedState(seed1, domain1, keys) == KeyedState(seed2, domain2, keys)
       <==> XorWord(seed1, domain1) == XorWord(seed2, domain2)
  {
    MixInjective(XorWord(seed1, domain1), XorWord(seed2, domain2));
    FoldKeysInjective(Mix64(XorWord(seed1, domain1)), Mix64(XorWord(seed2, domain2)), keys);
  }

  /** With the keys fixed, `keyed` is injective in the seed and injective in the domain. */
  lemma KeyedInjective(seed1: u64, seed2: u64, domain1: u64, domain2: u64, keys: seq<seq<u8>>)
    ensures KeyedState(seed1, domain1, keys) == KeyedState(seed2, domain1, keys) <==> seed1 == seed2
    ensures KeyedState(seed1, domain1, keys) == KeyedState(seed1, domain2, keys) <==> domain1 == domain2
  {
    KeyedCollidesIff(seed1, domain1, seed2, domain1, keys);
    KeyedCollidesIff(seed1, domain1, seed1, domain2, keys);
    XorCancels(seed1, seed2, domain1);
    XorCancels(domain1, domain2, seed1);
  }

  /** Key tuples that differ in one position seed the same state exactly when those two keys hash alike. */
  lemma KeyedSeparatesKeys(seed: u64, domain: u64, before: seq<seq<u8>>,
                           key1: seq<u8>, key2: seq<u8>, after: seq<seq<u8>>)
    ensures KeyedState(seed, domain, before + [key1] + after) == KeyedState(seed, domain, before + [key2] + after)
       <==> Fnv1a(key1) == Fnv1a(key2)
  {
    var start := Mix64(XorWord(seed, domain));
    var acc := FoldKeys(start, before);
    forall key ensures KeyedState(seed, domain, before + [key] + after) == FoldKeys(MixKey(acc, key), after) {
      FoldKeysAppend(start, before + [key], after);
      FoldKeysAppend(start, before, [key]);
      assert FoldKeys(acc, [key]) == FoldKeys(MixKey(acc, key), [key][1..]);
    }
    FoldKeysInjective(MixKey(acc, key1), MixKey(acc, key2), after);
    MixKeyInjective(acc, acc, key1, key2);
  }

  // ---------------------------------------------------------------- the generator

  function StateAfter(seed: u64, n: nat): u64 {
    if n == 0 then seed else Wrap(StateAfter(seed, n - 1) + SPLITMIX_GAMMA)
  }

  /** The output of draw number `n`, counting from zero. */
  function Draw(seed: u64, n: nat): u64 {
    Mix64(StateAfter(seed, n + 1))
  }

  class SplitMix64 {
    var state: u64

    constructor FromState(state: u64)
      ensures this.state == state
    {
      this.state := state;
    }

    constructor Keyed(runSeed: u64, domain: u64, keys: seq<seq<u8>>)
      ensures state == KeyedState(runSeed, domain, keys)
    {
      var acc := Mix64(XorWord(runSeed, domain));
      for i := 0 to |keys|
        invariant FoldKeys(acc, keys[i..]) == KeyedState(runSeed, domain, keys)
      {
        var hash := Fnv1a64(keys[i]);
        assert keys[i..][1..] == keys[i + 1..];
        acc := Mix64(XorWord(acc, hash));
      }
      state := acc;
    }

    /** On a generator that has made `n` draws since `seed`, this call makes draw number `n`. */
    method NextU64(ghost seed: u64, ghost n: nat) returns (draw: u64)
      requires state == StateAfter(seed, n)
      modifies this
      ensures state == (old(state) + 0x9E37_79B9_7F4A_7C15) % 0x1_0000_0000_0000_0000
      ensures draw == Mix64(state)
      ensures state == StateAfter(seed, n + 1) && draw == Draw(seed, n)
    {
      hide Mix64;
      state := Wrap(state + SPLITMIX_GAMMA);
      draw := Mix64(state);
    }
  }

  /** Closed form of the state: `n` steps add `n` times the increment, modulo 2^64. */
  lemma {:induction false} StateClosedForm(seed: u64, n: nat)
    ensures StateAfter(seed, n) == Wrap(seed + n * SPLITMIX_GAMMA)
  {
    if n > 0 {
      StateClosedForm(seed, n - 1);
      var total := seed + (n - 1) * SPLITMIX_GAMMA;
      WrapShift(Wrap(total) + SPLITMIX_GAMMA, total / TWO_64);
    }
  }

  /** Draw `n` mixes the seed moved on by `n + 1` increments. */
  lemma DrawClosedForm(seed: u64, n: nat)
    ensures Draw(seed, n) == Mix64((seed + (n + 1) * 0x9E37_79B9_7F4A_7C15) % 0x1_0000_0000_0000_0000)
  {
    StateClosedForm(seed, n + 1);
    hide Mix64;
  }

  lemma Remainder(d: int)
    ensures d == d / TWO_64 * TWO_64 + d % TWO_64
  {}

  /** Equal remainders differ by a multiple of the modulus. */
  lemma EqualWraps(x: int, y: int)
    requires Wrap(x) == Wrap(y)
    ensures y == x + (y / TWO_64 - x / TWO_64) * TWO_64
  {
    Remainder(x);
    Remainder(y);
  }

  lemma Spread(q: int, r: int, g: int, t: int, m: int)
    requires (q * m + r) * g == t * m
    ensures r * g == (t - q * g) * m
  {
    assert (q * m + r) * g == q * g * m + r * g;
  }

  /** Whole turns of the modulus bring the state back. */
  lemma WholeTurns(x: int, q: int)
    ensures Wrap(x + q * TWO_64 * SPLITMIX_GAMMA) == Wrap(x)
  {
    assert q * TWO_64 * SPLITMIX_GAMMA == q * SPLITMIX_GAMMA * TWO_64;
    WrapShift(x, q * SPLITMIX_GAMMA);
  }

  /** The increment is a unit modulo 2^64: a multiple of it is divisible only if the factor is. */
  lemma GammaDivides(d: nat, t: int)
    requires d * SPLITMIX_GAMMA == t * TWO_64
    ensures d % TWO_64 == 0
  {
    var q, r := d / TWO_64, d % TWO_64;
    Remainder(d);
    Spread(q, r, SPLITMIX_GAMMA, t, TWO_64);
    WrapShift(0, t - q * SPLITMIX_GAMMA);
    WrapMulInverse(r, SPLITMIX_GAMMA, GAMMA_INVERSE);
  }

  /** Stepping `d` more times returns to the same state exactly when 2^64 divides `d`. */
  lemma StateRepeatsIff(x: int, d: nat)
    ensures Wrap(x + d * SPLITMIX_GAMMA) == Wrap(x) <==> d % TWO_64 == 0
  {
    hide Wrap;
    Remainder(d);
    if d % TWO_64 == 0 {
      WholeTurns(x, d / TWO_64);
    }
    if Wrap(x + d * SPLITMIX_GAMMA) == Wrap(x) {
      var y := x + d * SPLITMIX_GAMMA;
      EqualWraps(x, y);
      GammaDivides(d, y / TWO_64 - x / TWO_64);
    }
  }

  /**
   Full period: two draws of one stream are equal exactly when their positions
   differ by a multiple of 2^64, so any 2^64 consecutive draws are all distinct.
   */
  lemma DrawsRepeatIff(seed: u64, i: nat, j: nat)
    requires i <= j
    ensures Draw(seed, i) == Draw(seed, j) <==> (j - i) % TWO_64 == 0
  {
    MixInjective(StateAfter(seed, i + 1), StateAfter(seed, j + 1));
    StateClosedForm(seed, i + 1);
    StateClosedForm(seed, j + 1);
    StateRepeatsIff(seed + (i + 1) * SPLITMIX_GAMMA, j - i);
  }

  lemma WrapAddCancels(x: u64, y: u64, t: int)
    ensures Wrap(x + t) == Wrap(y + t) <==> x == y
  {}

  /** Two streams agree at one position exactly when they were seeded alike. */
  lemma StreamsMeetIff(seed1: u64, seed2: u64, n: nat)
    ensures Draw(seed1, n) == Draw(seed2, n) <==> seed1 == seed2
  {
    MixInjective(StateAfter(seed1, n + 1), StateAfter(seed2, n + 1));
    StateClosedForm(seed1, n + 1);
    StateClosedForm(seed2, n + 1);
    WrapAddCancels(seed1, seed2, (n + 1) * SPLITMIX_GAMMA);
  }

  /** Streams for one key tuple meet at a draw exactly when seed and domain have the same XOR. */
  lemma KeyedStreamsMeetIff(seed1: u64, domain1: u64, seed2: u64, domain2: u64, keys: seq<seq<u8>>, n: nat)
    ensures Draw(KeyedState(seed1, domain1, keys), n) == Draw(KeyedState(seed2, domain2, keys), n)
       <==> XorWord(seed1, domain1) == XorWord(seed2, domain2)
  {
    KeyedCollidesIff(seed1, domain1, seed2, domain2, keys);
    StreamsMeetIff(KeyedState(seed1, domain1, keys), KeyedState(seed2, domain2, keys), n);
  }

  /** A change of one byte in one key moves the stream at every draw. */
  lemma KeyByteMovesEveryDraw(seed: u64, domain: u64, before: seq<seq<u8>>, prefix: seq<u8>,
                              a: u8, b: u8, suffix: seq<u8>, after: seq<seq<u8>>, n: nat)
    ensures var key1 := prefix + [a] + suffix;
            var key2 := prefix + [b] + suffix;
            Draw(KeyedState(seed, domain, before + [key1] + after), n)
            == Draw(KeyedState(seed, domain, before + [key2] + after), n)
            <==> a == b
  {
    var key1 := prefix + [a] + suffix;
    var key2 := prefix + [b] + suffix;
    FnvSeparatesOneByte(prefix, a, b, suffix);
    KeyedSeparatesKeys(seed, domain, before, key1, key2, after);
    StreamsMeetIff(KeyedState(seed, domain, before + [key1] + after),
                   KeyedState(seed, domain, before + [key2] + after), n);
  }
}
